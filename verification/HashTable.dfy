/** The hash tables of lemon. */
module HashTable {
  // The chained tables x1 to x4 of tools/lemon/lemon.c ("table.c"): nodes in an array, chains through their `next` fields,
  // doubled when full. A pointer to a node is its index, the null pointer -1.

  import opened Wrappers

  datatype Node<K, D> = Node(key: K, data: D, next: int)

  // ----- what the table stands for

  /** Prior data with the same key is not overwritten. */
  function Put<K, D>(m: map<K, D>, key: K, data: D): map<K, D> {
    if key in m then m else m[key := data]
  }

  function PutAll<K, D>(ops: seq<(K, D)>): map<K, D> {
    if ops == [] then map[] else Put(PutAll(ops[..|ops| - 1]), ops[|ops| - 1].0, ops[|ops| - 1].1)
  }

  ghost predicate FirstAt<K, D>(ops: seq<(K, D)>, key: K, i: nat) {
    i < |ops| && ops[i].0 == key && forall j :: 0 <= j < i ==> ops[j].0 != key
  }

  /** After any sequence of inserts: a key is there exactly if it was inserted, with the first data inserted for it. */
  lemma {:induction false} FirstInsertWins<K, D>(ops: seq<(K, D)>, key: K)
    ensures key in PutAll(ops) <==> exists i: nat :: FirstAt(ops, key, i)
    ensures forall i: nat :: FirstAt(ops, key, i) ==> key in PutAll(ops) && PutAll(ops)[key] == ops[i].1
    decreases |ops|
  {
    if ops != [] {
      var n := |ops| - 1;
      var front := ops[..n];
      FirstInsertWins(front, key);
      forall i: nat ensures FirstAt(front, key, i) <==> FirstAt(ops, key, i) && i < n {
      }
      if key !in PutAll(front) && ops[n].0 == key {
        forall j | 0 <= j < n ensures ops[j].0 != key {
          NotYet(front, key, j);
        }
        assert FirstAt(ops, key, n);
      }
    }
  }

  lemma {:induction false} NotYet<K, D>(ops: seq<(K, D)>, key: K, j: nat)
    requires j < |ops| && forall i: nat :: !FirstAt(ops, key, i)
    ensures ops[j].0 != key
    decreases j
  {
    forall k | 0 <= k < j ensures ops[k].0 != key {
      NotYet(ops, key, k);
    }
    assert !FirstAt(ops, key, j);
  }

  // ----- chains

  /** Links go to nodes inserted earlier. */
  ghost predicate Descending<K, D>(tbl: seq<Node<K, D>>) {
    forall i :: 0 <= i < |tbl| ==> -1 <= tbl[i].next < i
  }

  ghost predicate Reaches<K, D>(tbl: seq<Node<K, D>>, from: int, i: int)
    requires Descending(tbl) && from < |tbl|
    decreases from
  {
    from >= 0 && (from == i || Reaches(tbl, tbl[from].next, i))
  }

  lemma {:induction false} ReachesFrame<K, D>(tbl: seq<Node<K, D>>, x: Node<K, D>, from: int, i: int)
    requires Descending(tbl) && -1 <= x.next < |tbl| && from < |tbl|
    ensures Descending(tbl + [x]) && Reaches(tbl + [x], from, i) == Reaches(tbl, from, i)
    decreases from
  {
    assert Descending(tbl + [x]);
    if from >= 0 {
      ReachesFrame(tbl, x, tbl[from].next, i);
    }
  }

  function Bucket<K>(hash: K -> nat, size: nat, key: K): nat
    requires size > 0
  {
    hash(key) % size
  }

  /** Every node is on the chain of its key's bucket. */
  ghost predicate Chained<K, D>(hash: K -> nat, size: nat, tbl: seq<Node<K, D>>, ht: seq<int>) {
    && size > 0 && |ht| == size && Descending(tbl)
    && (forall h :: 0 <= h < |ht| ==> -1 <= ht[h] < |tbl|)
    && (forall i :: 0 <= i < |tbl| ==> Reaches(tbl, ht[Bucket(hash, size, tbl[i].key)], i))
  }

  /** Adding a node at the head of its chain. */
  lemma PushFront<K, D>(hash: K -> nat, size: nat, tbl: seq<Node<K, D>>, ht: seq<int>, key: K, data: D)
    requires Chained(hash, size, tbl, ht)
    ensures var h := Bucket(hash, size, key); Chained(hash, size, tbl + [Node(key, data, ht[h])], ht[h := |tbl|])
  {
    var h := Bucket(hash, size, key);
    var x := Node(key, data, ht[h]);
    var tbl', ht' := tbl + [x], ht[h := |tbl|];
    assert Descending(tbl');
    forall i | 0 <= i < |tbl'| ensures Reaches(tbl', ht'[Bucket(hash, size, tbl'[i].key)], i) {
      if i < |tbl| {
        var k := Bucket(hash, size, tbl[i].key);
        ReachesFrame(tbl, x, ht[k], i);
        assert Reaches(tbl, ht[k], i);
      }
    }
  }

  ghost predicate Holds<K, D>(tbl: seq<Node<K, D>>, m: map<K, D>) {
    && (forall i :: 0 <= i < |tbl| ==> tbl[i].key in m && m[tbl[i].key] == tbl[i].data)
    && (forall k :: k in m ==> exists i :: 0 <= i < |tbl| && tbl[i].key == k)
  }

  lemma HoldsMore<K, D>(tbl: seq<Node<K, D>>, m: map<K, D>, x: Node<K, D>)
    requires Holds(tbl, m) && x.key !in m
    ensures Holds(tbl + [x], m[x.key := x.data])
  {
    var tbl', m' := tbl + [x], m[x.key := x.data];
    forall k | k in m' ensures exists i :: 0 <= i < |tbl'| && tbl'[i].key == k {
      if k == x.key {
        assert tbl'[|tbl|].key == k;
      } else {
        var i :| 0 <= i < |tbl| && tbl[i].key == k;
        assert tbl'[i].key == k;
      }
    }
  }

  /** The same keys and data, differently linked. */
  ghost predicate Relinked<K, D>(tbl: seq<Node<K, D>>, other: seq<Node<K, D>>) {
    && |tbl| == |other|
    && forall i :: 0 <= i < |tbl| ==> other[i].key == tbl[i].key && other[i].data == tbl[i].data
  }

  lemma HoldsRelinked<K, D>(tbl: seq<Node<K, D>>, other: seq<Node<K, D>>, m: map<K, D>)
    requires Holds(tbl, m) && Relinked(tbl, other)
    ensures Holds(other, m)
  {
    forall k | k in m ensures exists i :: 0 <= i < |other| && other[i].key == k {
      var i :| 0 <= i < |tbl| && tbl[i].key == k;
      assert other[i].key == k;
    }
  }

  lemma SizePositive<K, D>(hash: K -> nat, size: nat, tbl: seq<Node<K, D>>, ht: seq<int>)
    requires Chained(hash, size, tbl, ht)
    ensures size > 0 && |ht| == size
  {
  }

  /** The nodes, in order, pushed onto the chains of an empty table. */
  method Rechain<K, D>(hash: K -> nat, size: nat, nodes: seq<Node<K, D>>) returns (tbl: seq<Node<K, D>>, ht: seq<int>)
    requires size > 0
    ensures Chained(hash, size, tbl, ht) && Relinked(nodes, tbl)
  {
    tbl, ht := [], seq(size, _ => -1);
    for i := 0 to |nodes|
      invariant Chained(hash, size, tbl, ht) && Relinked(nodes[..i], tbl)
    {
      var h := Bucket(hash, size, nodes[i].key);
      PushFront(hash, size, tbl, ht, nodes[i].key, nodes[i].data);
      tbl, ht := tbl + [Node(nodes[i].key, nodes[i].data, ht[h])], ht[h := |tbl|];
    }
  }

  class Table<K(==), D> {
    const hash: K -> nat
    var size: nat
    var tbl: seq<Node<K, D>>
    var ht: seq<int>
    ghost var contents: map<K, D>

    ghost predicate Valid()
      reads this
    {
      Chained(hash, size, tbl, ht) && |tbl| <= size && Holds(tbl, contents)
    }

    constructor (hash: K -> nat, size: nat)
      requires size > 0
      ensures Valid() && contents == map[] && this.hash == hash
    {
      this.hash, this.size := hash, size;
      tbl, ht, contents := [], seq(size, _ => -1), map[];
    }

    /** The index of the node with the key, or -1: the walk along one chain. */
    method Walk(key: K) returns (np: int)
      requires Valid()
      ensures -1 <= np < |tbl|
      ensures np >= 0 ==> key in contents && contents[key] == tbl[np].data
      ensures np < 0 ==> key !in contents
    {
      np := ht[Bucket(hash, size, key)];
      while np >= 0 && tbl[np].key != key
        invariant -1 <= np < |tbl|
        invariant forall i :: 0 <= i < |tbl| && tbl[i].key == key ==> Reaches(tbl, np, i)
        decreases np
      {
        np := tbl[np].next;
      }
    }

    method Find(key: K) returns (r: Option<D>)
      requires Valid()
      ensures r == if key in contents then Some(contents[key]) else None
    {
      var np := Walk(key);
      r := if np >= 0 then Some(tbl[np].data) else None;
    }

    /** Double the table and rechain all nodes. */
    method Double()
      requires Valid()
      modifies this
      ensures Valid() && contents == old(contents) && size == 2 * old(size) && |tbl| == |old(tbl)|
    {
      hide Chained, Holds;
      SizePositive(hash, size, tbl, ht);
      var newSize, nodes := 2 * size, tbl;
      var newTbl, newHt := Rechain(hash, newSize, nodes);
      HoldsRelinked(nodes, newTbl, contents);
      size, tbl, ht := newSize, newTbl, newHt;
    }

    /** Fails exactly if the key is there already. */
    method Insert(data: D, key: K) returns (inserted: bool)
      requires Valid()
      modifies this
      ensures Valid() && contents == Put(old(contents), key, data)
      ensures inserted <==> key !in old(contents)
    {
      hide Chained, Holds;
      var np := Walk(key);
      if np >= 0 {
        return false;
      }
      SizePositive(hash, size, tbl, ht);
      if |tbl| >= size {
        Double();
      }
      SizePositive(hash, size, tbl, ht);
      var h := Bucket(hash, size, key);
      PushFront(hash, size, tbl, ht, key, data);
      HoldsMore(tbl, contents, Node(key, data, ht[h]));
      tbl, ht, contents := tbl + [Node(key, data, ht[h])], ht[h := |tbl|], contents[key := data];
      inserted := true;
    }

    method Clear()
      requires Valid()
      modifies this
      ensures Valid() && contents == map[] && size == old(size)
    {
      tbl, ht, contents := [], seq(size, _ => -1), map[];
    }
  }

  /** Any sequence of inserts, through any number of doublings. */
  method InsertAll<K(==), D>(t: Table<K, D>, ops: seq<(K, D)>)
    requires t.Valid() && t.contents == map[]
    modifies t
    ensures t.Valid() && t.contents == PutAll(ops)
  {
    for i := 0 to |ops|
      invariant t.Valid() && t.contents == PutAll(ops[..i])
    {
      assert ops[..i + 1][..i] == ops[..i];
      var inserted := t.Insert(ops[i].1, ops[i].0);
    }
    assert ops[..|ops|] == ops;
  }
}
