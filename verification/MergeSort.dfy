/** The list sort of lemon. */
module MergeSort {
  // From tools/lemon/lemon.c ("msort.c"): merging into LISTSIZE bins that work like a binary counter. A null-terminated list
  // is a sequence, the null list the empty one.

  const LISTSIZE := 30

  type Compare<!T> = (T, T) -> int

  /** What the sort needs of its comparison function. */
  ghost predicate TotalPreorder<T(!new)>(cmp: Compare<T>) {
    (forall x, y :: Coherent(cmp, x, y)) && (forall x, y, z :: Transitive(cmp, x, y, z))
  }

  ghost predicate Coherent<T>(cmp: Compare<T>, x: T, y: T) {
    (cmp(x, y) < 0 <==> cmp(y, x) > 0) && (cmp(x, y) == 0 <==> cmp(y, x) == 0) && cmp(x, x) == 0
  }

  ghost predicate Transitive<T>(cmp: Compare<T>, x: T, y: T, z: T) {
    cmp(x, y) <= 0 && cmp(y, z) <= 0 ==> cmp(x, z) <= 0
  }

  ghost predicate Sorted<T>(cmp: Compare<T>, s: seq<T>) {
    forall i, j :: 0 <= i < j < |s| ==> cmp(s[i], s[j]) <= 0
  }

  /** The elements that compare equal to `x`, in their order. */
  ghost function Ties<T>(cmp: Compare<T>, x: T, s: seq<T>): seq<T> {
    if s == [] then []
    else if cmp(x, s[0]) == 0 then [s[0]] + Ties(cmp, x, s[1..])
    else Ties(cmp, x, s[1..])
  }

  /** `t` rearranges `s` and keeps elements that compare equal in their order. */
  ghost predicate StableRearrangement<T(!new)>(cmp: Compare<T>, s: seq<T>, t: seq<T>) {
    forall x :: Ties(cmp, x, t) == Ties(cmp, x, s)
  }

  lemma {:induction false} TiesConcat<T>(cmp: Compare<T>, x: T, s: seq<T>, t: seq<T>)
    ensures Ties(cmp, x, s + t) == Ties(cmp, x, s) + Ties(cmp, x, t)
    decreases |s|
  {
    if s == [] {
      assert s + t == t;
    } else {
      assert (s + t)[1..] == s[1..] + t;
      TiesConcat(cmp, x, s[1..], t);
    }
  }

  lemma {:induction false} TiesCount<T>(cmp: Compare<T>, x: T, s: seq<T>)
    requires cmp(x, x) == 0
    ensures multiset(Ties(cmp, x, s))[x] == multiset(s)[x]
    decreases |s|
  {
    if s != [] {
      assert s == [s[0]] + s[1..];
      TiesCount(cmp, x, s[1..]);
    }
  }

  /** A stable rearrangement is a permutation. */
  lemma StableIsPermutation<T(!new)>(cmp: Compare<T>, s: seq<T>, t: seq<T>)
    requires TotalPreorder(cmp) && StableRearrangement(cmp, s, t)
    ensures multiset(s) == multiset(t)
  {
    forall x ensures multiset(s)[x] == multiset(t)[x] {
      assert Coherent(cmp, x, x);
      TiesCount(cmp, x, s);
      TiesCount(cmp, x, t);
    }
  }

  lemma {:induction false} NoTies<T(!new)>(cmp: Compare<T>, x: T, s: seq<T>)
    requires forall i :: 0 <= i < |s| ==> cmp(x, s[i]) != 0
    ensures Ties(cmp, x, s) == []
    decreases |s|
  {
    if s != [] {
      NoTies(cmp, x, s[1..]);
    }
  }

  ghost predicate AllBelow<T>(cmp: Compare<T>, m: seq<T>, a: seq<T>) {
    forall i, j :: 0 <= i < |m| && 0 <= j < |a| ==> cmp(m[i], a[j]) <= 0
  }

  ghost predicate InOrder<T>(cmp: Compare<T>, m: seq<T>, a: seq<T>, b: seq<T>) {
    Sorted(cmp, m) && Sorted(cmp, a) && Sorted(cmp, b) && AllBelow(cmp, m, a) && AllBelow(cmp, m, b)
  }

  /** What is left to merge and what has been merged still hold the ties of both inputs in order. */
  ghost predicate TiesKept<T(!new)>(cmp: Compare<T>, a0: seq<T>, b0: seq<T>, m: seq<T>, a: seq<T>, b: seq<T>) {
    forall x :: Ties(cmp, x, m) + (Ties(cmp, x, a) + Ties(cmp, x, b)) == Ties(cmp, x, a0) + Ties(cmp, x, b0)
  }

  lemma TakeSmaller<T(!new)>(cmp: Compare<T>, m: seq<T>, a: seq<T>, b: seq<T>)
    requires TotalPreorder(cmp) && InOrder(cmp, m, a, b) && a != [] && b != [] && cmp(a[0], b[0]) <= 0
    ensures InOrder(cmp, m + [a[0]], a[1..], b)
  {
    forall j | 0 <= j < |b| ensures cmp(a[0], b[j]) <= 0 {
      assert Coherent(cmp, b[0], b[0]);
      assert Transitive(cmp, a[0], b[0], b[j]);
    }
  }

  lemma Regroup<T>(m: seq<T>, h: seq<T>, a: seq<T>, b: seq<T>)
    ensures (m + h) + (a + b) == m + ((h + a) + b)
  {
  }

  lemma TiesHead<T>(cmp: Compare<T>, x: T, s: seq<T>)
    requires s != []
    ensures Ties(cmp, x, s) == Ties(cmp, x, [s[0]]) + Ties(cmp, x, s[1..])
  {
    assert [s[0]][1..] == [];
    assert Ties(cmp, x, [s[0]]) == if cmp(x, s[0]) == 0 then [s[0]] else [];
  }

  lemma TakeLeft<T(!new)>(cmp: Compare<T>, a0: seq<T>, b0: seq<T>, m: seq<T>, a: seq<T>, b: seq<T>)
    requires TiesKept(cmp, a0, b0, m, a, b) && a != []
    ensures TiesKept(cmp, a0, b0, m + [a[0]], a[1..], b)
  {
    forall x ensures Ties(cmp, x, m + [a[0]]) + (Ties(cmp, x, a[1..]) + Ties(cmp, x, b)) == Ties(cmp, x, a0) + Ties(cmp, x, b0) {
      TiesConcat(cmp, x, m, [a[0]]);
      TiesHead(cmp, x, a);
      Regroup(Ties(cmp, x, m), Ties(cmp, x, [a[0]]), Ties(cmp, x, a[1..]), Ties(cmp, x, b));
    }
  }

  lemma TakeRight<T(!new)>(cmp: Compare<T>, a0: seq<T>, b0: seq<T>, m: seq<T>, a: seq<T>, b: seq<T>)
    requires TotalPreorder(cmp) && Sorted(cmp, a) && TiesKept(cmp, a0, b0, m, a, b)
    requires b != [] && a != [] && cmp(a[0], b[0]) > 0
    ensures TiesKept(cmp, a0, b0, m + [b[0]], a, b[1..])
  {
    forall x ensures Ties(cmp, x, m + [b[0]]) + (Ties(cmp, x, a) + Ties(cmp, x, b[1..])) == Ties(cmp, x, a0) + Ties(cmp, x, b0) {
      TiesConcat(cmp, x, m, [b[0]]);
      TiesHead(cmp, x, b);
      var tm, ta, th, tb := Ties(cmp, x, m), Ties(cmp, x, a), Ties(cmp, x, [b[0]]), Ties(cmp, x, b[1..]);
      assert ta == [] || th == [] by {
        if cmp(x, b[0]) == 0 {
          AboveIsNoTie(cmp, x, b[0], a);
        }
      }
      assert (tm + th) + (ta + tb) == tm + (ta + (th + tb));
    }
  }

  lemma AboveIsNoTie<T(!new)>(cmp: Compare<T>, x: T, y: T, a: seq<T>)
    requires TotalPreorder(cmp) && Sorted(cmp, a) && a != [] && cmp(a[0], y) > 0 && cmp(x, y) == 0
    ensures Ties(cmp, x, a) == []
  {
    forall i | 0 <= i < |a| ensures cmp(x, a[i]) != 0 {
      assert Coherent(cmp, a[i], x) && Coherent(cmp, a[0], a[0]);
      assert Transitive(cmp, a[0], a[i], x) && Transitive(cmp, a[0], x, y);
    }
    NoTies(cmp, x, a);
  }

  /** `merge`: ties go to the first list. */
  method Merge<T(!new)>(a0: seq<T>, b0: seq<T>, cmp: Compare<T>) returns (m: seq<T>)
    requires TotalPreorder(cmp) && Sorted(cmp, a0) && Sorted(cmp, b0)
    ensures Sorted(cmp, m)
    ensures forall x :: Ties(cmp, x, m) == Ties(cmp, x, a0) + Ties(cmp, x, b0)
    ensures |m| == |a0| + |b0|
  {
    var a, b := a0, b0;
    m := [];
    while a != [] && b != []
      invariant InOrder(cmp, m, a, b) && TiesKept(cmp, a0, b0, m, a, b)
      invariant |m| + |a| + |b| == |a0| + |b0|
      decreases |a| + |b|
    {
      if cmp(a[0], b[0]) <= 0 {
        TakeLeft(cmp, a0, b0, m, a, b);
        TakeSmaller(cmp, m, a, b);
        m, a := m + [a[0]], a[1..];
      } else {
        assert Coherent(cmp, a[0], b[0]);
        TakeRight(cmp, a0, b0, m, a, b);
        TakeSmaller(cmp, m, b, a);
        m, b := m + [b[0]], b[1..];
      }
    }
    forall x ensures Ties(cmp, x, m + (a + b)) == Ties(cmp, x, a0) + Ties(cmp, x, b0) {
      TiesConcat(cmp, x, m, a + b);
      TiesConcat(cmp, x, a, b);
    }
    m := m + (a + b);
  }

  /** Bins i and above, the higher (older) ones first. */
  ghost function Older<T>(bins: seq<seq<T>>, i: nat): seq<T>
    requires i <= |bins|
    decreases |bins| - i
  {
    if i == |bins| then [] else Older(bins, i + 1) + bins[i]
  }

  ghost predicate BinsSorted<T>(cmp: Compare<T>, bins: seq<seq<T>>) {
    forall i :: 0 <= i < |bins| ==> Sorted(cmp, bins[i])
  }

  ghost predicate EmptyBelow<T>(bins: seq<seq<T>>, i: nat) {
    forall j :: 0 <= j < i && j < |bins| ==> bins[j] == []
  }

  lemma {:induction false} OlderSkipsEmpty<T>(bins: seq<seq<T>>, i: nat)
    requires i <= |bins| && EmptyBelow(bins, i)
    ensures Older(bins, 0) == Older(bins, i)
    decreases i
  {
    if i > 0 {
      OlderSkipsEmpty(bins, i - 1);
    }
  }

  /** Changing a bin does not touch the bins above it. */
  lemma {:induction false} OlderFrame<T>(bins: seq<seq<T>>, i: nat, j: nat, b: seq<T>)
    requires j < i <= |bins|
    ensures Older(bins[j := b], i) == Older(bins, i)
    decreases |bins| - i
  {
    if i < |bins| {
      OlderFrame(bins, i + 1, j, b);
    }
  }

  /** The elements in the bins from i up followed by `ep` are a stable rearrangement of `done`. */
  ghost predicate Holds<T(!new)>(cmp: Compare<T>, bins: seq<seq<T>>, i: nat, ep: seq<T>, done: seq<T>)
    requires i <= |bins|
  {
    forall x :: Ties(cmp, x, Older(bins, i)) + Ties(cmp, x, ep) == Ties(cmp, x, done)
  }

  /** Merging a bin into the carry moves it from one side to the other. */
  lemma Absorb<T(!new)>(cmp: Compare<T>, bins: seq<seq<T>>, i: nat, ep: seq<T>, m: seq<T>, done: seq<T>)
    requires i < |bins| && Holds(cmp, bins, i, ep, done)
    requires forall x :: Ties(cmp, x, m) == Ties(cmp, x, bins[i]) + Ties(cmp, x, ep)
    ensures Holds(cmp, bins, i + 1, m, done)
  {
    forall x ensures Ties(cmp, x, Older(bins, i + 1)) + Ties(cmp, x, m) == Ties(cmp, x, done) {
      TiesConcat(cmp, x, Older(bins, i + 1), bins[i]);
      var o, b, e := Ties(cmp, x, Older(bins, i + 1)), Ties(cmp, x, bins[i]), Ties(cmp, x, ep);
      assert o + (b + e) == (o + b) + e;
    }
  }

  lemma NothingHeld<T(!new)>(cmp: Compare<T>, bins: seq<seq<T>>)
    requires EmptyBelow(bins, |bins|)
    ensures Holds(cmp, bins, 0, [], [])
  {
    OlderSkipsEmpty(bins, |bins|);
  }

  lemma AllTaken<T(!new)>(cmp: Compare<T>, bins: seq<seq<T>>, sorted: seq<T>, list: seq<T>)
    requires Holds(cmp, bins, |bins|, sorted, list)
    ensures StableRearrangement(cmp, list, sorted)
  {
    forall x ensures Ties(cmp, x, sorted) == Ties(cmp, x, list) {
      assert Ties(cmp, x, Older(bins, |bins|)) + Ties(cmp, x, sorted) == Ties(cmp, x, list);
    }
  }

  /** One element added to the binary counter. */
  method Carry<T(!new)>(bins: seq<seq<T>>, e: T, cmp: Compare<T>, ghost done: seq<T>) returns (bins': seq<seq<T>>)
    requires TotalPreorder(cmp) && |bins| == LISTSIZE && BinsSorted(cmp, bins) && Holds(cmp, bins, 0, [], done)
    ensures |bins'| == LISTSIZE && BinsSorted(cmp, bins') && Holds(cmp, bins', 0, [], done + [e])
  {
    bins' := bins;
    var ep := [e];
    assert Holds(cmp, bins', 0, ep, done + [e]) by {
      forall x ensures Ties(cmp, x, Older(bins', 0)) + Ties(cmp, x, ep) == Ties(cmp, x, done + [e]) {
        assert Ties(cmp, x, Older(bins, 0)) + [] == Ties(cmp, x, done);
        TiesConcat(cmp, x, done, [e]);
      }
    }
    var i := 0;
    while i < LISTSIZE - 1 && bins'[i] != []
      invariant 0 <= i < LISTSIZE == |bins'| && BinsSorted(cmp, bins') && Sorted(cmp, ep)
      invariant EmptyBelow(bins', i) && Holds(cmp, bins', i, ep, done + [e])
    {
      var m := Merge(bins'[i], ep, cmp);
      Absorb(cmp, bins', i, ep, m, done + [e]);
      OlderFrame(bins', i + 1, i, []);
      bins', ep := bins'[i := []], m;
      i := i + 1;
    }
    var m := Merge(bins'[i], ep, cmp);
    Absorb(cmp, bins', i, ep, m, done + [e]);
    OlderFrame(bins', i + 1, i, m);
    bins' := bins'[i := m];
    OlderSkipsEmpty(bins', i);
    forall x ensures Ties(cmp, x, Older(bins', 0)) + Ties(cmp, x, []) == Ties(cmp, x, done + [e]) {
      TiesConcat(cmp, x, Older(bins', i + 1), m);
    }
  }

  /** `msort` on a list of any length: sorted, and a stable rearrangement of the input. */
  method Msort<T(!new)>(list: seq<T>, cmp: Compare<T>) returns (sorted: seq<T>)
    requires TotalPreorder(cmp)
    ensures Sorted(cmp, sorted) && StableRearrangement(cmp, list, sorted)
    ensures multiset(sorted) == multiset(list) && |sorted| == |list|
  {
    hide TotalPreorder, Ties, Older;
    var bins: seq<seq<T>> := seq(LISTSIZE, _ => []);
    NothingHeld(cmp, bins);
    var n := 0;
    while n < |list|
      invariant 0 <= n <= |list| && |bins| == LISTSIZE && BinsSorted(cmp, bins)
      invariant Holds(cmp, bins, 0, [], list[..n])
    {
      bins := Carry(bins, list[n], cmp, list[..n]);
      assert list[..n] + [list[n]] == list[..n + 1];
      n := n + 1;
    }
    assert list[..n] == list;
    sorted := [];
    for i := 0 to LISTSIZE
      invariant Sorted(cmp, sorted) && Holds(cmp, bins, i, sorted, list)
    {
      var m := Merge(bins[i], sorted, cmp);
      Absorb(cmp, bins, i, sorted, m, list);
      sorted := m;
    }
    AllTaken(cmp, bins, sorted, list);
    StableIsPermutation(cmp, list, sorted);
    assert |multiset(sorted)| == |multiset(list)|;
  }
}
