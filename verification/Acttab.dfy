/** The packed action table under construction (tools/lemon/lemon.c, "acttab"). */
module Acttab {
  // The sets of (lookahead, action) pairs of all states are laid over each other in one array.

  /** An unused slot is (-1, -1). */
  datatype Slot = Slot(lookahead: int, action: int)

  const Unused := Slot(-1, -1)

  /** Looking up `la` at `offset`: the slot there carries the lookahead itself. */
  predicate Hit(slots: seq<Slot>, offset: int, la: int) {
    0 <= offset + la < |slots| && slots[offset + la].lookahead == la
  }

  /** The slots read back exactly `acts` at `offset`: no other lookahead matches. */
  ghost predicate ReadsBack(slots: seq<Slot>, offset: int, acts: map<int, int>) {
    forall la :: 0 <= la ==>
      && (Hit(slots, offset, la) <==> la in acts)
      && (la in acts ==> 0 <= offset + la < |slots| && slots[offset + la].action == acts[la])
  }

  /** A set inserted earlier, with the offset returned for it; a token set is made safe. */
  datatype Entry = Entry(offset: int, acts: map<int, int>, safe: bool)

  /** What the parser needs of a set: a token set reads back exactly on all tokens, a set of nonterminals on its own. */
  ghost predicate Usable(slots: seq<Slot>, nterminal: nat, e: Entry) {
    && (forall la :: la in e.acts ==> Hit(slots, e.offset, la) && slots[e.offset + la].action == e.acts[la])
    && (e.safe ==> forall la :: 0 <= la < nterminal && Hit(slots, e.offset, la) ==> la in e.acts)
  }

  ghost predicate Distinct(txn: seq<Slot>) {
    forall i, j :: 0 <= i < j < |txn| ==> txn[i].lookahead != txn[j].lookahead
  }

  /** The transaction set as a map. */
  ghost function Pairs(txn: seq<Slot>): map<int, int> {
    if txn == [] then map[] else Pairs(txn[..|txn| - 1])[txn[|txn| - 1].lookahead := txn[|txn| - 1].action]
  }

  lemma {:induction false} PairsAre(txn: seq<Slot>, la: int)
    requires Distinct(txn)
    ensures la in Pairs(txn) <==> exists j :: 0 <= j < |txn| && txn[j].lookahead == la
    ensures forall j :: 0 <= j < |txn| && txn[j].lookahead == la ==> la in Pairs(txn) && Pairs(txn)[la] == txn[j].action
    decreases |txn|
  {
    if txn != [] {
      PairsAre(txn[..|txn| - 1], la);
    }
  }

  // ----- the two searches

  /** Where the pair with lookahead `la` goes when the set's least lookahead goes to slot `i`. */
  function Place(la: int, mn: int, i: int): int {
    la - mn + i
  }

  /** Slot `j` would be hit from the offset that puts lookahead `mn` at slot `i`. */
  predicate Hits(slots: seq<Slot>, j: int, mn: int, i: int) {
    0 <= j < |slots| && slots[j].lookahead == j + mn - i
  }

  /** All pairs of the set are there already. */
  ghost predicate AllThere(slots: seq<Slot>, txn: seq<Slot>, mn: int, i: int, n: nat) {
    forall j :: 0 <= j < |txn| ==> 0 <= Place(txn[j].lookahead, mn, i) < n <= |slots| && slots[Place(txn[j].lookahead, mn, i)] == txn[j]
  }

  ghost function HitSet(slots: seq<Slot>, mn: int, i: int, n: nat): set<int> {
    set j | 0 <= j < n && LookaheadAt(slots, j) >= 0 && Hits(slots, j, mn, i)
  }

  function LookaheadAt(slots: seq<Slot>, j: int): int {
    if 0 <= j < |slots| then slots[j].lookahead else -1
  }

  ghost function Places(txn: seq<Slot>, mn: int, i: int): set<int> {
    set j | 0 <= j < |txn| :: Place(txn[j].lookahead, mn, i)
  }

  lemma {:induction false} PlacesCount(txn: seq<Slot>, mn: int, i: int)
    requires Distinct(txn)
    ensures |Places(txn, mn, i)| == |txn|
    decreases |txn|
  {
    if txn != [] {
      var front, last := txn[..|txn| - 1], txn[|txn| - 1];
      PlacesCount(front, mn, i);
      assert Places(txn, mn, i) == Places(front, mn, i) + {Place(last.lookahead, mn, i)};
    }
  }

  lemma SubsetSameSize<T>(a: set<T>, b: set<T>)
    requires a <= b && |a| == |b|
    ensures a == b
  {
    assert |b - a| == |b| - |a|;
  }

  /** Counting the slots hit from slot `i`. */
  method CountHits(slots: seq<Slot>, mn: int, i: int, n: nat) returns (count: nat)
    requires n <= |slots|
    ensures count == |HitSet(slots, mn, i, n)|
  {
    count := 0;
    assert HitSet(slots, mn, i, 0) == {};
    for j := 0 to n
      invariant count == |HitSet(slots, mn, i, j)|
    {
      if slots[j].lookahead >= 0 && slots[j].lookahead == j + mn - i {
        assert HitSet(slots, mn, i, j + 1) == HitSet(slots, mn, i, j) + {j};
        count := count + 1;
      } else {
        assert HitSet(slots, mn, i, j + 1) == HitSet(slots, mn, i, j);
      }
    }
  }

  /** Slot `i` holds the least lookahead of a set equal to `txn`. */
  ghost predicate Duplicate(slots: seq<Slot>, txn: seq<Slot>, mn: int, i: int, n: nat) {
    AllThere(slots, txn, mn, i, n) && |HitSet(slots, mn, i, n)| == |txn|
  }

  method IsDuplicate(slots: seq<Slot>, txn: seq<Slot>, mn: int, i: int, n: nat) returns (dup: bool)
    requires n <= |slots|
    ensures dup <==> Duplicate(slots, txn, mn, i, n)
  {
    var j := 0;
    while j < |txn|
      invariant 0 <= j <= |txn|
      invariant AllThere(slots, txn[..j], mn, i, n)
    {
      var k := Place(txn[j].lookahead, mn, i);
      if k < 0 || k >= n || slots[k] != txn[j] {
        return false;
      }
      j := j + 1;
    }
    assert txn[..j] == txn;
    var hits := CountHits(slots, mn, i, n);
    dup := hits == |txn|;
  }

  /** The set can go to slot `i`: its slots are free, and no slot in use (or unused one just so) is hit from there. */
  ghost predicate FreeAt(slots: seq<Slot>, txn: seq<Slot>, mn: int, i: int, n: nat) {
    && (forall j :: 0 <= j < |txn| ==> LookaheadAt(slots, Place(txn[j].lookahead, mn, i)) < 0)
    && (forall j :: 0 <= j < n ==> !Hits(slots, j, mn, i))
  }

  method IsFree(slots: seq<Slot>, txn: seq<Slot>, mn: int, mx: int, i: int, n: nat) returns (free: bool)
    requires n <= |slots| && 0 <= i && i + mx < |slots| && 0 <= mn
    requires forall j :: 0 <= j < |txn| ==> mn <= txn[j].lookahead <= mx
    ensures free <==> FreeAt(slots, txn, mn, i, n)
  {
    var j := 0;
    while j < |txn|
      invariant 0 <= j <= |txn|
      invariant forall k :: 0 <= k < j ==> LookaheadAt(slots, Place(txn[k].lookahead, mn, i)) < 0
    {
      if slots[Place(txn[j].lookahead, mn, i)].lookahead >= 0 {
        return false;
      }
      j := j + 1;
    }
    j := 0;
    while j < n
      invariant 0 <= j <= n
      invariant forall k :: 0 <= k < j ==> !Hits(slots, k, mn, i)
    {
      if slots[j].lookahead == j + mn - i {
        assert Hits(slots, j, mn, i);
        return false;
      }
      j := j + 1;
    }
    free := true;
  }

  // ----- writing a set

  /** `slots'` is `slots` with the set written where its least lookahead goes to slot `i`. */
  ghost predicate Written(slots: seq<Slot>, slots': seq<Slot>, txn: seq<Slot>, mn: int, i: int) {
    && |slots'| == |slots|
    && (forall j :: 0 <= j < |txn| ==> var k := Place(txn[j].lookahead, mn, i); 0 <= k < |slots| && slots'[k] == txn[j])
    && (forall k :: 0 <= k < |slots| && k !in Places(txn, mn, i) ==> slots'[k] == slots[k])
  }

  function Max(a: int, b: int): int {
    if a < b then b else a
  }

  /** The end of the used slots once the set is written. */
  ghost function End(txn: seq<Slot>, mn: int, i: int, n: nat): int {
    if txn == [] then n else Max(End(txn[..|txn| - 1], mn, i, n), Place(txn[|txn| - 1].lookahead, mn, i) + 1)
  }

  lemma {:induction false} EndIs(txn: seq<Slot>, mn: int, mx: int, i: int, n: nat)
    requires forall j :: 0 <= j < |txn| ==> mn <= txn[j].lookahead <= mx
    ensures n <= End(txn, mn, i, n) <= Max(n, mx - mn + i + 1)
    ensures forall j :: 0 <= j < |txn| ==> Place(txn[j].lookahead, mn, i) < End(txn, mn, i, n)
    decreases |txn|
  {
    if txn != [] {
      EndIs(txn[..|txn| - 1], mn, mx, i, n);
    }
  }

  method WriteSet(slots: seq<Slot>, txn: seq<Slot>, mn: int, i: int, n: nat) returns (slots': seq<Slot>, n': nat)
    requires Distinct(txn) && n <= |slots|
    requires forall j :: 0 <= j < |txn| ==> 0 <= Place(txn[j].lookahead, mn, i) < |slots|
    ensures Written(slots, slots', txn, mn, i)
    ensures n' <= |slots| && n' == End(txn, mn, i, n)
  {
    slots', n' := slots, n;
    for j := 0 to |txn|
      invariant Written(slots, slots', txn[..j], mn, i)
      invariant n' <= |slots| && n' == End(txn[..j], mn, i, n)
    {
      var k := Place(txn[j].lookahead, mn, i);
      slots' := slots'[k := txn[j]];
      if k >= n' {
        n' := k + 1;
      }
      assert txn[..j + 1][..j] == txn[..j];
      assert Places(txn[..j + 1], mn, i) == Places(txn[..j], mn, i) + {k};
    }
    assert txn[..|txn|] == txn;
  }

  /** A slot in use is hit from slot `i`. */
  ghost predicate Clash(slots: seq<Slot>, mn: int, i: int, n: nat) {
    exists k :: 0 <= k < n && Hits(slots, k, mn, i) && slots[k].lookahead >= 0
  }

  ghost predicate PlacesFree(slots: seq<Slot>, txn: seq<Slot>, mn: int, i: int) {
    forall j :: 0 <= j < |txn| ==> LookaheadAt(slots, Place(txn[j].lookahead, mn, i)) < 0
  }

  /** Writing into free slots that no slot in use is hit from: the new set reads back exactly. */
  lemma NewReadsBack(slots: seq<Slot>, slots': seq<Slot>, txn: seq<Slot>, mn: int, i: int, n: nat)
    requires Distinct(txn) && Written(slots, slots', txn, mn, i) && !Clash(slots, mn, i, n) && n <= |slots|
    requires forall k :: n <= k < |slots| ==> slots[k] == Unused
    requires forall j :: 0 <= j < |txn| ==> 0 <= txn[j].lookahead
    ensures ReadsBack(slots', i - mn, Pairs(txn))
  {
    hide Written, Clash, Pairs, Distinct;
    forall la | 0 <= la
      ensures Hit(slots', i - mn, la) <==> la in Pairs(txn)
      ensures la in Pairs(txn) ==> 0 <= i - mn + la < |slots'| && slots'[i - mn + la].action == Pairs(txn)[la]
    {
      PairsAre(txn, la);
      if j :| 0 <= j < |txn| && txn[j].lookahead == la {
        WrittenThere(slots, slots', txn, mn, i, j);
      } else {
        NotWritten(slots, slots', txn, mn, i, n, la);
      }
    }
  }

  lemma WrittenThere(slots: seq<Slot>, slots': seq<Slot>, txn: seq<Slot>, mn: int, i: int, j: nat)
    requires Written(slots, slots', txn, mn, i) && j < |txn|
    ensures 0 <= i - mn + txn[j].lookahead < |slots'| && slots'[i - mn + txn[j].lookahead] == txn[j]
  {
    assert Place(txn[j].lookahead, mn, i) == i - mn + txn[j].lookahead;
  }

  lemma NotWritten(slots: seq<Slot>, slots': seq<Slot>, txn: seq<Slot>, mn: int, i: int, n: nat, la: int)
    requires Written(slots, slots', txn, mn, i) && !Clash(slots, mn, i, n) && n <= |slots| && 0 <= la
    requires forall k :: n <= k < |slots| ==> slots[k] == Unused
    requires forall j :: 0 <= j < |txn| ==> txn[j].lookahead != la
    ensures !Hit(slots', i - mn, la)
  {
    var k := Place(la, mn, i);
    assert k !in Places(txn, mn, i);
    if 0 <= k < |slots| {
      assert slots'[k] == slots[k];
      assert k < n && slots[k].lookahead >= 0 ==> !Hits(slots, k, mn, i);
    }
  }

  /** ... and a set inserted before is not disturbed, because it has another offset. */
  lemma OldReadsBack(slots: seq<Slot>, slots': seq<Slot>, txn: seq<Slot>, mn: int, i: int, n: nat, e: Entry)
    requires Written(slots, slots', txn, mn, i) && PlacesFree(slots, txn, mn, i) && !Clash(slots, mn, i, n)
    requires forall k :: n <= k < |slots| ==> slots[k] == Unused
    requires ReadsBack(slots, e.offset, e.acts) && (exists la :: la in e.acts) && forall la :: la in e.acts ==> 0 <= la
    ensures ReadsBack(slots', e.offset, e.acts)
  {
    var la0 :| la0 in e.acts;
    assert Hit(slots, e.offset, la0);
    assert e.offset != i - mn by {
      assert slots[e.offset + la0] != Unused;
      assert e.offset + la0 < n;
      assert !Hits(slots, e.offset + la0, mn, i);
    }
    forall la | 0 <= la
      ensures Hit(slots', e.offset, la) <==> la in e.acts
      ensures la in e.acts ==> 0 <= e.offset + la < |slots'| && slots'[e.offset + la].action == e.acts[la]
    {
      assert Hit(slots, e.offset, la) <==> la in e.acts;
      var k := e.offset + la;
      if k in Places(txn, mn, i) {
        var j :| 0 <= j < |txn| && Place(txn[j].lookahead, mn, i) == k;
        assert LookaheadAt(slots, k) < 0 && slots'[k] == txn[j];
        assert txn[j].lookahead != la;
      }
    }
  }

  /** A duplicate reads back exactly as it is, and writing it again changes nothing. */
  lemma DuplicateReadsBack(slots: seq<Slot>, txn: seq<Slot>, mn: int, i: int, n: nat)
    requires Distinct(txn) && Duplicate(slots, txn, mn, i, n) && n <= |slots|
    requires forall k :: n <= k < |slots| ==> slots[k] == Unused
    requires forall j :: 0 <= j < |txn| ==> 0 <= txn[j].lookahead
    ensures ReadsBack(slots, i - mn, Pairs(txn))
  {
    var places, hits := Places(txn, mn, i), HitSet(slots, mn, i, n);
    PlacesCount(txn, mn, i);
    assert places <= hits by {
      forall k | k in places ensures k in hits {
        var j :| 0 <= j < |txn| && Place(txn[j].lookahead, mn, i) == k;
        assert Hits(slots, k, mn, i);
      }
    }
    SubsetSameSize(places, hits);
    forall la | 0 <= la
      ensures Hit(slots, i - mn, la) <==> la in Pairs(txn)
      ensures la in Pairs(txn) ==> 0 <= i - mn + la < |slots| && slots[i - mn + la].action == Pairs(txn)[la]
    {
      hide Pairs, Distinct;
      PairsAre(txn, la);
      var k := Place(la, mn, i);
      if Hit(slots, i - mn, la) {
        assert Hits(slots, k, mn, i) && k in hits;
        var j :| 0 <= j < |txn| && Place(txn[j].lookahead, mn, i) == k;
        assert txn[j].lookahead == la;
      }
      if la in Pairs(txn) {
        var j :| 0 <= j < |txn| && txn[j].lookahead == la;
        assert Place(txn[j].lookahead, mn, i) == k;
      }
    }
  }

  lemma DuplicateIsThere(slots: seq<Slot>, txn: seq<Slot>, mn: int, i: int, n: nat)
    requires Duplicate(slots, txn, mn, i, n)
    ensures AllThere(slots, txn, mn, i, n)
  {
  }

  lemma WrittenSame(slots: seq<Slot>, slots': seq<Slot>, txn: seq<Slot>, mn: int, i: int, n: nat)
    requires Written(slots, slots', txn, mn, i) && AllThere(slots, txn, mn, i, n)
    ensures slots' == slots
  {
    forall k | 0 <= k < |slots| ensures slots'[k] == slots[k] {
      if k in Places(txn, mn, i) {
        var j :| 0 <= j < |txn| && Place(txn[j].lookahead, mn, i) == k;
      }
    }
  }

  // ----- what an insertion keeps

  ghost predicate SetBounds(txn: seq<Slot>, mn: int, mnAction: int, mx: int) {
    && (forall j :: 0 <= j < |txn| ==> 0 <= mn <= txn[j].lookahead <= mx)
    && (exists j :: 0 <= j < |txn| && txn[j] == Slot(mn, mnAction))
    && (exists j :: 0 <= j < |txn| && txn[j].lookahead == mx)
  }

  lemma PairsOk(txn: seq<Slot>, mn: int, mnAction: int, mx: int)
    requires Distinct(txn) && SetBounds(txn, mn, mnAction, mx)
    ensures mn in Pairs(txn) && forall la :: la in Pairs(txn) ==> mn <= la <= mx
  {
    PairsAre(txn, mn);
    forall la | la in Pairs(txn) ensures mn <= la <= mx {
      PairsAre(txn, la);
    }
  }

  /** Every set is nonempty, of tokens or of nonterminals, and usable. */
  ghost predicate LogOk(slots: seq<Slot>, nterminal: nat, e: Entry) {
    && Usable(slots, nterminal, e) && (exists la :: la in e.acts)
    && forall la :: la in e.acts ==> 0 <= la && (e.safe <==> la < nterminal)
  }

  /** The slots from `n` on are unused, and a token set leaves all tokens behind its offset inside the `n` slots. */
  ghost predicate Spaced(slots: seq<Slot>, nterminal: nat, n: nat) {
    && (forall k :: n <= k < |slots| ==> slots[k] == Unused)
    && (forall k :: 0 <= k < |slots| ==> -1 <= slots[k].lookahead)
    && (forall k :: 0 <= k < |slots| && 0 <= slots[k].lookahead < nterminal ==>
          slots[k].lookahead <= k && k - slots[k].lookahead + nterminal < n)
  }

  /** The set can go to slot `i`: its slots are free and inside, and no token is read there that is not its own. */
  ghost predicate Suits(slots: seq<Slot>, txn: seq<Slot>, mn: int, i: int, nterminal: nat, safe: bool) {
    && (forall j :: 0 <= j < |txn| ==>
          var k := Place(txn[j].lookahead, mn, i); 0 <= k < |slots| && slots[k].lookahead < 0)
    && (safe ==> forall k :: 0 <= k < |slots| && 0 <= slots[k].lookahead < nterminal ==> !Hits(slots, k, mn, i))
  }

  lemma NewUsable(slots: seq<Slot>, slots': seq<Slot>, txn: seq<Slot>, mn: int, i: int, nterminal: nat, safe: bool)
    requires Distinct(txn) && Written(slots, slots', txn, mn, i) && Suits(slots, txn, mn, i, nterminal, safe)
    ensures Usable(slots', nterminal, Entry(i - mn, Pairs(txn), safe))
  {
    hide Pairs, Distinct;
    var e := Entry(i - mn, Pairs(txn), safe);
    forall la | la in e.acts ensures Hit(slots', e.offset, la) && slots'[e.offset + la].action == e.acts[la] {
      PairsAre(txn, la);
      var j :| 0 <= j < |txn| && txn[j].lookahead == la;
      WrittenThere(slots, slots', txn, mn, i, j);
    }
    if safe {
      forall la | 0 <= la < nterminal && la !in e.acts ensures !Hit(slots', e.offset, la) {
        PairsAre(txn, la);
        var k := Place(la, mn, i);
        assert k !in Places(txn, mn, i);
        assert 0 <= k < |slots| ==> slots'[k] == slots[k];
      }
    }
  }

  /** A token set has another offset than the new one, and a slot of a new set of nonterminals is no token's. */
  lemma OldUsable(slots: seq<Slot>, slots': seq<Slot>, txn: seq<Slot>, mn: int, i: int, nterminal: nat, safe: bool, e: Entry)
    requires Written(slots, slots', txn, mn, i) && Suits(slots, txn, mn, i, nterminal, safe)
    requires forall j :: 0 <= j < |txn| ==> (safe <==> txn[j].lookahead < nterminal)
    requires LogOk(slots, nterminal, e)
    ensures LogOk(slots', nterminal, e)
  {
    forall la | la in e.acts ensures Hit(slots', e.offset, la) && slots'[e.offset + la].action == e.acts[la] {
      assert e.offset + la !in Places(txn, mn, i);
    }
    if e.safe {
      var la0 :| la0 in e.acts;
      assert safe ==> e.offset != i - mn by {
        assert Hit(slots, e.offset, la0);
        assert safe ==> !Hits(slots, e.offset + la0, mn, i);
      }
      forall la | 0 <= la < nterminal && la !in e.acts ensures !Hit(slots', e.offset, la) {
        assert !Hit(slots, e.offset, la);
        var k := e.offset + la;
        if k in Places(txn, mn, i) {
          var j :| 0 <= j < |txn| && Place(txn[j].lookahead, mn, i) == k;
          assert slots'[k] == txn[j] && txn[j].lookahead != la;
        }
      }
    }
  }

  lemma DuplicateUsable(slots: seq<Slot>, txn: seq<Slot>, mn: int, i: int, n: nat, nterminal: nat, safe: bool)
    requires Distinct(txn) && Duplicate(slots, txn, mn, i, n) && n <= |slots| && Spaced(slots, nterminal, n)
    requires forall j :: 0 <= j < |txn| ==> 0 <= txn[j].lookahead
    ensures Usable(slots, nterminal, Entry(i - mn, Pairs(txn), safe))
  {
    hide Pairs, Distinct, Duplicate;
    DuplicateReadsBack(slots, txn, mn, i, n);
    forall la | la in Pairs(txn) ensures 0 <= la {
      PairsAre(txn, la);
    }
  }

  lemma SpacedWritten(slots: seq<Slot>, slots': seq<Slot>, txn: seq<Slot>, mn: int, i: int, nterminal: nat, safe: bool, n: nat, n': nat)
    requires Written(slots, slots', txn, mn, i) && Spaced(slots, nterminal, n) && n <= n' && (safe ==> mn <= i && i + nterminal < n')
    requires forall j :: 0 <= j < |txn| ==> 0 <= mn <= txn[j].lookahead && (safe <==> txn[j].lookahead < nterminal)
    requires forall j :: 0 <= j < |txn| ==> Place(txn[j].lookahead, mn, i) < n'
    ensures Spaced(slots', nterminal, n')
  {
    forall k | 0 <= k < |slots'|
      ensures -1 <= slots'[k].lookahead && (n' <= k ==> slots'[k] == Unused)
      ensures 0 <= slots'[k].lookahead < nterminal ==> slots'[k].lookahead <= k && k - slots'[k].lookahead + nterminal < n'
    {
      if k in Places(txn, mn, i) {
        var j :| 0 <= j < |txn| && Place(txn[j].lookahead, mn, i) == k;
        assert slots'[k] == txn[j];
      } else {
        assert slots'[k] == slots[k];
      }
    }
  }

  lemma GrownExact(slots: seq<Slot>, more: nat, log: seq<Entry>)
    requires AllExact(slots, log)
    ensures AllExact(slots + seq(more, _ => Unused), log)
  {
    var slots' := slots + seq(more, _ => Unused);
    forall e, la | e in log && 0 <= la ensures Hit(slots', e.offset, la) == Hit(slots, e.offset, la) {
    }
  }

  lemma GrownUsable(slots: seq<Slot>, more: nat, nterminal: nat, e: Entry)
    requires LogOk(slots, nterminal, e)
    ensures LogOk(slots + seq(more, _ => Unused), nterminal, e)
  {
    var slots' := slots + seq(more, _ => Unused);
    forall la | 0 <= la && Hit(slots', e.offset, la) ensures Hit(slots, e.offset, la) {
    }
  }

  // ----- the slot the searches choose

  /** The highest slot from `end` on that holds a duplicate, or else the lowest hole, or else where the scan for one
      gives up. */
  ghost predicate Chosen(slots: seq<Slot>, txn: seq<Slot>, mn: int, mx: int, n: nat, end: nat, i: int) {
    if i < n && Duplicate(slots, txn, mn, i, n) then end <= i && NoDuplicate(slots, txn, mn, i + 1, n)
    else
      && NoDuplicate(slots, txn, mn, end, n)
      && (forall k :: end <= k < i && k < |slots| - mx ==> !FreeAt(slots, txn, mn, k, n))
      && if end <= i < |slots| - mx then FreeAt(slots, txn, mn, i, n) else i == Limit(slots, mx, end)
  }

  ghost predicate NoDuplicate(slots: seq<Slot>, txn: seq<Slot>, mn: int, from: int, n: nat) {
    forall k :: from <= k < n ==> !Duplicate(slots, txn, mn, k, n)
  }

  function Limit(slots: seq<Slot>, mx: int, end: nat): int {
    if end < |slots| - mx then |slots| - mx else end
  }

  /** A set with the first token finds a hole right behind the used slots. */
  lemma ZeroFits(slots: seq<Slot>, txn: seq<Slot>, mx: int, nterminal: nat, n: nat)
    requires Spaced(slots, nterminal, n) && forall j :: 0 <= j < |txn| ==> 0 <= txn[j].lookahead <= mx
    ensures FreeAt(slots, txn, 0, n + 1, n)
  {
  }

  /** Where the searches end without a duplicate, the set can be written; nothing in use is hit from there if it is a set
      of tokens. */
  lemma ChosenSuits(slots: seq<Slot>, txn: seq<Slot>, mn: int, mnAction: int, mx: int, nterminal: nat, nsymbol: nat, n: nat,
                    safe: bool, i: int)
    requires SetBounds(txn, mn, mnAction, mx) && Spaced(slots, nterminal, n) && n + nsymbol + 2 <= |slots|
    requires 0 < nterminal <= nsymbol && if safe then mx < nterminal else nterminal <= mn && mx < nsymbol
    requires 0 <= mn && Chosen(slots, txn, mn, mx, n, if safe then mn else 0, i)
    requires !(i < n && Duplicate(slots, txn, mn, i, n))
    ensures Suits(slots, txn, mn, i, nterminal, safe) && (safe ==> mn <= i && !Clash(slots, mn, i, n))
  {
    hide Duplicate, SetBounds, FreeAt;
    BoundsMeet(txn, mn, mnAction, mx);
    if mn == 0 {
      ZeroFits(slots, txn, mx, nterminal, n);
    }
    SlotsFree(slots, txn, mn, mx, i, n);
    if safe {
      if FreeAt(slots, txn, mn, i, n) {
        NoHits(slots, txn, mn, i, n);
      } else {
        TokensApart(slots, mn, mx, nterminal, n, i);
      }
    }
  }

  /** Behind the used slots no slot is hit from a token set's offset. */
  lemma TokensApart(slots: seq<Slot>, mn: int, mx: int, nterminal: nat, n: nat, i: int)
    requires Spaced(slots, nterminal, n) && n + nterminal + 2 <= |slots| && 0 <= mn <= mx < nterminal
    requires i == Limit(slots, mx, mn)
    ensures !Clash(slots, mn, i, n)
  {
  }

  lemma NoHits(slots: seq<Slot>, txn: seq<Slot>, mn: int, i: int, n: nat)
    requires FreeAt(slots, txn, mn, i, n)
    ensures !Clash(slots, mn, i, n)
  {
  }

  /** The set lies inside the array where the searches end, and the token sets leave it only if they come to lie at
      offset 0 before any other. */
  lemma ChosenInside(slots: seq<Slot>, txn: seq<Slot>, mn: int, mnAction: int, mx: int, nterminal: nat, nsymbol: nat, n: nat,
                     safe: bool, i: int)
    requires SetBounds(txn, mn, mnAction, mx) && Spaced(slots, nterminal, n) && n + nsymbol + 2 <= |slots|
    requires 0 < nterminal <= nsymbol && if safe then mx < nterminal else nterminal <= mn && mx < nsymbol
    requires 0 <= mn && Chosen(slots, txn, mn, mx, n, if safe then mn else 0, i)
    ensures forall j :: 0 <= j < |txn| ==>
              && 0 <= mn <= txn[j].lookahead && (safe <==> txn[j].lookahead < nterminal)
              && 0 <= Place(txn[j].lookahead, mn, i) < |slots|
    ensures safe ==> mn <= i
    ensures i < n && Duplicate(slots, txn, mn, i, n) ==> i + nterminal < |slots|
  {
    BoundsMeet(txn, mn, mnAction, mx);
    if i < n && Duplicate(slots, txn, mn, i, n) {
      DuplicateIsThere(slots, txn, mn, i, n);
      if safe {
        TokenDuplicate(slots, txn, mn, mnAction, mx, nterminal, n, i);
      }
    } else {
      ChosenSuits(slots, txn, mn, mnAction, mx, nterminal, nsymbol, n, safe, i);
    }
  }

  /** A token set whose padding passes the end of the array: there is no duplicate, and no hole with all tokens behind it
      inside. */
  ghost predicate Cramped(slots: seq<Slot>, txn: seq<Slot>, mn: int, n: nat, nterminal: nat) {
    && NoDuplicate(slots, txn, mn, mn, n)
    && forall k :: mn <= k < |slots| - nterminal ==> !FreeAt(slots, txn, mn, k, n)
  }

  lemma PassesIfCramped(slots: seq<Slot>, txn: seq<Slot>, mn: int, mnAction: int, mx: int, nterminal: nat, nsymbol: nat, n: nat,
                        i: int)
    requires SetBounds(txn, mn, mnAction, mx) && Spaced(slots, nterminal, n) && n + nsymbol + 2 <= |slots| && mx < nterminal <= nsymbol
    requires 0 <= mn && Chosen(slots, txn, mn, mx, n, mn, i)
    ensures i + nterminal < |slots| <==> !Cramped(slots, txn, mn, n, nterminal)
  {
    hide Duplicate, SetBounds, FreeAt;
    BoundsMeet(txn, mn, mnAction, mx);
  }

  /** With no more tokens than nonterminals, plus one, a set of tokens finds its hole early enough. */
  lemma TokensFit(slots: seq<Slot>, txn: seq<Slot>, mn: int, mnAction: int, mx: int, nterminal: nat, nsymbol: nat, n: nat, i: int)
    requires SetBounds(txn, mn, mnAction, mx) && Spaced(slots, nterminal, n) && n + nsymbol + 2 <= |slots| && mx < nterminal
    requires 0 <= mn && Chosen(slots, txn, mn, mx, n, mn, i)
    ensures 2 * nterminal <= nsymbol + 1 ==> i + nterminal < |slots|
  {
    hide Duplicate, SetBounds;
    BoundsMeet(txn, mn, mnAction, mx);
    assert FreeAt(slots, txn, mn, n + mn + 1, n);
  }

  lemma EndReaches(txn: seq<Slot>, mn: int, mnAction: int, mx: int, i: int, n: nat)
    requires SetBounds(txn, mn, mnAction, mx)
    ensures End(txn, mn, i, n) == Max(n, mx - mn + i + 1)
    ensures forall j :: 0 <= j < |txn| ==> Place(txn[j].lookahead, mn, i) < End(txn, mn, i, n)
  {
    EndIs(txn, mn, mx, i, n);
  }

  lemma TokenDuplicate(slots: seq<Slot>, txn: seq<Slot>, mn: int, mnAction: int, mx: int, nterminal: nat, n: nat, i: int)
    requires SetBounds(txn, mn, mnAction, mx) && AllThere(slots, txn, mn, i, n) && Spaced(slots, nterminal, n) && mx < nterminal
    ensures mn <= i
  {
    var j :| 0 <= j < |txn| && txn[j] == Slot(mn, mnAction);
    assert Place(txn[j].lookahead, mn, i) == i;
  }

  /** After the set is written, it and all sets before it can be used. */
  lemma LogKept(slots: seq<Slot>, slots': seq<Slot>, txn: seq<Slot>, mn: int, mnAction: int, mx: int, nterminal: nat,
                nsymbol: nat, n: nat, safe: bool, i: int, log: seq<Entry>)
    requires Distinct(txn) && SetBounds(txn, mn, mnAction, mx) && Spaced(slots, nterminal, n) && n + nsymbol + 2 <= |slots|
    requires 0 < nterminal <= nsymbol && if safe then mx < nterminal else nterminal <= mn && mx < nsymbol
    requires 0 <= mn && Chosen(slots, txn, mn, mx, n, if safe then mn else 0, i)
    requires Written(slots, slots', txn, mn, i) && forall e :: e in log ==> LogOk(slots, nterminal, e)
    ensures forall e :: e in log + [Entry(i - mn, Pairs(txn), safe)] ==> LogOk(slots', nterminal, e)
  {
    hide Pairs, Written, Duplicate, Chosen, Distinct, Spaced, Usable, SetBounds, Suits;
    PairsOk(txn, mn, mnAction, mx);
    BoundsMeet(txn, mn, mnAction, mx);
    if i < n && Duplicate(slots, txn, mn, i, n) {
      DuplicateIsThere(slots, txn, mn, i, n);
      WrittenSame(slots, slots', txn, mn, i, n);
      DuplicateUsable(slots, txn, mn, i, n, nterminal, safe);
    } else {
      ChosenSuits(slots, txn, mn, mnAction, mx, nterminal, nsymbol, n, safe, i);
      NewUsable(slots, slots', txn, mn, i, nterminal, safe);
      forall e | e in log ensures LogOk(slots', nterminal, e) {
        OldUsable(slots, slots', txn, mn, i, nterminal, safe, e);
      }
    }
  }

  lemma BoundsMeet(txn: seq<Slot>, mn: int, mnAction: int, mx: int)
    requires SetBounds(txn, mn, mnAction, mx)
    ensures 0 <= mn <= mx && forall j :: 0 <= j < |txn| ==> mn <= txn[j].lookahead <= mx
  {
  }

  /** The slots of a set at a hole, or behind all used ones. */
  lemma SlotsFree(slots: seq<Slot>, txn: seq<Slot>, mn: int, mx: int, i: int, n: nat)
    requires 0 <= i && 0 <= mn && forall j :: 0 <= j < |txn| ==> mn <= txn[j].lookahead <= mx
    requires forall k :: n <= k < |slots| ==> slots[k] == Unused
    requires i + mx - mn < |slots| && (FreeAt(slots, txn, mn, i, n) || n <= i)
    ensures forall j :: 0 <= j < |txn| ==>
              var k := Place(txn[j].lookahead, mn, i); 0 <= k < |slots| && slots[k].lookahead < 0
  {
  }

  lemma NotThere(slots: seq<Slot>, txn: seq<Slot>, mn: int, mnAction: int, mx: int, i: int, n: nat)
    requires SetBounds(txn, mn, mnAction, mx) && 0 <= i < n <= |slots| && slots[i] != Slot(mn, mnAction)
    ensures !Duplicate(slots, txn, mn, i, n)
  {
    var j :| 0 <= j < |txn| && txn[j] == Slot(mn, mnAction);
    assert Place(txn[j].lookahead, mn, i) == i;
  }

  lemma TakenIsNotFree(slots: seq<Slot>, txn: seq<Slot>, mn: int, mnAction: int, i: nat, n: nat)
    requires i < |slots| && slots[i].lookahead >= 0 && exists j :: 0 <= j < |txn| && txn[j] == Slot(mn, mnAction)
    ensures !FreeAt(slots, txn, mn, i, n)
  {
    var j :| 0 <= j < |txn| && txn[j] == Slot(mn, mnAction);
    assert Place(txn[j].lookahead, mn, i) == i;
  }

  // ----- exact read-back

  ghost predicate AllExact(slots: seq<Slot>, log: seq<Entry>) {
    forall e :: e in log ==> ReadsBack(slots, e.offset, e.acts)
  }

  /** The set comes to lie where a slot in use is hit: there is no duplicate and no hole, and where the scan gives up a
      slot in use carries the lookahead that is looked up there. */
  ghost predicate Blocked(slots: seq<Slot>, txn: seq<Slot>, mn: int, mx: int, n: nat) {
    && NoDuplicate(slots, txn, mn, 0, n) && (forall k :: 0 <= k < |slots| - mx ==> !FreeAt(slots, txn, mn, k, n))
    && Clash(slots, mn, Limit(slots, mx, 0), n)
  }

  /** Written into free slots, a set reads back exactly if and only if no slot in use is hit from there, and then all sets
      before it still do. */
  lemma ExactUnlessClash(slots: seq<Slot>, slots': seq<Slot>, txn: seq<Slot>, mn: int, i: int, n: nat, log: seq<Entry>)
    requires Distinct(txn) && Written(slots, slots', txn, mn, i) && n <= |slots|
    requires PlacesFree(slots, txn, mn, i) && forall j :: 0 <= j < |txn| ==> 0 <= txn[j].lookahead
    requires (forall k :: n <= k < |slots| ==> slots[k] == Unused) && forall k :: 0 <= k < |slots| ==> -1 <= slots[k].lookahead
    requires forall e :: e in log ==> (exists la :: la in e.acts) && forall la :: la in e.acts ==> 0 <= la
    ensures ReadsBack(slots', i - mn, Pairs(txn)) <==> !Clash(slots, mn, i, n)
    ensures AllExact(slots, log) && !Clash(slots, mn, i, n) ==> AllExact(slots', log)
  {
    hide Pairs, Distinct;
    if k :| 0 <= k < n && Hits(slots, k, mn, i) && slots[k].lookahead >= 0 {
      var la := slots[k].lookahead;
      assert slots'[k] == slots[k];
      assert Hit(slots', i - mn, la);
      PairsAre(txn, la);
    } else {
      NewReadsBack(slots, slots', txn, mn, i, n);
      if AllExact(slots, log) {
        forall e | e in log ensures ReadsBack(slots', e.offset, e.acts) {
          OldReadsBack(slots, slots', txn, mn, i, n, e);
        }
      }
    }
  }

  /** Whether every set reads back exactly, on all lookaheads, after one more is written. */
  lemma ExactUnlessBlocked(slots: seq<Slot>, slots': seq<Slot>, txn: seq<Slot>, mn: int, mnAction: int, mx: int,
                           nterminal: nat, nsymbol: nat, n: nat, safe: bool, i: int, log: seq<Entry>)
    requires Distinct(txn) && SetBounds(txn, mn, mnAction, mx) && Spaced(slots, nterminal, n) && n + nsymbol + 2 <= |slots|
    requires 0 < nterminal <= nsymbol && if safe then mx < nterminal else nterminal <= mn && mx < nsymbol
    requires 0 <= mn && Chosen(slots, txn, mn, mx, n, if safe then mn else 0, i)
    requires Written(slots, slots', txn, mn, i) && AllExact(slots, log)
    requires forall e :: e in log ==> LogOk(slots, nterminal, e)
    ensures AllExact(slots', log + [Entry(i - mn, Pairs(txn), safe)]) <==> safe || !Blocked(slots, txn, mn, mx, n)
  {
    hide Pairs, Written, Duplicate, Distinct, Spaced, ReadsBack, SetBounds, Suits, FreeAt, Clash, Usable;
    var e := Entry(i - mn, Pairs(txn), safe);
    assert e in log + [e];
    BoundsMeet(txn, mn, mnAction, mx);
    if i < n && Duplicate(slots, txn, mn, i, n) {
      DuplicateIsThere(slots, txn, mn, i, n);
      WrittenSame(slots, slots', txn, mn, i, n);
      DuplicateExact(slots, txn, mn, i, n, nterminal);
    } else {
      ChosenSuits(slots, txn, mn, mnAction, mx, nterminal, nsymbol, n, safe, i);
      SuitsFree(slots, txn, mn, i, nterminal, n, safe);
      ExactUnlessClash(slots, slots', txn, mn, i, n, log);
      if FreeAt(slots, txn, mn, i, n) {
        NoHits(slots, txn, mn, i, n);
      }
    }
  }

  lemma DuplicateExact(slots: seq<Slot>, txn: seq<Slot>, mn: int, i: int, n: nat, nterminal: nat)
    requires Distinct(txn) && Duplicate(slots, txn, mn, i, n) && n <= |slots| && Spaced(slots, nterminal, n)
    requires forall j :: 0 <= j < |txn| ==> 0 <= txn[j].lookahead
    ensures ReadsBack(slots, i - mn, Pairs(txn))
  {
    hide Pairs, Distinct, Duplicate;
    DuplicateReadsBack(slots, txn, mn, i, n);
  }

  lemma SuitsFree(slots: seq<Slot>, txn: seq<Slot>, mn: int, i: int, nterminal: nat, n: nat, safe: bool)
    requires Suits(slots, txn, mn, i, nterminal, safe) && Spaced(slots, nterminal, n)
    ensures PlacesFree(slots, txn, mn, i)
    ensures (forall k :: n <= k < |slots| ==> slots[k] == Unused) && forall k :: 0 <= k < |slots| ==> -1 <= slots[k].lookahead
  {
  }

  // ----- the table that a list of sets makes

  /** A set to be inserted: of tokens, to be made safe, or of nonterminals. */
  datatype Txn = Txn(pairs: seq<Slot>, safe: bool)

  /** The array after the growth step of acttab_insert. */
  function Growth(slots: seq<Slot>, n: nat, nsymbol: nat): seq<Slot> {
    if n + nsymbol + 1 >= |slots| then slots + seq(n + nsymbol + 1 + 20, _ => Unused) else slots
  }

  /** Inserting `x` where its least lookahead goes to slot `i`. */
  ghost predicate LaidAt(nterminal: nat, nsymbol: nat, slots: seq<Slot>, n: nat, x: Txn, mn: int, mnAction: int, mx: int, i: int,
                         slots': seq<Slot>, n': nat) {
    && SetBounds(x.pairs, mn, mnAction, mx) && 0 <= mn
    && Chosen(Growth(slots, n, nsymbol), x.pairs, mn, mx, n, if x.safe then mn else 0, i)
    && Written(Growth(slots, n, nsymbol), slots', x.pairs, mn, i)
    && n' == Max(n, i + 1 + if x.safe then nterminal else mx - mn)
  }

  ghost predicate Laid(nterminal: nat, nsymbol: nat, slots: seq<Slot>, n: nat, x: Txn, slots': seq<Slot>, n': nat) {
    exists mn, mnAction, mx, i :: LaidAt(nterminal, nsymbol, slots, n, x, mn, mnAction, mx, i, slots', n')
  }

  /** The sets, inserted one after the other into an empty table, make these slots and this nAction. */
  ghost predicate Makes(nterminal: nat, nsymbol: nat, sets: seq<Txn>, slots: seq<Slot>, n: nat)
    decreases |sets|
  {
    if sets == [] then slots == [] && n == 0
    else exists slots0, n0: nat ::
      Makes(nterminal, nsymbol, sets[..|sets| - 1], slots0, n0) && LaidLast(nterminal, nsymbol, slots0, n0, sets, slots, n)
  }

  ghost predicate LaidLast(nterminal: nat, nsymbol: nat, slots: seq<Slot>, n: nat, sets: seq<Txn>, slots': seq<Slot>, n': nat)
    requires sets != []
  {
    Laid(nterminal, nsymbol, slots, n, sets[|sets| - 1], slots', n')
  }

  lemma OneBound(txn: seq<Slot>, mn: int, mnAction: int, mx: int, mn': int, mnAction': int, mx': int)
    requires SetBounds(txn, mn, mnAction, mx) && SetBounds(txn, mn', mnAction', mx')
    ensures mn == mn' && mx == mx'
  {
  }

  lemma OneSlot(slots: seq<Slot>, txn: seq<Slot>, mn: int, mx: int, n: nat, end: nat, i: int, i': int)
    requires Chosen(slots, txn, mn, mx, n, end, i) && Chosen(slots, txn, mn, mx, n, end, i')
    ensures i == i'
  {
    hide Duplicate, FreeAt;
  }

  lemma OneWriting(slots: seq<Slot>, txn: seq<Slot>, mn: int, i: int, s: seq<Slot>, s': seq<Slot>)
    requires Written(slots, s, txn, mn, i) && Written(slots, s', txn, mn, i)
    ensures s == s'
  {
    forall k | 0 <= k < |slots| ensures s[k] == s'[k] {
      if k in Places(txn, mn, i) {
        var j :| 0 <= j < |txn| && Place(txn[j].lookahead, mn, i) == k;
      }
    }
  }

  lemma OneLaying(nterminal: nat, nsymbol: nat, slots: seq<Slot>, n: nat, x: Txn, s: seq<Slot>, k: nat, s': seq<Slot>, k': nat)
    requires Laid(nterminal, nsymbol, slots, n, x, s, k) && Laid(nterminal, nsymbol, slots, n, x, s', k')
    ensures s == s' && k == k'
  {
    hide Chosen, Written, SetBounds;
    var mn, mnAction, mx, i :| LaidAt(nterminal, nsymbol, slots, n, x, mn, mnAction, mx, i, s, k);
    var mn', mnAction', mx', i' :| LaidAt(nterminal, nsymbol, slots, n, x, mn', mnAction', mx', i', s', k');
    OneBound(x.pairs, mn, mnAction, mx, mn', mnAction', mx');
    OneSlot(Growth(slots, n, nsymbol), x.pairs, mn, mx, n, if x.safe then mn else 0, i, i');
    OneWriting(Growth(slots, n, nsymbol), x.pairs, mn, i, s, s');
  }

  /** A list of sets makes one table only. */
  lemma {:induction false} OneTable(nterminal: nat, nsymbol: nat, sets: seq<Txn>, s: seq<Slot>, k: nat, s': seq<Slot>, k': nat)
    requires Makes(nterminal, nsymbol, sets, s, k) && Makes(nterminal, nsymbol, sets, s', k')
    ensures s == s' && k == k'
    decreases |sets|
  {
    hide Laid;
    if sets != [] {
      var front, last := sets[..|sets| - 1], sets[|sets| - 1];
      var slots, n: nat :| Makes(nterminal, nsymbol, front, slots, n) && LaidLast(nterminal, nsymbol, slots, n, sets, s, k);
      var slots', n': nat :| Makes(nterminal, nsymbol, front, slots', n') && LaidLast(nterminal, nsymbol, slots', n', sets, s', k');
      OneTable(nterminal, nsymbol, front, slots, n, slots', n');
      OneLaying(nterminal, nsymbol, slots, n, last, s, k, s', k');
    }
  }

  /** A set of tokens that is cramped in the grown table. */
  ghost predicate CrampedIn(nterminal: nat, nsymbol: nat, slots: seq<Slot>, n: nat, x: Txn) {
    x.safe && exists mn, mnAction, mx :: SetBounds(x.pairs, mn, mnAction, mx) && Cramped(Growth(slots, n, nsymbol), x.pairs, mn, n, nterminal)
  }

  lemma LaidHere(nterminal: nat, nsymbol: nat, slots: seq<Slot>, n: nat, x: Txn, mn: int, mnAction: int, mx: int, i: int,
                 slots': seq<Slot>, n': nat)
    requires LaidAt(nterminal, nsymbol, slots, n, x, mn, mnAction, mx, i, slots', n')
    ensures Laid(nterminal, nsymbol, slots, n, x, slots', n')
    ensures CrampedIn(nterminal, nsymbol, slots, n, x) <==> x.safe && Cramped(Growth(slots, n, nsymbol), x.pairs, mn, n, nterminal)
  {
    hide Chosen, Written, SetBounds, Cramped;
    forall mn', mnAction', mx' | SetBounds(x.pairs, mn', mnAction', mx') ensures mn' == mn {
      OneBound(x.pairs, mn, mnAction, mx, mn', mnAction', mx');
    }
  }

  // ----- the table

  class ActionTable {
    const nsymbol: nat
    const nterminal: nat
    var aAction: seq<Slot>     // as many as nActionAlloc
    var nAction: nat           // may pass nActionAlloc until the next insertion
    var aLookahead: seq<Slot>  // the transaction set being built
    var mnLookahead: int
    var mnAction: int
    var mxLookahead: int
    ghost var log: seq<Entry>  // every set inserted, with its offset

    ghost predicate Valid()
      reads this
    {
      && 0 < nterminal <= nsymbol && Spaced(aAction, nterminal, nAction) && (aAction == [] || |aAction| >= nsymbol + 21)
      && (forall e :: e in log ==> LogOk(aAction, nterminal, e))
      && (aLookahead != [] ==> SetBounds(aLookahead, mnLookahead, mnAction, mxLookahead))
    }

    constructor (nsymbol: nat, nterminal: nat)
      requires 0 < nterminal <= nsymbol
      ensures Valid() && log == [] && aLookahead == [] && this.nsymbol == nsymbol && this.nterminal == nterminal
      ensures aAction == [] && nAction == 0
    {
      this.nsymbol, this.nterminal := nsymbol, nterminal;
      aAction, nAction, aLookahead, log := [], 0, [], [];
      mnLookahead, mnAction, mxLookahead := 0, 0, 0;
    }

    /** acttab_action */
    method Add(lookahead: int, action: int)
      requires Valid() && 0 <= lookahead && Distinct(aLookahead + [Slot(lookahead, action)])
      modifies this`aLookahead, this`mnLookahead, this`mnAction, this`mxLookahead
      ensures Valid() && aLookahead == old(aLookahead) + [Slot(lookahead, action)]
    {
      hide LogOk, Spaced;
      if aLookahead == [] {
        mxLookahead, mnLookahead, mnAction := lookahead, lookahead, action;
      } else {
        if mxLookahead < lookahead {
          mxLookahead := lookahead;
        }
        if mnLookahead > lookahead {
          mnLookahead, mnAction := lookahead, action;
        }
      }
      ghost var before := aLookahead;
      aLookahead := aLookahead + [Slot(lookahead, action)];
      assert aLookahead[|before|] == Slot(lookahead, action);
      assert before != [] ==> forall j :: 0 <= j < |before| ==> aLookahead[j] == before[j];
    }

    ghost function Grown(): seq<Slot>
      reads this
    {
      Growth(aAction, nAction, nsymbol)
    }

    method Grow()
      requires Valid()
      modifies this`aAction
      ensures Valid() && aAction == old(Grown()) && nAction + nsymbol + 2 <= |aAction|
      ensures old(AllExact(aAction, log)) ==> AllExact(aAction, log)
      ensures |aAction| >= nsymbol + 21
    {
      hide SetBounds;
      if nAction + nsymbol + 1 >= |aAction| {
        var more := nAction + nsymbol + 1 + 20;
        forall e | e in log ensures LogOk(aAction + seq(more, _ => Unused), nterminal, e) {
          GrownUsable(aAction, more, nterminal, e);
        }
        if AllExact(aAction, log) {
          GrownExact(aAction, more, log);
        }
        aAction := aAction + seq(more, _ => Unused);
      }
    }

    /** Search downwards for a set equal to the current one. */
    method FindDuplicate(end: nat) returns (found: bool, i: int)
      requires Valid() && aLookahead != [] && nAction <= |aAction|
      ensures found ==> end <= i < nAction && Duplicate(aAction, aLookahead, mnLookahead, i, nAction)
      ensures NoDuplicate(aAction, aLookahead, mnLookahead, if found then i + 1 else end, nAction)
    {
      hide LogOk, Spaced, SetBounds, Duplicate;
      i := nAction - 1;
      while i >= end
        invariant -1 <= i < nAction
        invariant NoDuplicate(aAction, aLookahead, mnLookahead, i + 1, nAction)
      {
        if aAction[i].lookahead == mnLookahead && aAction[i].action == mnAction {
          found := IsDuplicate(aAction, aLookahead, mnLookahead, i, nAction);
          if found {
            return;
          }
        } else {
          NotThere(aAction, aLookahead, mnLookahead, mnAction, mxLookahead, i, nAction);
        }
        i := i - 1;
      }
      found := false;
    }

    /** Search upwards for slots into which the set fits, as far as they are all inside. */
    method FindHole(end: nat) returns (i: int)
      requires Valid() && aLookahead != [] && end <= mnLookahead && nAction <= |aAction|
      ensures end <= i && forall k :: end <= k < i && k < |aAction| - mxLookahead ==>
                                        !FreeAt(aAction, aLookahead, mnLookahead, k, nAction)
      ensures if i < |aAction| - mxLookahead then FreeAt(aAction, aLookahead, mnLookahead, i, nAction)
              else i == Limit(aAction, mxLookahead, end)
    {
      hide FreeAt, LogOk, Spaced;
      i := end;
      while i < |aAction| - mxLookahead
        invariant end <= i && (i <= |aAction| - mxLookahead || i == end)
        invariant forall k :: end <= k < i ==> !FreeAt(aAction, aLookahead, mnLookahead, k, nAction)
      {
        if aAction[i].lookahead < 0 {
          var found := IsFree(aAction, aLookahead, mnLookahead, mxLookahead, i, nAction);
          if found {
            return;
          }
        } else {
          TakenIsNotFree(aAction, aLookahead, mnLookahead, mnAction, i, nAction);
        }
        i := i + 1;
      }
    }

    /** A set of tokens to be made safe, or one of nonterminals. */
    ghost predicate Ready(makeItSafe: bool)
      reads this
    {
      && aLookahead != [] && Distinct(aLookahead)
      && if makeItSafe then mxLookahead < nterminal else nterminal <= mnLookahead && mxLookahead < nsymbol
    }

    function From(makeItSafe: bool): int
      reads this
    {
      if makeItSafe then mnLookahead else 0
    }

    method Search(makeItSafe: bool) returns (i: int)
      requires Valid() && Ready(makeItSafe) && nAction <= |aAction|
      ensures 0 <= From(makeItSafe)
      ensures Chosen(aAction, aLookahead, mnLookahead, mxLookahead, nAction, From(makeItSafe), i)
    {
      hide Duplicate, FreeAt, LogOk, Spaced;
      var end := if makeItSafe then mnLookahead else 0;
      var found;
      found, i := FindDuplicate(end);
      if !found {
        i := FindHole(end);
      }
    }

    /** acttab_insert. Every write is inside the allocated array, and every set ever inserted can be used: a token set
        reads back exactly on all tokens, a set of nonterminals on its own members. */
    method Insert(makeItSafe: bool) returns (offset: int)
      requires Valid() && Ready(makeItSafe)
      modifies this
      ensures Valid() && aLookahead == [] && log == old(log) + [Entry(offset, Pairs(old(aLookahead)), makeItSafe)]
      ensures old(From(makeItSafe)) >= 0
      ensures Chosen(old(Grown()), old(aLookahead), old(mnLookahead), old(mxLookahead), old(nAction), old(From(makeItSafe)),
                     offset + old(mnLookahead))
      ensures Written(old(Grown()), aAction, old(aLookahead), old(mnLookahead), offset + old(mnLookahead))
      ensures Laid(nterminal, nsymbol, old(aAction), old(nAction), Txn(old(aLookahead), makeItSafe), aAction, nAction)
      ensures nAction <= |aAction| <==> !CrampedIn(nterminal, nsymbol, old(aAction), old(nAction), Txn(old(aLookahead), makeItSafe))
      ensures nAction >= old(nAction) && |aAction| >= nsymbol + 21
      ensures nAction == Max(old(nAction), offset + 1 + if makeItSafe then old(mnLookahead) + nterminal else old(mxLookahead))
      ensures makeItSafe ==> 0 <= offset
      ensures nAction <= |aAction| <==>
              !(makeItSafe && Cramped(old(Grown()), old(aLookahead), old(mnLookahead), old(nAction), nterminal))
      ensures 2 * nterminal <= nsymbol + 1 ==> nAction <= |aAction|
      ensures old(AllExact(aAction, log)) ==>
              (AllExact(aAction, log) <==>
               makeItSafe || !Blocked(old(Grown()), old(aLookahead), old(mnLookahead), old(mxLookahead), old(nAction)))
    {
      hide LogOk, Pairs, Distinct, Chosen, Spaced, Written, SetBounds, AllExact, Blocked, Cramped, Growth;
      ghost var slots, n, x, mn, mnAct, mx := aAction, nAction, Txn(aLookahead, makeItSafe), mnLookahead, mnAction, mxLookahead;
      Grow();
      var i := Search(makeItSafe);
      offset := i - mnLookahead;
      Lay(i, makeItSafe);
      assert LaidAt(nterminal, nsymbol, slots, n, x, mn, mnAct, mx, i, aAction, nAction);
      LaidHere(nterminal, nsymbol, slots, n, x, mn, mnAct, mx, i, aAction, nAction);
    }

    /** Write the set where the searches ended. */
    method Lay(i: int, makeItSafe: bool)
      requires Valid() && Ready(makeItSafe) && nAction + nsymbol + 2 <= |aAction| && |aAction| >= nsymbol + 21
      requires 0 <= From(makeItSafe) && Chosen(aAction, aLookahead, mnLookahead, mxLookahead, nAction, From(makeItSafe), i)
      modifies this
      ensures Valid() && aLookahead == []
      ensures log == old(log) + [Entry(i - old(mnLookahead), Pairs(old(aLookahead)), makeItSafe)]
      ensures Written(old(aAction), aAction, old(aLookahead), old(mnLookahead), i) && |aAction| == old(|aAction|)
      ensures nAction >= old(nAction) && (makeItSafe ==> old(mnLookahead) <= i && i + nterminal < nAction)
      ensures nAction == Max(old(nAction), i + 1 + if makeItSafe then nterminal else old(mxLookahead) - old(mnLookahead))
      ensures 2 * nterminal <= nsymbol + 1 ==> nAction <= |aAction|
      ensures nAction <= |aAction| <==>
              !(makeItSafe && Cramped(old(aAction), old(aLookahead), old(mnLookahead), old(nAction), nterminal))
      ensures old(AllExact(aAction, log)) ==>
              (AllExact(aAction, log) <==>
               makeItSafe || !Blocked(old(aAction), old(aLookahead), old(mnLookahead), old(mxLookahead), old(nAction)))
    {
      hide LogOk, Pairs, Distinct, Chosen, Spaced, Written, SetBounds, AllExact, Blocked, Cramped;
      ChosenInside(aAction, aLookahead, mnLookahead, mnAction, mxLookahead, nterminal, nsymbol, nAction, makeItSafe, i);
      if makeItSafe {
        PassesIfCramped(aAction, aLookahead, mnLookahead, mnAction, mxLookahead, nterminal, nsymbol, nAction, i);
        TokensFit(aAction, aLookahead, mnLookahead, mnAction, mxLookahead, nterminal, nsymbol, nAction, i);
      }
      var slots, n := WriteSet(aAction, aLookahead, mnLookahead, i, nAction);
      EndReaches(aLookahead, mnLookahead, mnAction, mxLookahead, i, nAction);
      if makeItSafe && i + nterminal >= n {
        n := i + nterminal + 1;
      }
      LogKept(aAction, slots, aLookahead, mnLookahead, mnAction, mxLookahead, nterminal, nsymbol, nAction, makeItSafe, i, log);
      if AllExact(aAction, log) {
        ExactUnlessBlocked(aAction, slots, aLookahead, mnLookahead, mnAction, mxLookahead, nterminal, nsymbol, nAction, makeItSafe,
                           i, log);
      }
      SpacedWritten(aAction, slots, aLookahead, mnLookahead, i, nterminal, makeItSafe, nAction, n);
      log := log + [Entry(i - mnLookahead, Pairs(aLookahead), makeItSafe)];
      aAction, nAction := slots, n;
      aLookahead := [];
    }
  }

  // ----- two inputs

  /** The array may be too short for the padding behind a token set: with 29 tokens and one nonterminal, the very first
      set, a lone action on the last token, lies at offset 0 of the 51 slots, but nAction passes the allocation. */
  method FirstSetOverflows() returns (t: ActionTable, offset: int)
    ensures t.Valid() && t.nsymbol == 30 && t.nterminal == 29 && offset == 0 && t.log == [Entry(0, Pairs([Slot(28, 5)]), true)]
    ensures |t.aAction| == 51 && t.nAction == 58
  {
    hide Duplicate, FreeAt, Pairs, LogOk, Spaced, Blocked, Cramped;
    t := new ActionTable(30, 29);
    t.Add(28, 5);
    assert t.aLookahead == [Slot(28, 5)];
    assert |t.Grown()| == 51;
    offset := t.Insert(true);
  }

  /** All slots are used up to `n`, and none from there on. */
  ghost predicate Dense(slots: seq<Slot>, n: nat) {
    && n <= |slots| && (forall k :: 0 <= k < n ==> slots[k].lookahead >= 0)
    && forall k :: n <= k < |slots| ==> slots[k] == Unused
  }

  /** Behind densely used slots a lone pair goes to the next slot, unless it is hit from there. */
  lemma NextSlot(slots: seq<Slot>, x: Slot, n: nat, i: int)
    requires Dense(slots, n) && x.lookahead >= 0 && n + x.lookahead < |slots|
    requires Chosen(slots, [x], x.lookahead, x.lookahead, n, 0, i)
    requires forall k :: 0 <= k < n ==> slots[k] != x && slots[k].lookahead != k + x.lookahead - n
    ensures i == n && !Blocked(slots, [x], x.lookahead, x.lookahead, n)
  {
    hide Duplicate;
    TakenSlots(slots, x, n);
    assert FreeAt(slots, [x], x.lookahead, n, n);
  }

  lemma TakenSlots(slots: seq<Slot>, x: Slot, n: nat)
    requires Dense(slots, n) && forall k :: 0 <= k < n ==> slots[k] != x
    requires x.lookahead >= 0
    ensures forall k :: 0 <= k < n ==> !Duplicate(slots, [x], x.lookahead, k, n) && !FreeAt(slots, [x], x.lookahead, k, n)
  {
    hide FreeAt, Duplicate;
    forall k | 0 <= k < n
      ensures !Duplicate(slots, [x], x.lookahead, k, n) && !FreeAt(slots, [x], x.lookahead, k, n)
    {
      assert [x][0] == Slot(x.lookahead, x.action);
      NotThere(slots, [x], x.lookahead, x.action, x.lookahead, k, n);
      TakenIsNotFree(slots, [x], x.lookahead, x.action, k, n);
    }
  }

  /** A table of one token and 15 nonterminals whose 37 slots are densely used up to `n`. */
  ghost predicate Small(t: ActionTable, n: int)
    reads t
  {
    && t.Valid() && t.nsymbol == 16 && t.nterminal == 1 && t.aLookahead == [] && |t.aAction| == 37
    && t.nAction == n < 20 && |t.log| == n - 14 && Dense(t.aAction, n) && AllExact(t.aAction, t.log)
  }

  method InsertLone(t: ActionTable, x: Slot)
    requires Small(t, t.nAction) && 1 <= x.lookahead < 16 && t.nAction < 19
    requires forall k :: 0 <= k < t.nAction ==>
               t.aAction[k] != x && t.aAction[k].lookahead != k + x.lookahead - t.nAction
    modifies t
    ensures Small(t, old(t.nAction) + 1) && t.aAction == old(t.aAction)[old(t.nAction) := x]
  {
    hide Duplicate, FreeAt, Pairs, LogOk, Spaced, Blocked, AllExact, Chosen, Written;
    ghost var slots, n := t.aAction, t.nAction;
    t.Add(x.lookahead, x.action);
    assert t.aLookahead == [x];
    assert t.mnLookahead == x.lookahead == t.mxLookahead;
    assert t.Grown() == slots;
    var offset := t.Insert(false);
    NextSlot(slots, x, n, offset + x.lookahead);
    LoneWritten(slots, t.aAction, x, n);
  }

  lemma LoneWritten(slots: seq<Slot>, slots': seq<Slot>, x: Slot, n: nat)
    requires Written(slots, slots', [x], x.lookahead, n)
    ensures n < |slots| && slots' == slots[n := x]
  {
    assert Place([x][0].lookahead, x.lookahead, n) == n;
    assert Places([x], x.lookahead, n) == {n};
  }

  /** A first set of all nonterminals. */
  method InsertAll() returns (t: ActionTable)
    ensures fresh(t) && Small(t, 15) && forall k :: 0 <= k < 15 ==> t.aAction[k] == Slot(k + 1, 0)
  {
    hide Duplicate, Pairs, LogOk, Spaced, AllExact, Chosen, Blocked, Written;
    t := AddAll();
    ghost var slots := t.Grown();
    NothingLogged(t.aAction);
    var offset := t.Insert(false);
    FirstChosen(slots, offset + 1);
    FirstWritten(slots, t.aAction);
  }

  method AddAll() returns (t: ActionTable)
    ensures fresh(t) && t.Valid() && t.nsymbol == 16 && t.nterminal == 1 && t.aAction == [] && t.nAction == 0 && t.log == []
    ensures t.aLookahead == Everyone(15) && t.mnLookahead == 1 && t.mxLookahead == 15
  {
    hide LogOk, Spaced, AllExact;
    t := new ActionTable(16, 1);
    for k := 0 to 15
      invariant fresh(t) && t.Valid() && t.nsymbol == 16 && t.nterminal == 1 && t.aAction == [] && t.nAction == 0 && t.log == []
      invariant t.aLookahead == Everyone(k)
    {
      assert Everyone(k + 1) == Everyone(k) + [Slot(k + 1, 0)];
      t.Add(k + 1, 0);
    }
    assert t.aLookahead[0] == Slot(1, 0) && t.aLookahead[14] == Slot(15, 0);
  }

  ghost function Everyone(n: nat): seq<Slot> {
    seq(n, k => Slot(k + 1, 0))
  }

  lemma NothingLogged(slots: seq<Slot>)
    ensures AllExact(slots, [])
  {
  }

  lemma FirstChosen(slots: seq<Slot>, i: int)
    requires Dense(slots, 0) && |slots| == 37 && Chosen(slots, Everyone(15), 1, 15, 0, 0, i)
    ensures i == 0 && !Blocked(slots, Everyone(15), 1, 15, 0)
  {
    assert FreeAt(slots, Everyone(15), 1, 0, 0);
  }

  lemma FirstWritten(slots: seq<Slot>, slots': seq<Slot>)
    requires Dense(slots, 0) && |slots| == 37 && Written(slots, slots', Everyone(15), 1, 0)
    ensures |slots'| == 37 && Dense(slots', 15) && forall k :: 0 <= k < 15 ==> slots'[k] == Slot(k + 1, 0)
  {
    var txn := Everyone(15);
    forall k | 0 <= k < 15 ensures slots'[k] == Slot(k + 1, 0) {
      assert Place(txn[k].lookahead, 1, 0) == k;
    }
    forall k | 15 <= k < 37 ensures slots'[k] == Unused {
      assert k !in Places(txn, 1, 0);
    }
  }

  /** The slots after the four lone pairs. */
  ghost predicate Crowded(slots: seq<Slot>) {
    && |slots| == 37 && Dense(slots, 19) && (forall k :: 0 <= k < 15 ==> slots[k] == Slot(k + 1, 0))
    && slots[15..19] == [Slot(8, 1), Slot(10, 2), Slot(12, 3), Slot(14, 4)]
  }

  lemma NoHoleLeft(slots: seq<Slot>, x: Slot, i: int)
    requires Crowded(slots) && x == Slot(15, 5) && Chosen(slots, [x], 15, 15, 19, 0, i)
    ensures i == 22 && Blocked(slots, [x], 15, 15, 19)
  {
    hide Duplicate;
    TakenSlots(slots, x, 19);
    assert slots[15..19][0] == slots[15] && slots[15..19][1] == slots[16];
    assert slots[15..19][2] == slots[17] && slots[15..19][3] == slots[18];
    assert Hits(slots, 18, 15, 19) && Hits(slots, 17, 15, 20) && Hits(slots, 16, 15, 21) && Hits(slots, 15, 15, 22);
  }

  /** A set may come to lie where another lookahead is read, too: the scan for a hole ends before the lone pair on
      nonterminal 15 finds one, at offset 7, from which nonterminal 8 is read. */
  method LastSetClashes() returns (t: ActionTable)
    ensures t.Valid() && |t.log| == 6 && t.log[5] == Entry(7, Pairs([Slot(15, 5)]), false) && !AllExact(t.aAction, t.log)
  {
    hide Duplicate, FreeAt, Pairs, LogOk, Spaced, Blocked, AllExact, Chosen, Written;
    t := Crowd();
    ghost var slots := t.aAction;
    t.Add(15, 5);
    assert t.aLookahead == [Slot(15, 5)];
    assert t.Grown() == slots;
    var offset := t.Insert(false);
    NoHoleLeft(slots, Slot(15, 5), offset + 15);
  }

  method Crowd() returns (t: ActionTable)
    ensures fresh(t) && Small(t, 19) && Crowded(t.aAction)
  {
    hide AllExact, LogOk, Spaced;
    t := InsertAll();
    InsertLone(t, Slot(8, 1));
    InsertLone(t, Slot(10, 2));
    InsertLone(t, Slot(12, 3));
    InsertLone(t, Slot(14, 4));
  }
}
