/** The tables of ReportTable, and their lookups. */
module Packed {
  // What tools/lemon/lemon.c writes and the driver in tools/lemon/lempar.c reads.

  import opened Grammars
  import opened Driver
  import opened Conflicts
  import opened ActionLists
  import opened MergeSort
  import opened States
  import opened Resort
  import opened Wrappers
  import T = Acttab

  // ----- action numbers

  /** A shift is the new number of its state; minShiftReduce, errAction, accAction, noAction and minReduce follow the
      numbers of all states and the nr rules. */
  function Encode(num: Numbering, nr: nat, act: Act): nat {
    var ns := |num.sorted|;
    match act
    case Shift(q) => if q < |num.statenum| then num.statenum[q] else ns
    case ShiftReduce(r) => ns + r
    case Error => ns + nr
    case Accept => ns + nr + 1
    case Reduce(r) => ns + nr + 3 + r
  }

  function NoAction(num: Numbering, nr: nat): nat {
    |num.sorted| + nr + 2
  }

  function DecodeNum(num: Numbering, nr: nat, x: nat): Act {
    var ns := |num.sorted|;
    if x < ns then Shift(num.sorted[x])
    else if x < ns + nr then ShiftReduce(x - ns)
    else if x == ns + nr + 1 then Accept
    else if x >= ns + nr + 3 then Reduce(x - (ns + nr + 3))
    else Error
  }

  /** A shift leads to a state that was kept. */
  predicate InRange(num: Numbering, nr: nat, act: Act) {
    match act
    case Shift(q) => q < |num.statenum| && num.statenum[q] < num.nxstate
    case ShiftReduce(r) => r < nr
    case _ => true
  }

  lemma NumbersRoundTrip(num: Numbering, nr: nat, act: Act)
    requires ValidNumbering(num, |num.sorted|) && InRange(num, nr, act)
    ensures var x := Encode(num, nr, act);
            DecodeNum(num, nr, x) == act && x != NoAction(num, nr) && (x < |num.sorted| ==> x < num.nxstate)
  {
  }

  // ----- the sets laid into the table

  /** The pairs a state contributes: those on tokens, or those on nonterminals. */
  function SetOf(g: Grammar, num: Numbering, nr: nat, tokens: bool, acts: seq<Action>): seq<T.Slot> {
    if acts == [] then []
    else
      var x := acts[|acts| - 1];
      SetOf(g, num, nr, tokens, acts[..|acts| - 1])
      + if Belongs(g, tokens, x) then [T.Slot(x.sp, Encode(num, nr, Decode(g, x)))] else []
  }

  lemma {:induction false} SetOfSize(g: Grammar, num: Numbering, nr: nat, tokens: bool, acts: seq<Action>)
    ensures |SetOf(g, num, nr, tokens, acts)| == Size(g, tokens, acts)
    decreases |acts|
  {
    if acts != [] {
      SetOfSize(g, num, nr, tokens, acts[..|acts| - 1]);
    }
  }

  lemma {:induction false} SetOfIs(g: Grammar, num: Numbering, nr: nat, tokens: bool, acts: seq<Action>, la: int)
    requires g.nterminal <= g.nsymbol
    ensures var pairs := T.Pairs(SetOf(g, num, nr, tokens, acts)); var m := Entries(g, acts);
      && (la in pairs ==> 0 <= la)
      && (la in pairs <==> 0 <= la && la in m && (if tokens then la < g.nterminal else g.nterminal <= la < g.nsymbol))
      && (la in pairs ==> pairs[la] == Encode(num, nr, m[la]))
    decreases |acts|
  {
    if acts != [] {
      var front, x := acts[..|acts| - 1], acts[|acts| - 1];
      SetOfIs(g, num, nr, tokens, front, la);
      var s := SetOf(g, num, nr, tokens, front);
      assert s + [] == s;
      if Belongs(g, tokens, x) {
        assert (s + [T.Slot(x.sp, Encode(num, nr, Decode(g, x)))])[..|s|] == s;
      }
    }
  }

  lemma {:induction false} SetOfMembers(g: Grammar, num: Numbering, nr: nat, tokens: bool, acts: seq<Action>, i: nat)
    requires i < |SetOf(g, num, nr, tokens, acts)|
    ensures exists k :: 0 <= k < |acts| && Belongs(g, tokens, acts[k]) && acts[k].sp == SetOf(g, num, nr, tokens, acts)[i].lookahead
    decreases |acts|
  {
    var front := acts[..|acts| - 1];
    if i < |SetOf(g, num, nr, tokens, front)| {
      SetOfMembers(g, num, nr, tokens, front, i);
      var k :| 0 <= k < |front| && Belongs(g, tokens, front[k]) && front[k].sp == SetOf(g, num, nr, tokens, front)[i].lookahead;
      assert acts[k] == front[k];
    } else {
      assert acts[|acts| - 1].sp == SetOf(g, num, nr, tokens, acts)[i].lookahead;
    }
  }

  lemma {:induction false} SetOfDistinct(g: Grammar, num: Numbering, nr: nat, tokens: bool, acts: seq<Action>)
    requires OneEmitted(acts) && DistinctIds(acts)
    ensures T.Distinct(SetOf(g, num, nr, tokens, acts))
    decreases |acts|
  {
    if acts != [] {
      var front, x := acts[..|acts| - 1], acts[|acts| - 1];
      assert acts == front + [x];
      SetOfDistinct(g, num, nr, tokens, front);
      if Belongs(g, tokens, x) {
        var s := SetOf(g, num, nr, tokens, front);
        forall i | 0 <= i < |s| ensures s[i].lookahead != x.sp {
          SetOfMembers(g, num, nr, tokens, front, i);
          var k :| 0 <= k < |front| && Belongs(g, tokens, front[k]) && front[k].sp == s[i].lookahead;
          assert acts[k].id != x.id;
        }
      }
    }
  }

  /** Collect the pairs of a state into the transaction set. */
  method FillSet(t: T.ActionTable, g: Grammar, num: Numbering, nr: nat, tokens: bool, acts: seq<Action>)
    requires t.Valid() && t.aLookahead == [] && OneEmitted(acts) && DistinctIds(acts)
    modifies t
    ensures t.Valid() && t.aLookahead == SetOf(g, num, nr, tokens, acts)
    ensures t.log == old(t.log) && t.nAction == old(t.nAction) && t.aAction == old(t.aAction)
  {
    for i := 0 to |acts|
      invariant t.Valid() && t.aLookahead == SetOf(g, num, nr, tokens, acts[..i])
      invariant t.log == old(t.log) && t.nAction == old(t.nAction) && t.aAction == old(t.aAction)
    {
      assert acts[..i + 1][..i] == acts[..i];
      if Belongs(g, tokens, acts[i]) {
        SetOfDistinct(g, num, nr, tokens, acts[..i + 1]);
        t.Add(acts[i].sp, Encode(num, nr, Decode(g, acts[i])));
      }
    }
    assert acts[..|acts|] == acts;
  }

  /** The set of a state as inserted: nothing to insert (NoOffset), or its offset. */
  datatype Offset = NoOffset | At(offset: int)

  /** The set is in the table. */
  ghost predicate SetStored(g: Grammar, num: Numbering, nr: nat, acts: seq<Action>, tokens: bool, log: seq<T.Entry>, o: Offset) {
    match o
    case NoOffset => Size(g, tokens, acts) == 0
    case At(ofst) =>
      Size(g, tokens, acts) > 0 && T.Entry(ofst, T.Pairs(SetOf(g, num, nr, tokens, acts)), tokens) in log && (tokens ==> 0 <= ofst)
  }

  /** One transaction: all pairs of a state on tokens (made safe) or on nonterminals. Only the padding behind a token set
      may pass the end of the array. */
  method InsertSet(t: T.ActionTable, g: Grammar, num: Numbering, nr: nat, tokens: bool, acts: seq<Action>) returns (ofst: Offset)
    requires t.Valid() && t.aLookahead == [] && OneEmitted(acts) && DistinctIds(acts)
    requires t.nsymbol == g.nsymbol && t.nterminal == g.nterminal <= g.nsymbol
    modifies t
    ensures t.Valid() && t.aLookahead == [] && old(t.log) <= t.log && SetStored(g, num, nr, acts, tokens, t.log, ofst)
    ensures ofst.At? && t.nAction > |t.aAction| ==> tokens && g.nsymbol + 1 < 2 * g.nterminal
    ensures var x := T.Txn(SetOf(g, num, nr, tokens, acts), tokens);
      Size(g, tokens, acts) > 0 ==>
        && T.Laid(g.nterminal, g.nsymbol, old(t.aAction), old(t.nAction), x, t.aAction, t.nAction)
        && (t.nAction > |t.aAction| <==> T.CrampedIn(g.nterminal, g.nsymbol, old(t.aAction), old(t.nAction), x))
    ensures ofst.NoOffset? ==> t.nAction == old(t.nAction) && t.aAction == old(t.aAction)
  {
    FillSet(t, g, num, nr, tokens, acts);
    ofst := NoOffset;
    SetOfSize(g, num, nr, tokens, acts);
    if t.aLookahead != [] {
      SetOfDistinct(g, num, nr, tokens, acts);
      assert t.Ready(tokens) by {
        var i :| 0 <= i < |t.aLookahead| && t.aLookahead[i].lookahead == t.mxLookahead;
        SetOfMembers(g, num, nr, tokens, acts, i);
        var j :| 0 <= j < |t.aLookahead| && t.aLookahead[j].lookahead == t.mnLookahead;
        SetOfMembers(g, num, nr, tokens, acts, j);
      }
      hide T.Pairs, T.LogOk, T.Spaced, T.Distinct, T.Chosen, T.Written, SetOf, Size, T.SetBounds, OneEmitted, DistinctIds, T.Laid, T.CrampedIn, T.Growth;
      var o := t.Insert(tokens);
      ofst := At(o);
    }
  }

  // ----- the largest sets first

  /** One of the two sets of a row of the tables. */
  datatype AxSet = AxSet(row: nat, isTkn: bool, nAction: nat, iOrder: nat)

  /** axset_compare */
  function AxCmp(a: AxSet, b: AxSet): int {
    if a.nAction != b.nAction then b.nAction - a.nAction else a.iOrder - b.iOrder
  }

  lemma AxOrder()
    ensures TotalPreorder(AxCmp)
  {
    assert forall x, y, z :: Transitive(AxCmp, x, y, z);
    assert forall x, y :: Coherent(AxCmp, x, y);
  }

  function AxAt(g: Grammar, rows: seq<seq<Action>>, k: nat): AxSet
    requires k < 2 * |rows|
  {
    AxSet(k / 2, k % 2 == 0, Size(g, k % 2 == 0, rows[k / 2]), k)
  }

  /** Every set of every row is there once, with its size, in order: none is larger than one before it. */
  ghost predicate AllSets(g: Grammar, rows: seq<seq<Action>>, ax: seq<AxSet>) {
    && (forall k :: 0 <= k < |ax| ==> ax[k].iOrder < 2 * |rows| && ax[k] == AxAt(g, rows, ax[k].iOrder))
    && NoDuplicates(ax)
    && (forall n: nat :: n < 2 * |rows| ==> AxAt(g, rows, n) in ax)
    && Sorted(AxCmp, ax) && LargestFirst(ax)
  }

  ghost predicate LargestFirst(ax: seq<AxSet>) {
    forall i, j :: 0 <= i < j < |ax| ==>
      ax[i].nAction > ax[j].nAction || (ax[i].nAction == ax[j].nAction && ax[i].iOrder < ax[j].iOrder)
  }

  method SortSets(g: Grammar, rows: seq<seq<Action>>) returns (ax: seq<AxSet>)
    ensures AllSets(g, rows, ax)
  {
    var all: seq<AxSet> := [];
    for i := 0 to |rows|
      invariant |all| == 2 * i && forall k :: 0 <= k < |all| ==> all[k] == AxAt(g, rows, k)
    {
      var nTknAct, nNtAct := CountActions(g, rows[i]);
      all := all + [AxSet(i, true, nTknAct, 2 * i), AxSet(i, false, nNtAct, 2 * i + 1)];
    }
    hide TotalPreorder, StableRearrangement, AxAt;
    AxOrder();
    ax := Msort(all, AxCmp);
    SetsPermuted(g, rows, all, ax);
  }

  lemma SetsPermuted(g: Grammar, rows: seq<seq<Action>>, all: seq<AxSet>, ax: seq<AxSet>)
    requires |all| == 2 * |rows| && (forall k :: 0 <= k < |all| ==> all[k] == AxAt(g, rows, k))
    requires multiset(ax) == multiset(all) && Sorted(AxCmp, ax)
    ensures AllSets(g, rows, ax)
  {
    assert NoDuplicates(all) by {
      forall i, j | 0 <= i < j < |all| ensures all[i] != all[j] {
        assert all[i].iOrder == i && all[j].iOrder == j;
      }
    }
    SamePermuted(all, ax);
    forall k | 0 <= k < |ax| ensures ax[k].iOrder < 2 * |rows| && ax[k] == AxAt(g, rows, ax[k].iOrder) {
      assert ax[k] in Elems(all);
    }
    forall n: nat | n < 2 * |rows| ensures AxAt(g, rows, n) in ax {
      assert all[n] in Elems(ax);
    }
    forall i, j | 0 <= i < j < |ax|
      ensures ax[i].nAction > ax[j].nAction || (ax[i].nAction == ax[j].nAction && ax[i].iOrder < ax[j].iOrder)
    {
      assert AxCmp(ax[i], ax[j]) <= 0 && ax[i] != ax[j];
    }
  }

  ghost predicate StoredAt(g: Grammar, num: Numbering, nr: nat, rows: seq<seq<Action>>, log: seq<T.Entry>,
                           tkn: Offset, nt: Offset, i: nat)
    requires i < |rows|
  {
    SetStored(g, num, nr, rows[i], true, log, tkn) && SetStored(g, num, nr, rows[i], false, log, nt)
  }

  /** The sets of all rows are in the table. */
  ghost predicate AllStored(g: Grammar, num: Numbering, nr: nat, rows: seq<seq<Action>>, log: seq<T.Entry>,
                            tkn: seq<Offset>, nt: seq<Offset>) {
    && |tkn| == |nt| == |rows|
    && forall i: nat :: i < |rows| ==> StoredAt(g, num, nr, rows, log, tkn[i], nt[i], i)
  }

  function OffsetOf(a: AxSet, tkn: seq<Offset>, nt: seq<Offset>): Offset
    requires a.row < |tkn| == |nt|
  {
    if a.isTkn then tkn[a.row] else nt[a.row]
  }

  /** The sets `ax[..k]` are in the table, and no other has an offset. */
  ghost predicate StoredUpTo(g: Grammar, num: Numbering, nr: nat, rows: seq<seq<Action>>, ax: seq<AxSet>,
                             log: seq<T.Entry>, tkn: seq<Offset>, nt: seq<Offset>, k: nat) {
    && |tkn| == |nt| == |rows| && k <= |ax|
    && (forall j :: 0 <= j < |ax| ==> ax[j].row < |rows|)
    && (forall j :: 0 <= j < k ==>
          SetStored(g, num, nr, rows[ax[j].row], ax[j].isTkn, log, OffsetOf(ax[j], tkn, nt)))
    && (forall j :: k <= j < |ax| ==> OffsetOf(ax[j], tkn, nt) == NoOffset)
  }

  lemma StoredMore(g: Grammar, num: Numbering, nr: nat, rows: seq<seq<Action>>, ax: seq<AxSet>,
                   log: seq<T.Entry>, tkn: seq<Offset>, nt: seq<Offset>, k: nat,
                   log': seq<T.Entry>, tkn': seq<Offset>, nt': seq<Offset>)
    requires AllSets(g, rows, ax) && StoredUpTo(g, num, nr, rows, ax, log, tkn, nt, k) && k < |ax|
    requires log <= log' && |tkn'| == |nt'| == |rows|
    requires var o := OffsetOf(ax[k], tkn', nt');
             && SetStored(g, num, nr, rows[ax[k].row], ax[k].isTkn, log', o)
             && tkn' == (if ax[k].isTkn then tkn[ax[k].row := o] else tkn)
             && nt' == (if ax[k].isTkn then nt else nt[ax[k].row := o])
    ensures StoredUpTo(g, num, nr, rows, ax, log', tkn', nt', k + 1)
  {
    hide SetOf, T.Pairs, Size;
    assert log' == log + log'[|log|..];
    forall j | 0 <= j < |ax| && j != k ensures OffsetOf(ax[j], tkn', nt') == OffsetOf(ax[j], tkn, nt) {
      assert ax[j] != ax[k];
    }
  }

  /** The sets left over when the next one is empty are all empty. */
  lemma StoredAll(g: Grammar, num: Numbering, nr: nat, rows: seq<seq<Action>>, ax: seq<AxSet>,
                  log: seq<T.Entry>, tkn: seq<Offset>, nt: seq<Offset>, k: nat)
    requires AllSets(g, rows, ax) && StoredUpTo(g, num, nr, rows, ax, log, tkn, nt, k)
    requires k < |ax| ==> ax[k].nAction == 0
    ensures AllStored(g, num, nr, rows, log, tkn, nt)
  {
    hide SetOf, T.Pairs, Size;
    forall n: nat | n < 2 * |rows|
      ensures SetStored(g, num, nr, rows[n / 2], n % 2 == 0, log, if n % 2 == 0 then tkn[n / 2] else nt[n / 2])
    {
      assert AxAt(g, rows, n) in ax;
      var j :| 0 <= j < |ax| && ax[j] == AxAt(g, rows, n);
      if j >= k {
        assert k < j ==> AxCmp(ax[k], ax[j]) <= 0;
      }
    }
    forall i: nat | i < |rows| ensures StoredAt(g, num, nr, rows, log, tkn[i], nt[i], i) {
      assert (2 * i) / 2 == i && (2 * i + 1) / 2 == i;
      assert SetStored(g, num, nr, rows[(2 * i) / 2], (2 * i) % 2 == 0, log, tkn[i]);
      assert SetStored(g, num, nr, rows[(2 * i + 1) / 2], (2 * i + 1) % 2 == 0, log, nt[i]);
    }
  }

  /** The last set in the order that is not empty is one of tokens. */
  ghost predicate TokensLast(g: Grammar, rows: seq<seq<Action>>) {
    exists k: nat :: k < 2 * |rows| && IsLast(g, rows, k) && AxAt(g, rows, k).isTkn
  }

  ghost predicate IsLast(g: Grammar, rows: seq<seq<Action>>, k: nat)
    requires k < 2 * |rows|
  {
    && AxAt(g, rows, k).nAction > 0
    && forall n: nat :: n < 2 * |rows| && AxAt(g, rows, n).nAction > 0 ==> AxCmp(AxAt(g, rows, n), AxAt(g, rows, k)) <= 0
  }

  lemma LastInserted(g: Grammar, rows: seq<seq<Action>>, ax: seq<AxSet>, k: nat)
    requires AllSets(g, rows, ax) && 0 < k <= |ax| && ax[k - 1].nAction > 0 && (k < |ax| ==> ax[k].nAction == 0)
    ensures IsLast(g, rows, ax[k - 1].iOrder)
  {
    hide AxAt, NoDuplicates, LargestFirst;
    forall n: nat | n < 2 * |rows| && AxAt(g, rows, n).nAction > 0 ensures AxCmp(AxAt(g, rows, n), ax[k - 1]) <= 0 {
      var j :| 0 <= j < |ax| && ax[j] == AxAt(g, rows, n);
      assert j >= k ==> j == k || AxCmp(ax[k], ax[j]) <= 0;
      assert j < k - 1 ==> AxCmp(ax[j], ax[k - 1]) <= 0;
    }
  }

  // ----- when the slots in use pass the end of the array

  /** The sets in the order, up to `k`, as they are inserted. */
  ghost function Inserted(g: Grammar, num: Numbering, rows: seq<seq<Action>>, ax: seq<AxSet>, k: nat): seq<T.Txn>
    requires k <= |ax| && forall j :: 0 <= j < |ax| ==> ax[j].row < |rows|
  {
    if k == 0 then [] else Inserted(g, num, rows, ax, k - 1) + [TxnOf(g, num, rows, ax[k - 1])]
  }

  function TxnOf(g: Grammar, num: Numbering, rows: seq<seq<Action>>, a: AxSet): T.Txn
    requires a.row < |rows|
  {
    T.Txn(SetOf(g, num, |g.rules|, a.isTkn, rows[a.row]), a.isTkn)
  }

  /** The sets before the last one make a table in which that one is a cramped set of tokens. */
  ghost predicate OverrunsBy(g: Grammar, num: Numbering, rows: seq<seq<Action>>, ax: seq<AxSet>, k: nat, slots: seq<T.Slot>, n: nat) {
    && LastOf(g, rows, ax, k) && T.Makes(g.nterminal, g.nsymbol, Inserted(g, num, rows, ax, k - 1), slots, n)
    && T.CrampedIn(g.nterminal, g.nsymbol, slots, n, TxnOf(g, num, rows, ax[k - 1]))
  }

  /** `ax` has all sets in order, and the first `k` of them are those that are not empty. */
  ghost predicate LastOf(g: Grammar, rows: seq<seq<Action>>, ax: seq<AxSet>, k: nat) {
    && AllSets(g, rows, ax) && 0 < k <= |ax| && ax[k - 1].nAction > 0 && (k < |ax| ==> ax[k].nAction == 0)
    && forall j :: 0 <= j < |ax| ==> ax[j].row < |rows|
  }

  ghost predicate Overruns(g: Grammar, num: Numbering, rows: seq<seq<Action>>) {
    exists ax, k: nat, slots, n: nat :: OverrunsBy(g, num, rows, ax, k, slots, n)
  }

  lemma {:induction false} SameOrder(g: Grammar, rows: seq<seq<Action>>, ax: seq<AxSet>, ax': seq<AxSet>, k: nat)
    requires AllSets(g, rows, ax) && AllSets(g, rows, ax') && k <= |ax| && k <= |ax'|
    ensures ax[..k] == ax'[..k]
    decreases k
  {
    hide AxAt;
    if k > 0 {
      SameOrder(g, rows, ax, ax', k - 1);
      NotAfter(g, rows, ax, ax', k - 1);
      NotAfter(g, rows, ax', ax, k - 1);
      assert ax[..k] == ax[..k - 1] + [ax[k - 1]] && ax'[..k] == ax'[..k - 1] + [ax'[k - 1]];
    }
  }

  lemma NotAfter(g: Grammar, rows: seq<seq<Action>>, ax: seq<AxSet>, ax': seq<AxSet>, k: nat)
    requires AllSets(g, rows, ax) && AllSets(g, rows, ax') && k < |ax| && k < |ax'| && ax[..k] == ax'[..k]
    ensures AxCmp(ax[k], ax'[k]) <= 0
  {
    hide AxAt;
    assert ax'[k] in ax;
    var j :| 0 <= j < |ax| && ax[j] == ax'[k];
    assert forall i :: 0 <= i < k ==> ax[i] == ax[..k][i] == ax'[..k][i] == ax'[i];
  }

  /** There is one order of the sets. */
  lemma OneOrder(g: Grammar, rows: seq<seq<Action>>, ax: seq<AxSet>, ax': seq<AxSet>)
    requires AllSets(g, rows, ax) && AllSets(g, rows, ax')
    ensures ax == ax'
  {
    NotLonger(g, rows, ax, ax');
    NotLonger(g, rows, ax', ax);
    SameOrder(g, rows, ax, ax', |ax|);
    assert ax[..|ax|] == ax && ax'[..|ax'|] == ax';
  }

  lemma NotLonger(g: Grammar, rows: seq<seq<Action>>, ax: seq<AxSet>, ax': seq<AxSet>)
    requires AllSets(g, rows, ax) && AllSets(g, rows, ax')
    ensures |ax'| <= |ax|
  {
    hide AxAt, NoDuplicates;
    if |ax'| > |ax| {
      var extra := ax'[|ax|];
      SameOrder(g, rows, ax, ax', |ax|);
      ExtraIsNew(ax, ax');
    }
  }

  lemma ExtraIsNew(ax: seq<AxSet>, ax': seq<AxSet>)
    requires |ax| < |ax'| && ax[..|ax|] == ax'[..|ax|] && NoDuplicates(ax')
    ensures ax'[|ax|] !in ax
  {
    forall i | 0 <= i < |ax| ensures ax[i] != ax'[|ax|] {
      assert ax[i] == ax[..|ax|][i] == ax'[..|ax|][i] == ax'[i];
    }
  }

  lemma OneLast(g: Grammar, rows: seq<seq<Action>>, ax: seq<AxSet>, k: nat, k': nat)
    requires LastOf(g, rows, ax, k) && LastOf(g, rows, ax, k')
    ensures k <= k'
  {
    hide LargestFirst;
    assert k > k' ==> k' == k - 1 || AxCmp(ax[k'], ax[k - 1]) <= 0;
  }

  /** So it does not matter which order and which table are looked at. */
  lemma OverrunsIff(g: Grammar, num: Numbering, rows: seq<seq<Action>>, ax: seq<AxSet>, k: nat, slots: seq<T.Slot>, n: nat)
    requires LastOf(g, rows, ax, k) && T.Makes(g.nterminal, g.nsymbol, Inserted(g, num, rows, ax, k - 1), slots, n)
    ensures Overruns(g, num, rows) <==> T.CrampedIn(g.nterminal, g.nsymbol, slots, n, TxnOf(g, num, rows, ax[k - 1]))
  {
    hide LastOf, T.Makes, T.CrampedIn, Inserted, TxnOf;
    LastMeans(g, rows, ax, k);
    if T.CrampedIn(g.nterminal, g.nsymbol, slots, n, TxnOf(g, num, rows, ax[k - 1])) {
      assert OverrunsBy(g, num, rows, ax, k, slots, n);
    }
    if Overruns(g, num, rows) {
      var ax', k': nat, slots', n': nat :| OverrunsBy(g, num, rows, ax', k', slots', n');
      LastMeans(g, rows, ax', k');
      OneOrder(g, rows, ax, ax');
      OneLast(g, rows, ax, k, k');
      OneLast(g, rows, ax, k', k);
      T.OneTable(g.nterminal, g.nsymbol, Inserted(g, num, rows, ax, k - 1), slots, n, slots', n');
    }
  }

  lemma LastMeans(g: Grammar, rows: seq<seq<Action>>, ax: seq<AxSet>, k: nat)
    requires LastOf(g, rows, ax, k)
    ensures AllSets(g, rows, ax) && 0 < k <= |ax| && forall j :: 0 <= j < |ax| ==> ax[j].row < |rows|
  {
  }

  lemma MakesMore(g: Grammar, num: Numbering, rows: seq<seq<Action>>, ax: seq<AxSet>, k: nat, slots: seq<T.Slot>, n: nat,
                  slots': seq<T.Slot>, n': nat)
    requires k < |ax| && forall j :: 0 <= j < |ax| ==> ax[j].row < |rows|
    requires T.Makes(g.nterminal, g.nsymbol, Inserted(g, num, rows, ax, k), slots, n)
    requires T.Laid(g.nterminal, g.nsymbol, slots, n, TxnOf(g, num, rows, ax[k]), slots', n')
    ensures T.Makes(g.nterminal, g.nsymbol, Inserted(g, num, rows, ax, k + 1), slots', n')
  {
    hide T.Laid, TxnOf;
    var sets := Inserted(g, num, rows, ax, k + 1);
    assert sets[..|sets| - 1] == Inserted(g, num, rows, ax, k) && sets[|sets| - 1] == TxnOf(g, num, rows, ax[k]);
    assert T.LaidLast(g.nterminal, g.nsymbol, slots, n, sets, slots', n');
  }

  lemma NothingToInsert(g: Grammar, num: Numbering, rows: seq<seq<Action>>, ax: seq<AxSet>)
    requires AllSets(g, rows, ax) && (ax == [] || ax[0].nAction == 0)
    ensures !Overruns(g, num, rows)
  {
    hide T.Makes, T.CrampedIn, Inserted, TxnOf;
    if Overruns(g, num, rows) {
      var ax', k: nat, slots, n: nat :| OverrunsBy(g, num, rows, ax', k, slots, n);
      OneOrder(g, rows, ax, ax');
    }
  }

  /** All sets into a new action table, the largest first. If the slots in use pass the end of the array, then behind
      the last set, which is one of tokens, and there are more tokens than nonterminals, plus one. */
  method StoreSets(g: Grammar, num: Numbering, rows: seq<seq<Action>>)
    returns (t: T.ActionTable, tkn: seq<Offset>, nt: seq<Offset>)
    requires WfGrammar(g) && forall i: nat :: i < |rows| ==> OneEmitted(rows[i]) && DistinctIds(rows[i])
    ensures fresh(t) && t.Valid() && AllStored(g, num, |g.rules|, rows, t.log, tkn, nt)
    ensures t.nterminal == g.nterminal && t.nsymbol == g.nsymbol
    ensures t.nAction > |t.aAction| <==> Overruns(g, num, rows)
    ensures t.nAction > |t.aAction| ==> TokensLast(g, rows) && g.nsymbol + 1 < 2 * g.nterminal
  {
    hide SetStored, OneEmitted, DistinctIds, SetOf, T.LogOk, T.Spaced, Size, AllSets, StoredUpTo, T.Makes, T.Laid, T.CrampedIn, T.Growth;
    var ax := SortSets(g, rows);
    NothingStored(g, num, |g.rules|, rows, ax);
    t := new T.ActionTable(g.nsymbol, g.nterminal);
    tkn, nt := seq(|rows|, _ => NoOffset), seq(|rows|, _ => NoOffset);
    var k := 0;
    ghost var slots: seq<T.Slot>, n: nat := [], 0;
    AllRows(g, rows, ax);
    EmptyTable(g, num, rows, ax);
    while k < |ax| && ax[k].nAction > 0
      invariant fresh(t) && t.Valid() && t.aLookahead == [] && t.nsymbol == g.nsymbol && t.nterminal == g.nterminal
      invariant |tkn| == |nt| == |rows| && StoredUpTo(g, num, |g.rules|, rows, ax, t.log, tkn, nt, k)
      invariant k <= |ax| && (k > 0 ==> ax[k - 1].nAction > 0)
      invariant t.nAction > |t.aAction| ==> k > 0 && ax[k - 1].isTkn && g.nsymbol + 1 < 2 * g.nterminal
      invariant T.Makes(g.nterminal, g.nsymbol, Inserted(g, num, rows, ax, k), t.aAction, t.nAction)
      invariant k > 0 ==> T.Makes(g.nterminal, g.nsymbol, Inserted(g, num, rows, ax, k - 1), slots, n)
      invariant k > 0 ==> (t.nAction > |t.aAction| <==> T.CrampedIn(g.nterminal, g.nsymbol, slots, n, TxnOf(g, num, rows, ax[k - 1])))
    {
      slots, n := t.aAction, t.nAction;
      ghost var log, tkn0, nt0 := t.log, tkn, nt;
      SetAt(g, rows, ax, k);
      var o := InsertSet(t, g, num, |g.rules|, ax[k].isTkn, rows[ax[k].row]);
      StoredThere(g, num, |g.rules|, rows[ax[k].row], ax[k].isTkn, t.log, o);
      if ax[k].isTkn {
        tkn := tkn[ax[k].row := o];
      } else {
        nt := nt[ax[k].row := o];
      }
      StoredMore(g, num, |g.rules|, rows, ax, log, tkn0, nt0, k, t.log, tkn, nt);
      MakesMore(g, num, rows, ax, k, slots, n, t.aAction, t.nAction);
      k := k + 1;
    }
    StoredAll(g, num, |g.rules|, rows, ax, t.log, tkn, nt, k);
    if k > 0 {
      assert LastOf(g, rows, ax, k);
      OverrunsIff(g, num, rows, ax, k, slots, n);
    } else {
      NothingToInsert(g, num, rows, ax);
    }
    if t.nAction > |t.aAction| {
      LastInserted(g, rows, ax, k);
      SetAt(g, rows, ax, k - 1);
    }
  }

  lemma AllRows(g: Grammar, rows: seq<seq<Action>>, ax: seq<AxSet>)
    requires AllSets(g, rows, ax)
    ensures forall j :: 0 <= j < |ax| ==> ax[j].row < |rows|
  {
  }

  lemma EmptyTable(g: Grammar, num: Numbering, rows: seq<seq<Action>>, ax: seq<AxSet>)
    requires forall j :: 0 <= j < |ax| ==> ax[j].row < |rows|
    ensures T.Makes(g.nterminal, g.nsymbol, Inserted(g, num, rows, ax, 0), [], 0)
  {
  }

  lemma SetAt(g: Grammar, rows: seq<seq<Action>>, ax: seq<AxSet>, k: nat)
    requires AllSets(g, rows, ax) && k < |ax|
    ensures ax[k].iOrder < 2 * |rows| && ax[k] == AxAt(g, rows, ax[k].iOrder)
    ensures ax[k].row < |rows| && ax[k].nAction == Size(g, ax[k].isTkn, rows[ax[k].row])
  {
  }

  lemma NothingStored(g: Grammar, num: Numbering, nr: nat, rows: seq<seq<Action>>, ax: seq<AxSet>)
    requires AllSets(g, rows, ax)
    ensures StoredUpTo(g, num, nr, rows, ax, [], seq(|rows|, _ => NoOffset), seq(|rows|, _ => NoOffset), 0)
  {
  }

  lemma StoredThere(g: Grammar, num: Numbering, nr: nat, acts: seq<Action>, tokens: bool, log: seq<T.Entry>, o: Offset)
    requires SetStored(g, num, nr, acts, tokens, log, o)
    ensures o.At? <==> Size(g, tokens, acts) > 0
  {
  }

  /** acttab_action_size: without the unused slots at the end. */
  method TrimmedSize(slots: seq<T.Slot>, nAction: nat) returns (n: nat)
    requires nAction <= |slots|
    ensures n <= nAction && (forall k :: n <= k < nAction ==> slots[k].lookahead < 0)
    ensures n > 0 ==> slots[n - 1].lookahead >= 0
  {
    n := nAction;
    while n > 0 && slots[n - 1].lookahead < 0
      invariant n <= nAction && forall k :: n <= k < nAction ==> slots[k].lookahead < 0
    {
      n := n - 1;
    }
  }

  /** YY_SHIFT_COUNT or YY_REDUCE_COUNT, plus 1: without the states at the end that have no offset. */
  function Kept(ofsts: seq<Offset>): (n: nat)
    ensures n <= |ofsts| && (forall i :: n <= i < |ofsts| ==> ofsts[i].NoOffset?) && (n > 0 ==> ofsts[n - 1].At?)
  {
    if ofsts == [] then 0
    else if ofsts[|ofsts| - 1].At? then |ofsts|
    else Kept(ofsts[..|ofsts| - 1])
  }

  method CountKept(ofsts: seq<Offset>) returns (n: nat)
    ensures n == Kept(ofsts)
  {
    n := |ofsts|;
    while n > 0 && ofsts[n - 1].NoOffset?
      invariant n <= |ofsts| && Kept(ofsts) == Kept(ofsts[..n])
    {
      assert ofsts[..n][..n - 1] == ofsts[..n - 1];
      n := n - 1;
    }
  }

  // ----- the tables of the generated parser

  /** YYNSTATE is nx, YYNTOKEN ntoken, YY_MIN_SHIFTREDUCE ns. */
  datatype Tables = Tables(ns: nat, nr: nat, nx: nat, ntoken: nat, yyAction: seq<int>, yyLookahead: seq<int>,
                           yyShiftOfst: seq<int>, yyReduceOfst: seq<int>, yyDefault: seq<nat>)

  /** `yy_find_shift_action` without fallback and wildcard, for a state number; -1 where an assertion fails. */
  function FindShift(t: Tables, tok: nat, i: nat): int {
    if i >= |t.yyShiftOfst| || i >= |t.yyDefault| || tok >= t.ntoken then -1 else
    var o := t.yyShiftOfst[i];
    if !(0 <= o <= |t.yyAction|) || o + t.ntoken > |t.yyLookahead| then -1
    else if t.yyLookahead[o + tok] != tok then t.yyDefault[i]
    else if o + tok >= |t.yyAction| then -1 else t.yyAction[o + tok]
  }

  /** `yy_find_reduce_action`; -1 where an assertion fails. */
  function FindReduce(t: Tables, i: nat, c: nat): int {
    if i >= |t.yyReduceOfst| then -1 else
    var k := t.yyReduceOfst[i] + c;
    if !(0 <= k < |t.yyAction|) || k >= |t.yyLookahead| || t.yyLookahead[k] != c then -1 else t.yyAction[k]
  }

  /** The written tables give the states that were kept their own actions. A token lookup stays inside the tables and
      yields the entry or the default, in every state up to the last one with an entry on a token; a lookup of a
      nonterminal with an entry yields that entry; and every shift is to a state that was kept. */
  ghost predicate TablesFor(g: Grammar, num: Numbering, ap: seq<seq<Action>>, t: Tables) {
    && ValidNumbering(num, |ap|) && t.ns == |ap| && t.nr == |g.rules| && t.nx == num.nxstate && t.ntoken == g.nterminal
    && |t.yyShiftOfst| <= t.nx
    && (forall i: nat, tok: nat :: i < |t.yyShiftOfst| && tok < g.nterminal ==> ShiftRight(g, num, ap, t, i, tok))
    && (forall i: nat :: |t.yyShiftOfst| <= i < t.nx ==> Size(g, true, ap[num.sorted[i]]) == 0)
    && (|t.yyShiftOfst| > 0 ==> Size(g, true, ap[num.sorted[|t.yyShiftOfst| - 1]]) > 0)
    && (forall i: nat, c: nat :: i < t.nx && g.nterminal <= c < g.nsymbol && c in Entries(g, ap[num.sorted[i]]) ==>
          GotoRight(g, num, ap, t, i, c))
  }

  /** The last state that was kept has an entry on a token. */
  ghost predicate LastHasToken(g: Grammar, num: Numbering, ap: seq<seq<Action>>)
    requires ValidNumbering(num, |ap|)
  {
    Size(g, true, ap[num.sorted[num.nxstate - 1]]) > 0
  }

  /** Every token lookup of every state that was kept stays inside the tables, and is right, if and only if the last one
      has an entry on a token. */
  lemma LookupsInside(g: Grammar, num: Numbering, ap: seq<seq<Action>>, t: Tables)
    requires TablesFor(g, num, ap, t) && 0 < g.nterminal
    ensures (forall i: nat, tok: nat :: i < t.nx && tok < g.nterminal ==> FindShift(t, tok, i) >= 0) <==> LastHasToken(g, num, ap)
    ensures LastHasToken(g, num, ap) ==>
              forall i: nat, tok: nat :: i < t.nx && tok < g.nterminal ==> ShiftRight(g, num, ap, t, i, tok)
  {
    hide Size, Lookup, TableOf, DecodeNum, Entries;
    if LastHasToken(g, num, ap) {
      assert |t.yyShiftOfst| == t.nx;
      forall i: nat, tok: nat | i < t.nx && tok < g.nterminal
        ensures FindShift(t, tok, i) >= 0 && ShiftRight(g, num, ap, t, i, tok)
      {
        assert ShiftRight(g, num, ap, t, i, tok);
      }
    } else {
      assert |t.yyShiftOfst| < t.nx;
      assert FindShift(t, 0, t.nx - 1) == -1;
    }
  }

  lemma LastLookupFails(g: Grammar, num: Numbering, ap: seq<seq<Action>>, t: Tables, tok: nat)
    requires TablesFor(g, num, ap, t) && !LastHasToken(g, num, ap)
    ensures FindShift(t, tok, num.nxstate - 1) == -1
  {
    hide Size, ShiftRight, GotoRight, Entries;
  }

  /** The number is that of the action, and of a kept state if it is a shift. */
  ghost predicate Means(num: Numbering, nr: nat, x: int, act: Act) {
    x >= 0 && DecodeNum(num, nr, x) == act && (x < |num.sorted| ==> x < num.nxstate)
  }

  ghost predicate ShiftRight(g: Grammar, num: Numbering, ap: seq<seq<Action>>, t: Tables, i: nat, tok: nat)
    requires i < |num.sorted|
  {
    Means(num, t.nr, FindShift(t, tok, i), Lookup(TableOf(g, ap), num.sorted[i], tok))
  }

  ghost predicate GotoRight(g: Grammar, num: Numbering, ap: seq<seq<Action>>, t: Tables, i: nat, c: nat)
    requires i < |num.sorted|
  {
    Means(num, t.nr, FindReduce(t, i, c), Lookup(TableOf(g, ap), num.sorted[i], c))
  }

  /** All actions fit the numbering. */
  ghost predicate AllInRange(g: Grammar, num: Numbering, ap: seq<seq<Action>>) {
    forall q: nat, c: nat :: q < |ap| ==> InRange(num, |g.rules|, Lookup(TableOf(g, ap), q, c))
  }

  /** The action lists of the states that were kept, in their new order. */
  function Rows(num: Numbering, ap: seq<seq<Action>>): seq<seq<Action>>
    requires num.nxstate <= |num.sorted| && forall i :: 0 <= i < |num.sorted| ==> num.sorted[i] < |ap|
  {
    seq(num.nxstate, i requires 0 <= i < num.nxstate => ap[num.sorted[i]])
  }

  /** The tables written from a filled action table. */
  function Written(g: Grammar, num: Numbering, rows: seq<seq<Action>>, slots: seq<T.Slot>, nAction: nat, n: nat,
                   tkn: seq<Offset>, nt: seq<Offset>, nShift: nat, nReduce: nat, dflt: int): Tables
    requires n <= nAction <= |slots| && |tkn| == |nt| == |rows| && nShift <= |tkn| && nReduce <= |nt|
  {
    var nx, nr := |rows|, |g.rules|;
    var extra := if n + g.nterminal > nAction then n + g.nterminal - nAction else 0;
    Tables(|num.sorted|, nr, nx, g.nterminal,
           seq(n, k requires 0 <= k < n => if slots[k].action < 0 then NoAction(num, nr) else slots[k].action),
           seq(nAction, k requires 0 <= k < nAction => if slots[k].lookahead < 0 then g.nsymbol else slots[k].lookahead)
           + seq(extra, _ => g.nterminal),
           seq(nShift, i requires 0 <= i < nShift => if tkn[i].At? then tkn[i].offset else n),
           seq(nReduce, i requires 0 <= i < nReduce => if nt[i].At? then nt[i].offset else dflt),
           seq(nx, i requires 0 <= i < nx => Encode(num, nr, Default(g, rows[i]))))
  }

  /** Everything ReportTable needs to know about the filled action table. */
  ghost predicate Filled(g: Grammar, num: Numbering, rows: seq<seq<Action>>, slots: seq<T.Slot>, nAction: nat, n: nat,
                         log: seq<T.Entry>, tkn: seq<Offset>, nt: seq<Offset>) {
    && 0 < g.nterminal <= g.nsymbol && n <= nAction <= |slots| && ValidNumbering(num, |num.sorted|)
    && (forall k :: nAction <= k < |slots| ==> slots[k] == T.Unused)
    && (forall k :: n <= k < nAction ==> slots[k].lookahead < 0)
    && (forall e :: e in log ==> T.LogOk(slots, g.nterminal, e))
    && AllStored(g, num, |g.rules|, rows, log, tkn, nt)
  }

  /** A stored set reads back, a token set on no other token. */
  lemma ReadsAt(slots: seq<T.Slot>, nterminal: nat, log: seq<T.Entry>, pairs: map<int, int>, safe: bool, o: int, la: nat)
    requires T.Entry(o, pairs, safe) in log && forall e :: e in log ==> T.LogOk(slots, nterminal, e)
    ensures la in pairs ==> T.Hit(slots, o, la) && slots[o + la].action == pairs[la]
    ensures safe && la < nterminal && T.Hit(slots, o, la) ==> la in pairs
    ensures exists x :: x in pairs && 0 <= x && T.Hit(slots, o, x)
  {
    assert T.LogOk(slots, nterminal, T.Entry(o, pairs, safe));
    var x :| x in pairs;
    assert T.Hit(slots, o, x);
  }

  /** Looking up a token finds its pair, or a slot with another lookahead. */
  lemma TokenSlot(g: Grammar, num: Numbering, rows: seq<seq<Action>>, slots: seq<T.Slot>, nAction: nat, n: nat,
                  log: seq<T.Entry>, tkn: seq<Offset>, nt: seq<Offset>, dflt: int, i: nat, tok: nat)
    requires Filled(g, num, rows, slots, nAction, n, log, tkn, nt) && i < Kept(tkn) && tok < g.nterminal
    ensures var pairs := T.Pairs(SetOf(g, num, |g.rules|, true, rows[i]));
            FindShift(Written(g, num, rows, slots, nAction, n, tkn, nt, Kept(tkn), Kept(nt), dflt), tok, i) ==
            if tok !in pairs then Encode(num, |g.rules|, Default(g, rows[i]))
            else if pairs[tok] < 0 then NoAction(num, |g.rules|) else pairs[tok]
  {
    hide T.LogOk, SetOf, ValidNumbering, T.Pairs, Kept, Encode, NoAction, Default;
    var t := Written(g, num, rows, slots, nAction, n, tkn, nt, Kept(tkn), Kept(nt), dflt);
    var nr := |g.rules|;
    var pairs := T.Pairs(SetOf(g, num, nr, true, rows[i]));
    assert StoredAt(g, num, nr, rows, log, tkn[i], nt[i], i);
    var k := t.yyShiftOfst[i] + tok;
    if tkn[i].At? {
      ReadsAt(slots, g.nterminal, log, pairs, true, tkn[i].offset, tok);
    } else {
      NoPairs(g, num, nr, true, rows[i]);
    }
    assert 0 <= k < |t.yyLookahead|;
    assert t.yyLookahead[k] == tok <==> tok in pairs;
  }

  lemma TokenLookup(g: Grammar, num: Numbering, rows: seq<seq<Action>>, slots: seq<T.Slot>, nAction: nat, n: nat,
                    log: seq<T.Entry>, tkn: seq<Offset>, nt: seq<Offset>, dflt: int, i: nat, tok: nat)
    requires Filled(g, num, rows, slots, nAction, n, log, tkn, nt) && i < Kept(tkn) && tok < g.nterminal
    requires InRange(num, |g.rules|, Lookup(TableOf(g, rows), i, tok))
    ensures Means(num, |g.rules|, FindShift(Written(g, num, rows, slots, nAction, n, tkn, nt, Kept(tkn), Kept(nt), dflt), tok, i),
                  Lookup(TableOf(g, rows), i, tok))
  {
    hide T.LogOk, SetOf, Entries, InRange, ValidNumbering, T.Pairs, Kept, AllStored, FindShift, Encode, DecodeNum, Written;
    StoredLengths(g, num, rows, log, tkn, nt);
    TokenSlot(g, num, rows, slots, nAction, n, log, tkn, nt, dflt, i, tok);
    SetOfIs(g, num, |g.rules|, true, rows[i], tok);
    NumbersRoundTrip(num, |g.rules|, Lookup(TableOf(g, rows), i, tok));
  }

  lemma NoPairs(g: Grammar, num: Numbering, nr: nat, tokens: bool, acts: seq<Action>)
    requires Size(g, tokens, acts) == 0
    ensures T.Pairs(SetOf(g, num, nr, tokens, acts)) == map[]
  {
    SetOfSize(g, num, nr, tokens, acts);
  }

  /** Looking up a nonterminal of the set finds its pair. */
  lemma GotoSlot(g: Grammar, num: Numbering, rows: seq<seq<Action>>, slots: seq<T.Slot>, nAction: nat, n: nat,
                 log: seq<T.Entry>, tkn: seq<Offset>, nt: seq<Offset>, dflt: int, i: nat, c: nat)
    requires Filled(g, num, rows, slots, nAction, n, log, tkn, nt) && i < |rows|
    requires c in T.Pairs(SetOf(g, num, |g.rules|, false, rows[i]))
    ensures var pairs := T.Pairs(SetOf(g, num, |g.rules|, false, rows[i]));
            FindReduce(Written(g, num, rows, slots, nAction, n, tkn, nt, Kept(tkn), Kept(nt), dflt), i, c) ==
            if pairs[c] < 0 then NoAction(num, |g.rules|) else pairs[c]
  {
    hide T.LogOk, SetOf, ValidNumbering, T.Pairs, Kept, Encode, NoAction, Default;
    assert StoredAt(g, num, |g.rules|, rows, log, tkn[i], nt[i], i);
    if nt[i].NoOffset? {
      NoPairs(g, num, |g.rules|, false, rows[i]);
    }
    ReadsAt(slots, g.nterminal, log, T.Pairs(SetOf(g, num, |g.rules|, false, rows[i])), false, nt[i].offset, c);
  }

  lemma GotoLookup(g: Grammar, num: Numbering, rows: seq<seq<Action>>, slots: seq<T.Slot>, nAction: nat, n: nat,
                   log: seq<T.Entry>, tkn: seq<Offset>, nt: seq<Offset>, dflt: int, i: nat, c: nat)
    requires Filled(g, num, rows, slots, nAction, n, log, tkn, nt) && i < |rows|
    requires InRange(num, |g.rules|, Lookup(TableOf(g, rows), i, c))
    requires g.nterminal <= c < g.nsymbol && c in Entries(g, rows[i])
    ensures Means(num, |g.rules|, FindReduce(Written(g, num, rows, slots, nAction, n, tkn, nt, Kept(tkn), Kept(nt), dflt), i, c),
                  Lookup(TableOf(g, rows), i, c))
  {
    hide T.LogOk, SetOf, Entries, InRange, ValidNumbering, T.Pairs, Kept, AllStored, FindReduce, Encode, DecodeNum, Written;
    SetOfIs(g, num, |g.rules|, false, rows[i], c);
    StoredLengths(g, num, rows, log, tkn, nt);
    GotoSlot(g, num, rows, slots, nAction, n, log, tkn, nt, dflt, i, c);
    NumbersRoundTrip(num, |g.rules|, Lookup(TableOf(g, rows), i, c));
  }

  /** ReportTable, as far as the parser tables go. `ok` says that the slots in use are all inside the array: reading them
      out would pass its end otherwise. */
  method ReportTables(g: Grammar, num: Numbering, ap: seq<seq<Action>>) returns (ok: bool, tables: Tables)
    requires WfGrammar(g) && ValidNumbering(num, |ap|) && AllInRange(g, num, ap)
    requires forall q: nat :: q < |ap| ==> OneEmitted(ap[q]) && DistinctIds(ap[q])
    ensures ok ==> TablesFor(g, num, ap, tables)
    ensures ok <==> !Overruns(g, num, Rows(num, ap))
    ensures !ok ==> TokensLast(g, Rows(num, ap)) && g.nsymbol + 1 < 2 * g.nterminal
  {
    hide AllInRange, TablesFor, AllStored, OneEmitted, DistinctIds, TokensLast, T.LogOk, Kept, Overruns;
    tables := Tables(0, 0, 0, 0, [], [], [], [], []);
    var rows := Rows(num, ap);
    var t, tkn, nt := StoreSets(g, num, rows);
    ok := t.nAction <= |t.aAction|;
    if !ok {
      return;
    }
    var n := TrimmedSize(t.aAction, t.nAction);
    StoredLengths(g, num, rows, t.log, tkn, nt);
    var lowest := 0;
    for i := 0 to |rows| {
      if nt[i].At? && nt[i].offset < lowest {
        lowest := nt[i].offset;
      }
    }
    var nShift := CountKept(tkn);
    var nReduce := CountKept(nt);
    tables := Written(g, num, rows, t.aAction, t.nAction, n, tkn, nt, nShift, nReduce, lowest - 1);
    TablesRight(g, num, ap, t.aAction, t.nAction, n, t.log, tkn, nt, lowest - 1);
  }

  lemma StoredLengths(g: Grammar, num: Numbering, rows: seq<seq<Action>>, log: seq<T.Entry>, tkn: seq<Offset>, nt: seq<Offset>)
    requires AllStored(g, num, |g.rules|, rows, log, tkn, nt)
    ensures |tkn| == |nt| == |rows|
  {
  }

  /** The rows without a token offset at the end have no entry on a token, and the one before them has. */
  lemma KeptRows(g: Grammar, num: Numbering, rows: seq<seq<Action>>, log: seq<T.Entry>, tkn: seq<Offset>, nt: seq<Offset>)
    requires AllStored(g, num, |g.rules|, rows, log, tkn, nt)
    ensures forall i :: Kept(tkn) <= i < |rows| ==> Size(g, true, rows[i]) == 0
    ensures Kept(tkn) > 0 ==> Size(g, true, rows[Kept(tkn) - 1]) > 0
  {
    hide Kept, Size, SetOf, T.Pairs;
    forall i: nat | i < |rows| ensures tkn[i].NoOffset? <==> Size(g, true, rows[i]) == 0 {
      assert StoredAt(g, num, |g.rules|, rows, log, tkn[i], nt[i], i);
    }
  }

  lemma TablesRight(g: Grammar, num: Numbering, ap: seq<seq<Action>>, slots: seq<T.Slot>, nAction: nat, n: nat,
                    log: seq<T.Entry>, tkn: seq<Offset>, nt: seq<Offset>, dflt: int)
    requires ValidNumbering(num, |ap|) && AllInRange(g, num, ap)
    requires Filled(g, num, Rows(num, ap), slots, nAction, n, log, tkn, nt)
    ensures TablesFor(g, num, ap, Written(g, num, Rows(num, ap), slots, nAction, n, tkn, nt, Kept(tkn), Kept(nt), dflt))
  {
    hide Means, Entries, InRange, FindShift, FindReduce, Size, SetOf, T.Pairs, T.LogOk, SetStored, AllStored;
    var rows := Rows(num, ap);
    StoredLengths(g, num, rows, log, tkn, nt);
    KeptRows(g, num, rows, log, tkn, nt);
    var t := Written(g, num, rows, slots, nAction, n, tkn, nt, Kept(tkn), Kept(nt), dflt);
    forall i: nat, c: nat | i < t.nx ensures Lookup(TableOf(g, rows), i, c) == Lookup(TableOf(g, ap), num.sorted[i], c) {
      assert rows[i] == ap[num.sorted[i]];
    }
    assert forall i: nat :: i < t.nx ==> rows[i] == ap[num.sorted[i]];
    forall i: nat, tok: nat | i < Kept(tkn) && tok < g.nterminal ensures ShiftRight(g, num, ap, t, i, tok) {
      TokenLookup(g, num, rows, slots, nAction, n, log, tkn, nt, dflt, i, tok);
    }
    forall i: nat, c: nat | i < t.nx && g.nterminal <= c < g.nsymbol && c in Entries(g, ap[num.sorted[i]])
      ensures GotoRight(g, num, ap, t, i, c) {
      GotoLookup(g, num, rows, slots, nAction, n, log, tkn, nt, dflt, i, c);
    }
  }
}
