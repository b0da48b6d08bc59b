/** ResortStates of tools/lemon/lemon.c. */
module Resort {
  // The states renumbered, and those that only reduce dropped.

  import opened Grammars
  import opened MergeSort
  import opened States
  import opened Conflicts
  import opened ActionLists
  import opened Wrappers

  /** The states in their new order, the new number of each, and how many states the tables keep. */
  datatype Numbering = Numbering(sorted: seq<nat>, statenum: seq<nat>, nxstate: nat)

  /** Both ways round a permutation of the `n` states that leaves the first one in its place. */
  ghost predicate ValidNumbering(num: Numbering, n: nat) {
    && |num.sorted| == |num.statenum| == n && 0 < num.nxstate <= n
    && num.sorted[0] == 0
    && (forall i :: 0 <= i < n ==> num.sorted[i] < n && num.statenum[num.sorted[i]] == i)
    && (forall q :: 0 <= q < n ==> num.statenum[q] < n && num.sorted[num.statenum[q]] == q)
  }

  /** Only states that are never shifted to are dropped. */
  ghost predicate DropsAutos(num: Numbering, autos: seq<Option<nat>>) {
    |num.sorted| == |autos| &&
    forall i :: num.nxstate <= i < |num.sorted| && num.sorted[i] < |autos| ==> autos[num.sorted[i]].Some?
  }

  predicate Belongs(g: Grammar, tokens: bool, x: Action) {
    Emitted(x.kind) && if tokens then x.sp < g.nterminal else g.nterminal <= x.sp < g.nsymbol
  }

  /** The number of actions on tokens, or on nonterminals. */
  function Size(g: Grammar, tokens: bool, acts: seq<Action>): nat {
    if acts == [] then 0
    else Size(g, tokens, acts[..|acts| - 1]) + if Belongs(g, tokens, acts[|acts| - 1]) then 1 else 0
  }

  datatype Counts = Counts(state: nat, nTknAct: nat, nNtAct: nat)

  function CountsOf(g: Grammar, ap: seq<seq<Action>>, q: nat): Counts
    requires q < |ap|
  {
    Counts(q, Size(g, true, ap[q]), Size(g, false, ap[q]))
  }

  /** stateResortCompare */
  function ResortCmp(a: Counts, b: Counts): int {
    if a.nNtAct != b.nNtAct then b.nNtAct - a.nNtAct
    else if a.nTknAct != b.nTknAct then b.nTknAct - a.nTknAct
    else b.state - a.state
  }

  lemma ResortOrder()
    ensures TotalPreorder(ResortCmp)
  {
    assert forall x, y, z :: Transitive(ResortCmp, x, y, z);
    assert forall x, y :: Coherent(ResortCmp, x, y);
  }

  method CountActions(g: Grammar, acts: seq<Action>) returns (nTknAct: nat, nNtAct: nat)
    ensures nTknAct == Size(g, true, acts) && nNtAct == Size(g, false, acts)
  {
    nTknAct, nNtAct := 0, 0;
    for i := 0 to |acts|
      invariant nTknAct == Size(g, true, acts[..i]) && nNtAct == Size(g, false, acts[..i])
    {
      assert acts[..i + 1][..i] == acts[..i];
      if Emitted(acts[i].kind) {
        if acts[i].sp < g.nterminal {
          nTknAct := nTknAct + 1;
        }
        if g.nterminal <= acts[i].sp < g.nsymbol {
          nNtAct := nNtAct + 1;
        }
      }
    }
    assert acts[..|acts|] == acts;
  }

  /** The states from 1 on, with their counts. */
  ghost predicate CountsFrom1(g: Grammar, ap: seq<seq<Action>>, counts: seq<Counts>) {
    |counts| == |ap| - 1 && forall i :: 0 <= i < |counts| ==> counts[i] == CountsOf(g, ap, i + 1)
  }

  ghost predicate Occurs(order: seq<Counts>, q: int) {
    exists i :: 0 <= i < |order| && order[i].state == q
  }

  /** The sorted states are a permutation of all of them. */
  lemma SortedIsPermutation(g: Grammar, ap: seq<seq<Action>>, counts: seq<Counts>, order: seq<Counts>)
    requires ap != [] && CountsFrom1(g, ap, counts) && multiset(order) == multiset(counts) && |order| == |counts|
    ensures NoDuplicates(order)
    ensures forall i :: 0 <= i < |order| ==> 0 < order[i].state < |ap| && order[i] == CountsOf(g, ap, order[i].state)
    ensures forall q :: 0 < q < |ap| ==> Occurs(order, q)
  {
    assert NoDuplicates(counts);
    SamePermuted(counts, order);
    forall i | 0 <= i < |order|
      ensures 0 < order[i].state < |ap| && order[i] == CountsOf(g, ap, order[i].state) {
      assert order[i] in Elems(counts);
    }
    forall q | 0 < q < |ap| ensures Occurs(order, q) {
      assert counts[q - 1] in Elems(order);
      var i :| 0 <= i < |order| && order[i] == counts[q - 1];
    }
  }

  /** The number of each state, by its place. */
  method Number(sorted: seq<nat>) returns (statenum: seq<nat>)
    requires NoDuplicates(sorted) && forall i :: 0 <= i < |sorted| ==> sorted[i] < |sorted|
    ensures |statenum| == |sorted| && forall i :: 0 <= i < |sorted| ==> statenum[sorted[i]] == i
  {
    statenum := seq(|sorted|, _ => 0);
    for i := 0 to |sorted|
      invariant |statenum| == |sorted| && forall k :: 0 <= k < i ==> statenum[sorted[k]] == k
    {
      statenum := statenum[sorted[i] := i];
    }
  }

  /** More actions on nonterminals; or as many, and more on tokens; or as many of both, and the later state. */
  predicate Earlier(g: Grammar, ap: seq<seq<Action>>, q: nat, q': nat)
    requires q < |ap| && q' < |ap|
  {
    var (nt, nt') := (Size(g, false, ap[q]), Size(g, false, ap[q']));
    var (tk, tk') := (Size(g, true, ap[q]), Size(g, true, ap[q']));
    nt > nt' || (nt == nt' && (tk > tk' || (tk == tk' && q > q')))
  }

  /** The states from 1 on in that order, behind the first. */
  ghost predicate InOrder(g: Grammar, ap: seq<seq<Action>>, sorted: seq<nat>) {
    && |sorted| == |ap| && (forall i :: 0 <= i < |sorted| ==> sorted[i] < |ap|)
    && forall i, j :: 1 <= i < j < |ap| ==> Earlier(g, ap, sorted[i], sorted[j])
  }

  method OrderStates(g: Grammar, ap: seq<seq<Action>>) returns (sorted: seq<nat>)
    requires ap != []
    ensures InOrder(g, ap, sorted) && sorted[0] == 0 && NoDuplicates(sorted)
    ensures forall q :: 0 <= q < |ap| ==> q in sorted
  {
    var counts: seq<Counts> := [];
    for q := 1 to |ap|
      invariant |counts| == q - 1 && forall i :: 0 <= i < |counts| ==> counts[i] == CountsOf(g, ap, i + 1)
    {
      var nTknAct, nNtAct := CountActions(g, ap[q]);
      counts := counts + [Counts(q, nTknAct, nNtAct)];
    }
    hide TotalPreorder, StableRearrangement;
    ResortOrder();
    var order := Msort(counts, ResortCmp);
    SortedIsPermutation(g, ap, counts, order);
    sorted := [0] + seq(|order|, i requires 0 <= i < |order| => order[i].state);
    StatesNumbered(g, ap, order, sorted);
  }

  /** The numbering that ResortStates makes: the states behind the first in order, then the auto-reduce states at the end
      dropped, and no others. */
  ghost predicate Resorted(g: Grammar, ap: seq<seq<Action>>, autos: seq<Option<nat>>, num: Numbering) {
    && ValidNumbering(num, |ap|) && DropsAutos(num, autos) && InOrder(g, ap, num.sorted)
    && (num.nxstate > 1 ==> autos[num.sorted[num.nxstate - 1]].None?)
  }

  /** The states behind the first come with the most actions first; then the auto-reduce states at the end are dropped,
      and no others. */
  method ResortStates(g: Grammar, ap: seq<seq<Action>>, autos: seq<Option<nat>>) returns (num: Numbering)
    requires ap != [] && |autos| == |ap|
    ensures Resorted(g, ap, autos, num)
  {
    hide CountsOf, ResortCmp;
    var sorted := OrderStates(g, ap);
    var statenum := Number(sorted);
    var nxstate := |ap|;
    while nxstate > 1 && autos[sorted[nxstate - 1]].Some?
      invariant 0 < nxstate <= |ap| && forall i :: nxstate <= i < |ap| ==> autos[sorted[i]].Some?
    {
      nxstate := nxstate - 1;
    }
    num := Numbering(sorted, statenum, nxstate);
    forall q | 0 <= q < |ap| ensures statenum[q] < |ap| && sorted[statenum[q]] == q {
      assert q in sorted;
      var i :| 0 <= i < |sorted| && sorted[i] == q;
    }
  }

  lemma StatesNumbered(g: Grammar, ap: seq<seq<Action>>, order: seq<Counts>, sorted: seq<nat>)
    requires NoDuplicates(order) && |order| + 1 == |ap| && |sorted| == |ap| && sorted[0] == 0
    requires forall i :: 0 <= i < |order| ==> 0 < order[i].state < |ap| && order[i] == CountsOf(g, ap, order[i].state)
    requires forall q :: 0 < q < |ap| ==> Occurs(order, q)
    requires forall i :: 1 <= i < |sorted| ==> sorted[i] == order[i - 1].state
    ensures NoDuplicates(sorted) && (forall i :: 0 <= i < |sorted| ==> sorted[i] < |ap|)
    ensures (forall q :: 0 <= q < |ap| ==> q in sorted) && (Sorted(ResortCmp, order) ==> InOrder(g, ap, sorted))
  {
    forall i, j | 0 <= i < j < |sorted| ensures sorted[i] != sorted[j] {
      if i > 0 {
        assert order[i - 1] != order[j - 1];
      }
    }
    forall q | 0 <= q < |ap| ensures q in sorted {
      if q > 0 {
        assert Occurs(order, q);
        var i :| 0 <= i < |order| && order[i].state == q;
        assert sorted[i + 1] == q;
      }
    }
    if Sorted(ResortCmp, order) {
      forall i, j | 1 <= i < j < |ap| ensures Earlier(g, ap, sorted[i], sorted[j]) {
        assert ResortCmp(order[i - 1], order[j - 1]) <= 0;
      }
    }
  }
}
