/** FindStates, getstate and buildshifts (tools/lemon/lemon.c): the LR(0) states. */
module States {
  // The states are found depth first, with the follow-set propagation links between their configurations.

  import opened Grammars
  import opened LrTheory
  import opened MergeSort
  import opened ConfigClosure
  import opened Wrappers

  datatype Edge = Edge(sym: Symbol, to: nat)

  /** `seed` is what is known to follow the basis configurations from the start: {0} in the first
      state, nothing in the others. `flinks` are the closure's forward links, `blinks` the links
      from the configurations a basis configuration was advanced from. */
  datatype State = State(basis: seq<Item>, configs: seq<Item>, seed: set<nat>, fws: map<Item, set<nat>>,
                         flinks: set<(Item, Item)>, blinks: set<(Item, ConfigRef)>, shifts: seq<Edge>)

  // ----- ordered lists of configurations

  /** Configcmp */
  function ItemCmp(a: Item, b: Item): int {
    if a.rule != b.rule then a.rule - b.rule else a.dot - b.dot
  }

  function Elems<T>(s: seq<T>): set<T> {
    set x | x in s
  }

  /** A basis or configuration list as the state keeps it. */
  ghost predicate Ordered(s: seq<Item>) {
    Sorted(ItemCmp, s) && NoDuplicates(s)
  }

  /** Ordered lists are equal as soon as they have the same elements (so statecmp compares sets). */
  lemma {:induction false} OrderedUnique(a: seq<Item>, b: seq<Item>)
    requires Ordered(a) && Ordered(b) && Elems(a) == Elems(b)
    ensures a == b
    decreases |a|
  {
    if a == [] {
      assert forall i :: 0 <= i < |b| ==> b[i] in Elems(b);
    } else {
      assert a[0] in Elems(b) && b[0] in Elems(a);
      assert Elems(a[1..]) == Elems(a) - {a[0]};
      assert Elems(b[1..]) == Elems(b) - {b[0]};
      OrderedUnique(a[1..], b[1..]);
      assert a == [a[0]] + a[1..] && b == [b[0]] + b[1..];
    }
  }

  lemma {:induction false} DistinctCount<T>(s: seq<T>)
    ensures NoDuplicates(s) <==> forall x :: multiset(s)[x] <= 1
    decreases |s|
  {
    if s != [] {
      var t := s[..|s| - 1];
      var last := s[|s| - 1];
      assert s == t + [last];
      DistinctCount(t);
      if NoDuplicates(s) {
        assert NoDuplicates(t);
        assert last !in t;
        assert multiset(t)[last] == 0;
      } else if i, j :| 0 <= i < j < |s| && s[i] == s[j] {
        if j < |t| {
          assert !NoDuplicates(t);
          var x :| multiset(t)[x] > 1;
          assert multiset(s)[x] > 1;
        } else {
          assert t[i] == last;
          assert last in t;
          assert multiset(s)[last] > 1;
        }
      }
    }
  }

  lemma SamePermuted<T>(s: seq<T>, t: seq<T>)
    requires multiset(s) == multiset(t)
    ensures Elems(s) == Elems(t) && (NoDuplicates(s) <==> NoDuplicates(t))
  {
    DistinctCount(s);
    DistinctCount(t);
    forall x ensures x in s <==> x in t {
      assert x in s <==> x in multiset(s);
    }
  }

  method SortConfigs(s: seq<Item>) returns (t: seq<Item>)
    requires NoDuplicates(s)
    ensures Ordered(t) && Elems(t) == Elems(s)
    ensures forall i, j :: 0 <= i < j < |t| ==> t[i].rule < t[j].rule || (t[i].rule == t[j].rule && t[i].dot < t[j].dot)
  {
    t := Msort(s, ItemCmp);
    SamePermuted(t, s);
    assert forall i, j :: 0 <= i < j < |t| ==> ItemCmp(t[i], t[j]) <= 0 && t[i] != t[j];
  }

  // ----- what a state should be

  ghost predicate ClosedSet(g: Grammar, s: set<Item>) {
    forall a, b :: a in s && Calls(g, a, b) ==> b in s
  }

  /** The configurations are in every closed set that has the basis. */
  ghost predicate LeastAt(g: Grammar, st: State, s: set<Item>) {
    Elems(st.basis) <= s && ClosedSet(g, s) ==> Elems(st.configs) <= s
  }

  ghost predicate Called(g: Grammar, configs: seq<Item>, it: Item) {
    exists src :: src in configs && Calls(g, src, it)
  }

  ghost predicate BroughtIn(g: Grammar, configs: seq<Item>, it: Item, t: nat) {
    exists src :: src in configs && Brings(g, src, it, t)
  }

  ghost predicate FwsAt(g: Grammar, st: State, it: Item, t: nat) {
    it in st.configs ==>
      && it in st.fws
      && (t in st.fws[it] <==> (it in st.basis && t in st.seed) || BroughtIn(g, st.configs, it, t))
  }

  ghost predicate FlinkAt(g: Grammar, st: State, a: Item, b: Item) {
    (a, b) in st.flinks <==> a in st.configs && Passes(g, a, b)
  }

  /** The configurations are the LR(0) closure of the basis; their first follow-sets and forward
      links are just what the closure calls for. */
  ghost predicate StateOk(g: Grammar, st: State) {
    && Ordered(st.basis) && Ordered(st.configs)
    && (forall it :: it in st.configs ==> WfItem(g, it))
    && Elems(st.basis) <= Elems(st.configs) && ClosedSet(g, Elems(st.configs))
    && (forall s :: LeastAt(g, st, s))
    && (forall it :: it in st.configs && it !in st.basis ==> it.dot == 0 && Called(g, st.configs, it))
    && (forall it, t :: FwsAt(g, st, it, t))
    && (forall a, b :: FlinkAt(g, st, a, b))
  }

  lemma {:induction false} GrownIsLeast(g: Grammar, basis: seq<Item>, configs: seq<Item>, s: set<Item>, i: nat)
    requires Grown(g, basis, configs) && Elems(basis) <= s && ClosedSet(g, s) && i < |configs|
    ensures configs[i] in s
    decreases i
  {
    if i < |basis| {
      assert configs[i] == basis[i] && basis[i] in Elems(basis);
    } else {
      assert CalledBefore(g, configs, i);
      var j: nat :| j < i && Calls(g, configs[j], configs[i]);
      GrownIsLeast(g, basis, configs, s, j);
    }
  }

  lemma ClosureIsLeast(g: Grammar, current: seq<Item>, grown: seq<Item>, st: State)
    requires Grown(g, current, grown) && Elems(st.basis) == Elems(current) && Elems(st.configs) == Elems(grown)
    ensures forall s :: LeastAt(g, st, s)
  {
    forall s ensures LeastAt(g, st, s) {
      if Elems(st.basis) <= s && ClosedSet(g, s) {
        forall i: nat | i < |grown| ensures grown[i] in s {
          GrownIsLeast(g, current, grown, s, i);
        }
      }
    }
  }

  lemma ClosureIsClosed(g: Grammar, grown: seq<Item>)
    requires forall it :: it in grown ==> AllCalled(g, grown, it)
    ensures ClosedSet(g, Elems(grown))
  {
    forall a, b | a in Elems(grown) && Calls(g, a, b) ensures b in Elems(grown) {
      assert AllCalled(g, grown, a) && b == Item(b.rule, 0);
    }
  }

  lemma ClosureIsGrounded(g: Grammar, current: seq<Item>, grown: seq<Item>, it: Item)
    requires Grown(g, current, grown) && it in grown && it !in current
    ensures it.dot == 0 && Called(g, grown, it)
  {
    var i :| 0 <= i < |grown| && grown[i] == it;
    assert forall k :: 0 <= k < |current| ==> current[k] == grown[k];
    assert CalledBefore(g, grown, i);
    var j: nat :| j < i && Calls(g, grown[j], grown[i]);
    assert grown[j] in grown;
  }

  lemma ClosureMakesState(g: Grammar, current: seq<Item>, fws0: map<Item, set<nat>>, grown: seq<Item>, st: State)
    requires ClosureOf(g, current, fws0, grown, st.fws, st.flinks)
    requires forall it :: it in current ==> it in fws0 && fws0[it] == st.seed
    requires forall it :: it in fws0 ==> it in current
    requires Ordered(st.basis) && Elems(st.basis) == Elems(current)
    requires Ordered(st.configs) && Elems(st.configs) == Elems(grown)
    ensures StateOk(g, st)
  {
    hide Ordered, Calls, LeastAt, FwsAt, FlinkAt, Accounted;
    assert forall it :: it in st.configs <==> it in Elems(grown);
    assert forall it :: it in st.basis <==> it in Elems(current);
    ClosureIsLeast(g, current, grown, st);
    ClosureIsClosed(g, grown);
    forall it | it in st.configs && it !in st.basis ensures it.dot == 0 && Called(g, st.configs, it) {
      ClosureIsGrounded(g, current, grown, it);
    }
    ClosureFollows(g, current, fws0, grown, st);
    assert forall i :: 0 <= i < |current| ==> current[i] == grown[i];
  }

  lemma ClosureFollows(g: Grammar, current: seq<Item>, fws0: map<Item, set<nat>>, grown: seq<Item>, st: State)
    requires Accounted(g, grown, fws0, st.fws, st.flinks, |grown|)
    requires forall it :: it in current ==> it in fws0 && fws0[it] == st.seed
    requires forall it :: it in fws0 ==> it in current
    requires forall it :: it in st.basis <==> it in current
    requires forall it :: it in st.configs <==> it in grown
    ensures forall it, t :: FwsAt(g, st, it, t)
    ensures forall a, b :: FlinkAt(g, st, a, b)
  {
    forall it, t: nat ensures FwsAt(g, st, it, t) {
      assert BroughtIn(g, st.configs, it, t) <==> BroughtBy(g, grown, |grown|, it, t) by {
        if src :| src in st.configs && Brings(g, src, it, t) {
          var j :| 0 <= j < |grown| && grown[j] == src;
        }
        if j: nat :| j < |grown| && Brings(g, grown[j], it, t) {
          assert grown[j] in st.configs;
        }
      }
    }
    forall a, b ensures FlinkAt(g, st, a, b) {
      assert (a, b) in st.flinks <==> PassedBy(g, grown, |grown|, a, b);
    }
  }

  // ----- what the states should be together

  /** The configurations with `x` after their dot, advanced over it. */
  ghost function Advanced(g: Grammar, configs: seq<Item>, x: Symbol): set<Item> {
    set it | it in configs && Shiftable(g, it) && After(g, it) == x :: Advance(it)
  }

  predicate HasEdge(edges: seq<Edge>, x: Symbol) {
    exists e :: e in edges && e.sym == x
  }

  /** The edge leads to the state whose basis is exactly the advanced configurations, each of which
      is linked back to where it was advanced from. */
  ghost predicate EdgeOk(g: Grammar, ss: seq<State>, s: nat, e: Edge) {
    s < |ss| && e in ss[s].shifts ==>
      && e.to < |ss|
      && Advanced(g, ss[s].configs, e.sym) != {}
      && Elems(ss[e.to].basis) == Advanced(g, ss[s].configs, e.sym)
      && (forall it :: it in ss[s].configs && Shiftable(g, it) && After(g, it) == e.sym ==>
            (Advance(it), ConfigRef(s, it)) in ss[e.to].blinks)
  }

  ghost predicate BlinkOk(g: Grammar, ss: seq<State>, q: nat, it: Item, from: ConfigRef) {
    q < |ss| && (it, from) in ss[q].blinks ==>
      && from.state < |ss| && from.item in ss[from.state].configs
      && Shiftable(g, from.item) && it == Advance(from.item)
      && Elems(ss[q].basis) == Advanced(g, ss[from.state].configs, After(g, from.item))
  }

  ghost predicate OneEdgePerSymbol(edges: seq<Edge>) {
    forall i, j :: 0 <= i < j < |edges| ==> edges[i].sym != edges[j].sym
  }

  ghost predicate DistinctBases(ss: seq<State>) {
    forall i, j :: 0 <= i < j < |ss| ==> ss[i].basis != ss[j].basis
  }

  ghost predicate Dotted(items: seq<Item>) {
    forall it :: it in items ==> it.dot > 0
  }

  /** Some configuration was advanced into the state from an earlier one. */
  ghost predicate Entered(ss: seq<State>, i: nat)
    requires i < |ss|
  {
    exists it, from :: (it, from) in ss[i].blinks && from.state < i
  }

  /** Holds throughout the construction. */
  ghost predicate Inv(g: Grammar, ss: seq<State>) {
    && (forall i :: 0 < i < |ss| ==> Dotted(ss[i].basis) && Entered(ss, i))
    && (forall i :: 0 <= i < |ss| ==> StateOk(g, ss[i]) && OneEdgePerSymbol(ss[i].shifts))
    && DistinctBases(ss)
    && (forall s, e :: EdgeOk(g, ss, s, e))
    && (forall q, it, from :: BlinkOk(g, ss, q, it, from))
  }

  /** All shifts of state `s` are there. */
  ghost predicate Finished(g: Grammar, ss: seq<State>, s: nat) {
    s < |ss| ==> forall it :: it in ss[s].configs && Shiftable(g, it) ==> HasEdge(ss[s].shifts, After(g, it))
  }

  ghost predicate FinishedFrom(g: Grammar, ss: seq<State>, n: nat) {
    forall s: nat :: n <= s < |ss| ==> Finished(g, ss, s)
  }

  /** The state is as it was, except for more back links. */
  ghost predicate SameBut(prior: State, later: State) {
    prior.blinks <= later.blinks && later == prior.(blinks := later.blinks)
  }

  ghost predicate Extends(prior: seq<State>, later: seq<State>) {
    |prior| <= |later| && forall i :: 0 <= i < |prior| ==> SameBut(prior[i], later[i])
  }

  /** As `Extends`, but state `s` may have got new shifts. */
  ghost predicate ExtendsExcept(prior: seq<State>, later: seq<State>, s: nat) {
    && s < |prior| <= |later|
    && (forall i :: 0 <= i < |prior| && i != s ==> SameBut(prior[i], later[i]))
    && SameBut(prior[s].(shifts := later[s].shifts), later[s])
  }

  ghost predicate SeedlessFrom(ss: seq<State>, n: nat) {
    forall i :: n <= i < |ss| ==> ss[i].seed == {}
  }

  lemma FinishedTrans(g: Grammar, b: seq<State>, c: seq<State>, s: nat, n: nat)
    requires s < n && ExtendsExcept(b, c, s) && FinishedFrom(g, b, n) && FinishedFrom(g, c, |b|)
    ensures FinishedFrom(g, c, n)
  {
    forall i: nat | n <= i < |c| ensures Finished(g, c, i) {
      if i < |b| {
        assert Finished(g, b, i) && SameBut(b[i], c[i]);
      }
    }
  }

  ghost function Used(ss: seq<State>): set<set<Item>> {
    set i | 0 <= i < |ss| :: Elems(ss[i].basis)
  }

  ghost function Unused(g: Grammar, ss: seq<State>): set<set<Item>> {
    (set b: set<Item> | b <= AllItems(g)) - Used(ss)
  }

  lemma UnusedShrinks(g: Grammar, prior: seq<State>, later: seq<State>, s: nat)
    requires ExtendsExcept(prior, later, s)
    ensures Unused(g, later) <= Unused(g, prior)
  {
    forall b | b in Used(prior) ensures b in Used(later) {
      var i :| 0 <= i < |prior| && b == Elems(prior[i].basis);
      assert i != s ==> SameBut(prior[i], later[i]);
    }
  }

  /** The configurations that shift `x` are not used yet, and none of them comes before position `c`. */
  predicate FromHereOn(g: Grammar, configs: seq<Item>, c: nat, x: Symbol, complete: set<Item>) {
    forall i :: 0 <= i < |configs| && Shiftable(g, configs[i]) && After(g, configs[i]) == x ==>
      c <= i && configs[i] !in complete
  }

  /** Collecting the configurations that shift `x`: buildshifts' inner loop. */
  method Collect(g: Grammar, s: nat, configs: seq<Item>, c: nat, x: Symbol, complete: set<Item>)
    returns (current: seq<Item>, pend: set<(Item, ConfigRef)>, complete': set<Item>)
    requires c < |configs| && NoDuplicates(configs) && FromHereOn(g, configs, c, x, complete)
    ensures NoDuplicates(current) && Elems(current) == Advanced(g, configs, x)
    ensures forall it :: it in complete' <==> it in complete || (it in configs && Shiftable(g, it) && After(g, it) == x)
    ensures forall a, from :: (a, from) in pend <==>
      from.state == s && from.item in configs && Shiftable(g, from.item) && After(g, from.item) == x && a == Advance(from.item)
  {
    current, pend, complete' := [], {}, complete;
    for b := c to |configs|
      invariant NoDuplicates(current)
      invariant forall a :: a in current <==> exists i :: c <= i < b && Shiftable(g, configs[i]) && After(g, configs[i]) == x && a == Advance(configs[i])
      invariant forall it :: it in complete' <==> it in complete || (it in configs[c..b] && Shiftable(g, it) && After(g, it) == x)
      invariant forall a, from :: (a, from) in pend <==>
        from.state == s && from.item in configs[c..b] && Shiftable(g, from.item) && After(g, from.item) == x && a == Advance(from.item)
    {
      var bcfp := configs[b];
      assert configs[c..b + 1] == configs[c..b] + [bcfp];
      if bcfp !in complete' && Shiftable(g, bcfp) && After(g, bcfp) == x {
        assert Advance(bcfp) !in current by {
          forall i | c <= i < b ensures Advance(configs[i]) != Advance(bcfp) {
            assert configs[i] != configs[b];
          }
        }
        complete' := complete' + {bcfp};
        current := current + [Advance(bcfp)];
        pend := pend + {(Advance(bcfp), ConfigRef(s, bcfp))};
      }
    }
  }

  ghost predicate PendOk(g: Grammar, ss: seq<State>, current: seq<Item>, a: Item, from: ConfigRef) {
    && from.state < |ss| && from.item in ss[from.state].configs
    && Shiftable(g, from.item) && a == Advance(from.item)
    && Elems(current) == Advanced(g, ss[from.state].configs, After(g, from.item))
  }

  /** A state with the same basis exists: its basis configurations get the new back links. */
  lemma LinkMore(g: Grammar, ss: seq<State>, q: nat, current: seq<Item>, pend: set<(Item, ConfigRef)>)
    requires Inv(g, ss) && q < |ss| && Elems(ss[q].basis) == Elems(current)
    requires forall a, from :: (a, from) in pend ==> PendOk(g, ss, current, a, from)
    ensures var ss' := ss[q := ss[q].(blinks := ss[q].blinks + pend)]; Inv(g, ss') && Extends(ss, ss')
  {
    hide StateOk;
    var ss' := ss[q := ss[q].(blinks := ss[q].blinks + pend)];
    forall i | 0 < i < |ss'| ensures Entered(ss', i) {
      assert Entered(ss, i);
      var it, from :| (it, from) in ss[i].blinks && from.state < i;
      assert (it, from) in ss'[i].blinks;
    }
    forall i | 0 <= i < |ss'| ensures StateOk(g, ss'[i]) {
      assert StateOk(g, ss[i]);
      StateOkFrame(g, ss[i], ss'[i]);
    }
    forall s: nat, e ensures EdgeOk(g, ss', s, e) {
      assert EdgeOk(g, ss, s, e);
    }
    forall r: nat, it, from ensures BlinkOk(g, ss', r, it, from) {
      assert BlinkOk(g, ss, r, it, from);
      assert r == q && (it, from) in pend ==> PendOk(g, ss, current, it, from);
    }
  }

  lemma StateOkFrame(g: Grammar, st: State, st': State)
    requires StateOk(g, st) && st' == st.(blinks := st'.blinks, shifts := st'.shifts)
    ensures StateOk(g, st')
  {
    forall s ensures LeastAt(g, st', s) {
      assert LeastAt(g, st, s);
    }
    forall it, t: nat ensures FwsAt(g, st', it, t) {
      assert FwsAt(g, st, it, t);
    }
    forall a, b ensures FlinkAt(g, st', a, b) {
      assert FlinkAt(g, st, a, b);
    }
  }

  lemma AddState(g: Grammar, ss: seq<State>, st: State, current: seq<Item>)
    requires Inv(g, ss) && StateOk(g, st) && st.shifts == [] && Elems(st.basis) == Elems(current)
    requires forall i :: 0 <= i < |ss| ==> ss[i].basis != st.basis
    requires ss == [] || (Dotted(st.basis) && st.blinks != {})
    requires forall a, from :: (a, from) in st.blinks ==> PendOk(g, ss, current, a, from)
    ensures Inv(g, ss + [st]) && Extends(ss, ss + [st])
  {
    var ss' := ss + [st];
    forall i | 0 < i < |ss'| ensures Entered(ss', i) {
      if i < |ss| {
        assert Entered(ss, i);
        var it, from :| (it, from) in ss[i].blinks && from.state < i;
        assert (it, from) in ss'[i].blinks;
      } else {
        var b :| b in st.blinks;
        assert PendOk(g, ss, current, b.0, b.1);
        assert (b.0, b.1) in ss'[i].blinks;
      }
    }
    forall s: nat, e ensures EdgeOk(g, ss', s, e) {
      assert EdgeOk(g, ss, s, e);
    }
    forall r: nat, it, from ensures BlinkOk(g, ss', r, it, from) {
      assert BlinkOk(g, ss, r, it, from);
      assert r == |ss| && (it, from) in st.blinks ==> PendOk(g, ss, current, it, from);
    }
  }

  lemma NewBasis(g: Grammar, ss: seq<State>, st: State)
    requires Inv(g, ss) && StateOk(g, st)
    requires forall i :: 0 <= i < |ss| ==> ss[i].basis != st.basis
    ensures Unused(g, ss + [st]) < Unused(g, ss)
  {
    var b := Elems(st.basis);
    assert b <= AllItems(g) by {
      forall it | it in b ensures it in AllItems(g) {
        assert it in Elems(st.configs);
      }
    }
    assert b !in Used(ss) by {
      forall i | 0 <= i < |ss| ensures Elems(ss[i].basis) != b {
        assert StateOk(g, ss[i]);
        if Elems(ss[i].basis) == b {
          OrderedUnique(ss[i].basis, st.basis);
        }
      }
    }
    var ss' := ss + [st];
    assert ss'[|ss|] == st && b in Used(ss');
    forall u | u in Used(ss) ensures u in Used(ss') {
      var i :| 0 <= i < |ss| && u == Elems(ss[i].basis);
      assert ss'[i] == ss[i];
    }
  }

  lemma AddEdge(g: Grammar, ss: seq<State>, s: nat, e: Edge)
    requires Inv(g, ss) && s < |ss| && !HasEdge(ss[s].shifts, e.sym)
    requires e.to < |ss| && Advanced(g, ss[s].configs, e.sym) != {}
    requires Elems(ss[e.to].basis) == Advanced(g, ss[s].configs, e.sym)
    requires forall it :: it in ss[s].configs && Shiftable(g, it) && After(g, it) == e.sym ==>
      (Advance(it), ConfigRef(s, it)) in ss[e.to].blinks
    ensures Inv(g, ss[s := ss[s].(shifts := ss[s].shifts + [e])])
  {
    hide StateOk;
    var ss' := ss[s := ss[s].(shifts := ss[s].shifts + [e])];
    forall i | 0 < i < |ss'| ensures Entered(ss', i) {
      assert Entered(ss, i);
      var it, from :| (it, from) in ss[i].blinks && from.state < i;
      assert (it, from) in ss'[i].blinks;
    }
    forall i | 0 <= i < |ss'| ensures StateOk(g, ss'[i]) && OneEdgePerSymbol(ss'[i].shifts) {
      assert StateOk(g, ss[i]) && OneEdgePerSymbol(ss[i].shifts);
      StateOkFrame(g, ss[i], ss'[i]);
      if i == s {
        forall j | 0 <= j < |ss[s].shifts| ensures ss[s].shifts[j].sym != e.sym {
          assert ss[s].shifts[j] in ss[s].shifts;
        }
      }
    }
    forall r: nat, e' ensures EdgeOk(g, ss', r, e') {
      assert EdgeOk(g, ss, r, e');
    }
    forall r: nat, it, from ensures BlinkOk(g, ss', r, it, from) {
      assert BlinkOk(g, ss, r, it, from);
    }
  }

  lemma AdvancedWf(g: Grammar, configs: seq<Item>, x: Symbol, current: seq<Item>)
    requires Elems(current) == Advanced(g, configs, x)
    ensures Dotted(current) && forall it :: it in current ==> WfItem(g, it)
  {
    forall it | it in current ensures WfItem(g, it) && it.dot > 0 {
      assert it in Elems(current);
    }
  }

  lemma ConfigsOrdered(g: Grammar, ss: seq<State>, s: nat)
    requires Inv(g, ss) && s < |ss|
    ensures Ordered(ss[s].configs)
  {
    assert StateOk(g, ss[s]);
  }

  lemma SameDotted(a: seq<Item>, b: seq<Item>)
    requires Elems(a) == Elems(b)
    ensures Dotted(a) <==> Dotted(b)
  {
    assert forall it :: it in a <==> it in Elems(b);
    assert forall it :: it in b <==> it in Elems(a);
  }

  class Builder {
    const g: Grammar
    const lambda: seq<bool>
    const first: seq<set<nat>>
    var states: seq<State>

    ghost predicate Ready() {
      WfGrammar(g) && FirstsKnown(g, lambda, first)
    }

    constructor (g: Grammar, lambda: seq<bool>, first: seq<set<nat>>)
      ensures this.g == g && this.lambda == lambda && this.first == first && states == []
    {
      this.g, this.lambda, this.first, states := g, lambda, first, [];
    }

    /** State_find */
    method Find(basis: seq<Item>) returns (q: nat)
      ensures q <= |states|
      ensures q < |states| ==> states[q].basis == basis
      ensures q == |states| ==> forall i :: 0 <= i < |states| ==> states[i].basis != basis
    {
      q := 0;
      while q < |states| && states[q].basis != basis
        invariant 0 <= q <= |states| && forall i :: 0 <= i < q ==> states[i].basis != basis
      {
        q := q + 1;
      }
    }

    /** getstate: the state with this basis, made with all its successors if it is new. */
    method GetState(current: seq<Item>, seed: set<nat>, pend: set<(Item, ConfigRef)>) returns (q: nat)
      requires Ready() && Inv(g, states) && NoDuplicates(current)
      requires forall it :: it in current ==> WfItem(g, it)
      requires forall a, from :: (a, from) in pend ==> PendOk(g, states, current, a, from)
      requires (seed == {} && Dotted(current) && pend != {}) || states == []
      modifies this`states
      ensures Inv(g, states) && Extends(old(states), states) && FinishedFrom(g, states, |old(states)|)
      ensures q < |states| && Elems(states[q].basis) == Elems(current) && pend <= states[q].blinks
      ensures old(states) == [] ==> q == 0 && states[0].seed == seed
      ensures SeedlessFrom(states, if |old(states)| == 0 then 1 else |old(states)|)
      decreases Unused(g, states), 0
    {
      hide Inv, StateOk, Accounted, Calls, AllCalled, CalledBefore, Advanced, PendOk, Unused, Ordered, FirstsKnown, WfGrammar, Elems;
      var basis := SortConfigs(current);
      q := Find(basis);
      if q < |states| {
        LinkMore(g, states, q, current, pend);
        states := states[q := states[q].(blinks := states[q].blinks + pend)];
      } else {
        var grown, fws, flinks := Closure(g, lambda, first, current, map it | it in current :: seed);
        var configs := SortConfigs(grown);
        var st := State(basis, configs, seed, fws, flinks, pend, []);
        ClosureMakesState(g, current, map it | it in current :: seed, grown, st);
        SameDotted(current, basis);
        AddState(g, states, st, current);
        states := states + [st];
        assert Unused(g, states) < Unused(g, old(states)) by {
          NewBasis(g, old(states), st);
        }
        BuildShifts(q);
      }
    }

    /** One turn of buildshifts' outer loop: a successor on `x`, the symbol after the dot of configuration `c`. */
    method ShiftOver(s: nat, c: nat, x: Symbol, complete: set<Item>) returns (q: nat, complete': set<Item>)
      requires Ready() && Inv(g, states) && s < |states| && c < |states[s].configs|
      requires Shiftable(g, states[s].configs[c]) && After(g, states[s].configs[c]) == x && !HasEdge(states[s].shifts, x)
      requires FromHereOn(g, states[s].configs, c, x, complete)
      modifies this`states
      ensures Inv(g, states) && ExtendsExcept(old(states), states, s)
      ensures FinishedFrom(g, states, |old(states)|) && SeedlessFrom(states, |old(states)|)
      ensures states[s].shifts == old(states)[s].shifts + [Edge(x, q)]
      ensures forall it :: it in complete' <==>
        it in complete || (it in old(states)[s].configs && Shiftable(g, it) && After(g, it) == x)
      decreases Unused(g, states), 1
    {
      hide StateOk, Unused, Ready, Calls;
      var configs := states[s].configs;
      assert NoDuplicates(configs) by {
        ConfigsOrdered(g, states, s);
      }
      var current, pend;
      current, pend, complete' := Collect(g, s, configs, c, x, complete);
      assert Advance(configs[c]) in Advanced(g, configs, x);
      AdvancedWf(g, configs, x, current);
      assert (Advance(configs[c]), ConfigRef(s, configs[c])) in pend;
      q := GetState(current, {}, pend);
      assert SameBut(old(states)[s], states[s]);
      AddEdge(g, states, s, Edge(x, q));
      ghost var mid := states;
      states := states[s := states[s].(shifts := states[s].shifts + [Edge(x, q)])];
      forall i: nat | |old(states)| <= i < |states| ensures Finished(g, states, i) {
        assert Finished(g, mid, i) && states[i] == mid[i];
      }
    }

    /** buildshifts: a successor for each symbol after a dot. */
    method BuildShifts(s: nat)
      requires Ready() && Inv(g, states) && s < |states| && states[s].shifts == []
      modifies this`states
      ensures Inv(g, states) && ExtendsExcept(old(states), states, s) && Finished(g, states, s)
      ensures FinishedFrom(g, states, |old(states)|) && SeedlessFrom(states, |old(states)|)
      decreases Unused(g, states), 2
    {
      hide Inv, Unused, Ready;
      var configs := states[s].configs;
      var complete: set<Item> := {};
      for c := 0 to |configs|
        invariant Inv(g, states) && ExtendsExcept(old(states), states, s)
        invariant FinishedFrom(g, states, |old(states)|) && SeedlessFrom(states, |old(states)|)
        invariant forall it :: it in complete <==> it in configs && Shiftable(g, it) && HasEdge(states[s].shifts, After(g, it))
        invariant forall i :: 0 <= i < c && Shiftable(g, configs[i]) ==> configs[i] in complete
      {
        if configs[c] in complete || !Shiftable(g, configs[c]) {
          continue;
        }
        ghost var before := states;
        UnusedShrinks(g, old(states), before, s);
        var q;
        q, complete := ShiftOver(s, c, After(g, configs[c]), complete);
        FinishedTrans(g, before, states, s, |old(states)|);
      }
    }
  }

  ghost function StartItems(g: Grammar): set<Item> {
    set r: nat | r < |g.rules| && g.rules[r].lhs == g.start :: Item(r, 0)
  }

  /** What FindStates leaves behind. */
  ghost predicate AllStates(g: Grammar, ss: seq<State>) {
    && ss != [] && Inv(g, ss) && FinishedFrom(g, ss, 0)
    && Elems(ss[0].basis) == StartItems(g) && ss[0].seed == {0} && SeedlessFrom(ss, 1)
  }

  /** FindStates: the first state has the rules of the start symbol as its basis, and 0 follows them. */
  method FindStates(g: Grammar, lambda: seq<bool>, first: seq<set<nat>>) returns (ss: seq<State>)
    requires WfGrammar(g) && FirstsKnown(g, lambda, first)
    ensures AllStates(g, ss)
  {
    var current: seq<Item> := [];
    for r := 0 to |g.rules|
      invariant NoDuplicates(current)
      invariant forall it :: it in current <==> it.dot == 0 && it.rule < r && g.rules[it.rule].lhs == g.start
    {
      if g.rules[r].lhs == g.start {
        current := current + [Item(r, 0)];
      }
    }
    assert Elems(current) == StartItems(g);
    var b := new Builder(g, lambda, first);
    var q := b.GetState(current, {0}, {});
    ss := b.states;
  }

  // ----- the automaton

  /** The shifts of a state as a map. */
  function EdgeMap(edges: seq<Edge>): map<Symbol, nat> {
    if edges == [] then map[]
    else EdgeMap(edges[..|edges| - 1])[edges[|edges| - 1].sym := edges[|edges| - 1].to]
  }

  lemma {:induction false} EdgeMapIs(edges: seq<Edge>, x: Symbol, q: nat)
    requires OneEdgePerSymbol(edges)
    ensures x in EdgeMap(edges) && EdgeMap(edges)[x] == q <==> Edge(x, q) in edges
    ensures x in EdgeMap(edges) <==> HasEdge(edges, x)
    decreases |edges|
  {
    if edges != [] {
      var front, last := edges[..|edges| - 1], edges[|edges| - 1];
      assert edges == front + [last];
      assert OneEdgePerSymbol(front);
      EdgeMapIs(front, x, q);
      assert HasEdge(edges, x) <==> HasEdge(front, x) || last.sym == x;
    }
  }

  function AutomatonOf(ss: seq<State>): Automaton {
    Automaton(seq(|ss|, i requires 0 <= i < |ss| => Elems(ss[i].configs)),
              seq(|ss|, i requires 0 <= i < |ss| => EdgeMap(ss[i].shifts)))
  }

  lemma GoesIsEdge(g: Grammar, ss: seq<State>, q: nat, x: Symbol, q': nat)
    requires Inv(g, ss)
    ensures Goes(AutomatonOf(ss), q, x, q') <==> q < |ss| && Edge(x, q') in ss[q].shifts
  {
    if q < |ss| {
      EdgeMapIs(ss[q].shifts, x, q');
    }
  }

  /** Two states never have the same set of basis configurations. */
  lemma BasesDiffer(g: Grammar, ss: seq<State>, i: nat, j: nat)
    requires Inv(g, ss) && i < |ss| && j < |ss| && Elems(ss[i].basis) == Elems(ss[j].basis)
    ensures i == j
  {
    assert StateOk(g, ss[i]) && StateOk(g, ss[j]);
    OrderedUnique(ss[i].basis, ss[j].basis);
  }

  /** The back links of a state's configurations are exactly its shift predecessors. */
  lemma BackLinksExact(g: Grammar, ss: seq<State>, q: nat, it: Item, from: ConfigRef)
    requires AllStates(g, ss) && q < |ss|
    ensures (it, from) in ss[q].blinks <==>
      && Has(AutomatonOf(ss), from.state, from.item) && Shiftable(g, from.item) && it == Advance(from.item)
      && Goes(AutomatonOf(ss), from.state, After(g, from.item), q)
  {
    var s := from.state;
    if (it, from) in ss[q].blinks {
      assert BlinkOk(g, ss, q, it, from);
      assert Finished(g, ss, s);
      var x := After(g, from.item);
      var e :| e in ss[s].shifts && e.sym == x;
      assert EdgeOk(g, ss, s, e);
      BasesDiffer(g, ss, q, e.to);
      GoesIsEdge(g, ss, s, x, q);
    }
    if Has(AutomatonOf(ss), s, from.item) && Shiftable(g, from.item) && it == Advance(from.item) {
      if Goes(AutomatonOf(ss), s, After(g, from.item), q) {
        GoesIsEdge(g, ss, s, After(g, from.item), q);
        assert EdgeOk(g, ss, s, Edge(After(g, from.item), q));
      }
    }
  }

  lemma HasAsks(g: Grammar, ss: seq<State>, q: nat, x: Symbol)
    requires q < |ss|
    ensures Asks(g, AutomatonOf(ss), q, x) <==> Advanced(g, ss[q].configs, x) != {}
  {
    var a := AutomatonOf(ss);
    if Asks(g, a, q, x) {
      var it :| Has(a, q, it) && Shiftable(g, it) && After(g, it) == x;
      assert Advance(it) in Advanced(g, ss[q].configs, x);
    }
    if adv :| adv in Advanced(g, ss[q].configs, x) {
      var it :| it in ss[q].configs && Shiftable(g, it) && After(g, it) == x && adv == Advance(it);
      assert Has(a, q, it);
    }
  }

  lemma ItemsOfState(g: Grammar, ss: seq<State>, q: nat, it: Item)
    requires AllStates(g, ss) && Has(AutomatonOf(ss), q, it)
    ensures WfItem(g, it) && (q == 0 ==> it.dot == 0) && (it.dot > 0 ==> it in Elems(ss[q].basis))
    ensures it.dot == 0 ==> (q == 0 && g.rules[it.rule].lhs == g.start) || Called(g, ss[q].configs, it)
  {
    assert StateOk(g, ss[q]) && it in ss[q].configs;
    if q > 0 {
      assert Dotted(ss[q].basis);
    } else if it in ss[0].basis {
      assert it in Elems(ss[0].basis);
    }
  }

  lemma ShiftsOfState(g: Grammar, ss: seq<State>, q: nat, x: Symbol, q': nat)
    requires AllStates(g, ss) && Goes(AutomatonOf(ss), q, x, q')
    ensures q < |ss| && q' < |ss| && Advanced(g, ss[q].configs, x) != {}
    ensures Elems(ss[q'].basis) == Advanced(g, ss[q].configs, x)
  {
    GoesIsEdge(g, ss, q, x, q');
    assert EdgeOk(g, ss, q, Edge(x, q'));
  }

  lemma CalledMeansAsked(g: Grammar, ss: seq<State>, q: nat, it: Item)
    requires q < |ss| && Called(g, ss[q].configs, it)
    ensures it.rule < |g.rules| && Asks(g, AutomatonOf(ss), q, Sym(g.rules[it.rule].lhs))
  {
    var src :| src in ss[q].configs && Calls(g, src, it);
    assert Has(AutomatonOf(ss), q, src);
  }

  lemma WfFrom(g: Grammar, ss: seq<State>, q: nat, it: Item)
    requires AllStates(g, ss)
    ensures WfAt(g, AutomatonOf(ss), q, it)
  {
    if Has(AutomatonOf(ss), q, it) {
      ItemsOfState(g, ss, q, it);
    }
  }

  lemma TightFrom(g: Grammar, ss: seq<State>, q: nat, x: Symbol, q': nat)
    requires AllStates(g, ss)
    ensures TightAt(g, AutomatonOf(ss), q, x, q')
  {
    if Goes(AutomatonOf(ss), q, x, q') {
      ShiftsOfState(g, ss, q, x, q');
      HasAsks(g, ss, q, x);
    }
  }

  lemma GroundedFrom(g: Grammar, ss: seq<State>, q: nat, r: nat)
    requires AllStates(g, ss)
    ensures GroundedAt(g, AutomatonOf(ss), q, r)
  {
    if r < |g.rules| && Has(AutomatonOf(ss), q, Item(r, 0)) {
      ItemsOfState(g, ss, q, Item(r, 0));
      if Called(g, ss[q].configs, Item(r, 0)) {
        CalledMeansAsked(g, ss, q, Item(r, 0));
      }
    }
  }

  lemma BackedFrom(g: Grammar, ss: seq<State>, q: nat, x: Symbol, q': nat, it: Item)
    requires AllStates(g, ss)
    ensures BackedAt(g, AutomatonOf(ss), q, x, q', it)
  {
    if Goes(AutomatonOf(ss), q, x, q') && Has(AutomatonOf(ss), q', it) && it.dot > 0 {
      ShiftsOfState(g, ss, q, x, q');
      ItemsOfState(g, ss, q', it);
    }
  }

  lemma ClosedFrom(g: Grammar, ss: seq<State>, q: nat, r: nat)
    requires AllStates(g, ss)
    ensures ClosedAt(g, AutomatonOf(ss), q, r)
  {
    var a := AutomatonOf(ss);
    if r < |g.rules| {
      if Asks(g, a, q, Sym(g.rules[r].lhs)) {
        var it :| Has(a, q, it) && Shiftable(g, it) && After(g, it) == Sym(g.rules[r].lhs);
        assert StateOk(g, ss[q]) && Calls(g, it, Item(r, 0));
      } else if q == 0 && g.rules[r].lhs == g.start {
        assert StateOk(g, ss[0]) && Item(r, 0) in Elems(ss[0].basis);
      }
    }
  }

  /** The states form the LR(0) automaton of the grammar. */
  lemma StatesAreLr0(g: Grammar, ss: seq<State>)
    requires AllStates(g, ss)
    ensures Lr0(g, AutomatonOf(ss))
  {
    hide Inv, FinishedFrom, WfAt, TightAt, GroundedAt, BackedAt, ForwardAt, ClosedAt;
    var a := AutomatonOf(ss);
    forall q: nat, it ensures WfAt(g, a, q, it) {
      WfFrom(g, ss, q, it);
    }
    forall q: nat, x, q': nat ensures TightAt(g, a, q, x, q') {
      TightFrom(g, ss, q, x, q');
    }
    forall q: nat, r: nat ensures GroundedAt(g, a, q, r) {
      GroundedFrom(g, ss, q, r);
    }
    forall q: nat, x, q': nat, it ensures BackedAt(g, a, q, x, q', it) {
      BackedFrom(g, ss, q, x, q', it);
    }
    forall q: nat, it ensures ForwardAt(g, a, q, it) {
      ForwardFrom(g, ss, q, it);
    }
    forall q: nat, r: nat ensures ClosedAt(g, a, q, r) {
      ClosedFrom(g, ss, q, r);
    }
  }

  lemma ForwardFrom(g: Grammar, ss: seq<State>, q: nat, it: Item)
    requires AllStates(g, ss)
    ensures ForwardAt(g, AutomatonOf(ss), q, it)
  {
    if Has(AutomatonOf(ss), q, it) && Shiftable(g, it) {
      assert Finished(g, ss, q);
      var e :| e in ss[q].shifts && e.sym == After(g, it);
      GoesIsEdge(g, ss, q, e.sym, e.to);
      ShiftsOfState(g, ss, q, e.sym, e.to);
      assert Advance(it) in Elems(ss[e.to].basis);
      assert StateOk(g, ss[e.to]);
      assert Has(AutomatonOf(ss), e.to, Advance(it));
    }
  }

  /** No state has more than its kernel calls for, and every state but the first is shifted to from an earlier one. */
  lemma StatesAreLeast(g: Grammar, ss: seq<State>)
    requires AllStates(g, ss)
    ensures LeastItems(g, AutomatonOf(ss)) && AllReached(AutomatonOf(ss))
  {
    hide Inv;
    var a := AutomatonOf(ss);
    forall q: nat, s ensures LeastItemsAt(g, a, q, s) {
      StateIsLeast(g, ss, q, s);
    }
    forall q: nat | 0 < q < |a.items| ensures ReachedAt(a, q) {
      var it, from := EnteredFrom(g, ss, q);
      BackLinksExact(g, ss, q, it, from);
    }
  }

  lemma EnteredFrom(g: Grammar, ss: seq<State>, q: nat) returns (it: Item, from: ConfigRef)
    requires Inv(g, ss) && 0 < q < |ss|
    ensures (it, from) in ss[q].blinks && from.state < q
  {
    assert Entered(ss, q);
    it, from :| (it, from) in ss[q].blinks && from.state < q;
  }

  lemma StateIsLeast(g: Grammar, ss: seq<State>, q: nat, s: set<Item>)
    requires AllStates(g, ss)
    ensures LeastItemsAt(g, AutomatonOf(ss), q, s)
  {
    var a := AutomatonOf(ss);
    if && q < |a.items| && (forall it :: Has(a, q, it) && Kernel(g, q, it) ==> it in s)
       && (forall it, r: nat :: it in s && Has(a, q, it) && CallsRule(g, it, r) ==> Item(r, 0) in s)
    {
      var st, t := ss[q], s * Elems(ss[q].configs);
      assert StateOk(g, st) && LeastAt(g, st, t);
      forall it | it in Elems(st.basis) ensures it in t {
        assert it in Elems(st.configs) && Has(a, q, it);
        assert Kernel(g, q, it);
      }
      forall x, y | x in t && Calls(g, x, y) ensures y in t {
        assert Has(a, q, x) && CallsRule(g, x, y.rule) && y == Item(y.rule, 0);
      }
    }
  }
}
