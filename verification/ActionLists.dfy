/** FindActions (tools/lemon/lemon.c): the action lists and the table they stand for. */
module ActionLists {
  import opened Grammars
  import opened Driver
  import opened LrTheory
  import opened MergeSort
  import opened States
  import opened Conflicts
  import opened Wrappers

  /** State `q` should have an action of this kind on symbol `sp`. */
  ghost predicate Wanted(g: Grammar, a: Automaton, f: Follow, q: nat, sp: nat, kind: Kind, arg: nat) {
    match kind
    case SHIFT => Moves(a, q, sp, arg)
    case REDUCE =>
      arg < |g.rules| && Has(a, q, Final(g, arg)) && Follows(f, q, Final(g, arg), sp) && sp < g.nterminal
    case ACCEPT => q == 0 && sp == g.start && arg == 0
    case _ => false
  }

  predicate Listed(acts: seq<Action>, sp: nat, kind: Kind, arg: nat) {
    exists i :: 0 <= i < |acts| && acts[i].sp == sp && acts[i].kind == kind && acts[i].arg == arg
  }

  lemma ListedCons(x: Action, acts: seq<Action>, sp: nat, kind: Kind, arg: nat)
    ensures Listed([x] + acts, sp, kind, arg) <==> Listed(acts, sp, kind, arg) || (x.sp == sp && x.kind == kind && x.arg == arg)
  {
    var acts' := [x] + acts;
    if Listed(acts, sp, kind, arg) {
      var i :| 0 <= i < |acts| && acts[i].sp == sp && acts[i].kind == kind && acts[i].arg == arg;
      assert acts'[i + 1] == acts[i];
    }
    if x.sp == sp && x.kind == kind && x.arg == arg {
      assert acts'[0] == x;
    }
  }

  /** Actions are numbered in the order they are added, which is from the back of the list. */
  ghost predicate Numbered(acts: seq<Action>) {
    forall i :: 0 <= i < |acts| ==> acts[i].id == |acts| - 1 - i
  }

  ghost predicate DistinctIds(acts: seq<Action>) {
    forall i, j :: 0 <= i < j < |acts| ==> acts[i].id != acts[j].id
  }

  lemma IdsPermuted(a: seq<Action>, b: seq<Action>)
    requires multiset(a) == multiset(b) && DistinctIds(a)
    ensures DistinctIds(b)
  {
    assert NoDuplicates(a);
    SamePermuted(a, b);
    forall i, j | 0 <= i < j < |b| ensures b[i].id != b[j].id {
      assert b[i] in Elems(a) && b[j] in Elems(a);
      var k :| 0 <= k < |a| && a[k] == b[i];
      var l :| 0 <= l < |a| && a[l] == b[j];
    }
  }

  /** Action_add */
  method ActionAdd(acts: seq<Action>, sp: nat, kind: Kind, arg: nat) returns (acts': seq<Action>)
    ensures acts' == [Action(sp, kind, arg, |acts|)] + acts && (Numbered(acts) ==> Numbered(acts'))
    ensures forall s, k, r :: Listed(acts', s, k, r) <==> Listed(acts, s, k, r) || (s == sp && k == kind && r == arg)
  {
    var x := Action(sp, kind, arg, |acts|);
    acts' := [x] + acts;
    forall s: nat, k, r: nat ensures Listed(acts', s, k, r) <==> Listed(acts, s, k, r) || (s == sp && k == kind && r == arg) {
      ListedCons(x, acts, s, k, r);
    }
  }

  // ----- no action is listed twice

  ghost predicate SameAction(x: Action, y: Action) {
    x.sp == y.sp && x.kind == y.kind && x.arg == y.arg
  }

  ghost predicate Once(acts: seq<Action>) {
    forall i, j :: 0 <= i < j < |acts| ==> !SameAction(acts[i], acts[j])
  }

  lemma OnceCons(x: Action, acts: seq<Action>)
    requires Once(acts) && !Listed(acts, x.sp, x.kind, x.arg)
    ensures Once([x] + acts)
  {
    var acts' := [x] + acts;
    forall i, j | 0 <= i < j < |acts'| ensures !SameAction(acts'[i], acts'[j]) {
      assert acts'[j] == acts[j - 1] && (i > 0 ==> acts'[i] == acts[i - 1]);
    }
  }

  /** No rule is listed twice on a token. */
  ghost predicate OnceReduced(acts: seq<Action>) {
    forall i, j :: 0 <= i < j < |acts| && acts[i].kind.REDUCE? ==> !SameAction(acts[i], acts[j])
  }

  lemma OnceReducedCons(x: Action, acts: seq<Action>)
    requires OnceReduced(acts) && (x.kind.REDUCE? ==> !Listed(acts, x.sp, x.kind, x.arg))
    ensures OnceReduced([x] + acts)
  {
    var acts' := [x] + acts;
    forall i, j | 0 <= i < j < |acts'| && acts'[i].kind.REDUCE? ensures !SameAction(acts'[i], acts'[j]) {
      assert acts'[j] == acts[j - 1] && (i > 0 ==> acts'[i] == acts[i - 1]);
    }
  }

  lemma NoneReduced(acts: seq<Action>)
    requires forall sp, arg :: !Listed(acts, sp, REDUCE, arg)
    ensures OnceReduced(acts)
  {
    forall i | 0 <= i < |acts| ensures !acts[i].kind.REDUCE? {
      assert !Listed(acts, acts[i].sp, REDUCE, acts[i].arg);
    }
  }

  lemma OnceReducedPermuted(a: seq<Action>, b: seq<Action>)
    requires multiset(a) == multiset(b) && OnceReduced(a) && DistinctIds(b)
    ensures OnceReduced(b)
  {
    forall i, j | 0 <= i < j < |b| && b[i].kind.REDUCE? ensures !SameAction(b[i], b[j]) {
      assert b[i] in multiset(a) && b[j] in multiset(a);
      var k :| 0 <= k < |a| && a[k] == b[i];
      var l :| 0 <= l < |a| && a[l] == b[j];
      assert k != l;
    }
  }

  lemma OncePermuted(a: seq<Action>, b: seq<Action>)
    requires multiset(a) == multiset(b) && Once(a) && DistinctIds(b)
    ensures Once(b)
  {
    forall i, j | 0 <= i < j < |b| ensures !SameAction(b[i], b[j]) {
      assert b[i] in multiset(a) && b[j] in multiset(a);
      var k :| 0 <= k < |a| && a[k] == b[i];
      var l :| 0 <= l < |a| && a[l] == b[j];
      assert k != l;
    }
  }

  /** No MULTITERMINAL names a token twice. */
  predicate PlainClasses(g: Grammar) {
    forall r, x :: r in g.rules && x in r.rhs && x.Class? ==> NoDuplicates(x.toks)
  }

  ghost predicate PlainEdges(edges: seq<Edge>) {
    && (forall i, j :: 0 <= i < j < |edges| ==> edges[i].to != edges[j].to)
    && forall i :: 0 <= i < |edges| && edges[i].sym.Class? ==> NoDuplicates(edges[i].sym.toks)
  }

  /** Two edges of a state lead to different states. */
  lemma EdgesArePlain(g: Grammar, ss: seq<State>, q: nat)
    requires AllStates(g, ss) && q < |ss| && PlainClasses(g)
    ensures PlainEdges(ss[q].shifts)
  {
    hide StateOk, BlinkOk, DistinctBases, LeastAt;
    var edges := ss[q].shifts;
    forall i, j | 0 <= i < j < |edges| ensures edges[i].to != edges[j].to {
      assert EdgeOk(g, ss, q, edges[i]) && EdgeOk(g, ss, q, edges[j]) && edges[i].sym != edges[j].sym;
      var x :| x in Advanced(g, ss[q].configs, edges[i].sym);
      assert x !in Advanced(g, ss[q].configs, edges[j].sym) by {
        forall it | it in ss[q].configs && Shiftable(g, it) && Advance(it) == x ensures After(g, it) == edges[i].sym {
        }
      }
    }
    forall i | 0 <= i < |edges| && edges[i].sym.Class? ensures NoDuplicates(edges[i].sym.toks) {
      assert EdgeOk(g, ss, q, edges[i]);
      var x :| x in Advanced(g, ss[q].configs, edges[i].sym);
      var it :| it in ss[q].configs && Shiftable(g, it) && After(g, it) == edges[i].sym;
      assert g.rules[it.rule] in g.rules && edges[i].sym in g.rules[it.rule].rhs;
    }
  }

  /** No nonterminal has two actions. */
  ghost predicate SingleGotos(nterminal: nat, acts: seq<Action>) {
    forall i, j :: 0 <= i < j < |acts| && acts[i].sp == acts[j].sp ==> acts[i].sp < nterminal
  }

  lemma SingleCons(nterminal: nat, x: Action, acts: seq<Action>)
    requires SingleGotos(nterminal, acts) && (x.sp >= nterminal ==> forall k, arg :: !Listed(acts, x.sp, k, arg))
    ensures SingleGotos(nterminal, [x] + acts)
  {
    var acts' := [x] + acts;
    forall i, j | 0 <= i < j < |acts'| && acts'[i].sp == acts'[j].sp ensures acts'[i].sp < nterminal {
      assert acts'[j] == acts[j - 1] && (i > 0 ==> acts'[i] == acts[i - 1]);
      assert Listed(acts, acts[j - 1].sp, acts[j - 1].kind, acts[j - 1].arg);
    }
  }

  lemma SinglePermuted(nterminal: nat, a: seq<Action>, b: seq<Action>)
    requires multiset(a) == multiset(b) && SingleGotos(nterminal, a) && DistinctIds(b)
    ensures SingleGotos(nterminal, b)
  {
    forall i, j | 0 <= i < j < |b| && b[i].sp == b[j].sp ensures b[i].sp < nterminal {
      assert b[i] in multiset(a) && b[j] in multiset(a);
      var k :| 0 <= k < |a| && a[k] == b[i];
      var l :| 0 <= l < |a| && a[l] == b[j];
      assert k != l;
    }
  }

  /** An edge over a nonterminal has a symbol of its own, and a MULTITERMINAL has only tokens. */
  ghost predicate ProperEdges(nterminal: nat, edges: seq<Edge>) {
    && OneEdgePerSymbol(edges)
    && forall i, t :: 0 <= i < |edges| && edges[i].sym.Class? && t in edges[i].sym.toks ==> t < nterminal
  }

  lemma EdgesAreProper(g: Grammar, ss: seq<State>, q: nat)
    requires WfGrammar(g) && AllStates(g, ss) && q < |ss|
    ensures ProperEdges(g.nterminal, ss[q].shifts)
  {
    hide StateOk, BlinkOk, DistinctBases, LeastAt;
    var edges := ss[q].shifts;
    forall i, t | 0 <= i < |edges| && edges[i].sym.Class? && t in edges[i].sym.toks ensures t < g.nterminal {
      assert EdgeOk(g, ss, q, edges[i]);
      var x :| x in Advanced(g, ss[q].configs, edges[i].sym);
      var it :| it in ss[q].configs && Shiftable(g, it) && After(g, it) == edges[i].sym;
      assert WfRule(g, g.rules[it.rule]) && edges[i].sym in g.rules[it.rule].rhs && WfSymbol(g, edges[i].sym);
    }
  }

  ghost predicate FromEdges(edges: seq<Edge>, n: nat, sp: nat, arg: nat) {
    exists i :: 0 <= i < n && i < |edges| && Fits(sp, edges[i].sym) && edges[i].to == arg
  }

  /** The SHIFT actions that buildshifts adds: one for each token of a MULTITERMINAL. */
  method ShiftActions(nterminal: nat, edges: seq<Edge>) returns (acts: seq<Action>)
    requires ProperEdges(nterminal, edges)
    ensures Numbered(acts) && (PlainEdges(edges) ==> Once(acts)) && SingleGotos(nterminal, acts)
    ensures forall sp, kind, arg :: Listed(acts, sp, kind, arg) <==> kind.SHIFT? && FromEdges(edges, |edges|, sp, arg)
  {
    acts := [];
    for n := 0 to |edges|
      invariant Numbered(acts) && (PlainEdges(edges) ==> Once(acts)) && SingleGotos(nterminal, acts)
      invariant forall sp, kind, arg :: Listed(acts, sp, kind, arg) <==> kind.SHIFT? && FromEdges(edges, n, sp, arg)
    {
      var e := edges[n];
      ghost var acts0 := acts;
      match e.sym
      case Sym(c) =>
        if PlainEdges(edges) {
          OnceCons(Action(c, SHIFT, e.to, |acts|), acts);
        }
        SingleCons(nterminal, Action(c, SHIFT, e.to, |acts|), acts);
        acts := ActionAdd(acts, c, SHIFT, e.to);
      case Class(toks) =>
        for k := 0 to |toks|
          invariant Numbered(acts) && (PlainEdges(edges) ==> Once(acts)) && SingleGotos(nterminal, acts)
          invariant forall sp, kind, arg :: Listed(acts, sp, kind, arg) <==>
            Listed(acts0, sp, kind, arg) || (kind.SHIFT? && arg == e.to && sp in toks[..k])
        {
          assert toks[..k + 1] == toks[..k] + [toks[k]];
          if PlainEdges(edges) {
            OnceCons(Action(toks[k], SHIFT, e.to, |acts|), acts);
          }
          assert edges[n].sym.Class? && toks[k] in edges[n].sym.toks;
          SingleCons(nterminal, Action(toks[k], SHIFT, e.to, |acts|), acts);
          acts := ActionAdd(acts, toks[k], SHIFT, e.to);
        }
        assert toks[..|toks|] == toks;
    }
  }

  ghost predicate FromConfigs(g: Grammar, f: Follow, q: nat, configs: seq<Item>, n: nat, sp: nat, r: nat) {
    && r < |g.rules| && Final(g, r) in configs[..if n <= |configs| then n else |configs|]
    && Follows(f, q, Final(g, r), sp) && sp < g.nterminal
  }

  /** The REDUCE actions: one for each token that may follow a configuration with its dot at the end. */
  method ReduceActions(g: Grammar, f: Follow, q: nat, configs: seq<Item>, acts0: seq<Action>) returns (acts: seq<Action>)
    requires Numbered(acts0) && NoDuplicates(configs) && forall it :: it in configs ==> WfItem(g, it)
    requires forall sp, arg :: !Listed(acts0, sp, REDUCE, arg)
    ensures Numbered(acts) && (Once(acts0) ==> Once(acts)) && (SingleGotos(g.nterminal, acts0) ==> SingleGotos(g.nterminal, acts))
    ensures OnceReduced(acts)
    ensures forall sp, kind, arg :: Listed(acts, sp, kind, arg) <==>
      Listed(acts0, sp, kind, arg) || (kind.REDUCE? && FromConfigs(g, f, q, configs, |configs|, sp, arg))
  {
    acts := acts0;
    NoneReduced(acts0);
    hide OnceReduced;
    for n := 0 to |configs|
      invariant Numbered(acts) && (Once(acts0) ==> Once(acts)) && OnceReduced(acts)
      invariant SingleGotos(g.nterminal, acts0) ==> SingleGotos(g.nterminal, acts)
      invariant forall sp, kind, arg :: Listed(acts, sp, kind, arg) <==>
        Listed(acts0, sp, kind, arg) || (kind.REDUCE? && FromConfigs(g, f, q, configs, n, sp, arg))
    {
      var cfp := configs[n];
      assert configs[..n + 1] == configs[..n] + [cfp] && WfItem(g, cfp);
      ghost var acts1 := acts;
      if cfp.dot == |g.rules[cfp.rule].rhs| && ConfigRef(q, cfp) in f {
        assert forall sp :: !Listed(acts1, sp, REDUCE, cfp.rule);
        for j := 0 to g.nterminal
          invariant Numbered(acts) && (Once(acts0) ==> Once(acts)) && OnceReduced(acts)
          invariant SingleGotos(g.nterminal, acts0) ==> SingleGotos(g.nterminal, acts)
          invariant forall sp: nat, kind, arg :: Listed(acts, sp, kind, arg) <==>
            Listed(acts1, sp, kind, arg) || (kind.REDUCE? && arg == cfp.rule && sp < j && Follows(f, q, cfp, sp))
        {
          if j in f[ConfigRef(q, cfp)] {
            if Once(acts0) {
              OnceCons(Action(j, REDUCE, cfp.rule, |acts|), acts);
            }
            if SingleGotos(g.nterminal, acts0) {
              SingleCons(g.nterminal, Action(j, REDUCE, cfp.rule, |acts|), acts);
            }
            OnceReducedCons(Action(j, REDUCE, cfp.rule, |acts|), acts);
            acts := ActionAdd(acts, j, REDUCE, cfp.rule);
          }
        }
      }
      forall sp: nat, kind: Kind, arg: nat
        ensures Listed(acts, sp, kind, arg) <==>
          Listed(acts0, sp, kind, arg) || (kind.REDUCE? && FromConfigs(g, f, q, configs, n + 1, sp, arg))
      {
        assert arg < |g.rules| ==> (Final(g, arg) == cfp <==> cfp.rule == arg && cfp.dot == |g.rules[arg].rhs|);
      }
    }
  }

  /** All actions of a state before conflicts are resolved. */
  method ListActions(g: Grammar, ss: seq<State>, f: Follow, q: nat) returns (acts: seq<Action>)
    requires WfGrammar(g) && StartIsFresh(g) && AllStates(g, ss) && q < |ss|
    ensures forall sp, kind, arg :: Listed(acts, sp, kind, arg) <==> Wanted(g, AutomatonOf(ss), f, q, sp, kind, arg)
    ensures forall i :: 0 <= i < |acts| && acts[i].kind.ACCEPT? ==> i == 0 && acts[i].arg == 0
    ensures DistinctIds(acts) && (PlainClasses(g) ==> Once(acts)) && SingleGotos(g.nterminal, acts) && OnceReduced(acts)
  {
    hide SingleGotos, Once, OnceReduced, PlainClasses, PlainEdges, ProperEdges, WfGrammar, StartIsFresh;
    EdgesAreProper(g, ss, q);
    acts := ShiftActions(g.nterminal, ss[q].shifts);
    if PlainClasses(g) {
      EdgesArePlain(g, ss, q);
    }
    assert StateOk(g, ss[q]);
    acts := ReduceActions(g, f, q, ss[q].configs, acts);
    ghost var acts1 := acts;
    assert forall i :: 0 <= i < |acts| ==> Listed(acts, acts[i].sp, acts[i].kind, acts[i].arg);
    if q == 0 {
      if Once(acts) {
        OnceCons(Action(g.start, ACCEPT, 0, |acts|), acts);
      }
      OnceReducedCons(Action(g.start, ACCEPT, 0, |acts|), acts);
      NoShiftOfStart(g, ss, q);
      SingleCons(g.nterminal, Action(g.start, ACCEPT, 0, |acts|), acts);
      acts := ActionAdd(acts, g.start, ACCEPT, 0);
    }
    assert ss[q].configs[..|ss[q].configs|] == ss[q].configs;
    forall sp: nat, kind: Kind, arg: nat
      ensures Listed(acts, sp, kind, arg) <==> Wanted(g, AutomatonOf(ss), f, q, sp, kind, arg)
    {
      EdgesAreMoves(g, ss, q, sp, arg);
    }
  }

  lemma NoShiftOfStart(g: Grammar, ss: seq<State>, q: nat)
    requires WfGrammar(g) && StartIsFresh(g) && AllStates(g, ss) && q < |ss|
    ensures forall arg :: !FromEdges(ss[q].shifts, |ss[q].shifts|, g.start, arg)
  {
    hide AllStates;
    StatesAreLr0(g, ss);
    forall arg: nat ensures !FromEdges(ss[q].shifts, |ss[q].shifts|, g.start, arg) {
      EdgesAreMoves(g, ss, q, g.start, arg);
      StartNotShifted(g, AutomatonOf(ss), q, arg);
    }
  }

  lemma EdgesAreMoves(g: Grammar, ss: seq<State>, q: nat, sp: nat, arg: nat)
    requires AllStates(g, ss) && q < |ss|
    ensures FromEdges(ss[q].shifts, |ss[q].shifts|, sp, arg) <==> Moves(AutomatonOf(ss), q, sp, arg)
  {
    var edges := ss[q].shifts;
    if FromEdges(edges, |edges|, sp, arg) {
      var i :| 0 <= i < |edges| && Fits(sp, edges[i].sym) && edges[i].to == arg;
      GoesIsEdge(g, ss, q, edges[i].sym, arg);
      assert Edge(edges[i].sym, arg) == edges[i];
    }
    if Moves(AutomatonOf(ss), q, sp, arg) {
      var x :| Goes(AutomatonOf(ss), q, x, arg) && Fits(sp, x);
      GoesIsEdge(g, ss, q, x, arg);
      var i :| 0 <= i < |edges| && edges[i] == Edge(x, arg);
    }
  }

  // ----- sorted and resolved

  lemma ListedPermuted(a: seq<Action>, b: seq<Action>, sp: nat, kind: Kind, arg: nat)
    requires multiset(a) == multiset(b)
    ensures Listed(a, sp, kind, arg) <==> Listed(b, sp, kind, arg)
  {
    if Listed(a, sp, kind, arg) {
      var i :| 0 <= i < |a| && a[i].sp == sp && a[i].kind == kind && a[i].arg == arg;
      assert a[i] in multiset(b);
      var j :| 0 <= j < |b| && b[j] == a[i];
    }
    if Listed(b, sp, kind, arg) {
      var i :| 0 <= i < |b| && b[i].sp == sp && b[i].kind == kind && b[i].arg == arg;
      assert b[i] in multiset(a);
      var j :| 0 <= j < |a| && a[j] == b[i];
    }
  }

  /** The list holds just the wanted actions, with at most one ACCEPT. */
  ghost predicate Lists(g: Grammar, a: Automaton, f: Follow, q: nat, acts: seq<Action>) {
    && (forall sp, kind, arg :: Listed(acts, sp, kind, arg) <==> Wanted(g, a, f, q, sp, kind, arg))
    && (forall i, j :: 0 <= i < j < |acts| ==> !(acts[i].kind.ACCEPT? && acts[j].kind.ACCEPT?))
  }

  lemma TwiceInside(b: seq<Action>, i: nat, j: nat)
    requires i < j < |b| && b[i] == b[j]
    ensures multiset(b)[b[i]] >= 2
  {
    assert b == b[..j] + [b[j]] + b[j + 1..] && b[..j][i] == b[i];
  }

  lemma OneAccept(a: seq<Action>, b: seq<Action>, i: nat, j: nat)
    requires multiset(a) == multiset(b) && i < j < |b|
    requires forall k :: 0 <= k < |a| && a[k].kind.ACCEPT? ==> k == 0
    ensures !(b[i].kind.ACCEPT? && b[j].kind.ACCEPT?)
  {
    assert b[i] in multiset(a) && b[j] in multiset(a);
    var x := a[0];
    assert a == [x] + a[1..];
    if b[i] == b[j] {
      TwiceInside(b, i, j);
    }
  }

  method SortActions(g: Grammar, ghost a: Automaton, ghost f: Follow, ghost q: nat, acts: seq<Action>) returns (sorted: seq<Action>)
    requires forall sp, kind, arg :: Listed(acts, sp, kind, arg) <==> Wanted(g, a, f, q, sp, kind, arg)
    requires forall i :: 0 <= i < |acts| && acts[i].kind.ACCEPT? ==> i == 0
    requires DistinctIds(acts)
    ensures Sorted(ActionCmp, sorted) && Lists(g, a, f, q, sorted) && DistinctIds(sorted) && (Once(acts) ==> Once(sorted))
    ensures SingleGotos(g.nterminal, acts) ==> SingleGotos(g.nterminal, sorted)
    ensures OnceReduced(acts) ==> OnceReduced(sorted)
  {
    hide Once, SingleGotos, OnceReduced;
    ActionOrder();
    sorted := Msort(acts, ActionCmp);
    IdsPermuted(acts, sorted);
    if Once(acts) {
      OncePermuted(acts, sorted);
    }
    if SingleGotos(g.nterminal, acts) {
      SinglePermuted(g.nterminal, acts, sorted);
    }
    if OnceReduced(acts) {
      OnceReducedPermuted(acts, sorted);
    }
    forall sp: nat, kind, arg: nat ensures Listed(sorted, sp, kind, arg) <==> Wanted(g, a, f, q, sp, kind, arg) {
      ListedPermuted(acts, sorted, sp, kind, arg);
    }
    forall i, j | 0 <= i < j < |sorted| ensures !(sorted[i].kind.ACCEPT? && sorted[j].kind.ACCEPT?) {
      OneAccept(acts, sorted, i, j);
    }
  }

  lemma WantedAtIndex(g: Grammar, a: Automaton, f: Follow, q: nat, acts: seq<Action>, i: nat)
    requires Lists(g, a, f, q, acts) && i < |acts|
    ensures Wanted(g, a, f, q, acts[i].sp, acts[i].kind, acts[i].arg)
  {
    assert Listed(acts, acts[i].sp, acts[i].kind, acts[i].arg);
  }

  /** The start symbol is never shifted. */
  lemma StartNotShifted(g: Grammar, a: Automaton, q: nat, q': nat)
    requires WfGrammar(g) && StartIsFresh(g) && Lr0(g, a)
    ensures !Moves(a, q, g.start, q')
  {
    forall x | Goes(a, q, x, q') ensures !Fits(g.start, x) {
      assert TightAt(g, a, q, x, q');
      var it :| Has(a, q, it) && Shiftable(g, it) && After(g, it) == x;
      assert WfRule(g, g.rules[it.rule]) && x in g.rules[it.rule].rhs && WfSymbol(g, x);
    }
  }

  lemma SortedIsFresh(g: Grammar, a: Automaton, f: Follow, q: nat, acts: seq<Action>)
    requires WfGrammar(g) && StartIsFresh(g) && Lr0(g, a) && Sorted(ActionCmp, acts) && Lists(g, a, f, q, acts)
    ensures FreshSorted(acts)
  {
    forall i | 0 <= i < |acts| ensures Live(acts[i].kind) {
      WantedAtIndex(g, a, f, q, acts, i);
    }
    forall i, j | 0 <= i < |acts| && 0 <= j < |acts| && i != j && acts[i].sp == acts[j].sp ensures !acts[i].kind.ACCEPT? {
      WantedAtIndex(g, a, f, q, acts, i);
      WantedAtIndex(g, a, f, q, acts, j);
      if acts[j].kind.SHIFT? {
        StartNotShifted(g, a, q, acts[j].arg);
      }
    }
  }

  /** A state's action list after FindActions: what is live was wanted, every lookahead that something
      was wanted on has exactly one live action, and no wanted action is missing (it may be marked). */
  ghost predicate ListOk(g: Grammar, a: Automaton, f: Follow, q: nat, acts: seq<Action>) {
    && (forall i :: 0 <= i < |acts| ==> Live(acts[i].kind) || Settled(acts[i].kind))
    && (forall i :: 0 <= i < |acts| && Live(acts[i].kind) ==> Wanted(g, a, f, q, acts[i].sp, acts[i].kind, acts[i].arg))
    && (forall i, j :: 0 <= i < j < |acts| && acts[i].sp == acts[j].sp ==> !(Live(acts[i].kind) && Live(acts[j].kind)))
    && (forall sp, kind, arg :: Wanted(g, a, f, q, sp, kind, arg) ==> PresentAt(acts, sp, kind, arg) && LiveOn(acts, sp))
  }

  ghost predicate PresentAt(acts: seq<Action>, sp: nat, kind: Kind, arg: nat) {
    exists i :: 0 <= i < |acts| && acts[i].sp == sp && acts[i].arg == arg && (acts[i].kind == kind || Settled(acts[i].kind))
  }

  ghost predicate LiveOn(acts: seq<Action>, sp: nat) {
    exists i :: 0 <= i < |acts| && acts[i].sp == sp && Live(acts[i].kind)
  }

  lemma ResolvedIsOk(g: Grammar, a: Automaton, f: Follow, q: nat, orig: seq<Action>, acts: seq<Action>)
    requires FreshSorted(orig) && Lists(g, a, f, q, orig) && Marked(orig, acts)
    requires forall i :: 0 <= i < |acts| ==> SomeLive(acts, i)
    requires forall i, j :: 0 <= i < j < |acts| && acts[i].sp == acts[j].sp ==> !(Live(acts[i].kind) && Live(acts[j].kind))
    ensures ListOk(g, a, f, q, acts)
  {
    hide Wanted;
    forall i | 0 <= i < |acts| ensures Live(acts[i].kind) ==> Wanted(g, a, f, q, acts[i].sp, acts[i].kind, acts[i].arg) {
      WantedAtIndex(g, a, f, q, orig, i);
    }
    forall sp: nat, kind, arg: nat | Wanted(g, a, f, q, sp, kind, arg) ensures PresentAt(acts, sp, kind, arg) && LiveOn(acts, sp) {
      assert Listed(orig, sp, kind, arg);
      var i :| 0 <= i < |orig| && orig[i].sp == sp && orig[i].kind == kind && orig[i].arg == arg;
      assert acts[i] == orig[i].(kind := acts[i].kind);
      assert SomeLive(acts, i);
    }
  }

  /** No shift and reduce that a state calls for are of the same precedence on a token declared %nonassoc. */
  ghost predicate NoTieAt(g: Grammar, a: Automaton, f: Follow, p: Precedence, q: nat) {
    forall sp: nat, q': nat, r: nat :: Wanted(g, a, f, q, sp, SHIFT, q') && Wanted(g, a, f, q, sp, REDUCE, r) ==>
      Level(p, sp) < 0 || Level(p, sp) != RuleLevel(p, r) || AssocOf(p, sp).LEFT? || AssocOf(p, sp).RIGHT?
  }

  /** The state calls for at most one action on each symbol. */
  ghost predicate OneWantedAt(g: Grammar, a: Automaton, f: Follow, q: nat) {
    forall sp, k, x, k', x' :: Wanted(g, a, f, q, sp, k, x) && Wanted(g, a, f, q, sp, k', x') ==> k == k' && x == x'
  }

  /** A live action comes before any other that the state calls for: a shift before a reduce, and of several reduces the
      one by the earliest rule. */
  ghost predicate EarliestAt(g: Grammar, a: Automaton, f: Follow, q: nat, acts: seq<Action>) {
    forall i, k, x :: 0 <= i < |acts| && Live(acts[i].kind) && Wanted(g, a, f, q, acts[i].sp, k, x) ==>
      Rank(acts[i].kind) <= Rank(k) && (acts[i].kind.REDUCE? && k.REDUCE? ==> acts[i].arg <= x)
  }

  lemma TiesAreWanted(g: Grammar, a: Automaton, f: Follow, p: Precedence, q: nat, acts: seq<Action>)
    requires Lists(g, a, f, q, acts) && NoTieAt(g, a, f, p, q)
    ensures Untied(p, acts)
  {
    hide Wanted;
    forall i, j | 0 <= i < |acts| && 0 <= j < |acts| && acts[i].kind.SHIFT? && acts[j].kind.REDUCE? && acts[i].sp == acts[j].sp
      ensures Level(p, acts[i].sp) < 0 || Level(p, acts[i].sp) != RuleLevel(p, acts[j].arg)
              || AssocOf(p, acts[i].sp).LEFT? || AssocOf(p, acts[i].sp).RIGHT?
    {
      WantedAtIndex(g, a, f, q, acts, i);
      WantedAtIndex(g, a, f, q, acts, j);
    }
  }

  lemma OneWantedStays(g: Grammar, a: Automaton, f: Follow, q: nat, orig: seq<Action>, acts: seq<Action>)
    requires FreshSorted(orig) && Lists(g, a, f, q, orig) && Once(orig) && |acts| == |orig|
    requires forall i :: 0 <= i < |acts| && Alone(orig, i) ==> acts[i] == orig[i]
    requires OneWantedAt(g, a, f, q)
    ensures forall i :: 0 <= i < |acts| ==> Live(acts[i].kind)
  {
    hide Wanted;
    forall i | 0 <= i < |acts| ensures Live(acts[i].kind) {
      forall j | 0 <= j < |acts| && orig[j].sp == orig[i].sp ensures j == i {
        WantedAtIndex(g, a, f, q, orig, i);
        WantedAtIndex(g, a, f, q, orig, j);
        assert SameAction(orig[i], orig[j]) && SameAction(orig[j], orig[i]);
      }
      assert Alone(orig, i);
    }
  }

  lemma FirstIsEarliest(g: Grammar, a: Automaton, f: Follow, q: nat, orig: seq<Action>, acts: seq<Action>)
    requires FreshSorted(orig) && Lists(g, a, f, q, orig) && Marked(orig, acts)
    requires forall i, j :: 0 <= i < j < |acts| && acts[i].sp == acts[j].sp ==> !Live(acts[j].kind)
    ensures EarliestAt(g, a, f, q, acts)
  {
    hide Wanted, FreshSorted;
    forall i, k, x: nat | 0 <= i < |acts| && Live(acts[i].kind) && Wanted(g, a, f, q, acts[i].sp, k, x)
      ensures Rank(acts[i].kind) <= Rank(k) && (acts[i].kind.REDUCE? && k.REDUCE? ==> acts[i].arg <= x)
    {
      assert Listed(orig, acts[i].sp, k, x);
      var j :| 0 <= j < |orig| && orig[j].sp == acts[i].sp && orig[j].kind == k && orig[j].arg == x;
      assert acts[j].sp == orig[j].sp && acts[i] == orig[i];
      InOrderOf(orig, i, j);
    }
  }

  lemma InOrderOf(orig: seq<Action>, i: nat, j: nat)
    requires FreshSorted(orig) && i <= j < |orig| && orig[i].sp == orig[j].sp
    ensures Rank(orig[i].kind) <= Rank(orig[j].kind)
    ensures orig[i].kind.REDUCE? && orig[j].kind.REDUCE? ==> orig[i].arg <= orig[j].arg
  {
    assert i < j ==> ActionCmp(orig[i], orig[j]) <= 0;
  }

  // ----- how precedence decides, in terms of what a state calls for

  ghost predicate WantsShift(g: Grammar, a: Automaton, f: Follow, q: nat, sp: nat) {
    exists x: nat :: Wanted(g, a, f, q, sp, SHIFT, x)
  }

  /** A rule up to `r` that the state calls for takes precedence over a shift. */
  ghost predicate OverShift(g: Grammar, a: Automaton, f: Follow, p: Precedence, q: nat, sp: nat, r: nat) {
    exists b: nat :: b <= r && Wanted(g, a, f, q, sp, REDUCE, b) && Beats(p, sp, b)
  }

  ghost predicate NeverOverShift(g: Grammar, a: Automaton, f: Follow, p: Precedence, q: nat, sp: nat) {
    forall b: nat :: Wanted(g, a, f, q, sp, REDUCE, b) ==> !Beats(p, sp, b)
  }

  /** Of the rules that the state calls for on the token, `r` is the first of the highest level. */
  ghost predicate TopRule(g: Grammar, a: Automaton, f: Follow, p: Precedence, q: nat, sp: nat, r: nat) {
    && RuleLevel(p, r) >= 0
    && forall b: nat :: Wanted(g, a, f, q, sp, REDUCE, b) ==>
         RuleLevel(p, b) <= RuleLevel(p, r) && (b < r ==> RuleLevel(p, b) < RuleLevel(p, r))
  }

  /** The level of `r` is missing, or is the highest before it, and not for the first time. */
  ghost predicate EvenRule(g: Grammar, a: Automaton, f: Follow, p: Precedence, q: nat, sp: nat, r: nat) {
    RuleLevel(p, r) < 0 ||
    ((exists b: nat :: b < r && Wanted(g, a, f, q, sp, REDUCE, b) && RuleLevel(p, b) == RuleLevel(p, r))
     && forall b: nat :: b < r && Wanted(g, a, f, q, sp, REDUCE, b) ==> RuleLevel(p, b) <= RuleLevel(p, r))
  }

  /** The first rule that the state calls for on the token. */
  ghost predicate FirstRule(g: Grammar, a: Automaton, f: Follow, q: nat, sp: nat, r: nat) {
    Wanted(g, a, f, q, sp, REDUCE, r) && forall b: nat :: Wanted(g, a, f, q, sp, REDUCE, b) ==> r <= b
  }

  /** No shift, and the first rule has no level. */
  ghost predicate NoRank(g: Grammar, a: Automaton, f: Follow, p: Precedence, q: nat, sp: nat) {
    !WantsShift(g, a, f, q, sp) && exists r: nat :: FirstRule(g, a, f, q, sp, r) && RuleLevel(p, r) < 0
  }

  /** What becomes of a reduce: behind a shift that no rule up to it takes precedence over, it is a conflict if a level is
      missing, and else resolved; otherwise the first rule of the highest level is used, one of a level that another has
      had is a conflict, and the rest is resolved. */
  ghost function RuleFate(g: Grammar, a: Automaton, f: Follow, p: Precedence, q: nat, sp: nat, r: nat): Kind {
    if WantsShift(g, a, f, q, sp) && !OverShift(g, a, f, p, q, sp, r) then
      if Level(p, sp) < 0 || RuleLevel(p, r) < 0 then SRCONFLICT else RD_RESOLVED
    else if NoRank(g, a, f, p, q, sp) then if FirstRule(g, a, f, q, sp, r) then REDUCE else RRCONFLICT
    else if TopRule(g, a, f, p, q, sp, r) then REDUCE
    else if EvenRule(g, a, f, p, q, sp, r) then RRCONFLICT
    else RD_RESOLVED
  }

  predicate OfReduce(k: Kind) {
    k.REDUCE? || k.SRCONFLICT? || k.RRCONFLICT? || k.RD_RESOLVED?
  }

  predicate OfShift(k: Kind) {
    k.SHIFT? || k.SSCONFLICT? || k.SH_RESOLVED?
  }

  ghost predicate EntryDecided(g: Grammar, a: Automaton, f: Follow, p: Precedence, q: nat, x: Action) {
    if OfReduce(x.kind) then Wanted(g, a, f, q, x.sp, REDUCE, x.arg) && x.kind == RuleFate(g, a, f, p, q, x.sp, x.arg)
    else if OfShift(x.kind) then
      && Wanted(g, a, f, q, x.sp, SHIFT, x.arg)
      && (x.kind.SHIFT? ==> NeverOverShift(g, a, f, p, q, x.sp)) && (x.kind.SH_RESOLVED? ==> !NeverOverShift(g, a, f, p, q, x.sp))
    else x.kind.ACCEPT?
  }

  /** Precedence and associativity decide about every action that the state calls for. */
  ghost predicate PrecedenceAt(g: Grammar, a: Automaton, f: Follow, p: Precedence, q: nat, acts: seq<Action>) {
    && (forall i :: 0 <= i < |acts| ==> EntryDecided(g, a, f, p, q, acts[i]))
    && (forall sp: nat, r: nat :: Wanted(g, a, f, q, sp, REDUCE, r) ==> HasEntry(acts, sp, r, true))
    && (forall sp: nat, x: nat :: Wanted(g, a, f, q, sp, SHIFT, x) ==> HasEntry(acts, sp, x, false))
  }

  ghost predicate HasEntry(acts: seq<Action>, sp: nat, arg: nat, reduce: bool) {
    exists i :: 0 <= i < |acts| && acts[i].sp == sp && acts[i].arg == arg && if reduce then OfReduce(acts[i].kind) else OfShift(acts[i].kind)
  }

  /** Rules are listed in order, each once. */
  lemma RuleOrder(orig: seq<Action>, l: nat, k: nat, sp: nat)
    requires FreshSorted(orig) && OnceReduced(orig) && ReduceOn(orig, l, sp) && ReduceOn(orig, k, sp)
    ensures l < k <==> orig[l].arg < orig[k].arg
  {
    if l < k {
      InOrderOf(orig, l, k);
      assert !SameAction(orig[l], orig[k]);
    } else if k < l {
      InOrderOf(orig, k, l);
      assert !SameAction(orig[k], orig[l]);
    }
  }

  lemma RuleIndex(g: Grammar, a: Automaton, f: Follow, q: nat, orig: seq<Action>, sp: nat, r: nat) returns (k: nat)
    requires Lists(g, a, f, q, orig) && Wanted(g, a, f, q, sp, REDUCE, r)
    ensures ReduceOn(orig, k, sp) && orig[k].arg == r
  {
    hide Wanted;
    assert Listed(orig, sp, REDUCE, r);
    k :| 0 <= k < |orig| && orig[k].sp == sp && orig[k].kind == REDUCE && orig[k].arg == r;
  }

  lemma ShiftsAgree(g: Grammar, a: Automaton, f: Follow, q: nat, orig: seq<Action>, sp: nat)
    requires Lists(g, a, f, q, orig)
    ensures HasShift(orig, sp) <==> WantsShift(g, a, f, q, sp)
  {
    hide Wanted;
    if s :| 0 <= s < |orig| && orig[s].sp == sp && orig[s].kind.SHIFT? {
      WantedAtIndex(g, a, f, q, orig, s);
    }
    if x: nat :| Wanted(g, a, f, q, sp, SHIFT, x) {
      assert Listed(orig, sp, SHIFT, x);
    }
  }

  lemma BeatenAgrees(g: Grammar, a: Automaton, f: Follow, p: Precedence, q: nat, orig: seq<Action>, k: nat)
    requires FreshSorted(orig) && OnceReduced(orig) && Lists(g, a, f, q, orig) && k < |orig| && orig[k].kind.REDUCE?
    ensures Beaten(p, orig, orig[k].sp, k + 1) <==> OverShift(g, a, f, p, q, orig[k].sp, orig[k].arg)
  {
    hide Wanted, FreshSorted, OnceReduced, Lists, Beats;
    var sp := orig[k].sp;
    assert ReduceOn(orig, k, sp);
    if b: nat :| b < k + 1 && ReduceOn(orig, b, sp) && Beats(p, sp, orig[b].arg) {
      WantedAtIndex(g, a, f, q, orig, b);
      RuleOrder(orig, k, b, sp);
    }
    if r: nat :| r <= orig[k].arg && Wanted(g, a, f, q, sp, REDUCE, r) && Beats(p, sp, r) {
      var b := RuleIndex(g, a, f, q, orig, sp, r);
      RuleOrder(orig, k, b, sp);
    }
  }

  lemma AllBeatenAgrees(g: Grammar, a: Automaton, f: Follow, p: Precedence, q: nat, orig: seq<Action>, sp: nat)
    requires Lists(g, a, f, q, orig)
    ensures Beaten(p, orig, sp, |orig|) <==> !NeverOverShift(g, a, f, p, q, sp)
  {
    hide Wanted, Lists, Beats;
    if b: nat :| b < |orig| && ReduceOn(orig, b, sp) && Beats(p, sp, orig[b].arg) {
      WantedAtIndex(g, a, f, q, orig, b);
    }
    if r: nat :| Wanted(g, a, f, q, sp, REDUCE, r) && Beats(p, sp, r) {
      var b := RuleIndex(g, a, f, q, orig, sp, r);
    }
  }

  lemma HighestAgrees(g: Grammar, a: Automaton, f: Follow, p: Precedence, q: nat, orig: seq<Action>, k: nat)
    requires FreshSorted(orig) && OnceReduced(orig) && Lists(g, a, f, q, orig) && k < |orig| && orig[k].kind.REDUCE?
    ensures Highest(p, orig, k, |orig|) <==> TopRule(g, a, f, p, q, orig[k].sp, orig[k].arg)
  {
    hide Wanted, FreshSorted, OnceReduced, Lists, RuleLevel;
    var sp := orig[k].sp;
    assert ReduceOn(orig, k, sp);
    if Highest(p, orig, k, |orig|) {
      forall b: nat | Wanted(g, a, f, q, sp, REDUCE, b)
        ensures RuleLevel(p, b) <= RuleLevel(p, orig[k].arg) && (b < orig[k].arg ==> RuleLevel(p, b) < RuleLevel(p, orig[k].arg)) {
        var l := RuleIndex(g, a, f, q, orig, sp, b);
        RuleOrder(orig, l, k, sp);
      }
    }
    if TopRule(g, a, f, p, q, sp, orig[k].arg) {
      forall l: nat | l < |orig| && ReduceOn(orig, l, sp)
        ensures RuleLevel(p, orig[l].arg) <= RuleLevel(p, orig[k].arg)
        ensures l < k ==> RuleLevel(p, orig[l].arg) < RuleLevel(p, orig[k].arg) {
        WantedAtIndex(g, a, f, q, orig, l);
        RuleOrder(orig, l, k, sp);
      }
    }
  }

  lemma MatchedAgrees(g: Grammar, a: Automaton, f: Follow, p: Precedence, q: nat, orig: seq<Action>, k: nat)
    requires FreshSorted(orig) && OnceReduced(orig) && Lists(g, a, f, q, orig) && k < |orig| && orig[k].kind.REDUCE?
    ensures Matched(p, orig, k) <==> EvenRule(g, a, f, p, q, orig[k].sp, orig[k].arg)
  {
    hide Wanted, FreshSorted, OnceReduced, Lists, RuleLevel;
    var sp, r := orig[k].sp, orig[k].arg;
    assert ReduceOn(orig, k, sp);
    forall l: nat | l < k && ReduceOn(orig, l, sp) ensures orig[l].arg < r && Wanted(g, a, f, q, sp, REDUCE, orig[l].arg) {
      WantedAtIndex(g, a, f, q, orig, l);
      RuleOrder(orig, l, k, sp);
    }
    forall b: nat | b < r && Wanted(g, a, f, q, sp, REDUCE, b) ensures exists l: nat :: l < k && ReduceOn(orig, l, sp) && orig[l].arg == b {
      var l := RuleIndex(g, a, f, q, orig, sp, b);
      RuleOrder(orig, l, k, sp);
    }
  }

  lemma FirstAgrees(g: Grammar, a: Automaton, f: Follow, q: nat, orig: seq<Action>, k: nat)
    requires FreshSorted(orig) && OnceReduced(orig) && Lists(g, a, f, q, orig) && k < |orig| && orig[k].kind.REDUCE?
    requires !HasShift(orig, orig[k].sp)
    ensures IsFirst(orig, k) <==> FirstRule(g, a, f, q, orig[k].sp, orig[k].arg)
  {
    hide Wanted, Lists, Sorted;
    var sp, r := orig[k].sp, orig[k].arg;
    WantedAtIndex(g, a, f, q, orig, k);
    assert ReduceOn(orig, k, sp);
    if IsFirst(orig, k) {
      forall b: nat | Wanted(g, a, f, q, sp, REDUCE, b) ensures r <= b {
        var l := RuleIndex(g, a, f, q, orig, sp, b);
        RuleOrder(orig, l, k, sp);
      }
    }
    if FirstRule(g, a, f, q, sp, r) {
      forall l | 0 <= l < k ensures orig[l].sp != sp {
        if orig[l].sp == sp {
          assert Live(orig[l].kind) && !orig[l].kind.ACCEPT? && !orig[l].kind.SHIFT?;
          assert ReduceOn(orig, l, sp);
          WantedAtIndex(g, a, f, q, orig, l);
          RuleOrder(orig, l, k, sp);
        }
      }
    }
  }

  lemma RankAgrees(g: Grammar, a: Automaton, f: Follow, p: Precedence, q: nat, orig: seq<Action>, sp: nat)
    requires FreshSorted(orig) && OnceReduced(orig) && Lists(g, a, f, q, orig)
    ensures Unranked(p, orig, sp) <==> NoRank(g, a, f, p, q, sp)
  {
    hide Wanted, FreshSorted, OnceReduced, Lists, IsFirst, FirstRule, HasShift, WantsShift;
    ShiftsAgree(g, a, f, q, orig, sp);
    if !HasShift(orig, sp) {
      if k: nat :| ReduceOn(orig, k, sp) && IsFirst(orig, k) && RuleLevel(p, orig[k].arg) < 0 {
        FirstAgrees(g, a, f, q, orig, k);
      }
      if r: nat :| FirstRule(g, a, f, q, sp, r) && RuleLevel(p, r) < 0 {
        FirstIsWanted(g, a, f, q, sp, r);
        var k := RuleIndex(g, a, f, q, orig, sp, r);
        FirstAgrees(g, a, f, q, orig, k);
      }
    }
  }

  lemma FirstIsWanted(g: Grammar, a: Automaton, f: Follow, q: nat, sp: nat, r: nat)
    requires FirstRule(g, a, f, q, sp, r)
    ensures Wanted(g, a, f, q, sp, REDUCE, r)
  {
  }

  lemma FatesAgree(g: Grammar, a: Automaton, f: Follow, p: Precedence, q: nat, orig: seq<Action>, k: nat)
    requires FreshSorted(orig) && OnceReduced(orig) && Lists(g, a, f, q, orig) && k < |orig| && orig[k].kind.REDUCE?
    ensures ReduceFate(p, orig, k) == RuleFate(g, a, f, p, q, orig[k].sp, orig[k].arg)
  {
    hide Wanted, FreshSorted, OnceReduced, Lists, HasShift, WantsShift, Beaten, OverShift, Unranked, NoRank, Highest, TopRule, Matched,
      EvenRule, IsFirst, FirstRule;
    ShiftsAgree(g, a, f, q, orig, orig[k].sp);
    BeatenAgrees(g, a, f, p, q, orig, k);
    RankAgrees(g, a, f, p, q, orig, orig[k].sp);
    HighestAgrees(g, a, f, p, q, orig, k);
    MatchedAgrees(g, a, f, p, q, orig, k);
    if Unranked(p, orig, orig[k].sp) {
      UnrankedShift(p, orig, orig[k].sp);
      FirstAgrees(g, a, f, q, orig, k);
    }
  }

  lemma UnrankedShift(p: Precedence, orig: seq<Action>, sp: nat)
    requires Unranked(p, orig, sp)
    ensures !HasShift(orig, sp)
  {
  }

  lemma EntryIsDecided(g: Grammar, a: Automaton, f: Follow, p: Precedence, q: nat, orig: seq<Action>, acts: seq<Action>, k: nat)
    requires FreshSorted(orig) && OnceReduced(orig) && Lists(g, a, f, q, orig) && Marked(orig, acts) && Decides(p, orig, acts) && k < |orig|
    ensures EntryDecided(g, a, f, p, q, acts[k])
    ensures orig[k].kind.REDUCE? ==> OfReduce(acts[k].kind)
    ensures orig[k].kind.SHIFT? ==> OfShift(acts[k].kind)
  {
    hide Wanted, OnceReduced, Lists, Sorted, RuleFate, NeverOverShift, Beaten, IsFirst, Unranked, Highest, Matched, HasShift;
    WantedAtIndex(g, a, f, q, orig, k);
    assert acts[k].kind == Fate(p, orig, k) && acts[k] == orig[k].(kind := acts[k].kind) && Live(orig[k].kind);
    if orig[k].kind.REDUCE? {
      FatesAgree(g, a, f, p, q, orig, k);
    } else if orig[k].kind.SHIFT? {
      AllBeatenAgrees(g, a, f, p, q, orig, orig[k].sp);
    }
  }

  lemma ListDecided(g: Grammar, a: Automaton, f: Follow, p: Precedence, q: nat, orig: seq<Action>, acts: seq<Action>)
    requires FreshSorted(orig) && OnceReduced(orig) && Lists(g, a, f, q, orig) && Marked(orig, acts) && Decides(p, orig, acts)
    ensures PrecedenceAt(g, a, f, p, q, acts)
  {
    hide Wanted, FreshSorted, OnceReduced, Decides, EntryDecided;
    forall i | 0 <= i < |acts| ensures EntryDecided(g, a, f, p, q, acts[i]) {
      EntryIsDecided(g, a, f, p, q, orig, acts, i);
    }
    forall sp: nat, r: nat | Wanted(g, a, f, q, sp, REDUCE, r) ensures HasEntry(acts, sp, r, true) {
      var k := RuleIndex(g, a, f, q, orig, sp, r);
      EntryIsDecided(g, a, f, p, q, orig, acts, k);
    }
    forall sp: nat, x: nat | Wanted(g, a, f, q, sp, SHIFT, x) ensures HasEntry(acts, sp, x, false) {
      assert Listed(orig, sp, SHIFT, x);
      var k :| 0 <= k < |orig| && orig[k].sp == sp && orig[k].kind == SHIFT && orig[k].arg == x;
      EntryIsDecided(g, a, f, p, q, orig, acts, k);
    }
  }

  /** A shift against a reduce: the rule is used exactly if its level is higher than that of the token, or the same and the
      token is left-associative; a level that is missing makes it a conflict, for the shift. */
  lemma ShiftAgainstReduce(g: Grammar, a: Automaton, f: Follow, p: Precedence, q: nat, acts: seq<Action>, i: nat, sp: nat, x: nat, r: nat)
    requires ListOk(g, a, f, q, acts) && PrecedenceAt(g, a, f, p, q, acts) && i < |acts| && acts[i].sp == sp
    requires Wanted(g, a, f, q, sp, SHIFT, x) && Wanted(g, a, f, q, sp, REDUCE, r)
    requires forall b: nat :: Wanted(g, a, f, q, sp, REDUCE, b) ==> b == r
    ensures OfReduce(acts[i].kind) ==>
      acts[i].kind == if Level(p, sp) < 0 || RuleLevel(p, r) < 0 then SRCONFLICT
                      else if RuleLevel(p, r) > Level(p, sp) || (RuleLevel(p, r) == Level(p, sp) && AssocOf(p, sp).LEFT?) then REDUCE
                      else RD_RESOLVED
    ensures acts[i].kind.SHIFT? ==>
      Level(p, sp) < 0 || RuleLevel(p, r) < 0 || RuleLevel(p, r) < Level(p, sp) || (RuleLevel(p, r) == Level(p, sp) && !AssocOf(p, sp).LEFT?)
  {
    hide Wanted, ListOk;
    assert EntryDecided(g, a, f, p, q, acts[i]);
    assert WantsShift(g, a, f, q, sp);
    assert OverShift(g, a, f, p, q, sp, r) <==> Beats(p, sp, r);
  }

  /** If all is live, no two different actions were wanted on a symbol. */
  lemma FreeMeansOne(g: Grammar, a: Automaton, f: Follow, q: nat, acts: seq<Action>)
    requires ListOk(g, a, f, q, acts) && forall i :: 0 <= i < |acts| ==> Live(acts[i].kind)
    ensures OneWantedAt(g, a, f, q)
  {
    hide Wanted, ListOk;
    forall sp: nat, k, x: nat, k', x': nat | Wanted(g, a, f, q, sp, k, x) && Wanted(g, a, f, q, sp, k', x')
      ensures k == k' && x == x'
    {
      var i := FreePresent(g, a, f, q, acts, sp, k, x);
      var j := FreePresent(g, a, f, q, acts, sp, k', x');
      OneLive(g, a, f, q, acts, i);
    }
  }

  /** An action on a nonterminal is live. */
  ghost predicate GotosLive(g: Grammar, acts: seq<Action>) {
    forall x :: x in acts && x.sp >= g.nterminal ==> Live(x.kind)
  }

  lemma GotosStay(g: Grammar, orig: seq<Action>, acts: seq<Action>)
    requires FreshSorted(orig) && SingleGotos(g.nterminal, orig) && Marked(orig, acts)
    requires forall i :: 0 <= i < |acts| && Alone(orig, i) ==> acts[i] == orig[i]
    ensures GotosLive(g, acts)
  {
    forall x | x in acts && x.sp >= g.nterminal ensures Live(x.kind) {
      var i :| 0 <= i < |acts| && acts[i] == x;
      assert acts[i] == orig[i].(kind := acts[i].kind);
      assert Alone(orig, i);
    }
  }

  /** FindActions for one state. */
  method StateActions(g: Grammar, p: Precedence, ss: seq<State>, f: Follow, q: nat) returns (acts: seq<Action>, count: nat)
    requires WfGrammar(g) && StartIsFresh(g) && AllStates(g, ss) && q < |ss|
    requires NoTieAt(g, AutomatonOf(ss), f, p, q)
    ensures ListOk(g, AutomatonOf(ss), f, q, acts) && DistinctIds(acts) && count == ConflictCount(acts)
    ensures PlainClasses(g) ==> ((forall i :: 0 <= i < |acts| ==> Live(acts[i].kind)) <==> OneWantedAt(g, AutomatonOf(ss), f, q))
    ensures NoLevels(p) ==> EarliestAt(g, AutomatonOf(ss), f, q, acts)
    ensures GotosLive(g, acts) && PrecedenceAt(g, AutomatonOf(ss), f, p, q, acts)
  {
    hide Wanted, AllStates, ListOk, PlainClasses, Once, OnceReduced, SingleGotos, NoLevels, EarliestAt, OneWantedAt, NoTieAt, PrecedenceAt;
    StatesAreLr0(g, ss);
    hide Lr0;
    var list := ListActions(g, ss, f, q);
    var sorted := SortActions(g, AutomatonOf(ss), f, q, list);
    SortedIsFresh(g, AutomatonOf(ss), f, q, sorted);
    TiesAreWanted(g, AutomatonOf(ss), f, p, q, sorted);
    hide FreshSorted, Lists, Untied, SomeLive, Decides;
    acts, count := ResolveAll(p, sorted);
    ListDecided(g, AutomatonOf(ss), f, p, q, sorted, acts);
    ResolvedIsOk(g, AutomatonOf(ss), f, q, sorted, acts);
    GotosStay(g, sorted, acts);
    if NoLevels(p) {
      FirstIsEarliest(g, AutomatonOf(ss), f, q, sorted, acts);
    }
    if PlainClasses(g) && OneWantedAt(g, AutomatonOf(ss), f, q) {
      OneWantedStays(g, AutomatonOf(ss), f, q, sorted, acts);
    }
    if forall i :: 0 <= i < |acts| ==> Live(acts[i].kind) {
      FreeMeansOne(g, AutomatonOf(ss), f, q, acts);
    }
  }

  /** What FindActions makes of a state. */
  ghost predicate StateDone(g: Grammar, p: Precedence, a: Automaton, f: Follow, q: nat, acts: seq<Action>) {
    && ListOk(g, a, f, q, acts) && DistinctIds(acts) && GotosLive(g, acts) && PrecedenceAt(g, a, f, p, q, acts)
    && (PlainClasses(g) ==> ((forall i :: 0 <= i < |acts| ==> Live(acts[i].kind)) <==> OneWantedAt(g, a, f, q)))
    && (NoLevels(p) ==> EarliestAt(g, a, f, q, acts))
  }

  /** FindActions, state by state. `count` is the number of unresolved conflicts. */
  method FindActions(g: Grammar, p: Precedence, ss: seq<State>, f: Follow) returns (ap: seq<seq<Action>>, count: nat)
    requires WfGrammar(g) && StartIsFresh(g) && AllStates(g, ss)
    requires forall q: nat :: q < |ss| ==> NoTieAt(g, AutomatonOf(ss), f, p, q)
    ensures |ap| == |ss| && forall q: nat :: q < |ss| ==> StateDone(g, p, AutomatonOf(ss), f, q, ap[q])
    ensures count == TotalConflicts(ap)
  {
    hide ListOk, AllStates, EarliestAt, OneWantedAt, NoTieAt, PlainClasses, NoLevels, PrecedenceAt;
    ap, count := [], 0;
    for q := 0 to |ss|
      invariant |ap| == q && forall k: nat :: k < q ==> StateDone(g, p, AutomatonOf(ss), f, k, ap[k])
      invariant count == TotalConflicts(ap)
    {
      var acts, n;
      acts, n := StateActions(g, p, ss, f, q);
      assert (ap + [acts])[..q] == ap;
      ap, count := ap + [acts], count + n;
    }
  }

  /** No rule has the precedence of a token declared %nonassoc. */
  predicate NoNonassocRule(p: Precedence) {
    forall c: nat, r: nat :: c < |p.level| && r < |p.precsym| && p.level[c] >= 0 && p.level[c] == RuleLevel(p, r) ==>
      AssocOf(p, c).LEFT? || AssocOf(p, c).RIGHT?
  }

  lemma NoNonassocNoTie(g: Grammar, a: Automaton, f: Follow, p: Precedence, q: nat)
    requires NoNonassocRule(p)
    ensures NoTieAt(g, a, f, p, q)
  {
  }

  function TotalConflicts(ap: seq<seq<Action>>): nat {
    if ap == [] then 0 else TotalConflicts(ap[..|ap| - 1]) + ConflictCount(ap[|ap| - 1])
  }

  // ----- the table that action lists stand for

  /** compute_action gives a table entry for these. */
  predicate Emitted(k: Kind) {
    Live(k) || k.ERROR? || k.SHIFTREDUCE?
  }

  /** compute_action, decoded: a SHIFTREDUCE on a nonterminal is a plain reduce. */
  function Decode(g: Grammar, a: Action): Act {
    match a.kind
    case SHIFT => Shift(a.arg)
    case ACCEPT => Accept
    case REDUCE => Reduce(a.arg)
    case SHIFTREDUCE => if a.sp >= g.nterminal then Reduce(a.arg) else ShiftReduce(a.arg)
    case _ => Error
  }

  function Entries(g: Grammar, acts: seq<Action>): map<nat, Act> {
    if acts == [] then map[]
    else
      var a := acts[|acts| - 1];
      var m := Entries(g, acts[..|acts| - 1]);
      if Emitted(a.kind) && a.sp < g.nsymbol then m[a.sp := Decode(g, a)] else m
  }

  /** The action on the pseudo-symbol {default}, whose index is nsymbol. */
  function Default(g: Grammar, acts: seq<Action>): Act {
    if acts == [] then Error
    else
      var a := acts[|acts| - 1];
      if a.sp == g.nsymbol && Emitted(a.kind) then Decode(g, a) else Default(g, acts[..|acts| - 1])
  }

  function TableOf(g: Grammar, ap: seq<seq<Action>>): Table {
    seq(|ap|, q requires 0 <= q < |ap| => Row(Entries(g, ap[q]), Default(g, ap[q])))
  }

  ghost predicate OneEmitted(acts: seq<Action>) {
    forall x, y :: x in acts && y in acts && x.sp == y.sp && Emitted(x.kind) && Emitted(y.kind) ==> x == y
  }

  lemma {:induction false} EntriesAre(g: Grammar, acts: seq<Action>, c: nat)
    requires OneEmitted(acts)
    ensures forall x :: x in acts && x.sp == c < g.nsymbol && Emitted(x.kind) ==>
      c in Entries(g, acts) && Entries(g, acts)[c] == Decode(g, x)
    ensures c in Entries(g, acts) ==> exists x :: x in acts && x.sp == c < g.nsymbol && Emitted(x.kind)
    decreases |acts|
  {
    if acts != [] {
      assert acts == acts[..|acts| - 1] + [acts[|acts| - 1]];
      EntriesAre(g, acts[..|acts| - 1], c);
    }
  }

  lemma {:induction false} DefaultIs(g: Grammar, acts: seq<Action>)
    requires OneEmitted(acts)
    ensures forall x :: x in acts && x.sp == g.nsymbol && Emitted(x.kind) ==> Default(g, acts) == Decode(g, x)
    ensures (forall x :: x in acts && Emitted(x.kind) ==> x.sp != g.nsymbol) ==> Default(g, acts) == Error
    decreases |acts|
  {
    if acts != [] {
      assert acts == acts[..|acts| - 1] + [acts[|acts| - 1]];
      DefaultIs(g, acts[..|acts| - 1]);
    }
  }

  lemma WantedSymbol(g: Grammar, a: Automaton, f: Follow, q: nat, sp: nat, kind: Kind, arg: nat)
    requires WfGrammar(g) && Lr0(g, a) && Wanted(g, a, f, q, sp, kind, arg)
    ensures sp < g.nsymbol && (kind.SHIFT? ==> sp > 0)
  {
    if kind.SHIFT? {
      var x :| Goes(a, q, x, arg) && Fits(sp, x);
      assert TightAt(g, a, q, x, arg);
      var it :| Has(a, q, it) && Shiftable(g, it) && After(g, it) == x;
      assert WfRule(g, g.rules[it.rule]) && x in g.rules[it.rule].rhs && WfSymbol(g, x);
    }
  }

  /** Before compression: a table entry is the one live action of that state on that symbol. */
  lemma LookupIsLive(g: Grammar, a: Automaton, f: Follow, ap: seq<seq<Action>>, q: nat, c: nat)
    requires WfGrammar(g) && Lr0(g, a) && q < |ap| && ListOk(g, a, f, q, ap[q])
    ensures var act := Lookup(TableOf(g, ap), q, c);
      if LiveOn(ap[q], c) then
        exists i :: 0 <= i < |ap[q]| && ap[q][i].sp == c && Live(ap[q][i].kind) && act == Decode(g, ap[q][i])
      else act == Error
  {
    hide Wanted, Lr0;
    var acts := ap[q];
    ListIsPlain(g, a, f, q, acts);
    EntriesAre(g, acts, c);
    DefaultIs(g, acts);
    if LiveOn(acts, c) {
      var i :| 0 <= i < |acts| && acts[i].sp == c && Live(acts[i].kind);
      assert acts[i] in acts;
    }
  }

  /** A list as FindActions leaves it: no two entries on a symbol, none on {default}. */
  ghost predicate Plain(g: Grammar, acts: seq<Action>) {
    && OneEmitted(acts)
    && (forall x :: x in acts ==> Live(x.kind) || Settled(x.kind))
    && (forall x :: x in acts && Live(x.kind) ==>
          x.sp < g.nsymbol && (x.kind.REDUCE? ==> x.sp < g.nterminal) && (x.kind.ACCEPT? ==> g.nterminal <= x.sp))
  }

  lemma ListIsPlain(g: Grammar, a: Automaton, f: Follow, q: nat, acts: seq<Action>)
    requires WfGrammar(g) && Lr0(g, a) && ListOk(g, a, f, q, acts)
    ensures Plain(g, acts)
  {
    hide Lr0;
    forall x | x in acts && Live(x.kind)
      ensures x.sp < g.nsymbol && (x.kind.REDUCE? ==> x.sp < g.nterminal) && (x.kind.ACCEPT? ==> g.nterminal <= x.sp)
    {
      WantedSymbol(g, a, f, q, x.sp, x.kind, x.arg);
    }
  }

  ghost predicate ListsOk(g: Grammar, a: Automaton, f: Follow, ap: seq<seq<Action>>) {
    |ap| == |a.items| && forall q: nat :: q < |ap| ==> ListOk(g, a, f, q, ap[q])
  }

  ghost predicate OnlyEnd(g: Grammar, f: Follow) {
    forall q, it: Item, t ::
      it.rule < |g.rules| && g.rules[it.rule].lhs == g.start && Follows(f, q, it, t) ==> t == 0
  }

  /** What the raw table does on a symbol was wanted. */
  lemma LookupWanted(g: Grammar, a: Automaton, f: Follow, ap: seq<seq<Action>>, q: nat, c: nat)
    requires WfGrammar(g) && Lr0(g, a) && ListsOk(g, a, f, ap) && q < |ap|
    ensures var act := Lookup(TableOf(g, ap), q, c);
      match act
      case Shift(q') => Wanted(g, a, f, q, c, SHIFT, q')
      case Reduce(r) => Wanted(g, a, f, q, c, REDUCE, r)
      case Accept => Wanted(g, a, f, q, c, ACCEPT, 0)
      case ShiftReduce(_) => false
      case Error => true
  {
    hide Lr0;
    LookupIsLive(g, a, f, ap, q, c);
  }

  /** The raw table does nothing the automaton does not allow. */
  lemma RawTableSound(g: Grammar, a: Automaton, f: Follow, ap: seq<seq<Action>>)
    requires WfGrammar(g) && StartIsFresh(g) && Lr0(g, a) && ListsOk(g, a, f, ap) && OnlyEnd(g, f)
    ensures SoundTable(g, a, TableOf(g, ap))
  {
    hide Lr0, ListsOk, OnlyEnd, TableOf, StartIsFresh, WfGrammar;
    var tb := TableOf(g, ap);
    RawAccept(g, a, f, ap);
    forall q: nat, c: nat, q': nat ensures GotoAt(g, a, tb, q, c, q') {
      RawGoto(g, a, f, ap, q, c, q');
    }
    forall q: nat, c: nat ensures SoundAt(g, a, tb, q, c) {
      RawSoundAt(g, a, f, ap, q, c);
    }
  }

  lemma RawAccept(g: Grammar, a: Automaton, f: Follow, ap: seq<seq<Action>>)
    requires WfGrammar(g) && StartIsFresh(g) && Lr0(g, a) && ListsOk(g, a, f, ap)
    ensures Lookup(TableOf(g, ap), 0, g.start) == Accept
  {
    assert Wanted(g, a, f, 0, g.start, ACCEPT, 0);
    assert LiveOn(ap[0], g.start);
    LookupIsLive(g, a, f, ap, 0, g.start);
    LookupWanted(g, a, f, ap, 0, g.start);
    var act := Lookup(TableOf(g, ap), 0, g.start);
    if act.Shift? {
      StartNotShifted(g, a, 0, act.state);
    }
  }

  lemma RawSoundAt(g: Grammar, a: Automaton, f: Follow, ap: seq<seq<Action>>, q: nat, c: nat)
    requires WfGrammar(g) && Lr0(g, a) && ListsOk(g, a, f, ap) && OnlyEnd(g, f)
    ensures SoundAt(g, a, TableOf(g, ap), q, c)
  {
    if q < |a.items| && c < g.nterminal {
      LookupWanted(g, a, f, ap, q, c);
      var act := Lookup(TableOf(g, ap), q, c);
      if act.Shift? {
        WantedSymbol(g, a, f, q, c, SHIFT, act.state);
      }
    }
  }

  lemma RawGoto(g: Grammar, a: Automaton, f: Follow, ap: seq<seq<Action>>, q: nat, c: nat, q': nat)
    requires WfGrammar(g) && StartIsFresh(g) && Lr0(g, a) && ListsOk(g, a, f, ap)
    ensures GotoAt(g, a, TableOf(g, ap), q, c, q')
  {
    if Goes(a, q, Sym(c), q') && g.nterminal <= c {
      assert Fits(c, Sym(c)) && Wanted(g, a, f, q, c, SHIFT, q');
      assert LiveOn(ap[q], c);
      LookupIsLive(g, a, f, ap, q, c);
      LookupWanted(g, a, f, ap, q, c);
      if c == g.start {
        StartNotShifted(g, a, q, q');
      }
      var act := Lookup(TableOf(g, ap), q, c);
      NonterminalMove(g, a, q, c, act.state, q');
    }
  }

  lemma NonterminalMove(g: Grammar, a: Automaton, q: nat, c: nat, q1: nat, q2: nat)
    requires WfGrammar(g) && Lr0(g, a) && g.nterminal <= c && Moves(a, q, c, q1) && Goes(a, q, Sym(c), q2)
    ensures q1 == q2
  {
    var x :| Goes(a, q, x, q1) && Fits(c, x);
    assert TightAt(g, a, q, x, q1);
    var it :| Has(a, q, it) && Shiftable(g, it) && After(g, it) == x;
    assert WfRule(g, g.rules[it.rule]) && x in g.rules[it.rule].rhs && WfSymbol(g, x);
  }

  /** No action was marked: no conflict, and none resolved by precedence. */
  predicate ConflictFree(ap: seq<seq<Action>>) {
    forall q, i :: 0 <= q < |ap| && 0 <= i < |ap[q]| ==> Live(ap[q][i].kind)
  }

  lemma FreePresent(g: Grammar, a: Automaton, f: Follow, q: nat, acts: seq<Action>, c: nat, kind: Kind, arg: nat) returns (i: nat)
    requires ListOk(g, a, f, q, acts) && Wanted(g, a, f, q, c, kind, arg)
    requires forall k :: 0 <= k < |acts| ==> Live(acts[k].kind)
    ensures i < |acts| && acts[i].sp == c && acts[i].kind == kind && acts[i].arg == arg
    ensures LiveOn(acts, c)
  {
    hide Wanted;
    assert PresentAt(acts, c, kind, arg);
    hide ListOk;
    i :| 0 <= i < |acts| && acts[i].sp == c && acts[i].arg == arg && (acts[i].kind == kind || Settled(acts[i].kind));
  }

  lemma OneLive(g: Grammar, a: Automaton, f: Follow, q: nat, acts: seq<Action>, i: nat)
    requires ListOk(g, a, f, q, acts) && i < |acts| && Live(acts[i].kind)
    ensures forall j :: 0 <= j < |acts| && acts[j].sp == acts[i].sp && Live(acts[j].kind) ==> j == i
  {
  }

  lemma FreeLookup(g: Grammar, a: Automaton, f: Follow, ap: seq<seq<Action>>, q: nat, c: nat, kind: Kind, arg: nat)
    requires WfGrammar(g) && Lr0(g, a) && ListsOk(g, a, f, ap) && ConflictFree(ap) && q < |ap|
    requires Wanted(g, a, f, q, c, kind, arg)
    ensures Lookup(TableOf(g, ap), q, c) == Decode(g, Action(c, kind, arg, 0))
  {
    hide Wanted, Lr0, WfGrammar, TableOf, Lookup, ListOk;
    var i := FreePresent(g, a, f, q, ap[q], c, kind, arg);
    OneLive(g, a, f, q, ap[q], i);
    LookupIsLive(g, a, f, ap, q, c);
  }

  /** Without conflicts the raw table does everything the automaton calls for. */
  lemma RawTableComplete(g: Grammar, a: Automaton, f: Follow, ap: seq<seq<Action>>)
    requires WfGrammar(g) && StartIsFresh(g) && Lr0(g, a) && ListsOk(g, a, f, ap) && ConflictFree(ap)
    ensures CompleteTable(g, a, f, TableOf(g, ap))
  {
    hide Lr0, ListsOk, TableOf, StartIsFresh, WfGrammar, ConflictFree;
    var tb := TableOf(g, ap);
    RawAccept(g, a, f, ap);
    forall q: nat, c: nat, q': nat ensures GotoAt(g, a, tb, q, c, q') {
      RawGoto(g, a, f, ap, q, c, q');
    }
    forall q: nat, it, q': nat, c: nat ensures ShiftsAt(g, a, tb, q, it, q', c) {
      RawShifts(g, a, f, ap, q, it, q', c);
    }
    forall q: nat, r: nat, c: nat ensures ReducesAt(g, a, f, tb, q, r, c) {
      RawReduces(g, a, f, ap, q, r, c);
    }
  }

  lemma RawShifts(g: Grammar, a: Automaton, f: Follow, ap: seq<seq<Action>>, q: nat, it: Item, q': nat, c: nat)
    requires WfGrammar(g) && Lr0(g, a) && ListsOk(g, a, f, ap) && ConflictFree(ap)
    ensures ShiftsAt(g, a, TableOf(g, ap), q, it, q', c)
  {
    if Has(a, q, it) && Shiftable(g, it) && Goes(a, q, After(g, it), q') && Fits(c, After(g, it)) && c < g.nterminal {
      assert Wanted(g, a, f, q, c, SHIFT, q');
      FreeLookup(g, a, f, ap, q, c, SHIFT, q');
    }
  }

  lemma RawReduces(g: Grammar, a: Automaton, f: Follow, ap: seq<seq<Action>>, q: nat, r: nat, c: nat)
    requires WfGrammar(g) && Lr0(g, a) && ListsOk(g, a, f, ap) && ConflictFree(ap)
    ensures ReducesAt(g, a, f, TableOf(g, ap), q, r, c)
  {
    if c < g.nterminal && r < |g.rules| && Has(a, q, Final(g, r)) && Follows(f, q, Final(g, r), c) {
      assert Wanted(g, a, f, q, c, REDUCE, r);
      FreeLookup(g, a, f, ap, q, c, REDUCE, r);
    }
  }
}
