/** What a build of lemon (tools/lemon/lemon.c) says about a single entry of its tables, before and after
    they are compressed. */
module BuildFacts {
  import opened Grammars
  import opened FirstSets
  import opened Driver
  import opened LrTheory
  import opened States
  import opened FollowSets
  import opened Conflicts
  import opened ActionLists
  import opened Compress
  import opened Wrappers
  import opened Simulation
  import opened UnitRules
  import opened Skipping
  import opened Resort
  import opened Generator

  /** No MULTITERMINAL in the grammar. */
  predicate NoClasses(g: Grammar) {
    forall r, x :: r in g.rules && x in r.rhs ==> x.Sym?
  }

  lemma SymMove(g: Grammar, a: Automaton, q: nat, c: nat, q': nat)
    requires Lr0(g, a) && NoClasses(g) && Moves(a, q, c, q')
    ensures Goes(a, q, Sym(c), q') && Asks(g, a, q, Sym(c))
  {
    var x :| Goes(a, q, x, q') && Fits(c, x);
    assert TightAt(g, a, q, x, q');
    var it :| Has(a, q, it) && Shiftable(g, it) && After(g, it) == x;
    assert g.rules[it.rule] in g.rules && x in g.rules[it.rule].rhs;
  }

  lemma GoOn(g: Grammar, a: Automaton, q: nat, it: Item) returns (q': nat)
    requires Lr0(g, a) && Has(a, q, it) && Shiftable(g, it)
    ensures Goes(a, q, After(g, it), q') && Has(a, q', Advance(it)) && q' < |a.items|
  {
    assert ForwardAt(g, a, q, it);
    q' :| Goes(a, q, After(g, it), q') && Has(a, q', Advance(it));
  }

  /** A configuration that is shifted has its successor in the state shifted to, with the same follow-set. */
  lemma Carry(g: Grammar, a: Automaton, f: Follow, q: nat, it: Item, q': nat, t: nat)
    requires Lr0(g, a) && FollowsClosed(g, a, f) && Has(a, q, it) && Shiftable(g, it) && Goes(a, q, After(g, it), q')
    ensures Has(a, q', Advance(it)) && (Follows(f, q, it, t) ==> Follows(f, q', Advance(it), t))
  {
    assert ForwardAt(g, a, q, it) && CarriedAt(g, a, f, q, it, q', t);
  }

  lemma Back(g: Grammar, a: Automaton, q: nat, x: Symbol, q': nat, it: Item)
    requires Lr0(g, a) && Goes(a, q, x, q') && Has(a, q', it) && it.dot > 0
    ensures var prev := Item(it.rule, it.dot - 1); Has(a, q, prev) && Shiftable(g, prev) && After(g, prev) == x
  {
    assert BackedAt(g, a, q, x, q', it);
  }

  /** A rule that a configuration calls for is there; if what stands behind can vanish, with the same follow-set. */
  lemma Call(g: Grammar, a: Automaton, f: Follow, q: nat, it: Item, r: nat, t: nat)
    requires Lr0(g, a) && FollowsClosed(g, a, f) && Has(a, q, it) && CallsRule(g, it, r)
    ensures Has(a, q, Item(r, 0))
    ensures FirstSeq(g, g.rules[it.rule].rhs[it.dot + 1..], t) ==> Follows(f, q, Item(r, 0), t)
    ensures NullableSeq(g, g.rules[it.rule].rhs[it.dot + 1..]) && Follows(f, q, it, t) ==> Follows(f, q, Item(r, 0), t)
  {
    RulesThere(g, a, q, it, r);
    assert SpreadAt(g, a, f, q, it, r, t);
  }

  /** All configurations of a state with something before the dot have the same symbol there, and come from one state. */
  lemma OneBefore(g: Grammar, a: Automaton, q: nat, it: Item) returns (q0: nat, x: Symbol)
    requires Lr0(g, a) && AllReached(a) && Has(a, q, it) && it.dot > 0
    ensures q0 < q && Goes(a, q0, x, q)
    ensures forall i: Item :: Has(a, q, i) && i.dot > 0 ==>
      && i.rule < |g.rules| && i.dot <= |g.rules[i.rule].rhs| && g.rules[i.rule].rhs[i.dot - 1] == x
      && Has(a, q0, Item(i.rule, i.dot - 1))
  {
    assert WfAt(g, a, q, it) && ReachedAt(a, q);
    q0, x :| q0 < q && Goes(a, q0, x, q);
    forall i: Item | Has(a, q, i) && i.dot > 0
      ensures i.rule < |g.rules| && i.dot <= |g.rules[i.rule].rhs| && g.rules[i.rule].rhs[i.dot - 1] == x
      ensures Has(a, q0, Item(i.rule, i.dot - 1))
    {
      Back(g, a, q0, x, q, i);
    }
  }

  /** States shifted to from the same configurations, advanced, are the same. */
  lemma SameTarget(g: Grammar, ss: seq<State>, q1: nat, q2: nat, x: Symbol, q1': nat, q2': nat)
    requires AllStates(g, ss) && Goes(AutomatonOf(ss), q1, x, q1') && Goes(AutomatonOf(ss), q2, x, q2')
    requires forall it :: Shiftable(g, it) && After(g, it) == x ==> (Has(AutomatonOf(ss), q1, it) <==> Has(AutomatonOf(ss), q2, it))
    ensures q1' == q2'
  {
    hide Inv;
    ShiftsOfState(g, ss, q1, x, q1');
    ShiftsOfState(g, ss, q2, x, q2');
    forall it | Shiftable(g, it) && After(g, it) == x ensures it in ss[q1].configs <==> it in ss[q2].configs {
      assert Has(AutomatonOf(ss), q1, it) <==> Has(AutomatonOf(ss), q2, it);
    }
    assert Advanced(g, ss[q1].configs, x) == Advanced(g, ss[q2].configs, x);
    BasesDiffer(g, ss, q1', q2');
  }

  lemma Parts(g: Grammar, b: Build)
    requires BuildOk(g, b)
    ensures var a := AutomatonOf(b.ss);
      && WfGrammar(g) && StartIsFresh(g) && AllStates(g, b.ss) && Lr0(g, a) && LeastItems(g, a) && AllReached(a)
      && FollowsClosed(g, a, b.f) && FollowsLeast(g, a, b.f) && ListsOk(g, a, b.f, b.ap) && |b.ap| == |b.ss| == |a.items|
      && |b.best| == |b.autos| == |b.ap1| == |b.ap2| == |b.ap3| == |b.ap|
  {
    StatesAreLeast(g, b.ss);
  }

  function OrDefault(act: Act, best: Option<nat>): Act {
    if act == Error && best.Some? then Reduce(best.value) else act
  }

  lemma Facts(g: Grammar, b: Build, q: nat)
    requires BuildOk(g, b) && q < |b.ap|
    ensures |b.best| == |b.autos| == |b.ap1| == |b.ap2| == |b.ap3| == |b.ap| && CompressedAt(g, b, q)
    ensures DefaultFits(g, AutomatonOf(b.ss), q, b.best[q])
    ensures forall c: nat :: Lookup(DefaultTable(g, b), q, c) == OrDefault(Lookup(RawTable(g, b), q, c), b.best[q])
  {
    hide Lr0, FollowsClosed, FollowsLeast, OnlyEnd, AllStates, Lookup;
    UsedDefaultsFit(g, AutomatonOf(b.ss), b.f, b.ap, b.best);
  }

  lemma AutosAreBest(g: Grammar, b: Build, q: nat)
    requires BuildOk(g, b) && q < |b.ap| == |b.autos| == |b.best|
    ensures b.autos[q].Some? ==> b.autos[q] == b.best[q]
  {
  }

  /** The entry of a wanted action that comes before all others wanted on the symbol. */
  lemma EarliestEntry(g: Grammar, b: Build, q: nat, c: nat, kind: Kind, arg: nat)
    requires BuildOk(g, b) && q < |b.ap| && Wanted(g, AutomatonOf(b.ss), b.f, q, c, kind, arg) && Live(kind)
    requires EarliestAt(g, AutomatonOf(b.ss), b.f, q, b.ap[q]) && Before(g, AutomatonOf(b.ss), b.f, q, c, kind, arg)
    ensures Lookup(DefaultTable(g, b), q, c) == Decode(g, Action(c, kind, arg, 0))
  {
    hide BuildOk, Wanted, Lookup, RawTable, DefaultTable, EarliestAt, Before;
    Facts(g, b, q);
    var x := LiveEntry(g, b, q, c, kind, arg);
    EarliestIs(g, AutomatonOf(b.ss), b.f, q, b.ap[q], x, c, kind, arg);
  }

  /** No other action wanted on the symbol ranks as high. */
  ghost predicate Before(g: Grammar, a: Automaton, f: Follow, q: nat, c: nat, kind: Kind, arg: nat) {
    forall k: Kind, x: nat :: Wanted(g, a, f, q, c, k, x) && Rank(k) <= Rank(kind) && (k.REDUCE? ==> x <= arg) ==> k == kind && x == arg
  }

  lemma EarliestIs(g: Grammar, a: Automaton, f: Follow, q: nat, acts: seq<Action>, x: Action, c: nat, kind: Kind, arg: nat)
    requires EarliestAt(g, a, f, q, acts) && x in acts && x.sp == c && Live(x.kind) && Wanted(g, a, f, q, c, x.kind, x.arg)
    requires Wanted(g, a, f, q, c, kind, arg) && Live(kind) && Before(g, a, f, q, c, kind, arg)
    ensures x.kind == kind && x.arg == arg
  {
    hide Wanted;
    var i :| 0 <= i < |acts| && acts[i] == x;
    assert Wanted(g, a, f, q, acts[i].sp, kind, arg);
    assert Rank(x.kind) <= Rank(kind);
  }

  lemma LiveEntry(g: Grammar, b: Build, q: nat, c: nat, kind: Kind, arg: nat) returns (x: Action)
    requires BuildOk(g, b) && q < |b.ap| && Wanted(g, AutomatonOf(b.ss), b.f, q, c, kind, arg)
    ensures x in b.ap[q] && x.sp == c && Live(x.kind) && Wanted(g, AutomatonOf(b.ss), b.f, q, c, x.kind, x.arg)
    ensures Lookup(RawTable(g, b), q, c) == Decode(g, x) != Error
  {
    hide Wanted, Lookup, Lr0, FollowsClosed, FollowsLeast, AllStates;
    assert ListOk(g, AutomatonOf(b.ss), b.f, q, b.ap[q]);
    LookupIsLive(g, AutomatonOf(b.ss), b.f, b.ap, q, c);
    var i :| 0 <= i < |b.ap[q]| && b.ap[q][i].sp == c && Live(b.ap[q][i].kind) && Lookup(RawTable(g, b), q, c) == Decode(g, b.ap[q][i]);
    x := b.ap[q][i];
  }

  lemma GotoIs(g: Grammar, b: Build, q: nat, c: nat, q': nat)
    requires BuildOk(g, b) && Goes(AutomatonOf(b.ss), q, Sym(c), q') && g.nterminal <= c
    ensures Lookup(DefaultTable(g, b), q, c) == Shift(q')
  {
    hide BuildOk;
    DefaultTableSound(g, b);
    assert GotoAt(g, AutomatonOf(b.ss), DefaultTable(g, b), q, c, q');
  }

  lemma ReduceIs(g: Grammar, b: Build, q: nat, r: nat, t: nat)
    requires BuildOk(g, b) && ConflictFree(b.ap) && r < |g.rules| && t < g.nterminal
    requires Has(AutomatonOf(b.ss), q, Final(g, r)) && Follows(b.f, q, Final(g, r), t)
    ensures Lookup(DefaultTable(g, b), q, t) == Reduce(r)
  {
    hide BuildOk, ConflictFree;
    DefaultTableComplete(g, b);
    ReducesThere(g, AutomatonOf(b.ss), b.f, DefaultTable(g, b), q, r, t);
  }

  /** A state with one complete rule, reduced by on some token, reduces by it on every token it does not shift. */
  lemma OnlyReduce(g: Grammar, b: Build, q: nat, r: nat, t0: nat, t: nat)
    requires BuildOk(g, b) && ConflictFree(b.ap) && q < |b.ap| && r < |g.rules| && g.rules[r].lhs != g.start
    requires Wanted(g, AutomatonOf(b.ss), b.f, q, t0, REDUCE, r) && t < g.nterminal
    requires forall k: nat :: k < |g.rules| && Has(AutomatonOf(b.ss), q, Final(g, k)) ==> k == r
    requires forall q' :: !Moves(AutomatonOf(b.ss), q, t, q')
    ensures Lookup(DefaultTable(g, b), q, t) == Reduce(r)
  {
    hide BuildOk, Wanted, DefaultTable, RawTable, Lookup;
    Facts(g, b, q);
    DefaultIsThere(g, b, q, r, t0);
    SoundEntry(g, b, q, t);
  }

  lemma SoundEntry(g: Grammar, b: Build, q: nat, t: nat)
    requires BuildOk(g, b) && q < |b.ap| && t < g.nterminal
    ensures SoundAct(g, AutomatonOf(b.ss), q, t, Lookup(DefaultTable(g, b), q, t))
  {
    hide BuildOk, Lookup, SoundAct;
    Parts(g, b);
    DefaultTableSound(g, b);
    assert SoundAt(g, AutomatonOf(b.ss), DefaultTable(g, b), q, t);
  }

  lemma DefaultIsThere(g: Grammar, b: Build, q: nat, r: nat, t0: nat)
    requires BuildOk(g, b) && ConflictFree(b.ap) && q < |b.ap| == |b.best| && r < |g.rules| && g.rules[r].lhs != g.start
    requires Wanted(g, AutomatonOf(b.ss), b.f, q, t0, REDUCE, r)
    ensures b.best[q].Some?
  {
    hide BuildOk, Wanted, Lookup;
    Facts(g, b, q);
    Parts(g, b);
    assert ListOk(g, AutomatonOf(b.ss), b.f, q, b.ap[q]);
    hide ListOk, Lr0;
    var i := FreePresent(g, AutomatonOf(b.ss), b.f, q, b.ap[q], t0, REDUCE, r);
    assert b.ap[q][i] in b.ap[q];
  }

  /** What is left in the final list on a symbol was wanted, and is not the default. */
  lemma FinalAction(g: Grammar, b: Build, q: nat, x: Action) returns (y: Action)
    requires BuildOk(g, b) && q < |b.ap| == |b.ap3| == |b.best| && x in b.ap3[q] && Emitted(x.kind) && x.sp < g.nsymbol
    ensures y in b.ap[q] && Live(y.kind) && y.sp == x.sp && Wanted(g, AutomatonOf(b.ss), b.f, q, y.sp, y.kind, y.arg)
    ensures y.kind.REDUCE? ==> b.best[q] != Some(y.arg) && (b.best[q].None? ==> IsStartRule(g, y.arg))
  {
    hide BuildOk, Wanted, Lookup, OneEmitted, DistinctIds, Uses, ListOk;
    Facts(g, b, q);
    ShapeOf(g, b, q);
    var i :| 0 <= i < |b.ap3[q]| && b.ap3[q][i] == x;
    y := b.ap1[q][i];
    assert y in b.ap1[q] && Emitted(y.kind);
    assert y in b.ap[q];
    ListAt(g, b, q);
    hide CompressedAt;
    LiveWanted(g, AutomatonOf(b.ss), b.f, q, b.ap[q], y);
  }

  lemma ListAt(g: Grammar, b: Build, q: nat)
    requires BuildOk(g, b) && q < |b.ap|
    ensures ListOk(g, AutomatonOf(b.ss), b.f, q, b.ap[q])
  {
  }

  lemma LiveWanted(g: Grammar, a: Automaton, f: Follow, q: nat, acts: seq<Action>, y: Action)
    requires ListOk(g, a, f, q, acts) && y in acts && Emitted(y.kind)
    ensures Live(y.kind) && Wanted(g, a, f, q, y.sp, y.kind, y.arg)
  {
    hide Wanted;
    var j :| 0 <= j < |acts| && acts[j] == y;
  }

  lemma ShapeOf(g: Grammar, b: Build, q: nat)
    requires BuildOk(g, b) && q < |b.ap| == |b.ap2| == |b.ap3|
    ensures SameShape(b.ap2[q], b.ap3[q])
  {
  }

  /** A goto that is wanted is in the final list. */
  lemma GotoKept(g: Grammar, b: Build, q: nat, c: nat, q': nat) returns (x: Action)
    requires BuildOk(g, b) && q < |b.ap| == |b.ap3| && Wanted(g, AutomatonOf(b.ss), b.f, q, c, SHIFT, q') && g.nterminal <= c < g.nsymbol
    ensures x in b.ap3[q] && Belongs(g, false, x) && x.sp == c
  {
    hide Wanted, Lookup, Lr0, FollowsClosed, FollowsLeast, AllStates, DistinctIds, PassOne, PassTwo, WithDefaults, WithShiftReduce, Entries;
    var y := LiveEntry(g, b, q, c, SHIFT, q');
    assert ListOk(g, AutomatonOf(b.ss), b.f, q, b.ap[q]);
    ListIsPlain(g, AutomatonOf(b.ss), b.f, q, b.ap[q]);
    EntriesAre(g, b.ap[q], c);
    assert c in Entries(g, b.ap[q]);
    EntriesAre(g, b.ap3[q], c);
    x :| x in b.ap3[q] && x.sp == c < g.nsymbol && Emitted(x.kind);
  }

  /** An action that is not a reduce is in the final list, converted perhaps. */
  lemma EntryKept(g: Grammar, b: Build, q: nat, c: nat, kind: Kind, arg: nat)
    requires BuildOk(g, b) && q < |b.ap| == |b.ap3| && Wanted(g, AutomatonOf(b.ss), b.f, q, c, kind, arg) && c < g.nsymbol
    requires forall r: nat :: !Wanted(g, AutomatonOf(b.ss), b.f, q, c, REDUCE, r)
    ensures c in Entries(g, b.ap3[q])
  {
    hide BuildOk, Wanted, Lookup, OneEmitted, DistinctIds, Uses;
    var y := LiveEntry(g, b, q, c, kind, arg);
    Facts(g, b, q);
    ShapeOf(g, b, q);
    assert y in b.ap1[q];
    var i :| 0 <= i < |b.ap1[q]| && b.ap1[q][i] == y;
    var x := b.ap3[q][i];
    assert x in b.ap3[q] && x.sp == c && Emitted(x.kind);
    ListsThere(g, b);
    EntriesAre(g, b.ap3[q], c);
  }

  // ----- counting

  lemma {:induction false} Counted(g: Grammar, tokens: bool, acts: seq<Action>)
    ensures Size(g, tokens, acts) > 0 <==> exists x :: x in acts && Belongs(g, tokens, x)
    decreases |acts|
  {
    if acts != [] {
      var front, last := acts[..|acts| - 1], acts[|acts| - 1];
      assert acts == front + [last];
      Counted(g, tokens, front);
    }
  }

  lemma {:induction false} CountedOnce(g: Grammar, tokens: bool, acts: seq<Action>, c: nat)
    requires OneEmitted(acts) && DistinctIds(acts) && forall x :: x in acts && Belongs(g, tokens, x) ==> x.sp == c
    ensures Size(g, tokens, acts) <= 1
    decreases |acts|
  {
    if acts != [] {
      var front, last := acts[..|acts| - 1], acts[|acts| - 1];
      assert acts == front + [last];
      CountedOnce(g, tokens, front, c);
      if Belongs(g, tokens, last) {
        Counted(g, tokens, front);
        forall x | x in front ensures !Belongs(g, tokens, x) {
          var i :| 0 <= i < |front| && front[i] == x;
          assert acts[i].id != acts[|acts| - 1].id;
        }
      }
    }
  }

  // ----- runs without end

  /** If the parser of the table with defaults never comes to an end, neither does the generated one. */
  lemma NeverHaltsEither(g: Grammar, b: Build, w: seq<nat>, n: nat)
    requires BuildOk(g, b) && AllTokens(g, w) && forall m: nat :: Run(g, DefaultTable(g, b), Running(Fresh, w), m).Running?
    ensures Run(g, FinalTable(g, b), Running(Fresh, w), n).Running?
  {
    hide BuildOk, Twins, WithoutUnits, NeverStuck, Run, SameEnd;
    if Run(g, FinalTable(g, b), Running(Fresh, w), n).Halted? {
      Basics(g, b);
      ReduceTableGoes(g, b, w);
      var m := Skipping.EndsAlike(g, b.noCode, |b.ap|, ReduceTable(g, b), FinalTable(g, b), w, n);
      TablesAreTwins(g, b);
      SimulatesStepByStep(g, |b.ap|, DefaultTable(g, b), ReduceTable(g, b), b.autos, w, m);
    }
  }

  // ----- before the third pass

  /** If every rule has code, the third pass changes nothing. */
  lemma Untouched(g: Grammar, b: Build)
    requires Compressed(g, b)
    ensures BuildOk(g, b.(noCode := [], ap3 := b.ap2))
  {
    hide FollowsClosed, FollowsLeast, OnlyEnd, AllStates, Lr0, ListsOk, WithDefaults, WithShiftReduce, DefaultsUsed, AutosReduce, KeepsGotos,
      OneEmitted, DistinctIds, PassOne, PassTwo, Lookup;
    var b' := b.(noCode := [], ap3 := b.ap2);
    CompressedSizes(g, b);
    forall q: nat | q < |b.ap| ensures CompressedAt(g, b', q) {
      assert CompressedAt(g, b, q);
    }
    forall q: nat, c: nat ensures SkipsTo(g, [], TableOf(g, b.ap2), TableOf(g, b.ap2), q, c) {
      assert Skips(g, [], TableOf(g, b.ap2), q, c, c, 0);
    }
    forall q: nat | q < |b.ap| ensures SameShape(b.ap2[q], b.ap2[q]) && OneEmitted(b.ap2[q]) && DistinctIds(b.ap2[q]) {
      assert CompressedAt(g, b, q);
    }
    forall q: nat | q < |b.ap| ensures DoneUpTo(g, [], b.ap2[q], b.ap2[q], |b.ap2[q]|) {
      NothingToSkip(g, b.ap2[q]);
    }
  }

  lemma NothingToSkip(g: Grammar, acts: seq<Action>)
    ensures DoneUpTo(g, [], acts, acts, |acts|)
  {
    forall i: nat | i < |acts| ensures Done(g, [], acts, i, acts[i]) {
      assert EndsIn(g, [], acts, i, i, 0) && acts[i] == Becomes(acts, i, i);
    }
  }

  // ----- grammars without %left, %right and %nonassoc

  const NoPrecedence := Precedence([], [], [])

  lemma NeverTiedWithout(g: Grammar)
    ensures NeverTied(g, NoPrecedence) && NoLevels(NoPrecedence) && UnitsEnd(g, NoPrecedence, [])
  {
    hide AllStates, FollowsClosed, FollowsLeast, NoTieAt;
    forall ss, f, q: nat ensures NoTieAt(g, AutomatonOf(ss), f, NoPrecedence, q) {
      NoNonassocNoTie(g, AutomatonOf(ss), f, NoPrecedence, q);
    }
    NoIdleCycleEnds(g, NoPrecedence, []);
  }
}
