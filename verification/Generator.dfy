/** The pipeline of tools/lemon/lemon.c from the grammar to the tables, and what it means for the
    parser it generates. */
module Generator {
  import opened Grammars
  import opened FirstSets
  import opened Driver
  import opened LrTheory
  import opened Termination
  import opened Choices
  import opened Unambiguous
  import opened States
  import opened FollowSets
  import opened Conflicts
  import opened ActionLists
  import opened Compress
  import opened Wrappers
  import opened Simulation
  import opened UnitRules
  import opened Skipping
  import opened Resort
  import opened Packed

  /** What the phases leave behind: states, follow-sets, the action lists after FindActions and after each of the three
      passes of CompressTables, the default rules and the auto-reduce states; and which rules have no code. */
  datatype Build = Build(ss: seq<State>, f: Follow, ap: seq<seq<Action>>, ap1: seq<seq<Action>>, ap2: seq<seq<Action>>,
                         ap3: seq<seq<Action>>, best: seq<Option<nat>>, autos: seq<Option<nat>>, noCode: seq<bool>)

  /** As far as the first two passes go. */
  ghost predicate Compressed(g: Grammar, b: Build) {
    && WfGrammar(g) && StartIsFresh(g) && AllStates(g, b.ss) && Lr0(g, AutomatonOf(b.ss)) && |b.ss| > 0
    && FollowsClosed(g, AutomatonOf(b.ss), b.f) && FollowsLeast(g, AutomatonOf(b.ss), b.f) && OnlyEnd(g, b.f)
    && ListsOk(g, AutomatonOf(b.ss), b.f, b.ap)
    && |b.ap1| == |b.ap2| == |b.ap|
    && WithDefaults(g, |b.ap|, TableOf(g, b.ap), TableOf(g, b.ap1), b.best)
    && WithShiftReduce(g, |b.ap|, TableOf(g, b.ap1), TableOf(g, b.ap2), b.autos)
    && DefaultsUsed(g, b.ap, b.best) && AutosReduce(b.ap, b.best, b.autos) && KeepsGotos(g, b.ap, b.ap2)
    && (forall q: nat :: q < |b.ap| ==> CompressedAt(g, b, q))
  }

  ghost predicate BuildOk(g: Grammar, b: Build) {
    && Compressed(g, b) && |b.ap3| == |b.ap|
    && WithoutUnits(g, b.noCode, |b.ap|, TableOf(g, b.ap2), TableOf(g, b.ap3))
    && KeepsGotos(g, b.ap, b.ap3)
    && (forall q: nat :: q < |b.ap| ==> SameShape(b.ap2[q], b.ap3[q]) && OneEmitted(b.ap3[q]) && DistinctIds(b.ap3[q]))
    && (forall q: nat :: q < |b.ap| ==> DoneUpTo(g, b.noCode, b.ap2[q], b.ap3[q], |b.ap2[q]|))
  }

  /** The first two passes of CompressTables over a state. */
  ghost predicate CompressedAt(g: Grammar, b: Build, q: nat)
    requires q < |b.ap| == |b.ap1| == |b.ap2| == |b.best| == |b.autos|
  {
    && PassOne(g, b.ap[q], b.ap1[q], b.best[q], b.autos[q].Some?) && PassTwo(b.autos, b.ap1[q], b.ap2[q])
    && OneEmitted(b.ap2[q]) && DistinctIds(b.ap2[q])
  }

  /** How the conflicts of each state were resolved. */
  ghost predicate Decided(g: Grammar, p: Precedence, b: Build) {
    |b.ap| == |b.ss| && forall q: nat :: q < |b.ap| ==> StateDone(g, p, AutomatonOf(b.ss), b.f, q, b.ap[q])
  }

  /** In no state a shift and a reduce that are called for tie on a token declared %nonassoc. */
  ghost predicate NeverTied(g: Grammar, p: Precedence) {
    forall ss, f :: AllStates(g, ss) && FollowsClosed(g, AutomatonOf(ss), f) && FollowsLeast(g, AutomatonOf(ss), f) ==>
      forall q: nat :: q < |ss| ==> NoTieAt(g, AutomatonOf(ss), f, p, q)
  }

  function RawTable(g: Grammar, b: Build): Table { TableOf(g, b.ap) }

  function DefaultTable(g: Grammar, b: Build): Table { TableOf(g, b.ap1) }

  function ReduceTable(g: Grammar, b: Build): Table { TableOf(g, b.ap2) }

  function FinalTable(g: Grammar, b: Build): Table { TableOf(g, b.ap3) }

  lemma DefaultTableSound(g: Grammar, b: Build)
    requires BuildOk(g, b)
    ensures SoundTable(g, AutomatonOf(b.ss), DefaultTable(g, b))
  {
    hide Lr0, FollowsClosed, OnlyEnd, ListsOk, WithDefaults, WithShiftReduce, DefaultsUsed, SoundTable, TableOf, StartIsFresh, WfGrammar;
    var a := AutomatonOf(b.ss);
    RawTableSound(g, a, b.f, b.ap);
    UsedDefaultsFit(g, a, b.f, b.ap, b.best);
    assert |b.ap| == |a.items| by {
      ListsCount(g, a, b.f, b.ap);
    }
    DefaultsSound(g, a, RawTable(g, b), DefaultTable(g, b), b.best);
  }

  lemma ListsCount(g: Grammar, a: Automaton, f: Follow, ap: seq<seq<Action>>)
    requires ListsOk(g, a, f, ap)
    ensures |ap| == |a.items|
  {
  }

  lemma DefaultTableComplete(g: Grammar, b: Build)
    requires BuildOk(g, b) && ConflictFree(b.ap)
    ensures Right(g, AutomatonOf(b.ss), b.f, DefaultTable(g, b))
  {
    hide Lr0, FollowsClosed, OnlyEnd, ListsOk, WithDefaults, WithShiftReduce, DefaultsUsed, CompleteTable, TableOf, ConflictFree, StartIsFresh, WfGrammar;
    var a := AutomatonOf(b.ss);
    RawTableComplete(g, a, b.f, b.ap);
    assert |b.ap| == |a.items| by {
      ListsCount(g, a, b.f, b.ap);
    }
    DefaultsComplete(g, a, b.f, RawTable(g, b), DefaultTable(g, b), b.best);
  }

  lemma RawInRange(g: Grammar, a: Automaton, f: Follow, ap: seq<seq<Action>>, q: nat, c: nat)
    requires WfGrammar(g) && Lr0(g, a) && ListsOk(g, a, f, ap) && q < |ap|
    ensures NoOddEntry(TableOf(g, ap), q, c)
    ensures var act := Lookup(TableOf(g, ap), q, c); act.Shift? ==> act.state < |ap|
  {
    LookupWanted(g, a, f, ap, q, c);
    var act := Lookup(TableOf(g, ap), q, c);
    if act.Shift? {
      var x :| Goes(a, q, x, act.state) && Fits(c, x);
      assert TightAt(g, a, q, x, act.state);
    }
  }

  lemma AutosNotEmpty(g: Grammar, b: Build, q: nat)
    requires BuildOk(g, b) && q < |b.ap| && b.autos[q].Some?
    ensures b.autos[q].value < |g.rules| && |g.rules[b.autos[q].value].rhs| > 0
  {
    hide Lr0, FollowsClosed, OnlyEnd, WithDefaults, WithShiftReduce, ListsOk;
    var a := AutomatonOf(b.ss);
    UsedDefaultsFit(g, a, b.f, b.ap, b.best);
    assert b.autos[q] == b.best[q];
    ListsCount(g, a, b.f, b.ap);
    assert DefaultFits(g, a, q, b.best[q]);
    AutoRuleNotEmpty(g, a, b.f, b.ap, q, b.best[q].value);
  }

  /** The tables before and after the SHIFTREDUCE conversion run in lock step. */
  lemma TablesAreTwins(g: Grammar, b: Build)
    requires BuildOk(g, b)
    ensures Twins(g, |b.ap|, DefaultTable(g, b), ReduceTable(g, b), b.autos)
  {
    hide Lr0, FollowsClosed, OnlyEnd, ListsOk, Lookup;
    var a, tb1 := AutomatonOf(b.ss), DefaultTable(g, b);
    forall q: nat | q < |b.ap| && b.autos[q].Some? ensures b.autos[q].value < |g.rules| && |g.rules[b.autos[q].value].rhs| > 0 {
      AutosNotEmpty(g, b, q);
    }
    forall q: nat, c: nat | q < |b.ap| ensures NoOddEntry(tb1, q, c) {
      RawInRange(g, a, b.f, b.ap, q, c);
    }
  }

  /** After the SHIFTREDUCE conversion, every shift leads to a state that ResortStates keeps. */
  lemma ShiftsKeptFirst(g: Grammar, b: Build, num: Numbering)
    requires BuildOk(g, b) && ValidNumbering(num, |b.ap|) && DropsAutos(num, b.autos)
    ensures AllInRange(g, num, b.ap2)
  {
    hide Lr0, FollowsClosed, OnlyEnd, ListsOk, Lookup, WithoutUnits, KeepsGotos, SameShape;
    var a, tb2 := AutomatonOf(b.ss), ReduceTable(g, b);
    forall q: nat | q < |b.ap| && b.autos[q].Some? ensures b.autos[q].value < |g.rules| {
      AutosNotEmpty(g, b, q);
    }
    forall q: nat, c: nat | q < |b.ap2| ensures InRange(num, |g.rules|, Lookup(tb2, q, c)) {
      RawInRange(g, a, b.f, b.ap, q, c);
      var act := Lookup(tb2, q, c);
      if act.Shift? {
        assert b.autos[act.state].None?;
        assert num.sorted[num.statenum[act.state]] == act.state;
      }
    }
  }

  /** ... and so it does after the last pass. */
  lemma ShiftsKept(g: Grammar, b: Build, num: Numbering)
    requires BuildOk(g, b) && ValidNumbering(num, |b.ap|) && DropsAutos(num, b.autos)
    ensures AllInRange(g, num, b.ap3)
  {
    hide Compressed, Lookup, KeepsGotos, SameShape, InRange, Skips;
    ShiftsKeptFirst(g, b, num);
    assert |b.ap2| == |b.ap| by {
      SizesOf(g, b);
    }
    forall q: nat, c: nat | q < |b.ap3| ensures InRange(num, |g.rules|, Lookup(FinalTable(g, b), q, c)) {
      assert SkipsTo(g, b.noCode, ReduceTable(g, b), FinalTable(g, b), q, c);
      var d: nat, n: nat :| Skips(g, b.noCode, ReduceTable(g, b), q, c, d, n) && Lookup(FinalTable(g, b), q, c) == Lookup(ReduceTable(g, b), q, d);
      assert InRange(num, |g.rules|, Lookup(TableOf(g, b.ap2), q, d));
    }
    assert FinalTable(g, b) == TableOf(g, b.ap3);
  }

  lemma SizesOf(g: Grammar, b: Build)
    requires BuildOk(g, b)
    ensures |b.ap1| == |b.ap2| == |b.ap3| == |b.best| == |b.autos| == |b.ap| == |b.ss| && 0 < g.nterminal && WfGrammar(g)
  {
  }

  /** The parser of the table before the last pass never gets stuck. */
  lemma ReduceTableGoes(g: Grammar, b: Build, w: seq<nat>)
    requires BuildOk(g, b) && AllTokens(g, w)
    ensures NeverStuck(g, ReduceTable(g, b), Running(Fresh, w))
  {
    hide BuildOk, SoundTable, Twins, Run, SameParser, EndsWell;
    TablesAreTwins(g, b);
    DefaultTableSound(g, b);
    Basics(g, b);
    forall n: nat ensures Run(g, ReduceTable(g, b), Running(Fresh, w), n) != Halted(Stuck) {
      DriverSound(g, AutomatonOf(b.ss), DefaultTable(g, b), w, n);
      SimulatesStepByStep(g, |b.ap|, DefaultTable(g, b), ReduceTable(g, b), b.autos, w, n);
      NotWell(g, w);
    }
  }

  lemma NotWell(g: Grammar, w: seq<nat>)
    ensures !EndsWell(g, w, Stuck)
  {
  }

  lemma Basics(g: Grammar, b: Build)
    requires BuildOk(g, b)
    ensures WfGrammar(g) && StartIsFresh(g) && Lr0(g, AutomatonOf(b.ss))
    ensures WithoutUnits(g, b.noCode, |b.ap|, ReduceTable(g, b), FinalTable(g, b))
  {
  }

  /** How a run of the generated parser may end. On acceptance its reductions, with unit rules that have no code put in
      where the tables skip them, read backwards are a rightmost derivation from the start symbol of the tokens it shifted,
      of the whole input if no syntax error was reported. */
  ghost predicate EndsRight(g: Grammar, noCode: seq<bool>, w: seq<nat>, o: Outcome) {
    match o
    case Accepted(p) => DerivedBut(g, noCode, p.trail, p.shifted) && (p.errors == 0 ==> p.shifted == w)
    case Failed(p) => p.errors > 0
    case _ => false
  }

  ghost predicate DerivedBut(g: Grammar, noCode: seq<bool>, trail: seq<nat>, w: seq<nat>) {
    exists full :: RightmostBy(g, [g.start], full, w) && Coded(g, noCode, full) == Coded(g, noCode, trail)
  }

  /** Soundness of the generated parser, for every grammar and every token stream, with conflicts or without: no assertion
      of the driver fails, and when it accepts, its reductions derive what it shifted. */
  lemma GeneratedSound(g: Grammar, b: Build, w: seq<nat>, n: nat)
    requires BuildOk(g, b) && AllTokens(g, w)
    ensures var c := Run(g, FinalTable(g, b), Running(Fresh, w), n); c.Halted? ==> EndsRight(g, b.noCode, w, c.outcome)
  {
    hide BuildOk, SoundTable, Twins, Run, SameParser, EndsWell, EndsRight, WithoutUnits, Skipping.SameRun, NeverStuck;
    if Run(g, FinalTable(g, b), Running(Fresh, w), n).Halted? {
      TablesAreTwins(g, b);
      DefaultTableSound(g, b);
      Basics(g, b);
      ReduceTableGoes(g, b, w);
      var m := Skipping.EndsAlike(g, b.noCode, |b.ap|, ReduceTable(g, b), FinalTable(g, b), w, n);
      DriverSound(g, AutomatonOf(b.ss), DefaultTable(g, b), w, m);
      SimulatesStepByStep(g, |b.ap|, DefaultTable(g, b), ReduceTable(g, b), b.autos, w, m);
      WellIsRight(g, b, w, Run(g, DefaultTable(g, b), Running(Fresh, w), m).outcome,
                  Run(g, ReduceTable(g, b), Running(Fresh, w), m).outcome, Run(g, FinalTable(g, b), Running(Fresh, w), n).outcome);
    }
  }

  lemma WellIsRight(g: Grammar, b: Build, w: seq<nat>, o1: Outcome, o2: Outcome, o3: Outcome)
    requires EndsWell(g, w, o1) && SameOutcome(b.autos, o1, o2) && SameEnd(g, b.noCode, o2, o3)
    ensures EndsRight(g, b.noCode, w, o3)
  {
    hide RightmostBy, Coded;
    if o1.Accepted? {
      assert RightmostBy(g, [g.start], o2.p.trail, o3.p.shifted) && Coded(g, b.noCode, o2.p.trail) == Coded(g, b.noCode, o3.p.trail);
    }
  }

  /** The generated parser of a grammar without conflicts accepts exactly its language. */
  lemma GeneratedExact(g: Grammar, b: Build, w: seq<nat>)
    requires BuildOk(g, b) && AllTokens(g, w)
    ensures Accepts(g, FinalTable(g, b), w) ==> InLanguage(g, w)
    ensures ConflictFree(b.ap) ==> (Accepts(g, FinalTable(g, b), w) <==> InLanguage(g, w))
  {
    hide BuildOk, SoundTable, Twins, Accepts, InLanguage, Right, ConflictFree, WithoutUnits, NeverStuck;
    TablesAreTwins(g, b);
    Basics(g, b);
    AcceptsSame(g, |b.ap|, DefaultTable(g, b), ReduceTable(g, b), b.autos, w);
    ReduceTableGoes(g, b, w);
    AcceptsAlike(g, b.noCode, |b.ap|, ReduceTable(g, b), FinalTable(g, b), w);
    DefaultTableSound(g, b);
    if Accepts(g, FinalTable(g, b), w) {
      AcceptsOnlySentences(g, AutomatonOf(b.ss), DefaultTable(g, b), w);
    }
    if ConflictFree(b.ap) && InLanguage(g, w) {
      DefaultTableComplete(g, b);
      SentencesAccepted(g, AutomatonOf(b.ss), b.f, DefaultTable(g, b), w);
    }
  }

  // ----- the parser comes to an end

  lemma ReadyToEnd(g: Grammar, b: Build)
    requires BuildOk(g, b) && Loopless(g)
    ensures Tame(g, AutomatonOf(b.ss), DefaultTable(g, b))
  {
    hide FollowsClosed, FollowsLeast, OnlyEnd, ListsOk, WithDefaults, WithShiftReduce, DefaultsUsed, AutosReduce, KeepsGotos, Loopless;
    DefaultTableSound(g, b);
    StatesAreLeast(g, b.ss);
  }

  /** Wherever a run may be, the loop of the generated parser ends on the next token. */
  lemma GeneratedEnds(g: Grammar, b: Build, p1: Parser, p2: Parser, p: Parser, tok: nat)
    requires BuildOk(g, b) && Loopless(g) && LoopInv(g, AutomatonOf(b.ss), p1, tok) && tok < g.nterminal
    requires SameParser(b.autos, p1, p2) && SameRun(g, b.noCode, p2, p)
    ensures Ends(g, FinalTable(g, b), p, tok)
  {
    hide BuildOk, Tame, Twins, LoopStep, RightmostBy, Path, WithoutUnits, SameRun;
    var a, tb := AutomatonOf(b.ss), DefaultTable(g, b);
    ReadyToEnd(g, b);
    if Path(a, p1.stack) {
      LoopEnds(g, a, tb, p1, tok);
    } else {
      AcceptEnds(g, tb, p1, tok);
    }
    TablesAreTwins(g, b);
    var o, n: nat :| Settles(g, tb, p1, tok, o, n);
    EndsAlike(g, |b.ap|, tb, ReduceTable(g, b), b.autos, p1, p2, tok, o, n);
    var o2, n2: nat :| Settles(g, ReduceTable(g, b), p2, tok, o2, n2);
    Basics(g, b);
    TokenEnds(g, b.noCode, |b.ap|, ReduceTable(g, b), FinalTable(g, b), p2, p, tok, o2, n2);
  }

  lemma AcceptEnds(g: Grammar, tb: Table, p: Parser, tok: nat)
    requires p.stack == [Bottom, Entry(Accept, g.start)]
    ensures Ends(g, tb, p, tok)
  {
    EndsNow(g, tb, p, tok);
  }

  lemma {:induction false} EndsAlike(g: Grammar, n: nat, tb1: Table, tb2: Table, autos: seq<Option<nat>>,
                                     p1: Parser, p2: Parser, tok: nat, o: Outcome, k: nat)
    requires Twins(g, n, tb1, tb2, autos) && SameParser(autos, p1, p2) && tok < g.nterminal && Settles(g, tb1, p1, tok, o, k)
    ensures Ends(g, tb2, p2, tok)
    decreases k
  {
    hide Twins, LoopStep, SameParser;
    StepSame(g, n, tb1, tb2, autos, p1, p2, tok);
    if k == 0 {
      EndsNow(g, tb2, p2, tok);
    } else {
      var s1, s2 := LoopStep(g, tb1, p1, tok), LoopStep(g, tb2, p2, tok);
      EndsAlike(g, n, tb1, tb2, autos, s1.p, s2.p, tok, o, k - 1);
      var o2, m: nat :| Settles(g, tb2, s2.p, tok, o2, m);
      assert Settles(g, tb2, p2, tok, o2, m + 1);
    }
  }

  ghost predicate Halts(g: Grammar, tb: Table, c: Config) {
    exists n: nat :: Run(g, tb, c, n).Halted?
  }

  lemma {:induction false} SettledRun(g: Grammar, tb: Table, p: Parser, rest: seq<nat>, o: Outcome, n: nat)
    requires Settles(g, tb, p, Ahead(rest), o, n)
    ensures Run(g, tb, Running(p, rest), n + 1) ==
      if o.Consumed? then (if rest == [] then Halted(Stuck) else Running(o.p, rest[1..])) else Halted(o)
    decreases n
  {
    hide LoopStep;
    var s := LoopStep(g, tb, p, Ahead(rest));
    if n > 0 {
      SettledRun(g, tb, s.p, rest, o, n - 1);
    }
    assert Run(g, tb, Running(p, rest), n + 1) == Run(g, tb, StreamStep(g, tb, Running(p, rest)), n);
  }

  lemma {:induction false} TokensHalt(g: Grammar, a: Automaton, tb: Table, w: seq<nat>, p: Parser, rest: seq<nat>)
    requires Tame(g, a, tb) && RunInv(g, a, w, Running(p, rest))
    ensures Halts(g, tb, Running(p, rest))
    decreases |rest|
  {
    hide Tame, RightmostBy, Path, LoopStep;
    assert Ahead(rest) < g.nterminal by {
      TameWf(g, a, tb);
    }
    if Path(a, p.stack) {
      LoopEnds(g, a, tb, p, Ahead(rest));
    } else {
      AcceptEnds(g, tb, p, Ahead(rest));
    }
    var o, n: nat :| Settles(g, tb, p, Ahead(rest), o, n);
    SettledRun(g, tb, p, rest, o, n);
    TameWf(g, a, tb);
    RunSound(g, a, tb, w, Running(p, rest), n + 1);
    if o.Consumed? && rest != [] {
      TokensHalt(g, a, tb, w, o.p, rest[1..]);
      var m: nat :| Run(g, tb, Running(o.p, rest[1..]), m).Halted?;
      RunPlus(g, tb, Running(p, rest), n + 1, m);
    }
  }

  lemma TameWf(g: Grammar, a: Automaton, tb: Table)
    requires Tame(g, a, tb)
    ensures WfGrammar(g) && StartIsFresh(g) && Lr0(g, a) && SoundTable(g, a, tb)
  {
  }

  /** The generated parser comes to an end on every token stream, if no nonterminal in use comes back hidden or as all that
      is left of itself; with conflicts or without. */
  lemma GeneratedHalts(g: Grammar, b: Build, w: seq<nat>)
    requires BuildOk(g, b) && Loopless(g) && AllTokens(g, w)
    ensures Halts(g, FinalTable(g, b), Running(Fresh, w))
  {
    hide BuildOk, Tame, Loopless, Twins, WithoutUnits, NeverStuck, SameEnd;
    var a, tb := AutomatonOf(b.ss), DefaultTable(g, b);
    ReadyToEnd(g, b);
    TameWf(g, a, tb);
    FreshRun(g, a, w);
    TokensHalt(g, a, tb, w, Fresh, w);
    var n: nat :| Run(g, tb, Running(Fresh, w), n).Halted?;
    TablesAreTwins(g, b);
    SimulatesStepByStep(g, |b.ap|, tb, ReduceTable(g, b), b.autos, w, n);
    Basics(g, b);
    ReduceTableGoes(g, b, w);
    var m := Skipping.EndsAlike(g, b.noCode, |b.ap|, ReduceTable(g, b), FinalTable(g, b), w, n);
  }

  lemma FreshRun(g: Grammar, a: Automaton, w: seq<nat>)
    requires Lr0(g, a) && AllTokens(g, w)
    ensures RunInv(g, a, w, Running(Fresh, w))
  {
    assert Symbols(Fresh.stack) == [];
    assert Path(a, Fresh.stack);
    assert Fresh.shifted + w == w;
  }

  /** Without conflicts that is so for every grammar in which all that is in use can be completed to tokens. */
  lemma FreeIsLoopless(g: Grammar, b: Build)
    requires BuildOk(g, b) && ConflictFree(b.ap) && Useful(g)
    ensures Loopless(g)
  {
    hide BuildOk, ConflictFree, Right, Useful, Loopless;
    DefaultTableComplete(g, b);
    NothingComesBack(g, AutomatonOf(b.ss), b.f, DefaultTable(g, b));
  }

  // ----- the lists fit for the last pass

  /** A SHIFTREDUCE on a nonterminal by a unit rule stands where that rule starts. */
  lemma UnitStarts(g: Grammar, b: Build, q: nat, x: Action)
    requires Compressed(g, b) && q < |b.ap| && x in b.ap2[q] && x.kind.SHIFTREDUCE? && g.nterminal <= x.sp
    requires x.arg < |g.rules| && |g.rules[x.arg].rhs| == 1
    ensures Has(AutomatonOf(b.ss), q, Item(x.arg, 0)) && g.rules[x.arg].rhs == [Sym(x.sp)]
  {
    hide FollowsClosed, FollowsLeast, OnlyEnd, AllStates, WithDefaults, WithShiftReduce, DefaultsUsed, OneEmitted, DistinctIds, Uses, ListsOk, Lr0;
    var a := AutomatonOf(b.ss);
    assert CompressedAt(g, b, q);
    var i :| 0 <= i < |b.ap2[q]| && b.ap2[q][i] == x;
    var y := b.ap1[q][i];
    PassesPlain(g, b, q);
    NoEarlyShiftReduce(g, b.ap[q], b.ap1[q], b.best[q], b.autos[q].Some?);
    assert y in b.ap1[q] && y.kind.SHIFT? && y.sp == x.sp && y.arg < |b.autos| && b.autos[y.arg] == Some(x.arg);
    assert y in b.ap[q];
    AutoTarget(g, b, q, y, x.arg);
  }

  lemma CompressedSizes(g: Grammar, b: Build)
    requires Compressed(g, b)
    ensures |b.ap| == |b.ap1| == |b.ap2| == |b.best| == |b.autos|
  {
  }

  lemma PassesPlain(g: Grammar, b: Build, q: nat)
    requires Compressed(g, b) && q < |b.ap|
    ensures Plain(g, b.ap[q]) && |b.ap| == |AutomatonOf(b.ss).items|
  {
    ListIsPlain(g, AutomatonOf(b.ss), b.f, q, b.ap[q]);
  }

  lemma AutoTarget(g: Grammar, b: Build, q: nat, y: Action, r: nat)
    requires Compressed(g, b) && q < |b.ap| && y in b.ap[q] && y.kind.SHIFT? && g.nterminal <= y.sp
    requires y.arg < |b.autos| && b.autos[y.arg] == Some(r) && r < |g.rules| && |g.rules[r].rhs| == 1
    ensures Has(AutomatonOf(b.ss), q, Item(r, 0)) && g.rules[r].rhs == [Sym(y.sp)]
  {
    hide FollowsClosed, FollowsLeast, OnlyEnd, AllStates, WithDefaults, WithShiftReduce, CompressedAt;
    var a := AutomatonOf(b.ss);
    var i :| 0 <= i < |b.ap[q]| && b.ap[q][i] == y;
    assert ListOk(g, a, b.f, q, b.ap[q]);
    assert Wanted(g, a, b.f, q, y.sp, SHIFT, y.arg);
    var z :| Goes(a, q, z, y.arg) && Fits(y.sp, z);
    UsedDefaultsFit(g, a, b.f, b.ap, b.best);
    assert DefaultFits(g, a, y.arg, b.best[y.arg]);
    assert BackedAt(g, a, q, z, y.arg, Final(g, r));
    assert WfRule(g, g.rules[r]) && z in g.rules[r].rhs && WfSymbol(g, z);
    assert g.rules[r].rhs == [z];
  }

  /** Where a rule starts there is an entry for its left-hand side. */
  lemma StartHasEntry(g: Grammar, b: Build, q: nat, r: nat)
    requires Compressed(g, b) && q < |b.ap| && r < |g.rules| && Has(AutomatonOf(b.ss), q, Item(r, 0))
    ensures HasOn(b.ap2[q], g.rules[r].lhs)
  {
    hide FollowsClosed, FollowsLeast, OnlyEnd, AllStates, WithDefaults, WithShiftReduce, DefaultsUsed, AutosReduce, Wanted, OneEmitted, DistinctIds, Uses;
    var a, c := AutomatonOf(b.ss), g.rules[r].lhs;
    CompressedSizes(g, b);
    var k, arg := StartWanted(g, a, b.f, q, r);
    assert ListOk(g, a, b.f, q, b.ap[q]) && LiveOn(b.ap[q], c);
    var i :| 0 <= i < |b.ap[q]| && b.ap[q][i].sp == c && Live(b.ap[q][i].kind);
    var x := b.ap[q][i];
    assert x in b.ap[q];
    PassesPlain(g, b, q);
    assert WfRule(g, g.rules[r]);
    assert CompressedAt(g, b, q);
    assert x in b.ap1[q];
    var j :| 0 <= j < |b.ap1[q]| && b.ap1[q][j] == x;
    assert b.ap2[q][j] in b.ap2[q] && b.ap2[q][j].sp == c;
  }

  lemma StartWanted(g: Grammar, a: Automaton, f: Follow, q: nat, r: nat) returns (k: Kind, arg: nat)
    requires WfGrammar(g) && Lr0(g, a) && r < |g.rules| && Has(a, q, Item(r, 0))
    ensures Wanted(g, a, f, q, g.rules[r].lhs, k, arg)
  {
    var c := g.rules[r].lhs;
    assert GroundedAt(g, a, q, r);
    if q == 0 && c == g.start {
      k, arg := ACCEPT, 0;
    } else {
      var it :| Has(a, q, it) && Shiftable(g, it) && After(g, it) == Sym(c);
      assert ForwardAt(g, a, q, it);
      arg :| Goes(a, q, After(g, it), arg) && Has(a, arg, Advance(it));
      k := SHIFT;
      assert Fits(c, Sym(c));
    }
  }

  lemma UnitsFit(g: Grammar, b: Build, q: nat)
    requires Compressed(g, b) && q < |b.ap|
    ensures |b.ap2| == |b.ap| && ListShape(g, b.noCode, b.ap2[q])
  {
    hide OneEmitted, DistinctIds, HasOn;
    forall x | x in b.ap2[q] && Skippable(g, b.noCode, x)
      ensures g.rules[x.arg].rhs == [Sym(x.sp)] && HasOn(b.ap2[q], g.rules[x.arg].lhs)
    {
      UnitStarts(g, b, q, x);
      StartHasEntry(g, b, q, x.arg);
    }
    hide Lr0, FollowsClosed, FollowsLeast, OnlyEnd, AllStates, WithDefaults, WithShiftReduce, ListsOk;
    assert CompressedAt(g, b, q);
    GotosStayEmitted(g, b.autos, b.ap1[q], b.ap2[q]);
  }

  /** What the first two passes leave behind has no chain of rules to be skipped that goes on for ever. */
  ghost predicate ChainsEndAll(g: Grammar, b: Build) {
    forall q: nat :: q < |b.ap2| ==> ChainsEnd(g, b.noCode, b.ap2[q])
  }

  /** The third pass of CompressTables ends, with its assertion true in every state, if and only if all chains end. */
  lemma ThirdPassEnds(g: Grammar, b: Build)
    requires Compressed(g, b)
    ensures (forall q: nat :: q < |b.ap2| ==> PassEnds(g, b.noCode, b.ap2[q])) <==> ChainsEndAll(g, b)
  {
    hide Compressed, PassEnds, ChainsEnd, ListShape;
    CompressedSizes(g, b);
    forall q: nat | q < |b.ap2| ensures PassEnds(g, b.noCode, b.ap2[q]) <==> ChainsEnd(g, b.noCode, b.ap2[q]) {
      UnitsFit(g, b, q);
      PassEndsIff(g, b.noCode, b.ap2[q]);
    }
  }

  /** However the states of the grammar come out, and their conflicts are resolved, all chains end. */
  ghost predicate UnitsEnd(g: Grammar, p: Precedence, noCode: seq<bool>) {
    forall b :: Compressed(g, b) && Decided(g, p, b) && b.noCode == noCode ==> ChainsEndAll(g, b)
  }

  lemma NoIdleCycleEnds(g: Grammar, p: Precedence, noCode: seq<bool>)
    requires NoIdleCycle(g, noCode)
    ensures UnitsEnd(g, p, noCode)
  {
    hide Compressed, NoIdleCycle, ListShape, ChainEnds, Decided;
    forall b, q: nat | Compressed(g, b) && b.noCode == noCode && q < |b.ap2| ensures ChainsEnd(g, noCode, b.ap2[q]) {
      CompressedSizes(g, b);
      UnitsFit(g, b, q);
      forall i: nat | i < |b.ap2[q]| ensures ChainEnds(g, noCode, b.ap2[q], i) {
        NoCycleEnds(g, noCode, b.ap2[q], i);
      }
    }
  }

  /** In a grammar where nothing comes back, all chains end, whichever rules have no code. */
  lemma LooplessUnitsEnd(g: Grammar, p: Precedence, noCode: seq<bool>)
    requires Loopless(g)
    ensures UnitsEnd(g, p, noCode)
  {
    hide Compressed, Loopless, ListShape, ChainEnds, Decided;
    forall b, q: nat | Compressed(g, b) && b.noCode == noCode && q < |b.ap2| ensures ChainsEnd(g, noCode, b.ap2[q]) {
      CompressedSizes(g, b);
      forall i: nat | i < |b.ap2[q]| ensures ChainEnds(g, noCode, b.ap2[q], i) {
        LooplessChain(g, b, q, i);
      }
    }
  }

  lemma {:induction false} LooplessChain(g: Grammar, b: Build, q: nat, i: nat)
    requires Compressed(g, b) && Loopless(g) && q < |b.ap2| == |b.ap| && i < |b.ap2[q]|
    ensures ChainEnds(g, b.noCode, b.ap2[q], i)
    decreases g.nsymbol + 1 - UnitRank(g, b.ap2[q][i].sp)
  {
    hide Compressed, Loopless, ListShape, UnitRank, EndsIn;
    var acts := b.ap2[q];
    if Skippable(g, b.noCode, acts[i]) {
      UnitsFit(g, b, q);
      var j := NextSymbol(g, b.noCode, acts, i);
      LooplessStep(g, b, q, acts[i]);
      UnitRankBound(g, acts[j].sp);
      LooplessChain(g, b, q, j);
      var e: nat, n: nat :| EndsIn(g, b.noCode, acts, j, e, n);
      OneFurther(g, b.noCode, acts, i, j, e, n);
    } else {
      ChainOver(g, b.noCode, acts, i);
    }
  }

  lemma ChainOver(g: Grammar, noCode: seq<bool>, acts: seq<Action>, i: nat)
    requires i < |acts| && !Skippable(g, noCode, acts[i])
    ensures ChainEnds(g, noCode, acts, i)
  {
    assert EndsIn(g, noCode, acts, i, i, 0);
  }

  lemma LooplessStep(g: Grammar, b: Build, q: nat, x: Action)
    requires Compressed(g, b) && Loopless(g) && q < |b.ap| == |b.ap2| && x in b.ap2[q] && Skippable(g, b.noCode, x)
    ensures UnitRank(g, x.sp) < UnitRank(g, g.rules[x.arg].lhs)
  {
    hide Compressed, UnitRank, UnitReach, HiddenLeft, Reachable;
    UnitStarts(g, b, q, x);
    var r, c, d := x.arg, g.rules[x.arg].lhs, x.sp;
    CompressedStates(g, b);
    StateReachable(g, AutomatonOf(b.ss), q, Item(r, 0));
    assert WfRule(g, g.rules[r]) && Sym(d) in g.rules[r].rhs;
    assert WfSymbol(g, Sym(d));
    assert OccursIn(g, r, d);
    ReachMore(g, r, d);
    assert g.rules[r].rhs[1..] == [] && UnitAt(g, r, c, d) && UnitStep(g, c, d);
    UnitRankRises(g, c, d);
  }

  lemma CompressedStates(g: Grammar, b: Build)
    requires Compressed(g, b)
    ensures WfGrammar(g) && Lr0(g, AutomatonOf(b.ss)) && LeastItems(g, AutomatonOf(b.ss)) && AllReached(AutomatonOf(b.ss))
  {
    StatesAreLeast(g, b.ss);
  }

  lemma GotosStayEmitted(g: Grammar, autos: seq<Option<nat>>, acts: seq<Action>, acts': seq<Action>)
    requires GotosEmitted(g, acts) && PassTwo(autos, acts, acts')
    ensures GotosEmitted(g, acts')
  {
    forall x | x in acts' && x.sp >= g.nterminal ensures Emitted(x.kind) {
      var i :| 0 <= i < |acts'| && acts'[i] == x;
      assert acts[i] in acts;
    }
  }

  // ----- all phases

  /** The generated parser is sound, whatever the conflicts; without conflicts it accepts exactly the language; and it comes
      to an end on every stream if nothing in use comes back. */
  ghost predicate ParserRight(g: Grammar, b: Build, w: seq<nat>) {
    && (forall n: nat :: var c := Run(g, FinalTable(g, b), Running(Fresh, w), n); c.Halted? ==> EndsRight(g, b.noCode, w, c.outcome))
    && (ConflictFree(b.ap) ==> (Accepts(g, FinalTable(g, b), w) <==> InLanguage(g, w)))
    && (Loopless(g) || (ConflictFree(b.ap) && Useful(g)) ==> Halts(g, FinalTable(g, b), Running(Fresh, w)))
  }

  lemma ParserIsRight(g: Grammar, b: Build, w: seq<nat>)
    requires BuildOk(g, b) && AllTokens(g, w)
    ensures ParserRight(g, b, w)
  {
    hide BuildOk, ConflictFree, Useful, Loopless, Accepts, InLanguage, Halts, EndsRight, Run, FinalTable;
    GeneratedExact(g, b, w);
    forall n: nat ensures var c := Run(g, FinalTable(g, b), Running(Fresh, w), n); c.Halted? ==> EndsRight(g, b.noCode, w, c.outcome) {
      GeneratedSound(g, b, w, n);
    }
    if ConflictFree(b.ap) && Useful(g) {
      FreeIsLoopless(g, b);
    }
    if Loopless(g) {
      GeneratedHalts(g, b, w);
    }
  }

  /** lemon: from the grammar to the tables. `conflicts` is the number reported to the user. */
  method Generate(g: Grammar, p: Precedence, noCode: seq<bool>)
    returns (b: Build, conflicts: nat, num: Numbering, ok: bool, tables: Tables)
    requires WfGrammar(g) && StartIsFresh(g) && NeverTied(g, p) && UnitsEnd(g, p, noCode)
    ensures BuildOk(g, b) && b.noCode == noCode && conflicts == TotalConflicts(b.ap) && Decided(g, p, b)
    ensures forall w :: AllTokens(g, w) ==> ParserRight(g, b, w)
    ensures Resorted(g, b.ap3, b.autos, num) && (ok ==> TablesFor(g, num, b.ap3, tables))
    ensures ok <==> !Overruns(g, num, Rows(num, b.ap3))
    ensures !ok ==> TokensLast(g, Rows(num, b.ap3)) && g.nsymbol + 1 < 2 * g.nterminal
  {
    hide NoTieAt, StateDone, FollowsClosed, FollowsLeast, AllStates, BuildOk, ParserRight, TablesFor, TokensLast, Overruns, Resorted, UnitsEnd;
    var lambda, first := FindFirstSets(g);
    var ss := FindStates(g, lambda, first);
    var f := ComputeFollow(g, ss);
    var ap;
    ap, conflicts := FindActions(g, p, ss, f);
    b, num, ok, tables := FinishBuild(g, p, noCode, ss, f, ap);
    forall w | AllTokens(g, w) ensures ParserRight(g, b, w) {
      ParserIsRight(g, b, w);
    }
  }

  lemma NumberingValid(g: Grammar, ap: seq<seq<Action>>, autos: seq<Option<nat>>, num: Numbering)
    requires Resorted(g, ap, autos, num)
    ensures ValidNumbering(num, |ap|) && DropsAutos(num, autos)
  {
  }

  lemma DoneMeansOk(g: Grammar, p: Precedence, a: Automaton, f: Follow, q: nat, acts: seq<Action>)
    requires StateDone(g, p, a, f, q, acts)
    ensures ListOk(g, a, f, q, acts) && DistinctIds(acts) && GotosLive(g, acts)
  {
  }

  /** CompressTables, all three passes. */
  method CompressAll(g: Grammar, ghost p: Precedence, noCode: seq<bool>, ss: seq<State>, f: Follow, ap: seq<seq<Action>>)
    returns (b: Build)
    requires WfGrammar(g) && StartIsFresh(g) && AllStates(g, ss) && UnitsEnd(g, p, noCode)
    requires FollowsClosed(g, AutomatonOf(ss), f) && FollowsLeast(g, AutomatonOf(ss), f) && OnlyEnd(g, f)
    requires |ap| == |ss| && forall q: nat :: q < |ss| ==> StateDone(g, p, AutomatonOf(ss), f, q, ap[q])
    ensures BuildOk(g, b) && b.ap == ap && b.noCode == noCode && Decided(g, p, b)
  {
    hide FollowsClosed, FollowsLeast, OnlyEnd, ListOk, WithDefaults, WithShiftReduce, DefaultsUsed, AutosReduce, KeepsGotos, Plain,
      DistinctIds, StateDone, PassOne, PassTwo, OneEmitted, ChainsEnd, ListShape, Decided, WithoutUnits, GotosLive, SameShape, DoneUpTo;
    StatesAreLr0(g, ss);
    hide Lr0;
    forall q: nat | q < |ap|
      ensures Plain(g, ap[q]) && DistinctIds(ap[q]) && ListOk(g, AutomatonOf(ss), f, q, ap[q]) && GotosLive(g, ap[q]) {
      DoneMeansOk(g, p, AutomatonOf(ss), f, q, ap[q]);
      ListIsPlain(g, AutomatonOf(ss), f, q, ap[q]);
    }
    var ap1, ap2, best, autos := CompressTables(g, ap);
    b := Build(ss, f, ap, ap1, ap2, ap2, best, autos, noCode);
    assert Compressed(g, b) by {
      assert ss != [] by {
      }
      assert ListsOk(g, AutomatonOf(ss), f, ap);
    }
    assert Decided(g, p, b) by {
      AllDone(g, p, b);
    }
    assert ChainsEndAll(g, b);
    forall q: nat | q < |ap| ensures ListFits(g, noCode, ap2[q]) {
      UnitsFit(g, b, q);
    }
    var ap3 := SkipAllUnits(g, noCode, ap2);
    assert KeepsGotos(g, ap, ap3) by {
      StillKeepsGotos(g, ap, ap2, ap3);
    }
    ghost var b2 := b;
    b := b.(ap3 := ap3);
    StillCompressed(g, b2, b);
    AllDone(g, p, b);
  }

  lemma AllDone(g: Grammar, p: Precedence, b: Build)
    requires |b.ap| == |b.ss| && forall q: nat :: q < |b.ss| ==> StateDone(g, p, AutomatonOf(b.ss), b.f, q, b.ap[q])
    ensures Decided(g, p, b)
  {
  }

  lemma StillCompressed(g: Grammar, b: Build, b': Build)
    requires Compressed(g, b) && b' == b.(ap3 := b'.ap3)
    ensures Compressed(g, b')
  {
    forall q: nat | q < |b'.ap| ensures CompressedAt(g, b', q) {
      assert CompressedAt(g, b, q);
    }
  }

  lemma StillKeepsGotos(g: Grammar, ap: seq<seq<Action>>, ap2: seq<seq<Action>>, ap3: seq<seq<Action>>)
    requires KeepsGotos(g, ap, ap2) && |ap3| == |ap2|
    requires forall q: nat, c: nat :: q < |ap2| ==> (c in Entries(g, ap3[q]) <==> c in Entries(g, ap2[q]))
    ensures KeepsGotos(g, ap, ap3)
  {
  }

  method FinishBuild(g: Grammar, ghost p: Precedence, noCode: seq<bool>, ss: seq<State>, f: Follow, ap: seq<seq<Action>>)
    returns (b: Build, num: Numbering, ok: bool, tables: Tables)
    requires WfGrammar(g) && StartIsFresh(g) && AllStates(g, ss) && UnitsEnd(g, p, noCode)
    requires FollowsClosed(g, AutomatonOf(ss), f) && FollowsLeast(g, AutomatonOf(ss), f) && OnlyEnd(g, f)
    requires |ap| == |ss| && forall q: nat :: q < |ss| ==> StateDone(g, p, AutomatonOf(ss), f, q, ap[q])
    ensures BuildOk(g, b) && b.ap == ap && b.noCode == noCode && Decided(g, p, b)
    ensures Resorted(g, b.ap3, b.autos, num) && (ok ==> TablesFor(g, num, b.ap3, tables))
    ensures ok <==> !Overruns(g, num, Rows(num, b.ap3))
    ensures !ok ==> TokensLast(g, Rows(num, b.ap3)) && g.nsymbol + 1 < 2 * g.nterminal
  {
    hide FollowsClosed, FollowsLeast, OnlyEnd, AllStates, ValidNumbering, DropsAutos, InOrder, Resorted, StateDone, TablesFor, TokensLast, Overruns,
      BuildOk, UnitsEnd, Decided;
    b := CompressAll(g, p, noCode, ss, f, ap);
    SizesOf(g, b);
    ListsThere(g, b);
    num := ResortStates(g, b.ap3, b.autos);
    NumberingValid(g, b.ap3, b.autos, num);
    ShiftsKept(g, b, num);
    ok, tables := ReportTables(g, num, b.ap3);
  }

  lemma ListsThere(g: Grammar, b: Build)
    requires BuildOk(g, b)
    ensures b.ap3 != [] && forall q: nat :: q < |b.ap3| ==> OneEmitted(b.ap3[q]) && DistinctIds(b.ap3[q])
  {
  }
}
