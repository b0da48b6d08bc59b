/** A grammar with a unit rule that leads back to itself: the generated parser (tools/lemon/lempar.c) never
    comes to an end on a sentence. */
module CyclicGrammar {
  import opened Grammars
  import opened Driver
  import opened LrTheory
  import opened Termination
  import opened States
  import opened Conflicts
  import opened ActionLists
  import opened Generator
  import opened BuildFacts

  // Symbols: 0 end of input, 1 x, 2 S, 3 A, 4 B.

  /** S ::= B.  A ::= A.  B ::= A.  A ::= x. */
  const G := Grammar(2, 5, 2, [Rule(2, [Sym(4)]), Rule(3, [Sym(3)]), Rule(4, [Sym(3)]), Rule(3, [Sym(1)])])

  lemma Well()
    ensures WfGrammar(G) && StartIsFresh(G) && NoClasses(G) && |G.rules| == 4
    ensures G.rules[0] == Rule(2, [Sym(4)]) && G.rules[1] == Rule(3, [Sym(3)])
    ensures G.rules[2] == Rule(4, [Sym(3)]) && G.rules[3] == Rule(3, [Sym(1)])
  {
    assert forall r :: r in G.rules ==> WfRule(G, r);
  }

  /** The grammar has a cycle. */
  lemma ComesBack()
    ensures Reachable(G, 3) && UnitReach(G, 3, 3) && !Loopless(G)
  {
    hide Reachable;
    Well();
    StartReachable(G);
    assert G.rules[0].rhs[0] == Sym(4) && G.rules[2].rhs[0] == Sym(3);
    ReachMore(G, 0, 4);
    ReachMore(G, 2, 3);
    assert UnitAt(G, 1, 3, 3) && UnitStep(G, 3, 3);
    UnitMore(G, 3, 3, 3);
  }

  lemma DeriveUnit(c: nat, d: nat, r: nat, n: nat)
    requires r < |G.rules| && G.rules[r] == Rule(c, [Sym(d)]) && DerivesIn(G, [d], [1], n)
    ensures DerivesIn(G, [c], [1], n + 1)
  {
    assert Rewrites(G, [c], [d], 0, r);
  }

  lemma NoSteps()
    ensures DerivesIn(G, [1], [1], 0) && AllTokens(G, [1])
  {
  }

  /** x is a sentence: S is B is A is x. */
  lemma IsSentence()
    ensures InLanguage(G, [1])
  {
    hide WfGrammar, StartIsFresh, NoClasses;
    Well();
    NoSteps();
    hide DerivesIn;
    DeriveUnit(3, 1, 3, 0);
    DeriveUnit(4, 3, 2, 1);
    DeriveUnit(2, 4, 0, 2);
  }

  ghost predicate FirstState(a: Automaton, f: Follow) {
    forall r: nat :: r < 4 ==> Has(a, 0, Item(r, 0)) && Follows(f, 0, Item(r, 0), 0)
  }

  lemma StartState(a: Automaton, f: Follow)
    requires Lr0(G, a) && FollowsClosed(G, a, f)
    ensures FirstState(a, f)
  {
    Well();
    assert ClosedAt(G, a, 0, 0);
    assert G.rules[0].rhs[1..] == [] && G.rules[2].rhs[1..] == [];
    Call(G, a, f, 0, Item(0, 0), 2, 0);
    Call(G, a, f, 0, Item(2, 0), 1, 0);
    Call(G, a, f, 0, Item(2, 0), 3, 0);
  }

  /** The state after x, and the state after A. */
  ghost predicate Targets(a: Automaton, f: Follow, qx: nat, qa: nat) {
    && Goes(a, 0, Sym(1), qx) && Has(a, qx, Item(3, 1)) && Follows(f, qx, Item(3, 1), 0) && qx < |a.items|
    && Goes(a, 0, Sym(3), qa) && Has(a, qa, Item(1, 1)) && Follows(f, qa, Item(1, 1), 0) && qa < |a.items|
  }

  lemma FindTargets(a: Automaton, f: Follow) returns (qx: nat, qa: nat)
    requires Lr0(G, a) && FollowsClosed(G, a, f)
    ensures Targets(a, f, qx, qa)
  {
    Well();
    StartState(a, f);
    qx := GoOn(G, a, 0, Item(3, 0));
    Carry(G, a, f, 0, Item(3, 0), qx, 0);
    qa := GoOn(G, a, 0, Item(1, 0));
    Carry(G, a, f, 0, Item(1, 0), qa, 0);
  }

  /** In the state shifted to over `c` only rules that begin with it are complete. */
  lemma FinalOver(a: Automaton, c: nat, q: nat, r: nat)
    requires Lr0(G, a) && Goes(a, 0, Sym(c), q) && r < |G.rules| && Has(a, q, Final(G, r))
    ensures G.rules[r].rhs == [Sym(c)]
  {
    Well();
    Back(G, a, 0, Sym(c), q, Final(G, r));
  }

  /** The three entries the run meets. */
  lemma Entries3(p: Precedence, b: Build, qx: nat, qa: nat)
    requires BuildOk(G, b) && Decided(G, p, b) && NoLevels(p) && Targets(AutomatonOf(b.ss), b.f, qx, qa)
    ensures var tb := DefaultTable(G, b);
      Lookup(tb, 0, 1) == Shift(qx) && Lookup(tb, qx, 0) == Reduce(3) && Lookup(tb, qa, 0) == Reduce(1) && Lookup(tb, 0, 3) == Shift(qa)
  {
    hide BuildOk, DefaultTable, Lookup, EarliestAt, NoLevels;
    Parts(G, b);
    Well();
    var a := AutomatonOf(b.ss);
    assert StateDone(G, p, a, b.f, 0, b.ap[0]) && StateDone(G, p, a, b.f, qx, b.ap[qx]) && StateDone(G, p, a, b.f, qa, b.ap[qa]);
    ShiftFirst(a, b.f, qx, qa);
    EarliestEntry(G, b, 0, 1, SHIFT, qx);
    ReduceNext(a, b.f, 1, qx, 3);
    EarliestEntry(G, b, qx, 0, REDUCE, 3);
    ReduceNext(a, b.f, 3, qa, 1);
    EarliestEntry(G, b, qa, 0, REDUCE, 1);
    GotoEntry(b, qa);
  }

  lemma GotoEntry(b: Build, qa: nat)
    requires BuildOk(G, b) && Goes(AutomatonOf(b.ss), 0, Sym(3), qa)
    ensures Lookup(DefaultTable(G, b), 0, 3) == Shift(qa)
  {
    hide BuildOk;
    DefaultTableSound(G, b);
    assert GotoAt(G, AutomatonOf(b.ss), DefaultTable(G, b), 0, 3, qa);
  }

  lemma ShiftFirst(a: Automaton, f: Follow, qx: nat, qa: nat)
    requires Lr0(G, a) && Targets(a, f, qx, qa)
    ensures Wanted(G, a, f, 0, 1, SHIFT, qx) && Before(G, a, f, 0, 1, SHIFT, qx)
  {
    Well();
    assert Fits(1, Sym(1));
    forall k: Kind, x: nat | Wanted(G, a, f, 0, 1, k, x) && Rank(k) <= 0 ensures k == SHIFT && x == qx {
      SymMove(G, a, 0, 1, x);
    }
  }

  lemma ReduceNext(a: Automaton, f: Follow, c: nat, q: nat, r: nat)
    requires Lr0(G, a) && Goes(a, 0, Sym(c), q) && ((c == 1 && r == 3) || (c == 3 && r == 1))
    requires Has(a, q, Item(r, 1)) && Follows(f, q, Item(r, 1), 0)
    ensures Wanted(G, a, f, q, 0, REDUCE, r) && Before(G, a, f, q, 0, REDUCE, r)
  {
    Well();
    forall k: Kind, x: nat | Wanted(G, a, f, q, 0, k, x) && Rank(k) <= 2 && (k.REDUCE? ==> x <= r) ensures k == REDUCE && x == r {
      WantedSymbol(G, a, f, q, 0, k, x);
      if k.REDUCE? {
        FinalOver(a, c, q, x);
      }
    }
  }

  lemma {:induction false} RoundAndRound(b: Build, qa: nat, p: Parser, n: nat)
    requires Lookup(DefaultTable(G, b), qa, 0) == Reduce(1) && Lookup(DefaultTable(G, b), 0, 3) == Shift(qa)
    requires p.stack == [Bottom, Entry(Shift(qa), 3)]
    ensures Run(G, DefaultTable(G, b), Running(p, []), n).Running?
    decreases n
  {
    if n > 0 {
      var tb := DefaultTable(G, b);
      assert p.stack[..1] == [Bottom];
      var p' := p.(stack := [Bottom] + [Entry(Shift(qa), 3)], trail := [1] + p.trail);
      assert ReduceStep(G, tb, p, 1) == Again(p');
      RoundAndRound(b, qa, p', n - 1);
    }
  }

  /** On the sentence x, whatever the build (without precedences the reduce by the earlier rule wins), the parser shifts
      x, reduces it to A, and from then on reduces A to A for ever. */
  lemma NeverHalts(p: Precedence, b: Build, n: nat)
    requires BuildOk(G, b) && Decided(G, p, b) && NoLevels(p)
    ensures Run(G, FinalTable(G, b), Running(Fresh, [1]), n).Running?
  {
    hide BuildOk, Decided, NoLevels, Run;
    Parts(G, b);
    Well();
    var qx, qa := FindTargets(AutomatonOf(b.ss), b.f);
    Entries3(p, b, qx, qa);
    forall m: nat ensures Run(G, DefaultTable(G, b), Running(Fresh, [1]), m).Running? {
      FirstSteps(b, qx, qa, m);
    }
    NeverHaltsEither(G, b, [1], n);
  }

  lemma FirstSteps(b: Build, qx: nat, qa: nat, n: nat)
    requires var tb := DefaultTable(G, b);
      Lookup(tb, 0, 1) == Shift(qx) && Lookup(tb, qx, 0) == Reduce(3) && Lookup(tb, qa, 0) == Reduce(1) && Lookup(tb, 0, 3) == Shift(qa)
    ensures Run(G, DefaultTable(G, b), Running(Fresh, [1]), n).Running?
  {
    hide DefaultTable;
    var tb := DefaultTable(G, b);
    var p1 := Fresh.(stack := [Bottom] + [Entry(Shift(qx), 1)], shifted := [1]);
    var p2 := p1.(stack := [Bottom] + [Entry(Shift(qa), 3)], trail := [3]);
    assert LoopStep(G, tb, Fresh, 1) == Consumed(p1) && [1][1..] == [];
    assert p1.stack[..1] == [Bottom] && [3] + [] == [3];
    assert ReduceStep(G, tb, p1, 3) == Again(p2);
    if n >= 2 {
      RunPlus(G, tb, Running(Fresh, [1]), 2, n - 2);
      assert Run(G, tb, Running(Fresh, [1]), 2) == Run(G, tb, Running(p1, []), 1) == Running(p2, []);
      RoundAndRound(b, qa, p2, n - 2);
    }
  }

  /** What lemon makes of this grammar. */
  method Generated() returns (b: Build)
    ensures BuildOk(G, b) && forall n: nat :: Run(G, FinalTable(G, b), Running(Fresh, [1]), n).Running?
  {
    hide BuildOk, Decided, ParserRight, Run, FinalTable;
    Well();
    NeverTiedWithout(G);
    var conflicts, num, ok, t;
    b, conflicts, num, ok, t := Generate(G, NoPrecedence, []);
    forall n: nat ensures Run(G, FinalTable(G, b), Running(Fresh, [1]), n).Running? {
      NeverHalts(NoPrecedence, b, n);
    }
  }
}
