/** Two grammars with a cycle of unit rules that have no code: the third pass of CompressTables
    (tools/lemon/lemon.c) fails on the first, that of CyclicGrammar, and ends on the second. */
module IdleCycles {
  import opened Grammars
  import opened LrTheory
  import opened States
  import opened FollowSets
  import opened Conflicts
  import opened ActionLists
  import opened Compress
  import opened UnitRules
  import opened Generator
  import opened BuildFacts
  import opened SingleRules
  import C = CyclicGrammar

  // Symbols: 0 end of input, 1 x, 2 S, 3 A, 4 B.

  const NoCode := [true, true, true, true]

  /** S ::= B.  B ::= A.  A ::= A.  A ::= x. */
  const Good := Grammar(2, 5, 2, [Rule(2, [Sym(4)]), Rule(4, [Sym(3)]), Rule(3, [Sym(3)]), Rule(3, [Sym(1)])])

  lemma WellBad()
    ensures Singles(C.G) && |C.G.rules| == 4 && C.G.rules[0] == Rule(2, [Sym(4)]) && C.G.rules[1] == Rule(3, [Sym(3)])
    ensures C.G.rules[2] == Rule(4, [Sym(3)]) && C.G.rules[3] == Rule(3, [Sym(1)])
  {
    C.Well();
  }

  lemma WellGood()
    ensures Singles(Good) && |Good.rules| == 4 && Good.rules[0] == Rule(2, [Sym(4)]) && Good.rules[1] == Rule(4, [Sym(3)])
    ensures Good.rules[2] == Rule(3, [Sym(3)]) && Good.rules[3] == Rule(3, [Sym(1)])
  {
    assert forall r :: r in Good.rules ==> WfRule(Good, r);
  }

  lemma FirstBad(a: Automaton, f: Follow)
    requires Lr0(C.G, a) && FollowsClosed(C.G, a, f)
    ensures AllFirst(C.G, a, f)
  {
    C.Well();
    C.StartState(a, f);
  }

  lemma FirstGood(a: Automaton, f: Follow)
    requires Lr0(Good, a) && FollowsClosed(Good, a, f)
    ensures AllFirst(Good, a, f)
  {
    WellGood();
    assert ClosedAt(Good, a, 0, 0);
    assert Good.rules[0].rhs[1..] == [] && Good.rules[1].rhs[1..] == [];
    Call(Good, a, f, 0, Item(0, 0), 1, 0);
    Call(Good, a, f, 0, Item(1, 0), 2, 0);
    Call(Good, a, f, 0, Item(1, 0), 3, 0);
  }

  // ----- the pass fails

  lemma {:induction false} NeverOut(acts: seq<Action>, i: nat, e: nat, n: nat)
    requires i < |acts| && acts[i].sp == 3 && Skippable(C.G, NoCode, acts[i]) && acts[i].arg == 1
    requires forall j :: 0 <= j < |acts| && acts[j].sp == 3 ==> j == i
    ensures !EndsIn(C.G, NoCode, acts, i, e, n)
    decreases n
  {
    WellBad();
    if n > 0 {
      NeverOut(acts, i, e, n - 1);
    }
  }

  lemma {:induction false} WalksTo(acts: seq<Action>, i: nat, k: nat)
    requires k <= i < |acts| && forall j :: 0 <= j < i ==> !Skippable(C.G, NoCode, acts[j])
    ensures PassRun(C.G, NoCode, Going(acts, k), i - k) == Going(acts, i)
    decreases i - k
  {
    if k < i {
      WalksTo(acts, i, k + 1);
    }
  }

  /** What is on the nonterminals of the first state: SHIFTREDUCE by A ::= A on A, and a shift on B. */
  lemma EntriesBad(p: Precedence, b: Build, x: Action)
    requires Compressed(C.G, b) && Decided(C.G, p, b) && NoLevels(p) && |b.ap2| > 0 && x in b.ap2[0]
    ensures x.sp == 3 ==> x.kind == SHIFTREDUCE && x.arg == 1
    ensures x.sp == 4 ==> x.kind == SHIFT
  {
    hide Compressed, BuildOk, Decided, NoLevels, FollowsClosed, FollowsLeast, Lr0, LeastItems, AllReached, AllStates, ListsOk, Singles;
    WellBad();
    var b' := b.(noCode := [], ap3 := b.ap2);
    Untouched(C.G, b);
    SameDecided(C.G, p, b, b');
    Parts(C.G, b');
    FirstBad(AutomatonOf(b.ss), b.f);
    if x.sp == 3 {
      var q := Behind(C.G, p, b', 3, 1);
      FirstEntry(C.G, b', 3, q, x);
    } else if x.sp == 4 {
      var q := Behind(C.G, p, b', 4, 0);
      FirstEntry(C.G, b', 4, q, x);
    }
  }

  lemma EntryOnA(b: Build) returns (i: nat)
    requires Compressed(C.G, b)
    ensures |b.ap2| > 0 && i < |b.ap2[0]| && b.ap2[0][i].sp == 3
  {
    hide Compressed, BuildOk, FollowsClosed, FollowsLeast, LeastItems, AllReached, AllStates, ListsOk;
    WellBad();
    var b' := b.(noCode := [], ap3 := b.ap2);
    Untouched(C.G, b);
    Parts(C.G, b');
    FirstBad(AutomatonOf(b.ss), b.f);
    i := EntryOn(C.G, b', 1);
  }

  /** The only entry to be replaced is the one on A, by A ::= A. */
  lemma TheEntry(p: Precedence, b: Build) returns (i: nat)
    requires Compressed(C.G, b) && Decided(C.G, p, b) && NoLevels(p) && b.noCode == NoCode
    ensures |b.ap2| > 0 && i < |b.ap2[0]| && b.ap2[0][i].sp == 3 && Skippable(C.G, NoCode, b.ap2[0][i]) && b.ap2[0][i].arg == 1
    ensures forall j :: 0 <= j < |b.ap2[0]| && j != i ==> b.ap2[0][j].sp != 3 && !Skippable(C.G, NoCode, b.ap2[0][j])
  {
    hide Compressed, Decided, NoLevels, ListShape;
    WellBad();
    CompressedSizes(C.G, b);
    i := EntryOnA(b);
    EntriesBad(p, b, b.ap2[0][i]);
    UnitsFit(C.G, b, 0);
    forall j | 0 <= j < |b.ap2[0]| && j != i ensures b.ap2[0][j].sp != 3 && !Skippable(C.G, NoCode, b.ap2[0][j]) {
      if b.ap2[0][j].sp == 3 {
        OnePlace(C.G, NoCode, b.ap2[0], i, j);
      } else if Skippable(C.G, NoCode, b.ap2[0][j]) {
        UnitStarts(C.G, b, 0, b.ap2[0][j]);
        EntriesBad(p, b, b.ap2[0][j]);
      }
    }
  }

  /** Where A ::= A comes before B ::= A, the entry of the first state on A would be replaced by another on A, and the
      assertion that there is one fails. */
  lemma PassFails(p: Precedence, b: Build)
    requires Compressed(C.G, b) && Decided(C.G, p, b) && NoLevels(p) && b.noCode == NoCode
    ensures !ChainsEndAll(C.G, b) && !UnitsEnd(C.G, p, NoCode)
    ensures |b.ap2| > 0 && exists n: nat :: PassRun(C.G, NoCode, Going(b.ap2[0], 0), n) == NoOther
  {
    hide Compressed, BuildOk, Decided, NoLevels, ListShape, PassEnds, EndsIn;
    WellBad();
    var i := TheEntry(p, b);
    WalksTo(b.ap2[0], i, 0);
    PassMore(C.G, NoCode, Going(b.ap2[0], 0), i);
    assert PassRun(C.G, NoCode, Going(b.ap2[0], 0), i + 1) == NoOther;
    forall e: nat, n: nat ensures !EndsIn(C.G, NoCode, b.ap2[0], i, e, n) {
      NeverOut(b.ap2[0], i, e, n);
    }
    assert !ChainEnds(C.G, NoCode, b.ap2[0], i);
  }

  /** What lemon makes of this grammar, up to there. */
  method TwoPasses() returns (b: Build)
    ensures Compressed(C.G, b) && b.noCode == NoCode
    ensures |b.ap2| > 0 && exists n: nat :: PassRun(C.G, NoCode, Going(b.ap2[0], 0), n) == NoOther
  {
    hide BuildOk, Compressed, ParserRight, UnitsEnd, Decided;
    WellBad();
    NeverTiedWithout(C.G);
    var conflicts, num, ok, t;
    b, conflicts, num, ok, t := Generate(C.G, NoPrecedence, []);
    ghost var b0 := b;
    b := b.(noCode := NoCode);
    OtherCode(C.G, b0, b);
    SameDecided(C.G, NoPrecedence, b0, b);
    PassFails(NoPrecedence, b);
  }

  lemma OtherCode(g: Grammar, b: Build, b': Build)
    requires BuildOk(g, b) && b' == b.(noCode := b'.noCode)
    ensures Compressed(g, b')
  {
    hide FollowsClosed, FollowsLeast, OnlyEnd, AllStates, Lr0, ListsOk, WithDefaults, WithShiftReduce, DefaultsUsed, AutosReduce, KeepsGotos,
      PassOne, PassTwo;
    CompressedSizes(g, b);
    forall q: nat | q < |b'.ap| ensures CompressedAt(g, b', q) {
      assert CompressedAt(g, b, q);
    }
  }

  lemma SameDecided(g: Grammar, p: Precedence, b: Build, b': Build)
    requires Decided(g, p, b) && b' == b.(noCode := b'.noCode, ap3 := b'.ap3)
    ensures Decided(g, p, b')
  {
  }

  // ----- the pass ends

  /** Where B ::= A comes first, the entry on A becomes that on B, which is a shift. */
  lemma PassSucceeds(p: Precedence)
    requires NoLevels(p)
    ensures UnitsEnd(Good, p, NoCode) && !NoIdleCycle(Good, NoCode)
  {
    hide Compressed, Decided, NoLevels;
    CycleThere();
    forall b | Compressed(Good, b) && Decided(Good, p, b) && b.noCode == NoCode ensures ChainsEndAll(Good, b) {
      ChainsEndHere(p, b);
    }
  }

  lemma CycleThere()
    ensures !NoIdleCycle(Good, NoCode)
  {
    WellGood();
    assert Idle(Good, NoCode, 2) && IdleStep(Good, NoCode, 3, 3);
    assert IdlePath(Good, NoCode, 3, 3, 0);
    assert IdlePath(Good, NoCode, 3, 3, 1);
  }

  lemma ChainsEndHere(p: Precedence, b: Build)
    requires Compressed(Good, b) && Decided(Good, p, b) && NoLevels(p) && b.noCode == NoCode
    ensures ChainsEndAll(Good, b)
  {
    hide Compressed, BuildOk, Decided, NoLevels, ListShape, ChainEnds;
    CompressedSizes(Good, b);
    forall q: nat, i: nat | q < |b.ap2| && i < |b.ap2[q]| ensures ChainEnds(Good, NoCode, b.ap2[q], i) {
      if Skippable(Good, NoCode, b.ap2[q][i]) {
        OnlyFirst(b, q, b.ap2[q][i]);
        OneStep(p, b, i);
      } else {
        ChainOver(Good, NoCode, b.ap2[q], i);
      }
    }
  }

  /** Only the first state has entries on nonterminals. */
  lemma OnlyFirst(b: Build, q: nat, x: Action)
    requires Compressed(Good, b) && b.noCode == NoCode && q < |b.ap2| == |b.ap| && x in b.ap2[q] && Skippable(Good, NoCode, x)
    ensures q == 0
  {
    hide Compressed;
    WellGood();
    UnitStarts(Good, b, q, x);
    CompressedStates(Good, b);
    if q != 0 {
      OthersComplete(Good, AutomatonOf(b.ss), q, Item(x.arg, 0));
    }
  }

  lemma OneStep(p: Precedence, b: Build, i: nat)
    requires Compressed(Good, b) && Decided(Good, p, b) && NoLevels(p) && b.noCode == NoCode
    requires |b.ap2| == |b.ap| > 0 && i < |b.ap2[0]| && Skippable(Good, NoCode, b.ap2[0][i])
    ensures ChainEnds(Good, NoCode, b.ap2[0], i)
  {
    hide Compressed, BuildOk, Decided, NoLevels, ListShape;
    WellGood();
    var acts := b.ap2[0];
    var b' := b.(noCode := [], ap3 := b.ap2);
    Untouched(Good, b);
    SameDecided(Good, p, b, b');
    Parts(Good, b');
    FirstGood(AutomatonOf(b.ss), b.f);
    UnitsFit(Good, b, 0);
    UnitStarts(Good, b, 0, acts[i]);
    var q := Behind(Good, p, b', 3, 1);
    var q' := Behind(Good, p, b', 4, 0);
    assert acts[i].sp == 3 || acts[i].sp == 4;
    if acts[i].sp == 4 {
      FirstEntry(Good, b', 4, q', acts[i]);
    } else {
      FirstEntry(Good, b', 3, q, acts[i]);
      var j := NextSymbol(Good, NoCode, acts, i);
      FirstEntry(Good, b', 4, q', acts[j]);
      assert EndsIn(Good, NoCode, acts, j, j, 0);
      assert EndsIn(Good, NoCode, acts, i, j, 1);
    }
  }

  /** What lemon makes of this grammar. */
  method Generated() returns (b: Build)
    ensures BuildOk(Good, b) && b.noCode == NoCode
  {
    hide BuildOk, ParserRight, UnitsEnd;
    WellGood();
    NeverTiedWithout(Good);
    PassSucceeds(NoPrecedence);
    var conflicts, num, ok, t;
    b, conflicts, num, ok, t := Generate(Good, NoPrecedence, NoCode);
  }
}
