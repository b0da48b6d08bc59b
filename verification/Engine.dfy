/** `Parse` of tools/lemon/lempar.c, on the packed tables and a stack that grows; and a client that calls it
    for every token. */
module Engine {
  // Built without %fallback, %wildcard and an error symbol.

  import opened Grammars
  import opened Driver
  import opened LrTheory
  import opened Termination
  import opened Unambiguous
  import opened States
  import opened Conflicts
  import opened ActionLists
  import opened Compress
  import opened Wrappers
  import opened Simulation
  import opened UnitRules
  import opened Skipping
  import opened Resort
  import opened Packed
  import opened Generator
  import opened Endings

  const YYSTACKDEPTH := 100

  datatype Frame = Frame(stateno: nat, major: nat)

  datatype Status = TokenShifted | TokenDropped | AcceptedInput | FailedInput

  /** The parser is where a run of the table with defaults could be, up to SHIFTREDUCE actions. */
  ghost predicate Near(g: Grammar, b: Build, p: Parser, tok: nat) {
    exists p1 :: SameParser(b.autos, p1, p) && LoopInv(g, AutomatonOf(b.ss), p1, tok)
  }

  lemma NearStep(g: Grammar, b: Build, p: Parser, tok: nat)
    requires BuildOk(g, b) && Near(g, b, p, tok) && tok < g.nterminal
    ensures var o := LoopStep(g, ReduceTable(g, b), p, tok);
      && !o.Stuck?
      && (o.Again? ==> Near(g, b, o.p, tok))
      && (o.Consumed? ==> tok > 0 && forall t :: Near(g, b, o.p, t))
      && (o.Accepted? ==> o.p.stack == [Bottom])
  {
    hide LoopInv, Twins, SoundTable, SameParser, BuildOk, LoopStep;
    var p1 :| SameParser(b.autos, p1, p) && LoopInv(g, AutomatonOf(b.ss), p1, tok);
    TablesAreTwins(g, b);
    DefaultTableSound(g, b);
    StepSame(g, |b.ap|, DefaultTable(g, b), ReduceTable(g, b), b.autos, p1, p, tok);
    Unpack(g, b);
    StepSound(g, AutomatonOf(b.ss), DefaultTable(g, b), p1, tok);
    var o1 := LoopStep(g, DefaultTable(g, b), p1, tok);
    if o1.Consumed? {
      forall t: nat ensures LoopInv(g, AutomatonOf(b.ss), o1.p, t) {
        PathSuffices(g, AutomatonOf(b.ss), o1.p, tok, t);
      }
    }
  }

  lemma {:induction false} NearReduces(g: Grammar, b: Build, p: Parser, tok: nat, m: Parser, k: nat)
    requires BuildOk(g, b) && Near(g, b, p, tok) && tok < g.nterminal && Reduces(g, ReduceTable(g, b), p, tok, m, k)
    ensures Near(g, b, m, tok)
    decreases k
  {
    hide BuildOk, Near, LoopStep;
    if k > 0 {
      NearStep(g, b, p, tok);
      NearReduces(g, b, LoopStep(g, ReduceTable(g, b), p, tok).p, tok, m, k - 1);
    }
  }

  lemma NearGoes(g: Grammar, b: Build, p: Parser, tok: nat)
    requires BuildOk(g, b) && Near(g, b, p, tok) && tok < g.nterminal
    ensures !GetsStuck(g, ReduceTable(g, b), p, tok)
  {
    hide BuildOk, Near, LoopStep;
    forall m, k: nat | Reduces(g, ReduceTable(g, b), p, tok, m, k) ensures !LoopStep(g, ReduceTable(g, b), m, tok).Stuck? {
      NearReduces(g, b, p, tok, m, k);
      NearStep(g, b, m, tok);
    }
  }

  /** The parser is where a run could be, up to skipped unit rules too. */
  ghost predicate Good(g: Grammar, b: Build, p: Parser, tok: nat) {
    exists p2 :: SameRun(g, b.noCode, p2, p) && Near(g, b, p2, tok)
  }

  lemma GoodStep(g: Grammar, b: Build, p: Parser, tok: nat)
    requires BuildOk(g, b) && Good(g, b, p, tok) && tok < g.nterminal
    ensures var o := LoopStep(g, FinalTable(g, b), p, tok);
      && !o.Stuck?
      && (o.Again? ==> Good(g, b, o.p, tok))
      && (o.Consumed? ==> tok > 0 && forall t :: Good(g, b, o.p, t))
      && (o.Accepted? ==> o.p.stack == [Bottom])
  {
    hide BuildOk, Near, LoopStep, WithoutUnits, SameRun, Reduces, GetsStuck;
    var p2 :| SameRun(g, b.noCode, p2, p) && Near(g, b, p2, tok);
    Basics(g, b);
    NearGoes(g, b, p2, tok);
    NearStep(g, b, p2, tok);
    var tb, tb' := ReduceTable(g, b), FinalTable(g, b);
    var o := LoopStep(g, tb', p, tok);
    if o.Stuck? {
      StepStuck(g, b.noCode, |b.ap|, tb, tb', p2, p, tok);
    } else {
      var m, k := StepSkips(g, b.noCode, |b.ap|, tb, tb', p2, p, tok);
      if o.Again? {
        NearReduces(g, b, p2, tok, m, k);
      } else if o.Accepted? {
        BottomSame(g, b.noCode, LoopStep(g, tb, p2, tok).p, o.p);
      }
    }
  }

  lemma BottomSame(g: Grammar, noCode: seq<bool>, p: Parser, p': Parser)
    requires SameRun(g, noCode, p, p') && p.stack == [Bottom]
    ensures p'.stack == [Bottom]
  {
  }

  lemma Unpack(g: Grammar, b: Build)
    requires BuildOk(g, b)
    ensures WfGrammar(g) && StartIsFresh(g) && Lr0(g, AutomatonOf(b.ss)) && |b.ap3| == |b.ap2| == |b.ap| == |b.ss|
  {
  }

  lemma PathSuffices(g: Grammar, a: Automaton, p: Parser, tok: nat, t: nat)
    requires LoopInv(g, a, p, tok) && Path(a, p.stack)
    ensures LoopInv(g, a, p, t)
  {
  }

  /** A reduce uncovers a state with the rule's undotted configuration. */
  lemma Uncovered(g: Grammar, a: Automaton, tb: Table, p: Parser, tok: nat, r: nat)
    requires WfGrammar(g) && StartIsFresh(g) && Lr0(g, a) && SoundTable(g, a, tb) && tok < g.nterminal
    requires LoopInv(g, a, p, tok) && p.stack != [] && NextAct(tb, p.stack, tok) == Reduce(r)
    ensures r < |g.rules| && |g.rules[r].rhs| < |p.stack|
    ensures var e := p.stack[|p.stack| - 1 - |g.rules[r].rhs|]; e.act.Shift? && Has(a, e.act.state, Item(r, 0))
  {
    hide SoundTable, RightmostBy, Lr0, StartIsFresh, WfGrammar, Path, Lookup;
    assert Path(a, p.stack);
    PathEnds(a, p.stack);
    SoundThere(g, a, tb, TopState(p.stack), tok);
    Handle(g, a, p.stack, Final(g, r));
    var k := |g.rules[r].rhs|;
    PathPrefix(a, p.stack, |p.stack| - k);
    PathEnds(a, p.stack[..|p.stack| - k]);
  }

  /** The state uncovered by a reduce has an entry for the left-hand side in the packed table. */
  lemma GotoThere(g: Grammar, b: Build, p: Parser, tok: nat, r: nat)
    requires BuildOk(g, b) && Good(g, b, p, tok) && tok < g.nterminal && p.stack != []
    requires NextAct(FinalTable(g, b), p.stack, tok) == Reduce(r)
    ensures r < |g.rules| && |g.rules[r].rhs| < |p.stack|
    ensures var q := p.stack[|p.stack| - 1 - |g.rules[r].rhs|].act;
      q.Shift? && q.state < |b.ap3| && g.nterminal <= g.rules[r].lhs < g.nsymbol && g.rules[r].lhs in Entries(g, b.ap3[q.state])
  {
    hide BuildOk, Near, WithoutUnits, NextAct, Coded;
    var p2 :| SameRun(g, b.noCode, p2, p) && Near(g, b, p2, tok);
    Basics(g, b);
    NextSame(g, b.noCode, |b.ap|, ReduceTable(g, b), FinalTable(g, b), p2, p, tok);
    NearGoto(g, b, p2, tok, r);
  }

  lemma NearGoto(g: Grammar, b: Build, p: Parser, tok: nat, r: nat)
    requires BuildOk(g, b) && Near(g, b, p, tok) && tok < g.nterminal && p.stack != []
    requires NextAct(ReduceTable(g, b), p.stack, tok) == Reduce(r)
    ensures r < |g.rules| && |g.rules[r].rhs| < |p.stack|
    ensures var q := p.stack[|p.stack| - 1 - |g.rules[r].rhs|].act;
      q.Shift? && q.state < |b.ap3| && g.nterminal <= g.rules[r].lhs < g.nsymbol && g.rules[r].lhs in Entries(g, b.ap3[q.state])
  {
    hide Twins, SoundTable, BuildOk, LoopInv, Lr0, StartIsFresh, WfGrammar, NextAct;
    var a := AutomatonOf(b.ss);
    var p1 :| SameParser(b.autos, p1, p) && LoopInv(g, a, p1, tok);
    Unpack(g, b);
    TablesAreTwins(g, b);
    DefaultTableSound(g, b);
    SameNext(g, |b.ap|, DefaultTable(g, b), ReduceTable(g, b), b.autos, p1.stack, p.stack, tok, r);
    Uncovered(g, a, DefaultTable(g, b), p1, tok, r);
    var k := |g.rules[r].rhs|;
    GotoEntry(g, b, p1.stack[|p1.stack| - 1 - k].act.state, r);
    AutoRuleTop(g, b, p1, p, r, tok);
  }

  lemma SoundThere(g: Grammar, a: Automaton, tb: Table, q: nat, c: nat)
    requires SoundTable(g, a, tb)
    ensures SoundAt(g, a, tb, q, c)
  {
  }

  lemma SameNext(g: Grammar, n: nat, tb1: Table, tb2: Table, autos: seq<Option<nat>>, s1: seq<Entry>, s2: seq<Entry>, tok: nat, r: nat)
    requires Twins(g, n, tb1, tb2, autos) && SameStack(autos, s1, s2) && tok < g.nterminal
    requires NextAct(tb2, s2, tok) == Reduce(r)
    ensures NextAct(tb1, s1, tok) == Reduce(r)
  {
    var t1 := s1[|s1| - 1].act;
    if t1.Shift? {
      LookupTwin(g, n, tb1, tb2, autos, t1.state, tok);
    }
  }

  /** A pending reduce is by a nonempty rule, so the entry under its handle is not the pending one. */
  lemma AutoRuleTop(g: Grammar, b: Build, p1: Parser, p: Parser, r: nat, tok: nat)
    requires BuildOk(g, b) && SameParser(b.autos, p1, p) && r < |g.rules| && |g.rules[r].rhs| < |p.stack| && tok < g.nterminal
    requires NextAct(ReduceTable(g, b), p.stack, tok) == Reduce(r)
    ensures p1.stack[|p.stack| - 1 - |g.rules[r].rhs|] == p.stack[|p.stack| - 1 - |g.rules[r].rhs|]
  {
    hide BuildOk;
    var m := |p.stack| - 1;
    if |g.rules[r].rhs| > 0 {
      assert p1.stack[..m][m - |g.rules[r].rhs|] == p.stack[..m][m - |g.rules[r].rhs|];
    } else if p1.stack[m].act != p.stack[m].act {
      PendingIsAuto(g, b, p1.stack[m].act.state);
    }
  }

  lemma PendingIsAuto(g: Grammar, b: Build, q: nat)
    requires BuildOk(g, b) && q < |b.autos| && b.autos[q].Some?
    ensures b.autos[q].value < |g.rules| && |g.rules[b.autos[q].value].rhs| > 0
  {
    AutosNotEmpty(g, b, q);
  }

  lemma GotoEntry(g: Grammar, b: Build, q: nat, r: nat)
    requires BuildOk(g, b) && r < |g.rules| && Has(AutomatonOf(b.ss), q, Item(r, 0))
    ensures q < |b.ap3| && g.nterminal <= g.rules[r].lhs < g.nsymbol && g.rules[r].lhs in Entries(g, b.ap3[q])
  {
    hide FollowsClosed, OnlyEnd, WithDefaults, WithShiftReduce, DefaultsUsed, AutosReduce;
    var a, c := AutomatonOf(b.ss), g.rules[r].lhs;
    DefaultTableSound(g, b);
    GotoDefined(g, a, DefaultTable(g, b), q, r);
    assert WfRule(g, g.rules[r]);
    assert LiveOn(b.ap[q], c) by {
      if c == g.start {
        assert Wanted(g, a, b.f, q, c, ACCEPT, 0);
      } else {
        assert Wanted(g, a, b.f, q, c, SHIFT, Lookup(DefaultTable(g, b), q, c).state);
      }
    }
    ListIsPlain(g, a, b.f, q, b.ap[q]);
    EntriesAre(g, b.ap[q], c);
    var i :| 0 <= i < |b.ap[q]| && b.ap[q][i].sp == c && Live(b.ap[q][i].kind);
    assert b.ap[q][i] in b.ap[q];
  }

  function ToEntry(num: Numbering, nr: nat, f: Frame): Entry {
    Entry(DecodeNum(num, nr, f.stateno), f.major)
  }

  ghost function EntriesOf(num: Numbering, nr: nat, frames: seq<Frame>): (s: seq<Entry>)
    ensures |s| == |frames|
  {
    seq(|frames|, i requires 0 <= i < |frames| => ToEntry(num, nr, frames[i]))
  }

  /** A state that was kept, or a pending reduce. */
  predicate Proper(t: Tables, stateno: nat) {
    stateno < t.nx || t.ns <= stateno
  }

  class Engine {
    const g: Grammar
    const t: Tables
    ghost const b: Build
    ghost const num: Numbering
    var yystack: array<Frame>
    var yytos: nat
    ghost var shifted: seq<nat>
    ghost var trail: seq<nat>
    ghost var errors: nat

    ghost predicate Valid()
      reads this, yystack
    {
      && BuildOk(g, b) && TablesFor(g, num, b.ap3, t) && LastHasToken(g, num, b.ap3)
      && yytos < yystack.Length && forall i :: 0 <= i <= yytos ==> Proper(t, yystack[i].stateno)
    }

    /** The parser of module `Driver` that this object stands for, with the states as they were numbered before. */
    ghost function Abs(): Parser
      reads this, yystack
      requires Valid()
    {
      Parser(EntriesOf(num, t.nr, yystack[..yytos + 1]), shifted, trail, errors)
    }

    /** ParseInit */
    constructor (g: Grammar, t: Tables, ghost b: Build, ghost num: Numbering)
      requires BuildOk(g, b) && TablesFor(g, num, b.ap3, t) && LastHasToken(g, num, b.ap3)
      ensures Valid() && fresh(yystack) && Abs() == Fresh && this.g == g && this.t == t && this.b == b && this.num == num
    {
      hide BuildOk, TablesFor, LastHasToken;
      this.g, this.t, this.b, this.num := g, t, b, num;
      yystack := new Frame[YYSTACKDEPTH](_ => Frame(0, 0));
      yytos := 0;
      shifted, trail, errors := [], [], 0;
      new;
      assert yystack[..1] == [Frame(0, 0)];
      BottomFrame(g, num, b, t);
    }

    /** yyGrowStack, where memory is there: the contents move to a larger array. */
    method GrowStack()
      requires Valid()
      modifies this`yystack
      ensures Valid() && fresh(yystack) && Abs() == old(Abs()) && yystack.Length == 2 * old(yystack.Length) + 100
      ensures yystack[..yytos + 1] == old(yystack[..yytos + 1])
    {
      hide BuildOk, TablesFor, LastHasToken, EntriesOf;
      var cur, n := yystack, yystack.Length;
      var grown := new Frame[2 * n + 100](_ => Frame(0, 0));
      for i := 0 to n
        invariant grown[..i] == cur[..i]
        modifies grown
      {
        grown[i] := cur[i];
      }
      assert grown[..yytos + 1] == grown[..n][..yytos + 1] == cur[..n][..yytos + 1] == cur[..yytos + 1];
      yystack := grown;
      assert forall i :: 0 <= i <= yytos ==> yystack[i] == yystack[..yytos + 1][i];
    }

    /** yy_find_shift_action: a stateno above YY_MAX_SHIFT is itself the action. */
    method FindShiftAction(tok: nat, stateno: nat) returns (act: nat)
      requires Valid() && tok < g.nterminal && stateno == yystack[yytos].stateno
      ensures DecodeNum(num, t.nr, act) == NextAct(FinalTable(g, b), Abs().stack, tok) && Proper(t, act)
    {
      hide BuildOk, TablesFor, LastHasToken, Lookup;
      assert Abs().stack[yytos] == ToEntry(num, t.nr, yystack[yytos]);
      assert Proper(t, yystack[yytos].stateno);
      Sizes(g, num, b, t);
      if stateno >= t.nx {
        return stateno;
      }
      var x := FindShift(t, tok, stateno);
      ShiftAtHand(g, num, b, t, stateno, tok);
      act := x;
    }

    /** Put a frame on top of the first `k` frames, for which there is room. */
    method SetTop(k: nat, f: Frame)
      requires Valid() && 0 < k <= yytos + 1 && k < yystack.Length && Proper(t, f.stateno)
      modifies this`yytos, yystack
      ensures Valid() && yystack == old(yystack)
      ensures Abs() == old(Abs()).(stack := old(Abs()).stack[..k] + [ToEntry(num, t.nr, f)])
    {
      hide BuildOk, TablesFor, LastHasToken;
      ghost var frames := yystack[..yytos + 1];
      yystack[k] := f;
      yytos := k;
      assert yystack[..yytos + 1] == frames[..k] + [f];
    }

    /** yy_shift: the shift half of a SHIFTREDUCE leaves the reduce action as the state number. */
    method Shift(newState: nat, major: nat)
      requires Valid() && newState < t.ns + t.nr && Proper(t, newState)
      modifies this, yystack
      ensures Valid() && (yystack == old(yystack) || fresh(yystack))
      ensures Abs() == old(Abs()).(stack := old(Abs()).stack + [Pushed(num, t.nr, newState, major)], shifted := old(shifted) + [major])
    {
      hide BuildOk, TablesFor, LastHasToken;
      if yytos + 1 >= yystack.Length {
        GrowStack();
      }
      Sizes(g, num, b, t);
      var stateno := if newState >= t.nx then newState + t.nr + 3 else newState;
      assert Abs().stack[..yytos + 1] == Abs().stack;
      SetTop(yytos + 1, Frame(stateno, major));
      shifted := shifted + [major];
    }

    /** yy_reduce: pop the right-hand side, push the left-hand side with the goto action. */
    method ReduceBy(r: nat)
      requires Valid() && r < |g.rules| && |g.rules[r].rhs| <= yytos
      requires var e := yystack[yytos - |g.rules[r].rhs|];
        && e.stateno < t.nx && e.stateno < |num.sorted| && num.sorted[e.stateno] < |b.ap3|
        && g.nterminal <= g.rules[r].lhs < g.nsymbol && g.rules[r].lhs in Entries(g, b.ap3[num.sorted[e.stateno]])
      requires ReduceStep(g, FinalTable(g, b), Abs(), r).Again?
      modifies this, yystack
      ensures Valid() && (yystack == old(yystack) || fresh(yystack))
      ensures Abs() == old(ReduceStep(g, FinalTable(g, b), Abs(), r)).p && errors == old(errors)
    {
      hide BuildOk, TablesFor, LastHasToken, FindReduce, Lookup;
      var k, lhs := |g.rules[r].rhs|, g.rules[r].lhs;
      if k == 0 && yytos + 1 >= yystack.Length {
        GrowStack();
        assert yystack[..yytos + 1][yytos - k] == old(yystack[..yytos + 1])[yytos - k];
      }
      var under := yystack[yytos - k].stateno;
      assert Abs().stack[yytos - k] == ToEntry(num, t.nr, yystack[yytos - k]);
      var act := FindReduce(t, under, lhs);
      Sizes(g, num, b, t);
      GotoAtHand(g, num, b, t, under, lhs);
      SetTop(yytos + 1 - k, Frame(act, lhs));
      trail := [r] + trail;
    }

    /** The branch of the loop for a reduce. */
    method ReduceTurn(yymajor: nat, r: nat)
      requires Valid() && yymajor < g.nterminal && Good(g, b, Abs(), yymajor)
      requires NextAct(FinalTable(g, b), Abs().stack, yymajor) == Reduce(r)
      requires LoopStep(g, FinalTable(g, b), Abs(), yymajor).Again?
      modifies this, yystack
      ensures Valid() && (yystack == old(yystack) || fresh(yystack))
      ensures Abs() == old(LoopStep(g, FinalTable(g, b), Abs(), yymajor)).p && errors == old(errors)
    {
      hide BuildOk, TablesFor, LastHasToken, Good, FinalTable, NextAct, ReduceStep;
      GotoThere(g, b, Abs(), yymajor, r);
      var k := yytos - |g.rules[r].rhs|;
      assert Abs().stack[k] == ToEntry(num, t.nr, yystack[k]) && Proper(t, yystack[k].stateno);
      Sizes(g, num, b, t);
      ReduceBy(r);
    }

    /** The branch of the loop for a shift. */
    method ShiftTurn(yymajor: nat, act: nat)
      requires Valid() && act < t.ns + t.nr && Proper(t, act)
      requires NextAct(FinalTable(g, b), Abs().stack, yymajor) == DecodeNum(num, t.nr, act)
      modifies this, yystack
      ensures Valid() && (yystack == old(yystack) || fresh(yystack))
      ensures LoopStep(g, FinalTable(g, b), old(Abs()), yymajor) == Consumed(Abs()) && errors == old(errors)
    {
      hide BuildOk, TablesFor, LastHasToken, FinalTable, NextAct;
      Sizes(g, num, b, t);
      Shift(act, yymajor);
    }

    method AcceptTurn(yymajor: nat)
      requires Valid() && NextAct(FinalTable(g, b), Abs().stack, yymajor) == Accept && yytos > 0
      modifies this
      ensures Valid() && yystack == old(yystack) && LoopStep(g, FinalTable(g, b), old(Abs()), yymajor) == Accepted(Abs())
      ensures errors == old(errors)
    {
      hide BuildOk, TablesFor, LastHasToken, FinalTable, NextAct;
      assert yystack[..yytos + 1][..yytos] == yystack[..yytos];
      yytos := yytos - 1;
    }

    /** The branch for a syntax error, without an error symbol: drop the token; at end of input, empty the stack. */
    method ErrorTurn(yymajor: nat) returns (status: Status)
      requires Valid() && NextAct(FinalTable(g, b), Abs().stack, yymajor) == Error && Abs().stack[0] == Bottom
      modifies this
      ensures Valid() && yystack == old(yystack)
      ensures LoopStep(g, FinalTable(g, b), old(Abs()), yymajor) == if status.FailedInput? then Failed(Abs()) else Consumed(Abs())
      ensures status.TokenDropped? || status.FailedInput?
      ensures errors == old(errors) + 1
    {
      hide BuildOk, TablesFor, LastHasToken, FinalTable, NextAct;
      errors := errors + 1;
      status := TokenDropped;
      if yymajor == 0 {
        assert yystack[..1] == yystack[..yytos + 1][..1];
        assert EntriesOf(num, t.nr, yystack[..1]) == [Bottom];
        yytos := 0;
        status := FailedInput;
      }
    }

    /** Parse: one token, or 0 at end of input, wherever the loop comes to an end on it. */
    method Parse(yymajor: nat) returns (status: Status)
      requires Valid() && yymajor < g.nterminal && Good(g, b, Abs(), yymajor)
      requires Ends(g, FinalTable(g, b), Abs(), yymajor)
      modifies this, yystack
      ensures Valid() && (yystack == old(yystack) || fresh(yystack))
      ensures exists n: nat :: Settles(g, FinalTable(g, b), old(Abs()), yymajor, OutcomeOf(status, Abs()), n)
      ensures errors == old(errors) + if status.TokenDropped? || status.FailedInput? then 1 else 0
    {
      hide BuildOk, TablesFor, LastHasToken, Good, FinalTable, Settles, EntriesOf;
      ghost var o, n: nat :| Settles(g, FinalTable(g, b), Abs(), yymajor, o, n);
      status := Loop(yymajor, o, n);
    }

    /** The loop of Parse. `o` is how it ends, after `n` reduces. */
    method Loop(yymajor: nat, ghost o: Outcome, ghost n: nat) returns (status: Status)
      requires Valid() && yymajor < g.nterminal && Good(g, b, Abs(), yymajor)
      requires Settles(g, FinalTable(g, b), Abs(), yymajor, o, n)
      modifies this, yystack
      ensures Valid() && (yystack == old(yystack) || fresh(yystack))
      ensures o == OutcomeOf(status, Abs())
      ensures errors == old(errors) + if status.TokenDropped? || status.FailedInput? then 1 else 0
    {
      hide BuildOk, TablesFor, LastHasToken, Good, FinalTable, LoopStep, NextAct;
      Sizes(g, num, b, t);
      ghost var m := n;
      while true
        invariant Valid() && (yystack == old(yystack) || fresh(yystack)) && Good(g, b, Abs(), yymajor)
        invariant Settles(g, FinalTable(g, b), Abs(), yymajor, o, m) && errors == old(errors)
        decreases m
      {
        GoodStep(g, b, Abs(), yymajor);
        GoodShape(g, b, Abs(), yymajor);
        var act := FindShiftAction(yymajor, yystack[yytos].stateno);
        if act >= t.ns + t.nr + 3 {
          StepReduces(g, FinalTable(g, b), Abs(), yymajor, act - (t.ns + t.nr + 3), o, m);
          ReduceTurn(yymajor, act - (t.ns + t.nr + 3));
          m := m - 1;
        } else if act < t.ns + t.nr {
          ShiftTurn(yymajor, act);
          return TokenShifted;
        } else if act == t.ns + t.nr + 1 {
          AcceptsFromTwo(g, FinalTable(g, b), Abs(), yymajor);
          AcceptTurn(yymajor);
          return AcceptedInput;
        } else {
          status := ErrorTurn(yymajor);
          return;
        }
      }
    }
  }

  /** What a shift leaves on the stack. */
  function Pushed(num: Numbering, nr: nat, newState: nat, major: nat): Entry {
    var ns := |num.sorted|;
    Entry(if newState < ns then Driver.Shift(num.sorted[newState]) else Reduce(newState - ns), major)
  }

  function OutcomeOf(status: Status, p: Parser): Outcome {
    match status
    case TokenShifted => Consumed(p)
    case TokenDropped => Consumed(p)
    case AcceptedInput => Accepted(p)
    case FailedInput => Failed(p)
  }

  lemma StepReduces(g: Grammar, tb: Table, p: Parser, tok: nat, r: nat, o: Outcome, m: nat)
    requires p.stack != [] && NextAct(tb, p.stack, tok) == Reduce(r) && !LoopStep(g, tb, p, tok).Stuck? && Settles(g, tb, p, tok, o, m)
    ensures LoopStep(g, tb, p, tok).Again? && m > 0
  {
  }

  lemma GoodShape(g: Grammar, b: Build, p: Parser, tok: nat)
    requires Good(g, b, p, tok)
    ensures p.stack != [] && p.stack[0] == Bottom
  {
    hide BuildOk, RightmostBy, Path, Coded;
    var p2 :| SameRun(g, b.noCode, p2, p) && Near(g, b, p2, tok);
    var p1 :| SameParser(b.autos, p1, p2) && LoopInv(g, AutomatonOf(b.ss), p1, tok);
    if Path(AutomatonOf(b.ss), p1.stack) {
      PathBottom(AutomatonOf(b.ss), p1.stack);
    }
  }

  lemma {:induction false} PathBottom(a: Automaton, stack: seq<Entry>)
    requires Path(a, stack)
    ensures stack[0] == Bottom
    decreases |stack|
  {
    if |stack| > 1 {
      PathBottom(a, stack[..|stack| - 1]);
    }
  }

  lemma AcceptsFromTwo(g: Grammar, tb: Table, p: Parser, tok: nat)
    requires p.stack != [] && NextAct(tb, p.stack, tok) == Accept
    requires var o := LoopStep(g, tb, p, tok); o.Accepted? ==> o.p.stack == [Bottom]
    ensures |p.stack| == 2
  {
    assert |p.stack[..|p.stack| - 1]| == 1;
  }

  lemma ShiftAtHand(g: Grammar, num: Numbering, b: Build, t: Tables, i: nat, tok: nat)
    requires TablesFor(g, num, b.ap3, t) && LastHasToken(g, num, b.ap3) && i < t.nx && tok < g.nterminal && i < |num.sorted|
    ensures ShiftRight(g, num, b.ap3, t, i, tok)
  {
    hide Lookup, DecodeNum, Size, Entries;
    LookupsInside(g, num, b.ap3, t);
  }

  lemma GotoAtHand(g: Grammar, num: Numbering, b: Build, t: Tables, i: nat, c: nat)
    requires TablesFor(g, num, b.ap3, t) && i < t.nx && g.nterminal <= c < g.nsymbol
    requires i < |num.sorted| && num.sorted[i] < |b.ap3| && c in Entries(g, b.ap3[num.sorted[i]])
    ensures GotoRight(g, num, b.ap3, t, i, c)
  {
  }

  lemma BottomFrame(g: Grammar, num: Numbering, b: Build, t: Tables)
    requires TablesFor(g, num, b.ap3, t)
    ensures EntriesOf(num, t.nr, [Frame(0, 0)]) == [Bottom] && Proper(t, 0)
  {
  }

  lemma Sizes(g: Grammar, num: Numbering, b: Build, t: Tables)
    requires TablesFor(g, num, b.ap3, t)
    ensures t.ns == |b.ap3| == |num.sorted| && t.nr == |g.rules| && 0 < t.nx == num.nxstate <= t.ns
    ensures forall i :: 0 <= i < t.ns ==> num.sorted[i] < t.ns
  {
  }

  /** Wherever a run may be, the loop ends on the next token if nothing in the grammar comes back. */
  lemma GoodEnds(g: Grammar, b: Build, p: Parser, tok: nat)
    requires BuildOk(g, b) && Good(g, b, p, tok) && tok < g.nterminal && (Loopless(g) || (ConflictFree(b.ap) && Useful(g)))
    ensures Ends(g, FinalTable(g, b), p, tok)
  {
    hide BuildOk, Loopless, Useful, ConflictFree, LoopInv, SameParser, SameRun;
    if !Loopless(g) {
      FreeIsLoopless(g, b);
    }
    var p2 :| SameRun(g, b.noCode, p2, p) && Near(g, b, p2, tok);
    var p1 :| SameParser(b.autos, p1, p2) && LoopInv(g, AutomatonOf(b.ss), p1, tok);
    GeneratedEnds(g, b, p1, p2, p, tok);
  }

  // ----- whole streams

  /** A run that halts deals with its first token in finitely many steps, and goes on from there. */
  lemma {:induction false} RunSplits(g: Grammar, b: Build, p: Parser, rest: seq<nat>, n: nat) returns (o: Outcome, k: nat, m: nat)
    requires BuildOk(g, b) && Good(g, b, p, Ahead(rest)) && AllTokens(g, rest) && 0 < g.nterminal
    requires Run(g, FinalTable(g, b), Running(p, rest), n).Halted?
    ensures Settles(g, FinalTable(g, b), p, Ahead(rest), o, k)
    ensures if o.Consumed? then
        && rest != [] && m < n && (forall t :: Good(g, b, o.p, t))
        && Run(g, FinalTable(g, b), Running(o.p, rest[1..]), m) == Run(g, FinalTable(g, b), Running(p, rest), n)
      else Run(g, FinalTable(g, b), Running(p, rest), n) == Halted(o)
    decreases n
  {
    hide BuildOk, Good, LoopStep, FinalTable;
    var tb, tok := FinalTable(g, b), Ahead(rest);
    GoodStep(g, b, p, tok);
    var s := LoopStep(g, tb, p, tok);
    if s.Again? {
      o, k, m := RunSplits(g, b, s.p, rest, n - 1);
      k := k + 1;
    } else {
      o, k, m := s, 0, n - 1;
      if !s.Consumed? {
        StaysHalted(g, tb, Halted(s), n - 1);
      }
    }
  }

  lemma FreshIsGood(g: Grammar, b: Build, t: nat)
    requires BuildOk(g, b)
    ensures Good(g, b, Fresh, t)
  {
    Unpack(g, b);
    StatesThere(g, AutomatonOf(b.ss));
    assert Symbols(Fresh.stack) == [];
    assert LoopInv(g, AutomatonOf(b.ss), Fresh, t);
    assert SameParser(b.autos, Fresh, Fresh) && SameRun(g, b.noCode, Fresh, Fresh);
    assert Near(g, b, Fresh, t);
  }

  lemma OneOutcome(g: Grammar, tb: Table, p: Parser, tok: nat, o: Outcome, n: nat, o': Outcome, n': nat)
    requires Settles(g, tb, p, tok, o, n) && Settles(g, tb, p, tok, o', n')
    ensures o == o' && n == n'
    decreases n
  {
    if n > 0 && n' > 0 {
      OneOutcome(g, tb, LoopStep(g, tb, p, tok).p, tok, o, n - 1, o', n' - 1);
    }
  }

  /** What the loop comes to on the next token, and where the run goes on from there. */
  lemma NextOutcome(g: Grammar, b: Build, p: Parser, rest: seq<nat>, n: nat, o: Outcome, k: nat) returns (m: nat)
    requires BuildOk(g, b) && Good(g, b, p, Ahead(rest)) && AllTokens(g, rest) && 0 < g.nterminal
    requires Run(g, FinalTable(g, b), Running(p, rest), n).Halted? && Settles(g, FinalTable(g, b), p, Ahead(rest), o, k)
    ensures if o.Consumed? then
        && rest != [] && m < n && (forall t :: Good(g, b, o.p, t))
        && Run(g, FinalTable(g, b), Running(o.p, rest[1..]), m) == Run(g, FinalTable(g, b), Running(p, rest), n)
      else Run(g, FinalTable(g, b), Running(p, rest), n) == Halted(o)
  {
    hide BuildOk, Good, Run, FinalTable;
    var o', k';
    o', k', m := RunSplits(g, b, p, rest, n);
    OneOutcome(g, FinalTable(g, b), p, Ahead(rest), o, k, o', k');
  }

  /** A client of the generated parser: Parse is called for each token and then with 0. On every stream on which the run
      makes no lap, which is every stream if nothing in the grammar comes back, or if it has no conflicts and all that is
      in use can be completed, it comes to an end and accepts without a syntax error only sentences of the grammar, and all of
      them if the grammar has no conflicts. */
  method ParseAll(g: Grammar, t: Tables, ghost b: Build, ghost num: Numbering, w: seq<nat>) returns (accepted: bool)
    requires BuildOk(g, b) && TablesFor(g, num, b.ap3, t) && LastHasToken(g, num, b.ap3) && AllTokens(g, w)
    requires Loopless(g) || (ConflictFree(b.ap) && Useful(g)) || Lapless(g, DefaultTable(g, b), w)
    ensures accepted <==> Accepts(g, FinalTable(g, b), w)
    ensures accepted ==> InLanguage(g, w)
    ensures ConflictFree(b.ap) ==> (accepted <==> InLanguage(g, w))
  {
    hide BuildOk, TablesFor, LastHasToken, Good, FinalTable, InLanguage, ConflictFree, Run, Settles, Accepts, Loopless, Useful, Lapless, DefaultTable;
    var e := new Engine(g, t, b, num);
    FreshIsGood(g, b, Ahead(w));
    GeneratedExact(g, b, w);
    ParserIsRight(g, b, w);
    HaltsUnlessLap(g, b, w);
    Unpack(g, b);
    ghost var tb := FinalTable(g, b);
    ghost var n: nat :| Run(g, tb, Running(Fresh, w), n).Halted?;
    ghost var m := n;
    ghost var end := Run(g, tb, Running(Fresh, w), n);
    var i, clean := 0, true;
    while true
      invariant 0 <= i <= |w| && fresh(e) && fresh(e.yystack) && e.Valid() && e.g == g && e.b == b
      invariant Good(g, b, e.Abs(), Ahead(w[i..])) && Run(g, tb, Running(e.Abs(), w[i..]), m) == end
      invariant clean <==> e.errors == 0
      decreases m
    {
      var tok := if i < |w| then w[i] else 0;
      assert tok == Ahead(w[i..]);
      ghost var p := e.Abs();
      ghost var o', k', m' := RunSplits(g, b, p, w[i..], m);
      var status := e.Parse(tok);
      ghost var o := OutcomeOf(status, e.Abs());
      ghost var k: nat :| Settles(g, tb, p, tok, o, k);
      m' := NextOutcome(g, b, p, w[i..], m, o, k);
      match status
      case TokenShifted =>
        assert w[i..][1..] == w[i + 1..];
        i, m := i + 1, m';
      case TokenDropped =>
        assert w[i..][1..] == w[i + 1..];
        i, m, clean := i + 1, m', false;
      case AcceptedInput =>
        accepted := clean;
        break;
      case FailedInput =>
        accepted := false;
        break;
    }
    AcceptedIsTheEnd(g, tb, w, n);
  }

  lemma AcceptedIsTheEnd(g: Grammar, tb: Table, w: seq<nat>, n: nat)
    requires Run(g, tb, Running(Fresh, w), n).Halted?
    ensures var c := Run(g, tb, Running(Fresh, w), n);
      Accepts(g, tb, w) <==> c.outcome.Accepted? && c.outcome.p.errors == 0
  {
    if Accepts(g, tb, w) {
      var k: nat :| var c := Run(g, tb, Running(Fresh, w), k); c.Halted? && c.outcome.Accepted? && c.outcome.p.errors == 0;
      OneEnd(g, tb, Running(Fresh, w), k, n);
    }
  }
}
