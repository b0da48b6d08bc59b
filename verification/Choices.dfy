/** Every choice of rules to reduce by stops. */
module Choices {
  // How long a parser (tools/lemon/lempar.c) may go on reducing: only the stack and the automaton count here, the rule of
  // every reduce is free to choose, at each step anew.

  import opened Grammars
  import opened FirstSets
  import opened Driver
  import opened LrTheory
  import opened Termination

  /** Rule `r` is complete in the state on top of `s`; reducing by it gives `s'`. */
  ghost predicate MayReduce(g: Grammar, a: Automaton, s: seq<Entry>, r: nat, s': seq<Entry>) {
    && Path(a, s) && r < |g.rules| && Has(a, TopState(s), Final(g, r)) && |g.rules[r].rhs| < |s|
    && exists q: nat :: Becomes(g, a, s, r, q, s')
  }

  ghost predicate Becomes(g: Grammar, a: Automaton, s: seq<Entry>, r: nat, q: nat, s': seq<Entry>)
    requires r < |g.rules| && |g.rules[r].rhs| < |s|
  {
    var under, c := s[..|s| - |g.rules[r].rhs|], g.rules[r].lhs;
    Moves(a, TopState(under), c, q) && q < |a.items| && s' == under + [Entry(Shift(q), c)]
  }

  /** Reducing by the rules `ch(i)`, `ch(i + 1)` and so on, `n` of them. */
  ghost predicate Steps(g: Grammar, a: Automaton, ch: nat -> nat, i: nat, s: seq<Entry>, s': seq<Entry>, n: nat)
    decreases n
  {
    if n == 0 then s' == s else exists m :: MayReduce(g, a, s, ch(i), m) && Steps(g, a, ch, i + 1, m, s', n - 1)
  }

  ghost predicate StopsAt(g: Grammar, a: Automaton, ch: nat -> nat, i: nat, s: seq<Entry>, s': seq<Entry>, n: nat) {
    Steps(g, a, ch, i, s, s', n) && MayNot(g, a, s', ch(i + n))
  }

  ghost predicate MayNot(g: Grammar, a: Automaton, s: seq<Entry>, r: nat) {
    forall t :: !MayReduce(g, a, s, r, t)
  }

  /** The choice comes to a rule that may not be reduced by. */
  ghost predicate Stops(g: Grammar, a: Automaton, ch: nat -> nat, i: nat, s: seq<Entry>) {
    exists s', n: nat :: StopsAt(g, a, ch, i, s, s', n)
  }

  lemma {:induction false} StepsMore(g: Grammar, a: Automaton, ch: nat -> nat, i: nat, s: seq<Entry>, m: seq<Entry>, n: nat,
                                     s': seq<Entry>, k: nat)
    requires Steps(g, a, ch, i, s, m, n) && Steps(g, a, ch, i + n, m, s', k)
    ensures Steps(g, a, ch, i, s, s', n + k)
    decreases n
  {
    hide MayReduce;
    if n > 0 {
      var m1 :| MayReduce(g, a, s, ch(i), m1) && Steps(g, a, ch, i + 1, m1, m, n - 1);
      StepsMore(g, a, ch, i + 1, m1, m, n - 1, s', k);
    }
  }

  lemma StepsOnce(g: Grammar, a: Automaton, ch: nat -> nat, i: nat, s: seq<Entry>, m: seq<Entry>, n: nat, s': seq<Entry>)
    requires Steps(g, a, ch, i, s, m, n) && MayReduce(g, a, m, ch(i + n), s')
    ensures Steps(g, a, ch, i, s, s', n + 1)
  {
    hide MayReduce;
    assert Steps(g, a, ch, i + n + 1, s', s', 0);
    assert Steps(g, a, ch, i + n, m, s', 1);
    StepsMore(g, a, ch, i, s, m, n, s', 1);
  }

  lemma StepsToStop(g: Grammar, a: Automaton, ch: nat -> nat, i: nat, s: seq<Entry>, m: seq<Entry>, n: nat)
    requires Steps(g, a, ch, i, s, m, n) && Stops(g, a, ch, i + n, m)
    ensures Stops(g, a, ch, i, s)
  {
    hide MayReduce, Steps;
    var s', k: nat :| StopsAt(g, a, ch, i + n, m, s', k);
    StepsMore(g, a, ch, i, s, m, n, s', k);
    assert i + n + k == i + (n + k);
    assert StopsAt(g, a, ch, i, s, s', n + k);
  }

  /** A reduce replaces the right-hand side, which is on top of the stack. */
  lemma MayReplace(g: Grammar, a: Automaton, s: seq<Entry>, r: nat, s': seq<Entry>)
    requires Lr0(g, a) && MayReduce(g, a, s, r, s')
    ensures Replaced(a, s, s', |g.rules[r].rhs|, g.rules[r].lhs)
    ensures Spells(Majors(s[|s| - |g.rules[r].rhs|..]), g.rules[r].rhs)
  {
    hide Lr0, Path, Majors, Moves;
    var k, c := |g.rules[r].rhs|, g.rules[r].lhs;
    var under := s[..|s| - k];
    Handle(g, a, s, Final(g, r));
    assert g.rules[r].rhs[..k] == g.rules[r].rhs;
    PathPrefix(a, s, |s| - k);
    var q: nat :| Becomes(g, a, s, r, q, s');
    PathPush(a, under, q, c);
    assert s'[..|s| - k] == under && s'[|s| - k] == Entry(Shift(q), c);
  }

  lemma CompleteThere(g: Grammar, a: Automaton, s: seq<Entry>, r: nat, t: seq<Entry>)
    requires MayReduce(g, a, s, r, t)
    ensures Path(a, s) && r < |g.rules| && Has(a, TopState(s), Final(g, r)) && |g.rules[r].rhs| < |s|
  {
  }

  // ----- where nothing comes back, every choice stops

  ghost predicate Calm(g: Grammar, a: Automaton) {
    WfGrammar(g) && Lr0(g, a) && LeastItems(g, a) && Loopless(g)
  }

  /** The choice has come to `m`, with more symbols that vanish on the stack, and to a rule that takes away more than those. */
  ghost predicate Leaves(g: Grammar, a: Automaton, ch: nat -> nat, i: nat, s: seq<Entry>, m: seq<Entry>, n: nat, t: seq<Entry>) {
    && Steps(g, a, ch, i, s, m, n) && MayReduce(g, a, m, ch(i + n), t)
    && |s| <= |m| && m[..|s|] == s && VanishFrom(g, m, |s|) && |m| - |s| < |g.rules[ch(i + n)].rhs|
  }

  lemma {:induction false} Climb(g: Grammar, a: Automaton, ch: nat -> nat, i: nat, s: seq<Entry>, base: nat)
    returns (ended: bool, m: seq<Entry>, n: nat, t: seq<Entry>)
    requires Calm(g, a) && Path(a, s) && 0 < base <= |s| && VanishFrom(g, s, base)
    ensures if ended then Stops(g, a, ch, i, s) else Leaves(g, a, ch, i, s, m, n, t)
    decreases Height(g) - (|s| - base), g.nsymbol + 2
  {
    hide Loopless, Lr0, LeastItems, Path, VanishFrom, Height, UnitRank, Nullable, MayReduce;
    HeightBound(g, a, s, base);
    ended, m, n, t := true, s, 0, s;
    NoSteps(g, a, ch, i, s);
    if t0 :| MayReduce(g, a, s, ch(i), t0) {
      NothingAbove(g, s);
      if IsEmpty(g, ch(i)) {
        StepsOnce(g, a, ch, i, s, s, 0, t0);
        Grows(g, a, s, ch(i), t0);
        ended, m, n, t := Chain(g, a, ch, i, s, t0, 1, base);
      } else {
        ended, t := false, t0;
        CompleteThere(g, a, s, ch(i), t0);
      }
    } else {
      assert StopsAt(g, a, ch, i, s, s, 0);
    }
  }

  lemma NoSteps(g: Grammar, a: Automaton, ch: nat -> nat, i: nat, s: seq<Entry>)
    ensures Steps(g, a, ch, i, s, s, 0)
  {
  }

  predicate IsEmpty(g: Grammar, r: nat) {
    r < |g.rules| && g.rules[r].rhs == []
  }

  lemma Grows(g: Grammar, a: Automaton, s: seq<Entry>, r: nat, t: seq<Entry>)
    requires Lr0(g, a) && MayReduce(g, a, s, r, t) && IsEmpty(g, r)
    ensures Path(a, t) && |t| == |s| + 1 && t[..|s|] == s && Nullable(g, t[|s|].major)
  {
    hide Path, Lr0, MayReduce;
    MayReplace(g, a, s, r, t);
    EmptyVanishes(g, r);
    assert s[..|s|] == s;
  }

  /** ... from where one more symbol is on the stack: it may be replaced by others, of higher and higher rank. */
  lemma {:induction false} Chain(g: Grammar, a: Automaton, ch: nat -> nat, i: nat, s: seq<Entry>, s1: seq<Entry>, n1: nat, base: nat)
    returns (ended: bool, m: seq<Entry>, n: nat, t: seq<Entry>)
    requires Calm(g, a) && 0 < base <= |s| && VanishFrom(g, s, base)
    requires Steps(g, a, ch, i, s, s1, n1) && Path(a, s1) && |s1| == |s| + 1 && s1[..|s|] == s && Nullable(g, s1[|s|].major)
    ensures if ended then Stops(g, a, ch, i, s) else Leaves(g, a, ch, i, s, m, n, t)
    decreases Height(g) - (|s| - base), g.nsymbol + 1 - UnitRank(g, s1[|s|].major)
  {
    hide Loopless, Lr0, LeastItems, Path, Height, UnitRank, Nullable, MayReduce, Steps, Stops;
    var h, c := |s|, s1[|s|].major;
    assert VanishFrom(g, s1, base) by {
      forall k | base <= k < |s1| ensures Nullable(g, s1[k].major) {
        assert k < h ==> s1[k] == s[k];
      }
    }
    HeightBound(g, a, s1, base);
    UnitRankBound(g, c);
    ended, m, n, t := Climb(g, a, ch, i + n1, s1, base);
    if ended {
      StepsToStop(g, a, ch, i, s, s1, n1);
    } else {
      var r := ch(i + n1 + n);
      StepsMore(g, a, ch, i, s, s1, n1, m, n);
      n := n1 + n;
      assert i + n == i + n1 + (n - n1);
      assert m[..h] == m[..h + 1][..h] == s;
      assert m[h] == m[..h + 1][h] == s1[h];
      assert VanishFrom(g, m, h);
      CompleteThere(g, a, m, r, t);
      if |g.rules[r].rhs| == |m| - h {
        StepsOnce(g, a, ch, i, s, m, n, t);
        MayReplace(g, a, m, r, t);
        UnitHandle(g, a, m, r);
        UnitRankBound(g, g.rules[r].lhs);
        assert t[..h] == m[..h];
        ended, m, n, t := Chain(g, a, ch, i, s, t, n + 1, base);
      }
    }
  }

  /** Where nothing comes back, every choice stops, from every stack. */
  lemma {:induction false} EveryChoiceStops(g: Grammar, a: Automaton, ch: nat -> nat, i: nat, s: seq<Entry>)
    requires Calm(g, a) && Path(a, s)
    ensures Stops(g, a, ch, i, s)
    decreases |s|, g.nsymbol + 1 - UnitRank(g, if s == [] then 0 else s[|s| - 1].major)
  {
    hide Loopless, Lr0, LeastItems, Height, UnitRank, Nullable, MayReduce, Steps, Stops;
    var h := |s|;
    PathEnds(a, s);
    NothingAbove(g, s);
    hide Path;
    var ended, m, n, t := Climb(g, a, ch, i, s, h);
    if !ended {
      var r := ch(i + n);
      StepsOnce(g, a, ch, i, s, m, n, t);
      MayReplace(g, a, m, r, t);
      CompleteThere(g, a, m, r, t);
      var k := |g.rules[r].rhs|;
      if k == |m| - h + 1 {
        assert VanishFrom(g, m, |m| - k + 1);
        UnitHandle(g, a, m, r);
        assert m[h - 1] == m[..h][h - 1];
        UnitRankBound(g, g.rules[r].lhs);
      }
      EveryChoiceStops(g, a, ch, i + n + 1, t);
      StepsToStop(g, a, ch, i, s, t, n + 1);
    }
  }

  // ----- a table makes such choices

  lemma OneMove(g: Grammar, a: Automaton, q: nat, c: nat, q1: nat, q2: nat)
    requires WfGrammar(g) && Lr0(g, a) && g.nterminal <= c && Moves(a, q, c, q1) && Moves(a, q, c, q2)
    ensures q1 == q2
  {
    var x :| Goes(a, q, x, q1) && Fits(c, x);
    var y :| Goes(a, q, y, q2) && Fits(c, y);
    GoesOverIt(g, a, q, x, q1, c);
    GoesOverIt(g, a, q, y, q2, c);
  }

  lemma GoesOverIt(g: Grammar, a: Automaton, q: nat, x: Symbol, q': nat, c: nat)
    requires WfGrammar(g) && Lr0(g, a) && Goes(a, q, x, q') && Fits(c, x) && g.nterminal <= c
    ensures x == Sym(c)
  {
    assert TightAt(g, a, q, x, q');
    var it :| Has(a, q, it) && Shiftable(g, it) && After(g, it) == x;
    FitsItself(g, it.rule, it.dot, c);
  }

  lemma OneResult(g: Grammar, a: Automaton, s: seq<Entry>, r: nat, s1: seq<Entry>, s2: seq<Entry>)
    requires WfGrammar(g) && Lr0(g, a) && MayReduce(g, a, s, r, s1) && MayReduce(g, a, s, r, s2)
    ensures s1 == s2
  {
    hide Lr0, Path, Moves;
    var q1: nat :| Becomes(g, a, s, r, q1, s1);
    var q2: nat :| Becomes(g, a, s, r, q2, s2);
    assert WfRule(g, g.rules[r]);
    OneMove(g, a, TopState(s[..|s| - |g.rules[r].rhs|]), g.rules[r].lhs, q1, q2);
  }

  /** A loop that does not end reduces, and does not end after that. */
  lemma StepIsMay(g: Grammar, a: Automaton, tb: Table, p: Parser, tok: nat) returns (r: nat, p': Parser)
    requires Allowed(g, a, tb) && tok < g.nterminal && Path(a, p.stack) && !Ends(g, tb, p, tok)
    ensures NextRule(tb, p.stack, tok) == r && LoopStep(g, tb, p, tok) == Again(p') && MayReduce(g, a, p.stack, r, p'.stack)
    ensures Path(a, p'.stack) && !Ends(g, tb, p', tok)
  {
    hide Lr0, SoundTable, Ends, StartIsFresh;
    PathEnds(a, p.stack);
    SoundHere(g, a, tb, TopState(p.stack), tok);
    if !NextAct(tb, p.stack, tok).Reduce? {
      EndsNow(g, tb, p, tok);
    }
    r := NextAct(tb, p.stack, tok).rule;
    p' := ReduceOnce(g, a, tb, p, tok, r);
    assert Reduces(g, tb, p', tok, p', 0);
    assert Reduces(g, tb, p, tok, p', 1);
    if Ends(g, tb, p', tok) {
      ReducesToEnd(g, tb, p, tok, p', 1);
    }
    hide LoopStep, Reduces, NextAct;
    var under := p.stack[..|p.stack| - |g.rules[r].rhs|];
    assert p'.stack[..|p'.stack| - 1] == under;
    assert Becomes(g, a, p.stack, r, p'.stack[|under|].act.state, p'.stack);
  }

  function NextRule(tb: Table, stack: seq<Entry>, tok: nat): nat {
    if stack != [] && NextAct(tb, stack, tok).Reduce? then NextAct(tb, stack, tok).rule else 0
  }

  /** The parser after `n` passes through the loop. */
  function Later(g: Grammar, tb: Table, p: Parser, tok: nat, n: nat): Parser
    decreases n
  {
    if n == 0 || !LoopStep(g, tb, p, tok).Again? then p else Later(g, tb, LoopStep(g, tb, p, tok).p, tok, n - 1)
  }

  function ChoiceOf(g: Grammar, tb: Table, p: Parser, tok: nat): nat -> nat {
    n => NextRule(tb, Later(g, tb, p, tok, n).stack, tok)
  }

  /** A choice that does as the table does comes to no rule that may not be reduced by, if the loop does not end. */
  lemma {:induction false} NeverMayNot(g: Grammar, a: Automaton, tb: Table, p: Parser, tok: nat, ch: nat -> nat, i: nat, s': seq<Entry>, n: nat)
    requires Allowed(g, a, tb) && tok < g.nterminal && Path(a, p.stack) && !Ends(g, tb, p, tok)
    requires forall k: nat :: ch(i + k) == ChoiceOf(g, tb, p, tok)(k)
    ensures !StopsAt(g, a, ch, i, p.stack, s', n)
    decreases n
  {
    hide Lr0, SoundTable, Ends, MayReduce, LoopStep, NextRule, StartIsFresh, Path;
    var r, p' := StepIsMay(g, a, tb, p, tok);
    assert ch(i + 0) == ChoiceOf(g, tb, p, tok)(0) == r;
    if n > 0 && Steps(g, a, ch, i, p.stack, s', n) {
      var m :| MayReduce(g, a, p.stack, ch(i), m) && Steps(g, a, ch, i + 1, m, s', n - 1);
      OneResult(g, a, p.stack, r, m, p'.stack);
      forall k: nat ensures ch(i + 1 + k) == ChoiceOf(g, tb, p', tok)(k) {
        assert ch(i + (k + 1)) == ChoiceOf(g, tb, p, tok)(k + 1);
      }
      NeverMayNot(g, a, tb, p', tok, ch, i + 1, s', n - 1);
      assert i + 1 + (n - 1) == i + n;
    }
  }

  /** With a table that does what the automaton allows, for a grammar where nothing comes back, the loop comes to an end
      on every token, conflicts or not. */
  lemma LoopEnds(g: Grammar, a: Automaton, tb: Table, p: Parser, tok: nat)
    requires Tame(g, a, tb) && tok < g.nterminal && Path(a, p.stack)
    ensures Ends(g, tb, p, tok)
  {
    hide Lr0, SoundTable, Ends, Loopless, LeastItems, Path, StopsAt, ChoiceOf;
    if !Ends(g, tb, p, tok) {
      var ch := ChoiceOf(g, tb, p, tok);
      EveryChoiceStops(g, a, ch, 0, p.stack);
      var s', n: nat :| StopsAt(g, a, ch, 0, p.stack, s', n);
      NeverMayNot(g, a, tb, p, tok, ch, 0, s', n);
    }
  }
}
