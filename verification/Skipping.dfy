/** Skipping unit rules keeps the meaning. */
module Skipping {
  // One step of the parser with the shorter gotos is one or more of the parser without; the rules skipped have no code.

  import opened Grammars
  import opened Driver
  import opened Termination
  import opened UnitRules

  /** A history without its unit rules that have no code. */
  function Coded(g: Grammar, noCode: seq<bool>, trail: seq<nat>): seq<nat> {
    if trail == [] then []
    else if Idle(g, noCode, trail[0]) then Coded(g, noCode, trail[1..])
    else [trail[0]] + Coded(g, noCode, trail[1..])
  }

  lemma CodedCons(g: Grammar, noCode: seq<bool>, r: nat, trail: seq<nat>)
    ensures Coded(g, noCode, [r] + trail) == (if Idle(g, noCode, r) then [] else [r]) + Coded(g, noCode, trail)
  {
    assert ([r] + trail)[1..] == trail;
  }

  /** The parsers agree but for the symbols on their stacks and for the rules without code in their histories. */
  ghost predicate SameRun(g: Grammar, noCode: seq<bool>, p: Parser, p': Parser) {
    && |p.stack| == |p'.stack| && (forall i :: 0 <= i < |p.stack| ==> p.stack[i].act == p'.stack[i].act)
    && (p.stack != [] ==> p.stack[0] == p'.stack[0])
    && p.shifted == p'.shifted && p.errors == p'.errors && Coded(g, noCode, p.trail) == Coded(g, noCode, p'.trail)
  }

  /** Reducing by rules to be skipped, one after the other, over the state `q`. */
  lemma {:induction false} ChainRun(g: Grammar, noCode: seq<bool>, tb: Table, p: Parser, tok: nat, q: nat, c: nat, d: nat, n: nat)
    returns (p': Parser)
    requires Skips(g, noCode, tb, q, c, d, n) && |p.stack| > 1 && p.stack[|p.stack| - 2].act == Shift(q)
    requires p.stack[|p.stack| - 1].act == Lookup(tb, q, c)
    requires !Lookup(tb, q, d).Error? && !Lookup(tb, q, d).ShiftReduce?
    ensures Reduces(g, tb, p, tok, p', n) && |p'.stack| == |p.stack| && p'.stack[..|p.stack| - 1] == p.stack[..|p.stack| - 1]
    ensures p'.stack[|p.stack| - 1].act == Lookup(tb, q, d)
    ensures p'.shifted == p.shifted && p'.errors == p.errors && Coded(g, noCode, p'.trail) == Coded(g, noCode, p.trail)
    decreases n
  {
    if n == 0 {
      p' := p;
    } else {
      var k, r := |p.stack| - 1, Lookup(tb, q, c).rule;
      var e := g.rules[r].lhs;
      var under := p.stack[..k];
      assert under[k - 1].act == Shift(q);
      var m := p.(stack := under + [Entry(Lookup(tb, q, e), e)], trail := [r] + p.trail);
      assert ReduceStep(g, tb, p, r) == Again(m) && LoopStep(g, tb, p, tok) == Again(m);
      CodedCons(g, noCode, r, p.trail);
      assert m.stack[..k] == under;
      p' := ChainRun(g, noCode, tb, m, tok, q, e, d, n - 1);
    }
  }

  ghost predicate SameEnd(g: Grammar, noCode: seq<bool>, o: Outcome, o': Outcome) {
    match (o, o')
    case (Consumed(p), Consumed(p')) => SameRun(g, noCode, p, p')
    case (Accepted(p), Accepted(p')) => SameRun(g, noCode, p, p')
    case (Failed(p), Failed(p')) => SameRun(g, noCode, p, p')
    case _ => false
  }

  /** The stack under the handle, and the state whose goto comes next. */
  lemma Under(g: Grammar, noCode: seq<bool>, p: Parser, p': Parser, r: nat)
    requires SameRun(g, noCode, p, p') && r < |g.rules| && |g.rules[r].rhs| < |p.stack|
    ensures var l := |p.stack| - |g.rules[r].rhs|; p.stack[..l][l - 1].act == p'.stack[..l][l - 1].act
  {
  }

  /** A reduce and the skipped rules after it. */
  lemma ReduceSkips(g: Grammar, noCode: seq<bool>, n: nat, tb: Table, tb': Table, p: Parser, p': Parser, r: nat, tok: nat)
    returns (m: Parser, k: nat)
    requires WithoutUnits(g, noCode, n, tb, tb') && SameRun(g, noCode, p, p') && p.stack != [] && NextAct(tb, p.stack, tok) == Reduce(r)
    requires ReduceStep(g, tb', p', r).Again?
    ensures k > 0 && Reduces(g, tb, p, tok, m, k) && SameRun(g, noCode, m, ReduceStep(g, tb', p', r).p)
  {
    hide Coded, SameRun, Skips;
    SameSize(g, noCode, p, p');
    Under(g, noCode, p, p', r);
    var l := |p.stack| - |g.rules[r].rhs|;
    var under := p.stack[..l];
    var q, c := under[l - 1].act.state, g.rules[r].lhs;
    var d, j := GotoSkips(g, noCode, n, tb, tb', q, c);
    var p1 := p.(stack := under + [Entry(Lookup(tb, q, c), c)], trail := [r] + p.trail);
    assert ReduceStep(g, tb, p, r) == Again(p1);
    assert p1.stack[..l] == under && p1.stack[l - 1] == under[l - 1];
    m := ChainRun(g, noCode, tb, p1, tok, q, c, d, j);
    k := j + 1;
    CodedCons(g, noCode, r, p.trail);
    CodedCons(g, noCode, r, p'.trail);
    AfterReduce(g, noCode, p, p', m, ReduceStep(g, tb', p', r).p, l);
  }

  lemma SameSize(g: Grammar, noCode: seq<bool>, p: Parser, p': Parser)
    requires SameRun(g, noCode, p, p')
    ensures |p.stack| == |p'.stack| && p.shifted == p'.shifted && p.errors == p'.errors && Coded(g, noCode, p.trail) == Coded(g, noCode, p'.trail)
  {
  }

  lemma GotoSkips(g: Grammar, noCode: seq<bool>, n: nat, tb: Table, tb': Table, q: nat, c: nat) returns (d: nat, j: nat)
    requires WithoutUnits(g, noCode, n, tb, tb') && (!Lookup(tb, q, c).Error? || !Lookup(tb', q, c).Error?)
    ensures Skips(g, noCode, tb, q, c, d, j) && Lookup(tb', q, c) == Lookup(tb, q, d)
    ensures (j == 0 ==> c == d) && (j > 0 ==> Lookup(tb, q, c).Reduce?)
  {
    assert q < n;
    assert SkipsTo(g, noCode, tb, tb', q, c);
    d, j :| Skips(g, noCode, tb, q, c, d, j) && Lookup(tb', q, c) == Lookup(tb, q, d);
    FirstSkip(g, noCode, tb, q, c, d, j);
  }

  lemma FirstSkip(g: Grammar, noCode: seq<bool>, tb: Table, q: nat, c: nat, d: nat, n: nat)
    requires Skips(g, noCode, tb, q, c, d, n)
    ensures n == 0 ==> c == d
    ensures n > 0 ==> Lookup(tb, q, c).Reduce?
  {
  }

  lemma AfterReduce(g: Grammar, noCode: seq<bool>, p: Parser, p': Parser, m: Parser, m': Parser, l: nat)
    requires SameRun(g, noCode, p, p') && 0 < l <= |p.stack| && |m.stack| == |m'.stack| == l + 1
    requires m.stack[..l] == p.stack[..l] && m'.stack[..l] == p'.stack[..l] && m.stack[l].act == m'.stack[l].act
    requires m.shifted == m'.shifted && m.errors == m'.errors && Coded(g, noCode, m.trail) == Coded(g, noCode, m'.trail)
    ensures SameRun(g, noCode, m, m')
  {
    forall i | 0 <= i < |m.stack| ensures m.stack[i].act == m'.stack[i].act {
      if i < l {
        assert m.stack[i] == m.stack[..l][i] && m'.stack[i] == m'.stack[..l][i];
      }
    }
    assert m.stack[0] == m.stack[..l][0] && m'.stack[0] == m'.stack[..l][0];
  }

  lemma AgainOrStuck(g: Grammar, tb: Table, p: Parser, r: nat)
    ensures ReduceStep(g, tb, p, r).Again? || ReduceStep(g, tb, p, r).Stuck?
  {
  }

  // ----- if one is stuck, so is the other

  ghost predicate GetsStuck(g: Grammar, tb: Table, p: Parser, tok: nat) {
    exists m, k: nat :: Reduces(g, tb, p, tok, m, k) && LoopStep(g, tb, m, tok).Stuck?
  }

  lemma StuckNow(g: Grammar, tb: Table, p: Parser, tok: nat)
    requires LoopStep(g, tb, p, tok).Stuck?
    ensures GetsStuck(g, tb, p, tok)
  {
    assert Reduces(g, tb, p, tok, p, 0);
  }

  lemma StuckSoon(g: Grammar, tb: Table, p: Parser, tok: nat)
    requires LoopStep(g, tb, p, tok).Again? && GetsStuck(g, tb, LoopStep(g, tb, p, tok).p, tok)
    ensures GetsStuck(g, tb, p, tok)
  {
    var s := LoopStep(g, tb, p, tok).p;
    var m, k: nat :| Reduces(g, tb, s, tok, m, k) && LoopStep(g, tb, m, tok).Stuck?;
    assert Reduces(g, tb, p, tok, m, k + 1);
  }

  lemma {:induction false} ChainStuck(g: Grammar, noCode: seq<bool>, tb: Table, p: Parser, tok: nat, q: nat, c: nat, d: nat, n: nat)
    requires Skips(g, noCode, tb, q, c, d, n) && n > 0 && |p.stack| > 1 && p.stack[|p.stack| - 2].act == Shift(q)
    requires p.stack[|p.stack| - 1].act == Lookup(tb, q, c) && (Lookup(tb, q, d).Error? || Lookup(tb, q, d).ShiftReduce?)
    ensures GetsStuck(g, tb, p, tok)
    decreases n
  {
    var k, r := |p.stack| - 1, Lookup(tb, q, c).rule;
    var e := g.rules[r].lhs;
    var under := p.stack[..k];
    assert under[k - 1].act == Shift(q);
    if n == 1 {
      StuckNow(g, tb, p, tok);
    } else {
      var m := p.(stack := under + [Entry(Lookup(tb, q, e), e)], trail := [r] + p.trail);
      assert ReduceStep(g, tb, p, r) == Again(m) && LoopStep(g, tb, p, tok) == Again(m);
      assert m.stack[..k] == under;
      ChainStuck(g, noCode, tb, m, tok, q, e, d, n - 1);
      StuckSoon(g, tb, p, tok);
    }
  }

  lemma ReduceStuck(g: Grammar, noCode: seq<bool>, n: nat, tb: Table, tb': Table, p: Parser, p': Parser, r: nat, tok: nat)
    requires WithoutUnits(g, noCode, n, tb, tb') && SameRun(g, noCode, p, p') && p.stack != [] && NextAct(tb, p.stack, tok) == Reduce(r)
    requires ReduceStep(g, tb', p', r).Stuck?
    ensures GetsStuck(g, tb, p, tok)
  {
    hide Coded, SameRun, Skips, GetsStuck;
    SameSize(g, noCode, p, p');
    if ReduceStep(g, tb, p, r).Stuck? {
      StuckNow(g, tb, p, tok);
    } else {
      Under(g, noCode, p, p', r);
      var l := |p.stack| - |g.rules[r].rhs|;
      var under := p.stack[..l];
      var q, c := under[l - 1].act.state, g.rules[r].lhs;
      var d, j := GotoSkips(g, noCode, n, tb, tb', q, c);
      var p1 := p.(stack := under + [Entry(Lookup(tb, q, c), c)], trail := [r] + p.trail);
      assert ReduceStep(g, tb, p, r) == Again(p1);
      assert p1.stack[..l] == under && p1.stack[l - 1] == under[l - 1];
      ChainStuck(g, noCode, tb, p1, tok, q, c, d, j);
      StuckSoon(g, tb, p, tok);
    }
  }

  lemma StepStuck(g: Grammar, noCode: seq<bool>, n: nat, tb: Table, tb': Table, p: Parser, p': Parser, tok: nat)
    requires WithoutUnits(g, noCode, n, tb, tb') && SameRun(g, noCode, p, p') && tok < g.nterminal
    requires LoopStep(g, tb', p', tok).Stuck?
    ensures GetsStuck(g, tb, p, tok)
  {
    hide ReduceStep, Coded, WithoutUnits, Reduces, GetsStuck;
    if p.stack == [] {
      StuckNow(g, tb, p, tok);
    } else {
      NextSame(g, noCode, n, tb, tb', p, p', tok);
      var act := NextAct(tb, p.stack, tok);
      if act.Reduce? {
        ReduceStuck(g, noCode, n, tb, tb', p, p', act.rule, tok);
      }
    }
  }

  lemma NextSame(g: Grammar, noCode: seq<bool>, n: nat, tb: Table, tb': Table, p: Parser, p': Parser, tok: nat)
    requires WithoutUnits(g, noCode, n, tb, tb') && SameRun(g, noCode, p, p') && p.stack != [] && tok < g.nterminal
    ensures NextAct(tb, p.stack, tok) == NextAct(tb', p'.stack, tok)
  {
    var top := p.stack[|p.stack| - 1].act;
    if top.Shift? && top.state < n {
      assert Lookup(tb', top.state, tok) == Lookup(tb, top.state, tok);
    }
  }

  /** One step of the parser with the shorter gotos, if it is not stuck. */
  lemma StepSkips(g: Grammar, noCode: seq<bool>, n: nat, tb: Table, tb': Table, p: Parser, p': Parser, tok: nat)
    returns (m: Parser, k: nat)
    requires WithoutUnits(g, noCode, n, tb, tb') && SameRun(g, noCode, p, p') && tok < g.nterminal
    requires !LoopStep(g, tb', p', tok).Stuck?
    ensures var o' := LoopStep(g, tb', p', tok);
      if o'.Again? then k > 0 && Reduces(g, tb, p, tok, m, k) && SameRun(g, noCode, m, o'.p)
      else SameEnd(g, noCode, LoopStep(g, tb, p, tok), o')
  {
    hide ReduceStep, Coded, WithoutUnits, Reduces;
    m, k := p, 0;
    NextSame(g, noCode, n, tb, tb', p, p', tok);
    var act := NextAct(tb, p.stack, tok);
    if act.Reduce? {
      AgainOrStuck(g, tb', p', act.rule);
      m, k := ReduceSkips(g, noCode, n, tb, tb', p, p', act.rule, tok);
    }
  }

  // ----- whole streams

  ghost predicate NeverStuck(g: Grammar, tb: Table, c: Config) {
    forall j: nat :: Run(g, tb, c, j) != Halted(Stuck)
  }

  lemma StuckRun(g: Grammar, tb: Table, p: Parser, rest: seq<nat>)
    requires GetsStuck(g, tb, p, Ahead(rest))
    ensures !NeverStuck(g, tb, Running(p, rest))
  {
    var m, k: nat :| Reduces(g, tb, p, Ahead(rest), m, k) && LoopStep(g, tb, m, Ahead(rest)).Stuck?;
    ReducesRun(g, tb, p, rest, m, k);
    RunPlus(g, tb, Running(p, rest), k, 1);
    assert Run(g, tb, Running(m, rest), 1) == StreamStep(g, tb, Running(m, rest));
  }

  lemma StillNeverStuck(g: Grammar, tb: Table, c: Config, k: nat)
    requires NeverStuck(g, tb, c)
    ensures NeverStuck(g, tb, Run(g, tb, c, k))
  {
    forall j: nat ensures Run(g, tb, Run(g, tb, c, k), j) != Halted(Stuck) {
      RunPlus(g, tb, c, k, j);
    }
  }

  ghost predicate SameConfig(g: Grammar, noCode: seq<bool>, c: Config, c': Config) {
    match (c, c')
    case (Running(p, rest), Running(p', rest')) => SameRun(g, noCode, p, p') && rest == rest' && AllTokens(g, rest)
    case (Halted(o), Halted(o')) => SameEnd(g, noCode, o, o')
    case _ => false
  }

  /** One step of the stream, and the steps it stands for. */
  lemma StreamSkips(g: Grammar, noCode: seq<bool>, n: nat, tb: Table, tb': Table, c: Config, c': Config) returns (k: nat)
    requires WithoutUnits(g, noCode, n, tb, tb') && SameConfig(g, noCode, c, c') && c.Running? && NeverStuck(g, tb, c) && 0 < g.nterminal
    ensures k > 0 && SameConfig(g, noCode, Run(g, tb, c, k), StreamStep(g, tb', c'))
  {
    hide WithoutUnits, SameRun, LoopStep, Reduces;
    var tok := Ahead(c.rest);
    k := 1;
    if LoopStep(g, tb', c'.p, tok).Stuck? {
      StepStuck(g, noCode, n, tb, tb', c.p, c'.p, tok);
      StuckRun(g, tb, c.p, c.rest);
    } else {
      var m, j := StepSkips(g, noCode, n, tb, tb', c.p, c'.p, tok);
      if LoopStep(g, tb', c'.p, tok).Again? {
        ReducesRun(g, tb, c.p, c.rest, m, j);
        k := j;
      } else {
        assert Run(g, tb, c, 1) == StreamStep(g, tb, c);
        assert Run(g, tb, c, 1) != Halted(Stuck);
      }
    }
  }

  /** The run with the shorter gotos: after `k` steps it is where the other one is after as many or more. */
  lemma {:induction false} RunSkips(g: Grammar, noCode: seq<bool>, n: nat, tb: Table, tb': Table, c: Config, c': Config, k: nat)
    returns (m: nat)
    requires WithoutUnits(g, noCode, n, tb, tb') && SameConfig(g, noCode, c, c') && NeverStuck(g, tb, c) && 0 < g.nterminal
    ensures SameConfig(g, noCode, Run(g, tb, c, m), Run(g, tb', c', k)) && (Run(g, tb', c', k).Running? ==> m >= k)
    decreases k
  {
    hide WithoutUnits, SameConfig, NeverStuck, StreamStep;
    if k == 0 {
      m := 0;
    } else if c.Halted? {
      SameKind(g, noCode, c, c');
      StaysHalted(g, tb', c', k);
      m := 0;
    } else {
      var j := StreamSkips(g, noCode, n, tb, tb', c, c');
      StillNeverStuck(g, tb, c, j);
      var l := RunSkips(g, noCode, n, tb, tb', Run(g, tb, c, j), StreamStep(g, tb', c'), k - 1);
      RunPlus(g, tb, c, j, l);
      m := j + l;
    }
  }

  lemma SameKind(g: Grammar, noCode: seq<bool>, c: Config, c': Config)
    requires SameConfig(g, noCode, c, c')
    ensures c.Halted? <==> c'.Halted?
    ensures c.Halted? ==> SameEnd(g, noCode, c.outcome, c'.outcome)
  {
  }

  lemma FreshSame(g: Grammar, noCode: seq<bool>, w: seq<nat>)
    requires AllTokens(g, w)
    ensures SameConfig(g, noCode, Running(Fresh, w), Running(Fresh, w))
  {
  }

  /** Where one of the two comes to an end, so does the other, and in the same way. */
  lemma EndsAlike(g: Grammar, noCode: seq<bool>, n: nat, tb: Table, tb': Table, w: seq<nat>, k: nat) returns (m: nat)
    requires WithoutUnits(g, noCode, n, tb, tb') && NeverStuck(g, tb, Running(Fresh, w)) && 0 < g.nterminal && AllTokens(g, w)
    requires Run(g, tb, Running(Fresh, w), k).Halted? || Run(g, tb', Running(Fresh, w), k).Halted?
    ensures Run(g, tb, Running(Fresh, w), m).Halted? && Run(g, tb', Running(Fresh, w), k).Halted?
    ensures SameEnd(g, noCode, Run(g, tb, Running(Fresh, w), m).outcome, Run(g, tb', Running(Fresh, w), k).outcome)
  {
    hide WithoutUnits, NeverStuck, SameConfig, SameEnd;
    var c := Running(Fresh, w);
    FreshSame(g, noCode, w);
    m := RunSkips(g, noCode, n, tb, tb', c, c, k);
    SameKind(g, noCode, Run(g, tb, c, m), Run(g, tb', c, k));
    if Run(g, tb', c, k).Running? {
      RunPlus(g, tb, c, k, m - k);
      StaysHalted(g, tb, Run(g, tb, c, k), m - k);
    }
  }

  /** Both accept the same streams. */
  lemma AcceptsAlike(g: Grammar, noCode: seq<bool>, n: nat, tb: Table, tb': Table, w: seq<nat>)
    requires WithoutUnits(g, noCode, n, tb, tb') && NeverStuck(g, tb, Running(Fresh, w)) && 0 < g.nterminal && AllTokens(g, w)
    ensures Accepts(g, tb, w) <==> Accepts(g, tb', w)
  {
    hide WithoutUnits, NeverStuck, SameRun;
    var c := Running(Fresh, w);
    if Accepts(g, tb, w) {
      var k: nat :| var d := Run(g, tb, c, k); d.Halted? && d.outcome.Accepted? && d.outcome.p.errors == 0;
      var m := EndsAlike(g, noCode, n, tb, tb', w, k);
      OneEnd(g, tb, c, k, m);
      AcceptedAlike(g, noCode, Run(g, tb, c, m).outcome, Run(g, tb', c, k).outcome);
    }
    if Accepts(g, tb', w) {
      var k: nat :| var d := Run(g, tb', c, k); d.Halted? && d.outcome.Accepted? && d.outcome.p.errors == 0;
      var m := EndsAlike(g, noCode, n, tb, tb', w, k);
      AcceptedAlike(g, noCode, Run(g, tb, c, m).outcome, Run(g, tb', c, k).outcome);
    }
  }

  lemma AcceptedAlike(g: Grammar, noCode: seq<bool>, o: Outcome, o': Outcome)
    requires SameEnd(g, noCode, o, o')
    ensures o.Accepted? && o.p.errors == 0 <==> o'.Accepted? && o'.p.errors == 0
  {
  }

  // ----- one token

  /** Where the loop comes to an end, it does with the shorter gotos. */
  lemma {:induction false} TokenEnds(g: Grammar, noCode: seq<bool>, n: nat, tb: Table, tb': Table, p: Parser, p': Parser, tok: nat,
                                     o: Outcome, k: nat)
    requires WithoutUnits(g, noCode, n, tb, tb') && SameRun(g, noCode, p, p') && tok < g.nterminal && Settles(g, tb, p, tok, o, k)
    ensures Ends(g, tb', p', tok)
    decreases k
  {
    hide WithoutUnits, SameRun, LoopStep;
    var s := LoopStep(g, tb', p', tok);
    if s.Again? {
      var m, j := StepSkips(g, noCode, n, tb, tb', p, p', tok);
      SettlesAfter(g, tb, p, tok, m, j, o, k);
      TokenEnds(g, noCode, n, tb, tb', m, s.p, tok, o, k - j);
      var o', i: nat :| Settles(g, tb', s.p, tok, o', i);
      assert Settles(g, tb', p', tok, o', i + 1);
    } else {
      EndsNow(g, tb', p', tok);
    }
  }
}
