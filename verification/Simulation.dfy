/** Compression keeps the meaning of the tables. */
module Simulation {
  // Defaults keep the tables right, and a parser with SHIFTREDUCE actions runs in lock step with one that shifts to the
  // auto-reduce state and reduces there.

  import opened Grammars
  import opened Driver
  import opened LrTheory
  import opened Conflicts
  import opened ActionLists
  import opened Compress
  import opened Wrappers

  // ----- defaults

  ghost predicate DefaultsFit(g: Grammar, a: Automaton, best: seq<Option<nat>>) {
    |best| == |a.items| && forall q: nat :: q < |best| ==> DefaultFits(g, a, q, best[q])
  }

  ghost predicate DefaultFits(g: Grammar, a: Automaton, q: nat, b: Option<nat>) {
    b.Some? ==> b.value < |g.rules| && Has(a, q, Final(g, b.value)) && g.rules[b.value].lhs != g.start
  }

  lemma UsedDefaultsFit(g: Grammar, a: Automaton, f: Follow, ap: seq<seq<Action>>, best: seq<Option<nat>>)
    requires ListsOk(g, a, f, ap) && DefaultsUsed(g, ap, best)
    ensures DefaultsFit(g, a, best)
  {
    forall q: nat | q < |best| ensures DefaultFits(g, a, q, best[q]) {
      if best[q].Some? {
        assert ListOk(g, a, f, q, ap[q]);
        var x :| x in ap[q] && x.kind.REDUCE? && x.arg == best[q].value;
        var i :| 0 <= i < |ap[q]| && ap[q][i] == x;
        assert Wanted(g, a, f, q, x.sp, x.kind, x.arg);
      }
    }
  }

  /** Defaults keep every action there was, never make a token with none shift, and so keep the table sound... */
  lemma DefaultsSound(g: Grammar, a: Automaton, tb: Table, tb1: Table, best: seq<Option<nat>>)
    requires Lr0(g, a) && SoundTable(g, a, tb) && WithDefaults(g, |a.items|, tb, tb1, best) && DefaultsFit(g, a, best)
    ensures SoundTable(g, a, tb1)
  {
    hide Lr0;
    assert |a.items| == |a.goto| > 0 by {
      StatesThere(g, a);
    }
    forall q: nat, c: nat, q': nat ensures GotoAt(g, a, tb1, q, c, q') {
      assert GotoAt(g, a, tb, q, c, q');
    }
    forall q: nat, c: nat ensures SoundAt(g, a, tb1, q, c) {
      assert SoundAt(g, a, tb, q, c);
      if q < |a.items| {
        assert DefaultFits(g, a, q, best[q]);
      }
    }
  }

  lemma StatesThere(g: Grammar, a: Automaton)
    requires Lr0(g, a)
    ensures |a.items| == |a.goto| > 0
  {
  }

  /** ... and complete. */
  lemma DefaultsComplete(g: Grammar, a: Automaton, f: Follow, tb: Table, tb1: Table, best: seq<Option<nat>>)
    requires Lr0(g, a) && CompleteTable(g, a, f, tb) && WithDefaults(g, |a.items|, tb, tb1, best)
    ensures CompleteTable(g, a, f, tb1)
  {
    hide Lr0;
    assert |a.items| == |a.goto| > 0 by {
      StatesThere(g, a);
    }
    forall q: nat, c: nat, q': nat ensures GotoAt(g, a, tb1, q, c, q') {
      assert GotoAt(g, a, tb, q, c, q');
    }
    forall q: nat, it, q': nat, c: nat ensures ShiftsAt(g, a, tb1, q, it, q', c) {
      assert ShiftsAt(g, a, tb, q, it, q', c);
    }
    forall q: nat, r: nat, c: nat ensures ReducesAt(g, a, f, tb1, q, r, c) {
      assert ReducesAt(g, a, f, tb, q, r, c);
    }
  }

  // ----- SHIFTREDUCE

  /** A pending reduce stands for the auto-reduce state it was shifted to. */
  ghost predicate SameEntry(autos: seq<Option<nat>>, e1: Entry, e2: Entry) {
    && e1.major == e2.major && !e1.act.ShiftReduce?
    && (e1.act == e2.act || (e1.act.Shift? && e1.act.state < |autos| && autos[e1.act.state].Some? && e2.act == Reduce(autos[e1.act.state].value)))
  }

  /** The stacks agree, except that the top one may be pending. */
  ghost predicate SameStack(autos: seq<Option<nat>>, s1: seq<Entry>, s2: seq<Entry>) {
    && |s1| == |s2| > 0 && s1[0] == s2[0]
    && s1[..|s1| - 1] == s2[..|s2| - 1]
    && (forall i :: 0 <= i < |s2| - 1 ==> s2[i].act.Shift?)
    && SameEntry(autos, s1[|s1| - 1], s2[|s2| - 1])
  }

  ghost predicate SameParser(autos: seq<Option<nat>>, p1: Parser, p2: Parser) {
    SameStack(autos, p1.stack, p2.stack) && p1.shifted == p2.shifted && p1.trail == p2.trail && p1.errors == p2.errors
  }

  ghost predicate SameOutcome(autos: seq<Option<nat>>, o1: Outcome, o2: Outcome) {
    match (o1, o2)
    case (Again(p1), Again(p2)) => SameParser(autos, p1, p2)
    case (Consumed(p1), Consumed(p2)) => SameParser(autos, p1, p2)
    case (Accepted(p1), Accepted(p2)) => p1 == p2
    case (Failed(p1), Failed(p2)) => p1 == p2
    case (Stuck, Stuck) => true
    case _ => false
  }

  /** Two tables with the same number of states; auto-reduce states reduce by nonempty rules. */
  ghost predicate Twins(g: Grammar, n: nat, tb1: Table, tb2: Table, autos: seq<Option<nat>>) {
    && WfGrammar(g) && |tb1| == n && WithShiftReduce(g, n, tb1, tb2, autos)
    && (forall q: nat :: q < n && autos[q].Some? ==> autos[q].value < |g.rules| && |g.rules[autos[q].value].rhs| > 0)
    && (forall q: nat, c: nat :: q < n ==> NoOddEntry(tb1, q, c))
  }

  /** Before conversion there is no SHIFTREDUCE, and shifts stay inside the table. */
  ghost predicate NoOddEntry(tb: Table, q: nat, c: nat) {
    var act := Lookup(tb, q, c); !act.ShiftReduce? && (act.Shift? ==> act.state < |tb|)
  }

  lemma LookupTwin(g: Grammar, n: nat, tb1: Table, tb2: Table, autos: seq<Option<nat>>, q: nat, c: nat)
    requires Twins(g, n, tb1, tb2, autos)
    ensures Lookup(tb2, q, c) == Converted(g, autos, c, Lookup(tb1, q, c))
    ensures q < n ==> NoOddEntry(tb1, q, c)
    ensures q >= n ==> Lookup(tb1, q, c) == Error
  {
  }

  /** Both parsers reduce by the same rule: the same stack is uncovered and the gotos correspond. */
  lemma ReduceSame(g: Grammar, n: nat, tb1: Table, tb2: Table, autos: seq<Option<nat>>, p1: Parser, p2: Parser, r: nat)
    requires Twins(g, n, tb1, tb2, autos) && SameParser(autos, p1, p2)
    requires p1.stack == p2.stack || (r < |g.rules| ==> |g.rules[r].rhs| > 0)
    ensures SameOutcome(autos, ReduceStep(g, tb1, p1, r), ReduceStep(g, tb2, p2, r))
  {
    hide Twins;
    if r < |g.rules| && |g.rules[r].rhs| < |p1.stack| {
      var k, c, m := |g.rules[r].rhs|, g.rules[r].lhs, |p1.stack|;
      var under := p1.stack[..m - k];
      assert under == p2.stack[..m - k] by {
        if k > 0 {
          assert p1.stack[..m - 1][..m - k] == p2.stack[..m - 1][..m - k];
          assert p1.stack[..m - 1][..m - k] == p1.stack[..m - k];
          assert p2.stack[..m - 1][..m - k] == p2.stack[..m - k];
        }
      }
      assert g.nterminal <= c by {
        LhsIsNonterminal(g, n, tb1, tb2, autos, r);
      }
      var top := under[|under| - 1].act;
      if top.Shift? {
        LookupTwin(g, n, tb1, tb2, autos, top.state, c);
        var act := Lookup(tb1, top.state, c);
        forall i | 0 <= i < |under| ensures under[i].act.Shift? {
          assert i < m - 1 ==> under[i] == p2.stack[i];
        }
      }
    }
  }

  lemma LhsIsNonterminal(g: Grammar, n: nat, tb1: Table, tb2: Table, autos: seq<Option<nat>>, r: nat)
    requires Twins(g, n, tb1, tb2, autos) && r < |g.rules|
    ensures g.nterminal <= g.rules[r].lhs
  {
    assert WfRule(g, g.rules[r]);
  }

  lemma PendingReduces(g: Grammar, n: nat, tb1: Table, tb2: Table, autos: seq<Option<nat>>, q: nat, tok: nat)
    requires Twins(g, n, tb1, tb2, autos) && q < |autos| && autos[q].Some? && tok < g.nterminal
    ensures Lookup(tb1, q, tok) == Reduce(autos[q].value)
    ensures autos[q].value < |g.rules| && |g.rules[autos[q].value].rhs| > 0
  {
  }

  /** One pass through the driver's loop: the two parsers do the same. */
  lemma StepSame(g: Grammar, n: nat, tb1: Table, tb2: Table, autos: seq<Option<nat>>, p1: Parser, p2: Parser, tok: nat)
    requires Twins(g, n, tb1, tb2, autos) && SameParser(autos, p1, p2) && tok < g.nterminal
    ensures SameOutcome(autos, LoopStep(g, tb1, p1, tok), LoopStep(g, tb2, p2, tok))
  {
    hide Twins, ReduceStep;
    var m := |p1.stack| - 1;
    var t1, t2 := p1.stack[m].act, p2.stack[m].act;
    assert p1.stack == p1.stack[..m] + [p1.stack[m]] && p2.stack == p2.stack[..m] + [p2.stack[m]];
    if t1 != t2 {
      PendingReduces(g, n, tb1, tb2, autos, t1.state, tok);
      ReduceSame(g, n, tb1, tb2, autos, p1, p2, t2.rule);
    } else if t1.Shift? {
      assert p1.stack == p2.stack;
      LookupTwin(g, n, tb1, tb2, autos, t1.state, tok);
      var act := Lookup(tb1, t1.state, tok);
      if act.Reduce? {
        ReduceSame(g, n, tb1, tb2, autos, p1, p2, act.rule);
      } else if act.Shift? {
        assert forall i :: 0 <= i < |p2.stack| ==> p2.stack[i].act.Shift?;
        var e2 := if Lookup(tb2, t1.state, tok).Shift? then Shift(act.state) else Reduce(Lookup(tb2, t1.state, tok).rule);
      }
    } else if t1.Reduce? {
      ReduceSame(g, n, tb1, tb2, autos, p1, p2, t1.rule);
    }
  }

  ghost predicate SameConfig(g: Grammar, autos: seq<Option<nat>>, c1: Config, c2: Config) {
    match (c1, c2)
    case (Running(p1, rest1), Running(p2, rest2)) => SameParser(autos, p1, p2) && rest1 == rest2 && AllTokens(g, rest1)
    case (Halted(o1), Halted(o2)) => SameOutcome(autos, o1, o2)
    case _ => false
  }

  lemma {:induction false} RunSame(g: Grammar, n: nat, tb1: Table, tb2: Table, autos: seq<Option<nat>>, c1: Config, c2: Config, k: nat)
    requires Twins(g, n, tb1, tb2, autos) && SameConfig(g, autos, c1, c2)
    ensures SameConfig(g, autos, Run(g, tb1, c1, k), Run(g, tb2, c2, k))
    decreases k
  {
    hide Twins, LoopStep, SameParser;
    if k > 0 {
      if c1.Running? {
        assert Ahead(c1.rest) < g.nterminal by {
          ZeroIsToken(g, n, tb1, tb2, autos);
        }
        StepSame(g, n, tb1, tb2, autos, c1.p, c2.p, Ahead(c1.rest));
      }
      RunSame(g, n, tb1, tb2, autos, StreamStep(g, tb1, c1), StreamStep(g, tb2, c2), k - 1);
    }
  }

  lemma ZeroIsToken(g: Grammar, n: nat, tb1: Table, tb2: Table, autos: seq<Option<nat>>)
    requires Twins(g, n, tb1, tb2, autos)
    ensures 0 < g.nterminal
  {
  }

  /** The parser with SHIFTREDUCE actions simulates the one without, step for step, on every input. */
  lemma SimulatesStepByStep(g: Grammar, n: nat, tb1: Table, tb2: Table, autos: seq<Option<nat>>, w: seq<nat>, k: nat)
    requires Twins(g, n, tb1, tb2, autos) && AllTokens(g, w)
    ensures SameConfig(g, autos, Run(g, tb1, Running(Fresh, w), k), Run(g, tb2, Running(Fresh, w), k))
  {
    hide Twins;
    assert SameParser(autos, Fresh, Fresh);
    RunSame(g, n, tb1, tb2, autos, Running(Fresh, w), Running(Fresh, w), k);
  }

  lemma AcceptsSame(g: Grammar, n: nat, tb1: Table, tb2: Table, autos: seq<Option<nat>>, w: seq<nat>)
    requires Twins(g, n, tb1, tb2, autos) && AllTokens(g, w)
    ensures Accepts(g, tb1, w) <==> Accepts(g, tb2, w)
  {
    hide Twins;
    forall k: nat ensures SameConfig(g, autos, Run(g, tb1, Running(Fresh, w), k), Run(g, tb2, Running(Fresh, w), k)) {
      SimulatesStepByStep(g, n, tb1, tb2, autos, w, k);
    }
    if Accepts(g, tb1, w) {
      var k: nat :| var c := Run(g, tb1, Running(Fresh, w), k); c.Halted? && c.outcome.Accepted? && c.outcome.p.errors == 0;
      assert SameConfig(g, autos, Run(g, tb1, Running(Fresh, w), k), Run(g, tb2, Running(Fresh, w), k));
    }
    if Accepts(g, tb2, w) {
      var k: nat :| var c := Run(g, tb2, Running(Fresh, w), k); c.Halted? && c.outcome.Accepted? && c.outcome.p.errors == 0;
      assert SameConfig(g, autos, Run(g, tb1, Running(Fresh, w), k), Run(g, tb2, Running(Fresh, w), k));
    }
  }

  // ----- the tables of CompressTables are twins

  /** A state that only reduces does not reduce by an empty rule: the nonterminal would be shifted there. */
  lemma AutoRuleNotEmpty(g: Grammar, a: Automaton, f: Follow, ap: seq<seq<Action>>, q: nat, r: nat)
    requires WfGrammar(g) && Lr0(g, a) && ListsOk(g, a, f, ap) && q < |ap|
    requires DefaultFits(g, a, q, Some(r)) && forall x :: x in ap[q] ==> !x.kind.SHIFT?
    ensures |g.rules[r].rhs| > 0
  {
    if |g.rules[r].rhs| == 0 {
      var c := g.rules[r].lhs;
      assert Final(g, r) == Item(r, 0) && WfRule(g, g.rules[r]);
      assert GroundedAt(g, a, q, r);
      var it :| Has(a, q, it) && Shiftable(g, it) && After(g, it) == Sym(c);
      assert ForwardAt(g, a, q, it);
      var q' :| Goes(a, q, Sym(c), q') && Has(a, q', Advance(it));
      assert Fits(c, Sym(c)) && Wanted(g, a, f, q, c, SHIFT, q');
      NonterminalShiftLive(g, a, f, ap, q, c, q');
      assert false;
    }
  }

  lemma NonterminalShiftLive(g: Grammar, a: Automaton, f: Follow, ap: seq<seq<Action>>, q: nat, c: nat, q': nat)
    requires WfGrammar(g) && Lr0(g, a) && ListsOk(g, a, f, ap) && q < |ap|
    requires Wanted(g, a, f, q, c, SHIFT, q') && g.nterminal <= c
    ensures exists x :: x in ap[q] && (x.kind.SHIFT? || x.kind.ACCEPT?) && x.sp == c
  {
    hide Lr0;
    assert ListOk(g, a, f, q, ap[q]) && LiveOn(ap[q], c);
    var i :| 0 <= i < |ap[q]| && ap[q][i].sp == c && Live(ap[q][i].kind);
    assert Wanted(g, a, f, q, ap[q][i].sp, ap[q][i].kind, ap[q][i].arg);
    assert ap[q][i] in ap[q];
  }
}
