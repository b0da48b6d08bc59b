/** A parser loops exactly if it makes a lap. */
module Laps {
  // A lap is a finite piece of the run after which the parser stands as it did before, so that it goes on in the same way:
  // with the same stack, or with the same state on top and all that was under it still there.

  import opened Grammars
  import opened Driver
  import opened LrTheory
  import opened Termination

  /** `n` reduces on `tok` lead from `p` to `p'`, and none of them takes away one of the lowest `h` entries. */
  ghost predicate Above(g: Grammar, tb: Table, p: Parser, tok: nat, p': Parser, n: nat, h: nat)
    decreases n
  {
    if n == 0 then p' == p
    else
      && p.stack != [] && NextAct(tb, p.stack, tok).Reduce?
      && var r := NextAct(tb, p.stack, tok).rule;
      && r < |g.rules| && |p.stack| - |g.rules[r].rhs| >= h
      && var s := LoopStep(g, tb, p, tok);
      && s.Again? && Above(g, tb, s.p, tok, p', n - 1, h)
  }

  lemma {:induction false} AboveReduces(g: Grammar, tb: Table, p: Parser, tok: nat, p': Parser, n: nat, h: nat)
    requires Above(g, tb, p, tok, p', n, h)
    ensures Reduces(g, tb, p, tok, p', n)
    decreases n
  {
    hide LoopStep;
    if n > 0 {
      AboveReduces(g, tb, LoopStep(g, tb, p, tok).p, tok, p', n - 1, h);
    }
  }

  lemma {:induction false} AboveMore(g: Grammar, tb: Table, p: Parser, tok: nat, m: Parser, n: nat, h: nat, p': Parser, k: nat, h': nat)
    requires Above(g, tb, p, tok, m, n, h) && Above(g, tb, m, tok, p', k, h') && h <= h'
    ensures Above(g, tb, p, tok, p', n + k, h)
    decreases n, k
  {
    hide LoopStep, NextAct;
    if n > 0 {
      AboveMore(g, tb, LoopStep(g, tb, p, tok).p, tok, m, n - 1, h, p', k, h');
    } else if k > 0 {
      var s := LoopStep(g, tb, p, tok).p;
      assert Above(g, tb, s, tok, s, 0, h);
      AboveMore(g, tb, s, tok, s, 0, h, p', k - 1, h');
    }
  }

  lemma AboveOnce(g: Grammar, tb: Table, p: Parser, tok: nat, r: nat, p': Parser, h: nat)
    requires p.stack != [] && NextAct(tb, p.stack, tok) == Reduce(r) && r < |g.rules| && |p.stack| - |g.rules[r].rhs| >= h
    requires LoopStep(g, tb, p, tok) == Again(p')
    ensures Above(g, tb, p, tok, p', 1, h)
  {
    assert Above(g, tb, p', tok, p', 0, h);
  }

  lemma {:induction false} AboveKeeps(g: Grammar, tb: Table, p: Parser, tok: nat, p': Parser, n: nat, h: nat)
    requires Above(g, tb, p, tok, p', n, h) && h <= |p.stack|
    ensures h <= |p'.stack| && p'.stack[..h] == p.stack[..h]
    decreases n
  {
    if n > 0 {
      var s := LoopStep(g, tb, p, tok).p;
      assert s.stack[..h] == p.stack[..h];
      AboveKeeps(g, tb, s, tok, p', n - 1, h);
    }
  }

  // ----- laps go on for ever

  /** The same stack again. */
  ghost predicate Round(g: Grammar, tb: Table, m: Parser, tok: nat, m': Parser, n: nat) {
    Reduces(g, tb, m, tok, m', n) && m'.stack == m.stack
  }

  /** The same state on top again, above the stack there was. */
  ghost predicate Growth(g: Grammar, tb: Table, m: Parser, tok: nat, m': Parser, n: nat) {
    && m.stack != [] && m'.stack != [] && Above(g, tb, m, tok, m', n, |m.stack|)
    && m'.stack[|m'.stack| - 1].act == m.stack[|m.stack| - 1].act
  }

  ghost predicate LapTo(g: Grammar, tb: Table, m: Parser, tok: nat, m': Parser, n: nat) {
    n > 0 && m.stack != [] && (Round(g, tb, m, tok, m', n) || Growth(g, tb, m, tok, m', n))
  }

  ghost predicate Lap(g: Grammar, tb: Table, m: Parser, tok: nat) {
    exists m', n: nat :: LapTo(g, tb, m, tok, m', n)
  }

  /** The run depends on the stack alone. */
  lemma {:induction false} SameStackRun(g: Grammar, tb: Table, p: Parser, tok: nat, p': Parser, n: nat, q: Parser) returns (q': Parser)
    requires Reduces(g, tb, p, tok, p', n) && q.stack == p.stack
    ensures Reduces(g, tb, q, tok, q', n) && q'.stack == p'.stack
    decreases n
  {
    if n == 0 {
      q' := q;
    } else {
      q' := SameStackRun(g, tb, LoopStep(g, tb, p, tok).p, tok, p', n - 1, LoopStep(g, tb, q, tok).p);
    }
  }

  /** ... and as long as it stays above an entry, on that entry's action and what is above it. */
  lemma {:induction false} SameAbove(g: Grammar, tb: Table, p: Parser, tok: nat, p': Parser, n: nat, q: Parser,
                                     u: seq<Entry>, v: seq<Entry>, x: seq<Entry>)
    returns (q': Parser, x': seq<Entry>)
    requires Above(g, tb, p, tok, p', n, |u|) && p.stack == u + x && q.stack == v + x && SameTop(u, v)
    ensures Above(g, tb, q, tok, q', n, |v|) && p'.stack == u + x' && q'.stack == v + x'
    decreases n
  {
    hide LoopStep, NextAct;
    if n == 0 {
      q', x' := q, x;
    } else {
      var r := NextAct(tb, p.stack, tok).rule;
      var s, y := OneAbove(g, tb, p, tok, q, u, v, x, r);
      q', x' := SameAbove(g, tb, LoopStep(g, tb, p, tok).p, tok, p', n - 1, s, u, v, y);
    }
  }

  ghost predicate SameTop(u: seq<Entry>, v: seq<Entry>) {
    u != [] && v != [] && u[|u| - 1].act == v[|v| - 1].act
  }

  lemma OneAbove(g: Grammar, tb: Table, p: Parser, tok: nat, q: Parser, u: seq<Entry>, v: seq<Entry>, x: seq<Entry>, r: nat)
    returns (s: Parser, y: seq<Entry>)
    requires p.stack == u + x && q.stack == v + x && SameTop(u, v)
    requires NextAct(tb, p.stack, tok) == Reduce(r) && r < |g.rules| && |g.rules[r].rhs| <= |x| && LoopStep(g, tb, p, tok).Again?
    ensures NextAct(tb, q.stack, tok) == Reduce(r) && LoopStep(g, tb, q, tok) == Again(s)
    ensures LoopStep(g, tb, p, tok).p.stack == u + y && s.stack == v + y
  {
    hide Lookup;
    var l := |x| - |g.rules[r].rhs|;
    var z := x[..l];
    TopSame(u, v, x);
    CutAbove(u, x, l);
    CutAbove(v, x, l);
    TopSame(u, v, z);
    var e := Entry(Lookup(tb, (u + z)[|u + z| - 1].act.state, g.rules[r].lhs), g.rules[r].lhs);
    s := q.(stack := (v + z) + [e], trail := [r] + q.trail);
    y := z + [e];
    ReduceAt(g, tb, p, r, u + z);
    ReduceAt(g, tb, q, r, v + z);
    assert (u + z) + [e] == u + y && (v + z) + [e] == v + y;
  }

  /** A reduce, by the stack that is left under the handle. */
  lemma ReduceAt(g: Grammar, tb: Table, p: Parser, r: nat, under: seq<Entry>)
    requires r < |g.rules| && |g.rules[r].rhs| < |p.stack| && under == p.stack[..|p.stack| - |g.rules[r].rhs|]
    ensures ReduceStep(g, tb, p, r) ==
      var top := under[|under| - 1].act;
      if !top.Shift? then Stuck else
      var act := Lookup(tb, top.state, g.rules[r].lhs);
      if act.Error? || act.ShiftReduce? then Stuck
      else Again(p.(stack := under + [Entry(act, g.rules[r].lhs)], trail := [r] + p.trail))
  {
  }

  lemma TopSame(u: seq<Entry>, v: seq<Entry>, x: seq<Entry>)
    requires SameTop(u, v)
    ensures SameTop(u + x, v + x)
  {
  }

  lemma CutAbove(u: seq<Entry>, x: seq<Entry>, l: nat)
    requires l <= |x|
    ensures (u + x)[..|u| + l] == u + x[..l]
  {
  }

  lemma {:induction false} CycleNeverEnds(g: Grammar, tb: Table, m: Parser, tok: nat, m': Parser, n: nat, q: Parser, o: Outcome, k: nat)
    requires n > 0 && Reduces(g, tb, m, tok, m', n) && m'.stack == m.stack && q.stack == m.stack
    ensures !Settles(g, tb, q, tok, o, k)
    decreases k
  {
    hide Reduces, Settles;
    if Settles(g, tb, q, tok, o, k) {
      var q' := SameStackRun(g, tb, m, tok, m', n, q);
      SettlesAfter(g, tb, q, tok, q', n, o, k);
      CycleNeverEnds(g, tb, m, tok, m', n, q', o, k - n);
    }
  }

  lemma {:induction false} GrowthNeverEnds(g: Grammar, tb: Table, m: Parser, tok: nat, m': Parser, n: nat, q: Parser, o: Outcome, k: nat)
    requires n > 0 && m.stack != [] && Above(g, tb, m, tok, m', n, |m.stack|) && m'.stack != []
    requires m'.stack[|m'.stack| - 1].act == m.stack[|m.stack| - 1].act
    requires q.stack != [] && q.stack[|q.stack| - 1].act == m.stack[|m.stack| - 1].act
    ensures !Settles(g, tb, q, tok, o, k)
    decreases k
  {
    hide Above, Settles;
    if Settles(g, tb, q, tok, o, k) {
      assert m.stack + [] == m.stack && q.stack + [] == q.stack;
      var q', x := SameAbove(g, tb, m, tok, m', n, q, m.stack, q.stack, []);
      AboveReduces(g, tb, q, tok, q', n, |q.stack|);
      SettlesAfter(g, tb, q, tok, q', n, o, k);
      TopSame(m.stack, q.stack, x);
      GrowthNeverEnds(g, tb, m, tok, m', n, q', o, k - n);
    }
  }

  lemma LapNeverEnds(g: Grammar, tb: Table, m: Parser, tok: nat)
    requires Lap(g, tb, m, tok)
    ensures !Ends(g, tb, m, tok)
  {
    hide Reduces, Above, Settles;
    var m', n: nat :| LapTo(g, tb, m, tok, m', n);
    forall o, k: nat ensures !Settles(g, tb, m, tok, o, k) {
      if Round(g, tb, m, tok, m', n) {
        CycleNeverEnds(g, tb, m, tok, m', n, m, o, k);
      } else {
        GrowthNeverEnds(g, tb, m, tok, m', n, m, o, k);
      }
    }
  }

  // ----- without a lap the loop ends

  ghost predicate Gets(g: Grammar, tb: Table, p: Parser, tok: nat, q: Parser) {
    exists k: nat :: Reduces(g, tb, p, tok, q, k)
  }

  /** No parser on the run from `p` makes a lap. */
  ghost predicate NoLaps(g: Grammar, tb: Table, p: Parser, tok: nat) {
    forall m :: Gets(g, tb, p, tok, m) ==> !Lap(g, tb, m, tok)
  }

  lemma GetsMore(g: Grammar, tb: Table, p: Parser, tok: nat, q: Parser, q': Parser, n: nat)
    requires Gets(g, tb, p, tok, q) && Reduces(g, tb, q, tok, q', n)
    ensures Gets(g, tb, p, tok, q')
  {
    var k: nat :| Reduces(g, tb, p, tok, q, k);
    ReducesMore(g, tb, p, tok, q, k, q', n);
  }

  /** `q` is on the run to `p`, with a lower stack that is still there. */
  ghost predicate Ancestor(g: Grammar, a: Automaton, tb: Table, p0: Parser, p: Parser, tok: nat, q: Parser) {
    && Path(a, q.stack) && Gets(g, tb, p0, tok, q) && |q.stack| < |p.stack|
    && exists n: nat :: n > 0 && Above(g, tb, q, tok, p, n, |q.stack|)
  }

  ghost predicate Ancestors(g: Grammar, a: Automaton, tb: Table, p0: Parser, p: Parser, tok: nat, anc: seq<Parser>) {
    && (forall i :: 0 <= i < |anc| ==> Ancestor(g, a, tb, p0, p, tok, anc[i]))
    && (forall i, j :: 0 <= i < j < |anc| ==> TopState(anc[i].stack) != TopState(anc[j].stack))
  }

  /** A state that comes again would be a lap. */
  lemma NewState(g: Grammar, a: Automaton, tb: Table, p0: Parser, p: Parser, tok: nat, anc: seq<Parser>)
    requires NoLaps(g, tb, p0, tok) && Path(a, p.stack) && Ancestors(g, a, tb, p0, p, tok, anc)
    ensures forall i :: 0 <= i < |anc| ==> TopState(anc[i].stack) != TopState(p.stack)
    ensures |anc| < |a.items|
  {
    hide Path, Above;
    PathEnds(a, p.stack);
    forall i | 0 <= i < |anc| ensures TopState(anc[i].stack) != TopState(p.stack) && TopState(anc[i].stack) < |a.items| {
      assert Ancestor(g, a, tb, p0, p, tok, anc[i]);
      PathEnds(a, anc[i].stack);
      var n: nat :| n > 0 && Above(g, tb, anc[i], tok, p, n, |anc[i].stack|);
      assert !LapTo(g, tb, anc[i], tok, p, n);
    }
    var tops := seq(|anc|, i requires 0 <= i < |anc| => TopState(anc[i].stack)) + [TopState(p.stack)];
    DistinctBelow(tops, |a.items|);
  }

  lemma {:induction false} DistinctBelow(s: seq<nat>, n: nat)
    requires (forall i :: 0 <= i < |s| ==> s[i] < n) && (forall i, j :: 0 <= i < j < |s| ==> s[i] != s[j])
    ensures |s| <= n
  {
    var all := set i | 0 <= i < |s| :: s[i];
    DistinctSize(s);
    BelowCount(all, n);
  }

  lemma {:induction false} DistinctSize(s: seq<nat>)
    requires forall i, j :: 0 <= i < j < |s| ==> s[i] != s[j]
    ensures |set i | 0 <= i < |s| :: s[i]| == |s|
    decreases |s|
  {
    if s != [] {
      var t := s[..|s| - 1];
      DistinctSize(t);
      assert (set i | 0 <= i < |s| :: s[i]) == (set i | 0 <= i < |t| :: t[i]) + {s[|s| - 1]};
    }
  }

  lemma MoreAncestors(g: Grammar, a: Automaton, tb: Table, p0: Parser, p: Parser, tok: nat, anc: seq<Parser>, p1: Parser, n1: nat)
    requires Ancestors(g, a, tb, p0, p, tok, anc) && Path(a, p.stack) && Gets(g, tb, p0, tok, p)
    requires forall i :: 0 <= i < |anc| ==> TopState(anc[i].stack) != TopState(p.stack)
    requires n1 > 0 && Above(g, tb, p, tok, p1, n1, |p.stack|) && |p.stack| < |p1.stack|
    ensures Ancestors(g, a, tb, p0, p1, tok, anc + [p])
  {
    hide Path, Above, Gets;
    var more := anc + [p];
    forall i | 0 <= i < |more| ensures Ancestor(g, a, tb, p0, p1, tok, more[i]) {
      if i < |anc| {
        assert Ancestor(g, a, tb, p0, p, tok, anc[i]);
        var n: nat :| n > 0 && Above(g, tb, anc[i], tok, p, n, |anc[i].stack|);
        AboveMore(g, tb, anc[i], tok, p, n, |anc[i].stack|, p1, n1, |p.stack|);
        assert n + n1 > 0;
      }
    }
  }

  /** `q` is on the run to `p`, with the stack `s` and the goto on a nonterminal above it. */
  ghost predicate Earlier(g: Grammar, tb: Table, p0: Parser, p: Parser, tok: nat, s: seq<Entry>, q: Parser) {
    && |q.stack| == |s| + 1 && q.stack == s + [Entry(Lookup(tb, TopState(s), q.stack[|s|].major), q.stack[|s|].major)]
    && q.stack[|s|].major < g.nsymbol && Gets(g, tb, p0, tok, q) && Gets(g, tb, q, tok, p)
  }

  ghost predicate Past(g: Grammar, tb: Table, p0: Parser, p: Parser, tok: nat, s: seq<Entry>, past: seq<Parser>) {
    && (forall i :: 0 <= i < |past| ==> Earlier(g, tb, p0, p, tok, s, past[i]))
    && (forall i, j :: 0 <= i < j < |past| ==> past[i].stack[|s|].major != past[j].stack[|s|].major)
  }

  /** A nonterminal that comes again above the same stack would be a lap. */
  lemma NewSymbol(g: Grammar, tb: Table, p0: Parser, p: Parser, tok: nat, s: seq<Entry>, past: seq<Parser>, p2: Parser, n: nat)
    requires NoLaps(g, tb, p0, tok) && Gets(g, tb, p0, tok, p) && Past(g, tb, p0, p, tok, s, past)
    requires n > 0 && Reduces(g, tb, p, tok, p2, n)
    requires |p2.stack| == |s| + 1 && p2.stack == s + [Entry(Lookup(tb, TopState(s), p2.stack[|s|].major), p2.stack[|s|].major)]
    requires p2.stack[|s|].major < g.nsymbol
    ensures Past(g, tb, p0, p2, tok, s, past + [p2]) && |past| < g.nsymbol
  {
    hide Reduces, Lookup;
    var more := past + [p2];
    GetsMore(g, tb, p0, tok, p, p2, n);
    assert Gets(g, tb, p2, tok, p2) by {
      Nowhere(g, tb, p2, tok);
    }
    forall i | 0 <= i < |past| ensures Earlier(g, tb, p0, p2, tok, s, past[i]) && past[i].stack[|s|].major != p2.stack[|s|].major {
      assert Earlier(g, tb, p0, p, tok, s, past[i]);
      GetsMore(g, tb, past[i], tok, p, p2, n);
      if past[i].stack[|s|].major == p2.stack[|s|].major {
        ComesRound(g, tb, past[i], tok, p, p2, n);
      }
    }
    var majors := seq(|more|, i requires 0 <= i < |more| => more[i].stack[|s|].major);
    DistinctBelow(majors, g.nsymbol);
  }

  lemma Nowhere(g: Grammar, tb: Table, p: Parser, tok: nat)
    ensures Gets(g, tb, p, tok, p)
  {
    assert Reduces(g, tb, p, tok, p, 0);
  }

  lemma ComesRound(g: Grammar, tb: Table, q: Parser, tok: nat, p: Parser, p2: Parser, n: nat)
    requires Gets(g, tb, q, tok, p) && n > 0 && Reduces(g, tb, p, tok, p2, n) && p2.stack == q.stack != []
    ensures Lap(g, tb, q, tok)
  {
    var k: nat :| Reduces(g, tb, q, tok, p, k);
    ReducesMore(g, tb, q, tok, p, k, p2, n);
    assert Round(g, tb, q, tok, p2, k + n) && LapTo(g, tb, q, tok, p2, k + n);
  }

  /** From `p` the parser has come to `m`, above its stack, and is about to reduce by a rule that takes away more. */
  ghost predicate Exits(g: Grammar, a: Automaton, tb: Table, p: Parser, tok: nat, m: Parser, r: nat, n: nat) {
    && Above(g, tb, p, tok, m, n, |p.stack|) && Path(a, m.stack)
    && NextAct(tb, m.stack, tok) == Reduce(r) && r < |g.rules| && Has(a, TopState(m.stack), Final(g, r))
    && |m.stack| - |p.stack| < |g.rules[r].rhs|
  }

  lemma {:induction false} Climbs(g: Grammar, a: Automaton, tb: Table, p0: Parser, p: Parser, tok: nat, anc: seq<Parser>)
    returns (ended: bool, m: Parser, r: nat, n: nat)
    requires Allowed(g, a, tb) && tok < g.nterminal && NoLaps(g, tb, p0, tok)
    requires Path(a, p.stack) && Gets(g, tb, p0, tok, p) && Ancestors(g, a, tb, p0, p, tok, anc)
    ensures if ended then Ends(g, tb, p, tok) else Exits(g, a, tb, p, tok, m, r, n)
    decreases |a.items| - |anc|, g.nsymbol + 2
  {
    hide Allowed, Path, NoLaps, Gets, Ancestors, Has, Lookup;
    PathEnds(a, p.stack);
    NewState(g, a, tb, p0, p, tok, anc);
    AllowedHere(g, a, tb, TopState(p.stack), tok);
    var act := NextAct(tb, p.stack, tok);
    if !act.Reduce? {
      EndsNow(g, tb, p, tok);
      ended, m, r, n := true, p, 0, 0;
    } else {
      r := act.rule;
      if g.rules[r].rhs != [] {
        ended, m, n := false, p, 0;
      } else {
        var p1 := ReduceOnce(g, a, tb, p, tok, r);
        AboveOnce(g, tb, p, tok, r, p1, |p.stack|);
        if Ends(g, tb, p1, tok) {
          AboveReduces(g, tb, p, tok, p1, 1, |p.stack|);
          ReducesToEnd(g, tb, p, tok, p1, 1);
          ended, m, n := true, p, 0;
        } else {
          Empties(g, a, tb, p0, p, tok, r, p1);
          RuleSymbol(g, a, tb, r);
          ended, m, r, n := Replaces(g, a, tb, p0, p, tok, anc, p1, 1, [p1]);
        }
      }
    }
  }

  lemma AllowedHere(g: Grammar, a: Automaton, tb: Table, q: nat, c: nat)
    requires Allowed(g, a, tb) && q < |a.items| && c < g.nterminal
    ensures SoundAct(g, a, q, c, Lookup(tb, q, c))
  {
    SoundHere(g, a, tb, q, c);
  }

  /** After an empty rule the chain of nonterminals above the stack begins. */
  lemma Empties(g: Grammar, a: Automaton, tb: Table, p0: Parser, p: Parser, tok: nat, r: nat, p1: Parser)
    requires Allowed(g, a, tb) && r < |g.rules| && g.rules[r].rhs == [] && Gets(g, tb, p0, tok, p) && Reduces(g, tb, p, tok, p1, 1)
    requires p1.stack == p.stack[..|p.stack| - 0] + [Entry(Lookup(tb, TopState(p.stack[..|p.stack| - 0]), g.rules[r].lhs), g.rules[r].lhs)]
    ensures Past(g, tb, p0, p1, tok, p.stack, [p1])
  {
    assert p.stack[..|p.stack| - 0] == p.stack;
    assert WfRule(g, g.rules[r]);
    GetsMore(g, tb, p0, tok, p, p1, 1);
    Nowhere(g, tb, p1, tok);
  }

  lemma {:induction false} Replaces(g: Grammar, a: Automaton, tb: Table, p0: Parser, p: Parser, tok: nat, anc: seq<Parser>,
                                    p1: Parser, n1: nat, past: seq<Parser>)
    returns (ended: bool, m: Parser, r: nat, n: nat)
    requires Allowed(g, a, tb) && tok < g.nterminal && NoLaps(g, tb, p0, tok)
    requires Path(a, p.stack) && Gets(g, tb, p0, tok, p) && Ancestors(g, a, tb, p0, p, tok, anc) && |anc| < |a.items|
    requires forall i :: 0 <= i < |anc| ==> TopState(anc[i].stack) != TopState(p.stack)
    requires n1 > 0 && Above(g, tb, p, tok, p1, n1, |p.stack|) && |p1.stack| == |p.stack| + 1 && Path(a, p1.stack)
    requires Past(g, tb, p0, p1, tok, p.stack, past) && |past| <= g.nsymbol
    ensures if ended then Ends(g, tb, p, tok) else Exits(g, a, tb, p, tok, m, r, n)
    decreases |a.items| - |anc|, g.nsymbol + 1 - |past|
  {
    hide Allowed, Path, NoLaps, Gets, Ancestors, Has, Lookup, Past, Above, LoopStep, NextAct;
    var s := p.stack;
    MoreAncestors(g, a, tb, p0, p, tok, anc, p1, n1);
    AboveReduces(g, tb, p, tok, p1, n1, |s|);
    GetsMore(g, tb, p0, tok, p, p1, n1);
    ended, m, r, n := Climbs(g, a, tb, p0, p1, tok, anc + [p]);
    if ended {
      ReducesToEnd(g, tb, p, tok, p1, n1);
    } else {
      AboveReduces(g, tb, p1, tok, m, n, |p1.stack|);
      AboveKeeps(g, tb, p1, tok, m, n, |p1.stack|);
      AboveKeeps(g, tb, p, tok, p1, n1, |s|);
      AboveMore(g, tb, p, tok, p1, n1, |s|, m, n, |p1.stack|);
      if |g.rules[r].rhs| == |m.stack| - |s| {
        assert m.stack[..|s|] == m.stack[..|p1.stack|][..|s|] == s;
        var p2 := ReduceOnce(g, a, tb, m, tok, r);
        AboveOnce(g, tb, m, tok, r, p2, |s|);
        AboveReduces(g, tb, m, tok, p2, 1, |s|);
        AboveMore(g, tb, p, tok, m, n1 + n, |s|, p2, 1, |s|);
        AboveReduces(g, tb, p, tok, p2, n1 + n + 1, |s|);
        if Ends(g, tb, p2, tok) {
          ReducesToEnd(g, tb, p, tok, p2, n1 + n + 1);
          ended := true;
        } else {
          ReducesMore(g, tb, p1, tok, m, n, p2, 1);
          RuleSymbol(g, a, tb, r);
          NewSymbol(g, tb, p0, p1, tok, s, past, p2, n + 1);
          ended, m, r, n := Replaces(g, a, tb, p0, p, tok, anc, p2, n1 + n + 1, past + [p2]);
        }
      } else {
        n := n1 + n;
      }
    }
  }

  lemma RuleSymbol(g: Grammar, a: Automaton, tb: Table, r: nat)
    requires Allowed(g, a, tb) && r < |g.rules|
    ensures g.nterminal <= g.rules[r].lhs < g.nsymbol
  {
    assert WfRule(g, g.rules[r]);
  }

  /** The stack gets lower, or the nonterminal on top another one, until the loop ends. */
  lemma {:induction false} Descends(g: Grammar, a: Automaton, tb: Table, p0: Parser, p: Parser, tok: nat, past: seq<Parser>)
    requires Allowed(g, a, tb) && tok < g.nterminal && NoLaps(g, tb, p0, tok)
    requires Path(a, p.stack) && p.stack != [] && Gets(g, tb, p0, tok, p)
    requires Past(g, tb, p0, p, tok, p.stack[..|p.stack| - 1], past) && |past| <= g.nsymbol
    ensures Ends(g, tb, p, tok)
    decreases |p.stack|, g.nsymbol - |past|
  {
    hide Allowed, Path, NoLaps, Gets, Ancestors, Has, Lookup, Past, Above, LoopStep, NextAct;
    var h := |p.stack|;
    NoAncestors(g, a, tb, p0, p, tok);
    var ended, m, r, n := Climbs(g, a, tb, p0, p, tok, []);
    if !ended {
      AboveReduces(g, tb, p, tok, m, n, h);
      AboveKeeps(g, tb, p, tok, m, n, h);
      var p2 := ReduceOnce(g, a, tb, m, tok, r);
      ReducesOnce(g, tb, p, tok, m, n, p2);
      GetsMore(g, tb, p0, tok, p, p2, n + 1);
      if !Ends(g, tb, p2, tok) {
        if |p2.stack| < h {
          NoPast(g, tb, p0, p2, tok, p2.stack[..|p2.stack| - 1]);
          Descends(g, a, tb, p0, p2, tok, []);
        } else {
          var s := p.stack[..h - 1];
          assert m.stack[..h - 1] == m.stack[..h][..h - 1] == s;
          RuleSymbol(g, a, tb, r);
          assert p2.stack[..|p2.stack| - 1] == s;
          NewSymbol(g, tb, p0, p, tok, s, past, p2, n + 1);
          Descends(g, a, tb, p0, p2, tok, past + [p2]);
        }
      }
      ReducesToEnd(g, tb, p, tok, p2, n + 1);
    }
  }

  lemma NoAncestors(g: Grammar, a: Automaton, tb: Table, p0: Parser, p: Parser, tok: nat)
    ensures Ancestors(g, a, tb, p0, p, tok, [])
  {
  }

  lemma NoPast(g: Grammar, tb: Table, p0: Parser, p: Parser, tok: nat, s: seq<Entry>)
    ensures Past(g, tb, p0, p, tok, s, [])
  {
  }

  /** The loop comes to an end on a token if and only if its run makes no lap: for every table that does what the automaton
      allows, with conflicts or without, and from every stack that is a path of it. */
  lemma EndsUnlessLap(g: Grammar, a: Automaton, tb: Table, p: Parser, tok: nat)
    requires Allowed(g, a, tb) && tok < g.nterminal && Path(a, p.stack)
    ensures Ends(g, tb, p, tok) <==> NoLaps(g, tb, p, tok)
  {
    hide Allowed, Path, Lap, Ends;
    if NoLaps(g, tb, p, tok) {
      PathEnds(a, p.stack);
      Nowhere(g, tb, p, tok);
      NoPast(g, tb, p, p, tok, p.stack[..|p.stack| - 1]);
      Descends(g, a, tb, p, p, tok, []);
    } else {
      var m :| Gets(g, tb, p, tok, m) && Lap(g, tb, m, tok);
      LapNeverEnds(g, tb, m, tok);
      EndsBefore(g, tb, p, tok, m);
    }
  }

  lemma EndsBefore(g: Grammar, tb: Table, p: Parser, tok: nat, m: Parser)
    requires Gets(g, tb, p, tok, m) && !Ends(g, tb, m, tok)
    ensures !Ends(g, tb, p, tok)
  {
    if Ends(g, tb, p, tok) {
      var k: nat :| Reduces(g, tb, p, tok, m, k);
      var o, n: nat :| Settles(g, tb, p, tok, o, n);
      SettlesAfter(g, tb, p, tok, m, k, o, n);
    }
  }
}
