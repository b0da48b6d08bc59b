/** On which token streams a generated parser (tools/lemon/lempar.c) comes to an end, with conflicts or
    without. */
module Endings {
  import opened Grammars
  import opened Driver
  import opened LrTheory
  import opened Termination
  import opened Laps
  import opened States
  import opened Simulation
  import opened UnitRules
  import opened Skipping
  import opened Generator

  /** The run on `w` nowhere makes a lap. */
  ghost predicate Lapless(g: Grammar, tb: Table, w: seq<nat>) {
    forall n: nat :: NoLapAt(g, tb, Run(g, tb, Running(Fresh, w), n))
  }

  ghost predicate NoLapAt(g: Grammar, tb: Table, c: Config) {
    c.Running? ==> !Lap(g, tb, c.p, Ahead(c.rest))
  }

  lemma {:induction false} HaltsSettles(g: Grammar, tb: Table, p: Parser, rest: seq<nat>, n: nat)
    requires Run(g, tb, Running(p, rest), n).Halted?
    ensures Ends(g, tb, p, Ahead(rest))
    decreases n
  {
    hide LoopStep;
    var tok := Ahead(rest);
    var s := LoopStep(g, tb, p, tok);
    if s.Again? {
      HaltsSettles(g, tb, s.p, rest, n - 1);
      var o, k: nat :| Settles(g, tb, s.p, tok, o, k);
      assert Settles(g, tb, p, tok, o, k + 1);
    } else {
      EndsNow(g, tb, p, tok);
    }
  }

  /** A run that halts made no lap before. */
  lemma HaltsLapless(g: Grammar, tb: Table, w: seq<nat>, n: nat)
    requires Run(g, tb, Running(Fresh, w), n).Halted?
    ensures Lapless(g, tb, w)
  {
    hide Run, Lap;
    forall k: nat ensures NoLapAt(g, tb, Run(g, tb, Running(Fresh, w), k)) {
      var c := Run(g, tb, Running(Fresh, w), k);
      if c.Running? {
        RunPlus(g, tb, Running(Fresh, w), k, n);
        RunPlus(g, tb, Running(Fresh, w), n, k);
        StaysHalted(g, tb, Run(g, tb, Running(Fresh, w), n), k);
        HaltsSettles(g, tb, c.p, c.rest, n);
        if Lap(g, tb, c.p, Ahead(c.rest)) {
          LapNeverEnds(g, tb, c.p, Ahead(c.rest));
        }
      }
    }
  }

  lemma NoLapsHere(g: Grammar, tb: Table, w: seq<nat>, k: nat, p: Parser, rest: seq<nat>)
    requires Lapless(g, tb, w) && Run(g, tb, Running(Fresh, w), k) == Running(p, rest)
    ensures NoLaps(g, tb, p, Ahead(rest))
  {
    hide Run, Lap, Reduces;
    forall m | Gets(g, tb, p, Ahead(rest), m) ensures !Lap(g, tb, m, Ahead(rest)) {
      var j: nat :| Reduces(g, tb, p, Ahead(rest), m, j);
      ReducesRun(g, tb, p, rest, m, j);
      RunPlus(g, tb, Running(Fresh, w), k, j);
      assert NoLapAt(g, tb, Run(g, tb, Running(Fresh, w), k + j));
    }
  }

  lemma {:induction false} LaplessHalts(g: Grammar, a: Automaton, tb: Table, w: seq<nat>, k: nat, p: Parser, rest: seq<nat>)
    requires Allowed(g, a, tb) && RunInv(g, a, w, Running(p, rest))
    requires Lapless(g, tb, w) && Run(g, tb, Running(Fresh, w), k) == Running(p, rest)
    ensures Halts(g, tb, Running(Fresh, w))
    decreases |rest|
  {
    hide Lr0, SoundTable, StartIsFresh, RightmostBy, Path, LoopStep, Lapless, Run, NoLaps;
    if Path(a, p.stack) {
      NoLapsHere(g, tb, w, k, p, rest);
      EndsUnlessLap(g, a, tb, p, Ahead(rest));
    } else {
      AcceptEnds(g, tb, p, Ahead(rest));
    }
    var o, n: nat :| Settles(g, tb, p, Ahead(rest), o, n);
    SettledRun(g, tb, p, rest, o, n);
    RunPlus(g, tb, Running(Fresh, w), k, n + 1);
    RunSound(g, a, tb, w, Running(p, rest), n + 1);
    if o.Consumed? && rest != [] {
      LaplessHalts(g, a, tb, w, k + n + 1, o.p, rest[1..]);
    }
  }

  /** The two tables behind the generated parser halt on the same streams. */
  lemma HaltAlike(g: Grammar, b: Build, w: seq<nat>)
    requires BuildOk(g, b) && AllTokens(g, w)
    ensures Halts(g, FinalTable(g, b), Running(Fresh, w)) <==> Halts(g, DefaultTable(g, b), Running(Fresh, w))
  {
    hide BuildOk, Twins, WithoutUnits, NeverStuck, Run, SameEnd;
    var tb, tb2, tb3, c := DefaultTable(g, b), ReduceTable(g, b), FinalTable(g, b), Running(Fresh, w);
    Basics(g, b);
    ReduceTableGoes(g, b, w);
    TablesAreTwins(g, b);
    if Halts(g, tb3, c) {
      var n: nat :| Run(g, tb3, c, n).Halted?;
      var m := Skipping.EndsAlike(g, b.noCode, |b.ap|, tb2, tb3, w, n);
      SimulatesStepByStep(g, |b.ap|, tb, tb2, b.autos, w, m);
    }
    if Halts(g, tb, c) {
      var n: nat :| Run(g, tb, c, n).Halted?;
      SimulatesStepByStep(g, |b.ap|, tb, tb2, b.autos, w, n);
      var m := Skipping.EndsAlike(g, b.noCode, |b.ap|, tb2, tb3, w, n);
    }
  }

  /** The generated parser comes to an end on a stream if and only if the run of the table with defaults makes no lap on it:
      for every grammar and every resolution of its conflicts. */
  lemma HaltsUnlessLap(g: Grammar, b: Build, w: seq<nat>)
    requires BuildOk(g, b) && AllTokens(g, w)
    ensures Halts(g, FinalTable(g, b), Running(Fresh, w)) <==> Lapless(g, DefaultTable(g, b), w)
  {
    hide Lapless, Run;
    var a, tb := AutomatonOf(b.ss), DefaultTable(g, b);
    HaltAlike(g, b, w);
    if Halts(g, tb, Running(Fresh, w)) {
      var n: nat :| Run(g, tb, Running(Fresh, w), n).Halted?;
      HaltsLapless(g, tb, w, n);
    }
    if Lapless(g, tb, w) {
      BuildAllows(g, b);
      FreshRun(g, a, w);
      NoSteps(g, tb, w);
      LaplessHalts(g, a, tb, w, 0, Fresh, w);
    }
  }

  lemma BuildAllows(g: Grammar, b: Build)
    requires BuildOk(g, b)
    ensures Allowed(g, AutomatonOf(b.ss), DefaultTable(g, b))
  {
    DefaultTableSound(g, b);
  }

  lemma NoSteps(g: Grammar, tb: Table, w: seq<nat>)
    ensures Run(g, tb, Running(Fresh, w), 0) == Running(Fresh, w)
  {
  }
}
