/** The records of the observer. */
module Observe {
  // From observe/src/flow_observe.c: the series of the stages and the history of control events, with what was dropped from
  // them.

  import opened Wrappers

  // ----- stage series

  /** One completed stage call; `stored` says whether a new series could be allocated. */
  datatype Completed = Completed(stage: string, duration: nat, failed: bool, stored: bool)

  datatype Series = Series(name: string, calls: nat, errors: nat, total: nat, longest: nat)

  datatype Stages = Stages(calls: nat, errors: nat, series: seq<Series>, dropped: nat)

  function FindFrom(series: seq<Series>, name: string, i: nat): (r: nat)
    requires i <= |series|
    ensures i <= r <= |series| && (r < |series| ==> series[r].name == name)
    ensures forall k :: i <= k < r ==> series[k].name != name
    decreases |series| - i
  {
    if i == |series| || series[i].name == name then i else FindFrom(series, name, i + 1)
  }

  function Add(s: Series, c: Completed): Series {
    Series(s.name, s.calls + 1, s.errors + (if c.failed then 1 else 0), s.total + c.duration,
           if c.duration > s.longest then c.duration else s.longest)
  }

  function Complete(s: Stages, max: nat, c: Completed): Stages {
    var t := s.(calls := s.calls + 1, errors := s.errors + if c.failed then 1 else 0);
    var i := FindFrom(s.series, c.stage, 0);
    if i < |s.series| then t.(series := s.series[i := Add(s.series[i], c)])
    else if |s.series| < max && c.stored then t.(series := s.series + [Add(Series(c.stage, 0, 0, 0, 0), c)])
    else t.(dropped := s.dropped + 1)
  }

  function CompleteAll(max: nat, log: seq<Completed>): Stages {
    if log == [] then Stages(0, 0, [], 0) else Complete(CompleteAll(max, log[..|log| - 1]), max, log[|log| - 1])
  }

  /** The stages with a series, in the order of their first stored call, at most `max` of them. */
  function Names(max: nat, log: seq<Completed>): seq<string> {
    if log == [] then []
    else
      var front, last := Names(max, log[..|log| - 1]), log[|log| - 1];
      if last.stage !in front && |front| < max && last.stored then front + [last.stage] else front
  }

  /** The series as a plain query over the calls: those of the stage since it was first stored. */
  function Query(max: nat, log: seq<Completed>, name: string): Series {
    if log == [] then Series(name, 0, 0, 0, 0)
    else
      var front, last := log[..|log| - 1], log[|log| - 1];
      if last.stage == name && name in Names(max, log) then Add(Query(max, front, name), last)
      else Query(max, front, name)
  }

  function SumCalls(series: seq<Series>): nat {
    if series == [] then 0 else SumCalls(series[..|series| - 1]) + series[|series| - 1].calls
  }

  function NamesOf(series: seq<Series>): seq<string> {
    seq(|series|, i requires 0 <= i < |series| => series[i].name)
  }

  lemma {:induction false} SumUpdate(series: seq<Series>, i: nat, x: Series)
    requires i < |series|
    ensures SumCalls(series[i := x]) == SumCalls(series) - series[i].calls + x.calls
    decreases |series|
  {
    var n := |series| - 1;
    if i < n {
      SumUpdate(series[..n], i, x);
      assert series[i := x][..n] == series[..n][i := x];
    } else {
      assert series[i := x][..n] == series[..n];
    }
  }

  lemma Found(series: seq<Series>, name: string)
    ensures FindFrom(series, name, 0) < |series| <==> name in NamesOf(series)
  {
    var names := NamesOf(series);
    if name in names {
      var k :| 0 <= k < |names| && names[k] == name;
      assert series[k].name == name;
    }
    var i := FindFrom(series, name, 0);
    if i < |series| {
      assert names[i] == name;
    }
  }

  lemma {:induction false} DistinctNames(max: nat, log: seq<Completed>)
    ensures NoDuplicates(Names(max, log)) && |Names(max, log)| <= max
    decreases |log|
  {
    if log != [] {
      DistinctNames(max, log[..|log| - 1]);
    }
  }

  /** One call and the names of the series. */
  lemma StepNames(s: Stages, max: nat, c: Completed)
    ensures var names := NamesOf(s.series);
            NamesOf(Complete(s, max, c).series) ==
              if c.stage !in names && |names| < max && c.stored then names + [c.stage] else names
  {
    var i := FindFrom(s.series, c.stage, 0);
    Found(s.series, c.stage);
    var x := Add(Series(c.stage, 0, 0, 0, 0), c);
  }

  /** The series are those of the first stages, in order. */
  lemma {:induction false} SeriesNames(max: nat, log: seq<Completed>)
    ensures NamesOf(CompleteAll(max, log).series) == Names(max, log)
    decreases |log|
  {
    hide Complete;
    if log != [] {
      SeriesNames(max, log[..|log| - 1]);
      StepNames(CompleteAll(max, log[..|log| - 1]), max, log[|log| - 1]);
    }
  }

  lemma StepConserves(s: Stages, max: nat, c: Completed)
    ensures var t := Complete(s, max, c);
            t.calls == s.calls + 1 && SumCalls(t.series) + t.dropped == SumCalls(s.series) + s.dropped + 1
  {
    var i := FindFrom(s.series, c.stage, 0);
    if i < |s.series| {
      SumUpdate(s.series, i, Add(s.series[i], c));
    } else {
      var x := Add(Series(c.stage, 0, 0, 0, 0), c);
      assert (s.series + [x])[..|s.series|] == s.series;
    }
  }

  /** Every call is in a series or dropped; the names of the series are distinct and bounded. */
  lemma {:induction false} CallsConserved(max: nat, log: seq<Completed>)
    ensures var s := CompleteAll(max, log);
            && SumCalls(s.series) + s.dropped == s.calls == |log|
            && |s.series| <= max && NoDuplicates(NamesOf(s.series))
    decreases |log|
  {
    hide Complete, NamesOf, NoDuplicates;
    NamesLength(CompleteAll(max, log).series);
    SeriesNames(max, log);
    DistinctNames(max, log);
    if log != [] {
      CallsConserved(max, log[..|log| - 1]);
      StepConserves(CompleteAll(max, log[..|log| - 1]), max, log[|log| - 1]);
    }
  }

  lemma NamesLength(series: seq<Series>)
    ensures |NamesOf(series)| == |series|
  {
  }

  lemma {:induction false} QueryUnknown(max: nat, log: seq<Completed>, name: string)
    requires name !in Names(max, log)
    ensures Query(max, log, name) == Series(name, 0, 0, 0, 0)
    decreases |log|
  {
    if log != [] {
      QueryUnknown(max, log[..|log| - 1], name);
    }
  }

  /** Each series is what the calls of its stage say. */
  lemma {:induction false} SeriesExact(max: nat, log: seq<Completed>, i: nat)
    requires i < |CompleteAll(max, log).series|
    ensures i < |Names(max, log)| && CompleteAll(max, log).series[i] == Query(max, log, Names(max, log)[i])
    decreases |log|
  {
    if log != [] {
      var n := |log| - 1;
      var front, c := log[..n], log[n];
      var s, t := CompleteAll(max, front), CompleteAll(max, log);
      SeriesNames(max, front);
      SeriesNames(max, log);
      DistinctNames(max, front);
      Found(s.series, c.stage);
      assert NamesOf(t.series)[i] == t.series[i].name;
      if i < |s.series| {
        SeriesExact(max, front, i);
        assert NamesOf(s.series)[i] == s.series[i].name;
        StepSeries(s, max, c, i);
      } else {
        QueryUnknown(max, front, c.stage);
      }
    }
  }

  lemma StepSeries(s: Stages, max: nat, c: Completed, i: nat)
    requires i < |s.series| && NoDuplicates(NamesOf(s.series))
    ensures var t := Complete(s, max, c);
            i < |t.series| && t.series[i] == if s.series[i].name == c.stage then Add(s.series[i], c) else s.series[i]
  {
    var names, k := NamesOf(s.series), FindFrom(s.series, c.stage, 0);
    assert names[i] == s.series[i].name;
    if k < |s.series| {
      assert names[k] == s.series[k].name;
    }
  }

  /** If storing never fails, only a full table drops calls. */
  lemma {:induction false} FirstStagesKept(max: nat, log: seq<Completed>, k: nat)
    requires k < |log| && forall i :: 0 <= i < |log| ==> log[i].stored
    ensures log[k].stage in Names(max, log) || |Names(max, log)| == max
    decreases |log|
  {
    DistinctNames(max, log);
    if k < |log| - 1 {
      FirstStagesKept(max, log[..|log| - 1], k);
    }
  }

  /** All the calls of a stage. */
  function Tally(log: seq<Completed>, name: string): Series {
    if log == [] then Series(name, 0, 0, 0, 0)
    else
      var front, last := log[..|log| - 1], log[|log| - 1];
      if last.stage == name then Add(Tally(front, name), last) else Tally(front, name)
  }

  lemma {:induction false} TallyNone(log: seq<Completed>, name: string)
    requires forall k :: 0 <= k < |log| ==> log[k].stage != name
    ensures Tally(log, name) == Series(name, 0, 0, 0, 0)
    decreases |log|
  {
    if log != [] {
      TallyNone(log[..|log| - 1], name);
    }
  }

  /** If storing never fails, a series holds all the calls of its stage, from the first on. */
  lemma {:induction false} SeriesTally(max: nat, log: seq<Completed>, name: string)
    requires (forall i :: 0 <= i < |log| ==> log[i].stored) && name in Names(max, log)
    ensures Query(max, log, name) == Tally(log, name)
    decreases |log|
  {
    var front := log[..|log| - 1];
    if name in Names(max, front) {
      SeriesTally(max, front, name);
    } else {
      QueryUnknown(max, front, name);
      forall k | 0 <= k < |front| ensures front[k].stage != name {
        FirstStagesKept(max, front, k);
      }
      TallyNone(front, name);
    }
  }

  // ----- what the numbers of a series mean

  /** Call `k` is one of the stage, and the stage has a series by then. */
  ghost predicate Counted(max: nat, log: seq<Completed>, name: string, k: nat) {
    k < |log| && log[k].stage == name && name in Names(max, log[..k + 1])
  }

  ghost function CallsOf(max: nat, log: seq<Completed>, name: string): set<nat> {
    set k: nat | k < |log| && Counted(max, log, name, k)
  }

  ghost function FailuresOf(max: nat, log: seq<Completed>, name: string): set<nat> {
    set k: nat | k < |log| && Counted(max, log, name, k) && log[k].failed
  }

  ghost function TimeOf(max: nat, log: seq<Completed>, name: string): nat {
    if log == [] then 0
    else TimeOf(max, log[..|log| - 1], name) + if Counted(max, log, name, |log| - 1) then log[|log| - 1].duration else 0
  }

  /** The longest of the calls. */
  ghost predicate IsLongest(max: nat, log: seq<Completed>, name: string, longest: nat) {
    && (forall k: nat :: Counted(max, log, name, k) ==> log[k].duration <= longest)
    && exists k: nat :: Counted(max, log, name, k) && log[k].duration == longest
  }

  /** The calls before are counted as they were. */
  lemma CountedBefore(max: nat, log: seq<Completed>, name: string)
    requires log != []
    ensures forall k: nat :: Counted(max, log[..|log| - 1], name, k) <==> Counted(max, log, name, k) && k < |log| - 1
  {
    var front := log[..|log| - 1];
    forall k: nat ensures Counted(max, front, name, k) <==> Counted(max, log, name, k) && k < |log| - 1 {
      if k < |front| {
        assert front[..k + 1] == log[..k + 1];
      }
    }
  }

  lemma CountedSets(max: nat, log: seq<Completed>, name: string)
    requires log != []
    ensures var (n, front) := (|log| - 1, log[..|log| - 1]);
            && CallsOf(max, log, name) == CallsOf(max, front, name) + (if Counted(max, log, name, n) then {n} else {})
            && FailuresOf(max, log, name) ==
                 FailuresOf(max, front, name) + (if Counted(max, log, name, n) && log[n].failed then {n} else {})
  {
    CountedBefore(max, log, name);
  }

  lemma QueryStep(max: nat, log: seq<Completed>, name: string)
    requires log != []
    ensures var (n, s) := (|log| - 1, Query(max, log[..|log| - 1], name));
            Query(max, log, name) == if Counted(max, log, name, n) then Add(s, log[n]) else s
  {
    assert log[..|log| - 1 + 1] == log;
  }

  lemma AddMeans(s: Series, c: Completed)
    ensures var t := Add(s, c);
            && t.name == s.name && t.calls == s.calls + 1 && t.errors == s.errors + (if c.failed then 1 else 0)
            && t.total == s.total + c.duration && t.longest >= s.longest && t.longest >= c.duration
            && (t.longest == s.longest || t.longest == c.duration)
  {
  }

  lemma {:induction false} QueryCounts(max: nat, log: seq<Completed>, name: string)
    ensures var s := Query(max, log, name);
            && s.name == name && s.calls == |CallsOf(max, log, name)| && s.errors == |FailuresOf(max, log, name)|
            && s.total == TimeOf(max, log, name)
    decreases |log|
  {
    hide Counted, Names, Add;
    if log != [] {
      var n, front := |log| - 1, log[..|log| - 1];
      QueryCounts(max, front, name);
      CountedSets(max, log, name);
      QueryStep(max, log, name);
      hide Query;
      AddMeans(Query(max, front, name), log[n]);
      assert n !in CallsOf(max, front, name) && n !in FailuresOf(max, front, name);
    }
  }

  lemma {:induction false} QueryLongest(max: nat, log: seq<Completed>, name: string)
    ensures var s := Query(max, log, name);
            if CallsOf(max, log, name) == {} then s.longest == 0 else IsLongest(max, log, name, s.longest)
    decreases |log|
  {
    hide Names, Add;
    if log != [] {
      var n, front := |log| - 1, log[..|log| - 1];
      QueryLongest(max, front, name);
      CountedSets(max, log, name);
      CountedBefore(max, log, name);
      QueryStep(max, log, name);
      var s := Query(max, front, name);
      hide Query, CallsOf, FailuresOf, Counted;
      if Counted(max, log, name, n) {
        NewLongest(max, log, name, s, Query(max, log, name));
      } else if CallsOf(max, log, name) != {} {
        OldLongest(max, log, name, s.longest);
      }
    }
  }

  lemma OldLongest(max: nat, log: seq<Completed>, name: string, longest: nat)
    requires log != [] && !Counted(max, log, name, |log| - 1) && IsLongest(max, log[..|log| - 1], name, longest)
    ensures IsLongest(max, log, name, longest)
  {
    hide Names;
    CountedBefore(max, log, name);
    var front := log[..|log| - 1];
    var k: nat :| Counted(max, front, name, k) && front[k].duration == longest;
    assert Counted(max, log, name, k);
    forall k: nat | Counted(max, log, name, k) ensures log[k].duration <= longest {
      assert Counted(max, front, name, k) && front[k] == log[k];
    }
  }

  lemma NewLongest(max: nat, log: seq<Completed>, name: string, s: Series, s': Series)
    requires log != [] && Counted(max, log, name, |log| - 1) && s' == Add(s, log[|log| - 1])
    requires var front := log[..|log| - 1];
             if CallsOf(max, front, name) == {} then s.longest == 0 else IsLongest(max, front, name, s.longest)
    ensures IsLongest(max, log, name, s'.longest)
  {
    var n, front := |log| - 1, log[..|log| - 1];
    CountedBefore(max, log, name);
    forall k: nat | Counted(max, log, name, k) ensures log[k].duration <= s'.longest {
      if k < n {
        assert Counted(max, front, name, k) && k in CallsOf(max, front, name) && front[k] == log[k];
      }
    }
    if s'.longest == log[n].duration {
      assert Counted(max, log, name, n);
    } else {
      var k: nat :| Counted(max, front, name, k) && front[k].duration == s.longest;
      assert Counted(max, log, name, k);
    }
  }

  /** A series counts the calls of its stage since it was stored, and the failed ones among them; it has the sum of their
      durations and the longest. */
  lemma SeriesMeans(max: nat, log: seq<Completed>, i: nat)
    requires i < |CompleteAll(max, log).series|
    ensures var s := CompleteAll(max, log).series[i];
            && s.calls == |CallsOf(max, log, s.name)| && s.errors == |FailuresOf(max, log, s.name)|
            && s.total == TimeOf(max, log, s.name) && IsLongest(max, log, s.name, s.longest)
  {
    hide CompleteAll, Query, CallsOf, FailuresOf, TimeOf, IsLongest;
    SeriesExact(max, log, i);
    var name := Names(max, log)[i];
    QueryCounts(max, log, name);
    QueryLongest(max, log, name);
    var k := FirstStored(max, log, name);
    CalledThen(max, log, name, k);
  }

  lemma CalledThen(max: nat, log: seq<Completed>, name: string, k: nat)
    requires Counted(max, log, name, k)
    ensures |CallsOf(max, log, name)| > 0
  {
    assert k in CallsOf(max, log, name);
  }

  /** A stage with a series was called when it got it. */
  lemma {:induction false} FirstStored(max: nat, log: seq<Completed>, name: string) returns (k: nat)
    requires name in Names(max, log)
    ensures Counted(max, log, name, k)
    decreases |log|
  {
    var n := |log| - 1;
    if name in Names(max, log[..n]) {
      k := FirstStored(max, log[..n], name);
      CountedBefore(max, log, name);
    } else {
      k := n;
      assert log[..n + 1] == log;
    }
  }

  ghost function Failures(log: seq<Completed>): set<nat> {
    set k: nat | k < |log| && log[k].failed
  }

  /** Call `k` is of a stage that has no series by then. */
  ghost predicate Uncounted(max: nat, log: seq<Completed>, k: nat) {
    k < |log| && log[k].stage !in Names(max, log[..k + 1])
  }

  ghost function Unseen(max: nat, log: seq<Completed>): set<nat> {
    set k: nat | k < |log| && Uncounted(max, log, k)
  }

  lemma UncountedBefore(max: nat, log: seq<Completed>)
    requires log != []
    ensures forall k: nat :: Uncounted(max, log[..|log| - 1], k) <==> Uncounted(max, log, k) && k < |log| - 1
    ensures Uncounted(max, log, |log| - 1) <==> log[|log| - 1].stage !in Names(max, log)
  {
    hide Names;
    var front := log[..|log| - 1];
    forall k: nat ensures Uncounted(max, front, k) <==> Uncounted(max, log, k) && k < |log| - 1 {
      if k < |front| {
        assert front[..k + 1] == log[..k + 1];
      }
    }
    assert log[..|log| - 1 + 1] == log;
  }

  lemma UnseenStep(max: nat, log: seq<Completed>)
    requires log != []
    ensures |Unseen(max, log)| == |Unseen(max, log[..|log| - 1])| + if log[|log| - 1].stage !in Names(max, log) then 1 else 0
  {
    UncountedBefore(max, log);
    hide Names, Uncounted;
    var n, front := |log| - 1, log[..|log| - 1];
    assert Unseen(max, log) == Unseen(max, front) + if log[n].stage !in Names(max, log) then {n} else {};
    assert n !in Unseen(max, front);
  }

  lemma FailuresStep(log: seq<Completed>)
    requires log != []
    ensures |Failures(log)| == |Failures(log[..|log| - 1])| + if log[|log| - 1].failed then 1 else 0
  {
    var n, front := |log| - 1, log[..|log| - 1];
    assert Failures(log) == Failures(front) + if log[n].failed then {n} else {};
    assert n !in Failures(front);
  }

  /** One call and the counters over all stages. */
  lemma StepTotals(s: Stages, max: nat, c: Completed)
    ensures var t := Complete(s, max, c);
            && t.calls == s.calls + 1 && t.errors == s.errors + (if c.failed then 1 else 0)
            && t.dropped == s.dropped + if c.stage in NamesOf(t.series) then 0 else 1
  {
    StepNames(s, max, c);
    Found(s.series, c.stage);
    NamesLength(s.series);
    hide NamesOf;
  }

  /** The counters over all stages: the failed calls, and the calls that went into no series. */
  lemma {:induction false} TotalsMean(max: nat, log: seq<Completed>)
    ensures var s := CompleteAll(max, log);
            s.calls == |log| && s.errors == |Failures(log)| && s.dropped == |Unseen(max, log)|
    decreases |log|
  {
    hide Complete, Names, NamesOf;
    if log != [] {
      var n, front := |log| - 1, log[..|log| - 1];
      TotalsMean(max, front);
      FailuresStep(log);
      UnseenStep(max, log);
      hide Failures, Unseen;
      SeriesNames(max, log);
      StepTotals(CompleteAll(max, front), max, log[n]);
    }
  }

  // ----- control events

  datatype Record<E> = Record(sequence: nat, event: E)

  datatype History<E> = History(next: nat, events: seq<Record<E>>, dropped: nat)

  /** Record an event; `pushed` says whether the deque took it. */
  function Push<E>(h: History<E>, max: nat, event: E, pushed: bool): History<E> {
    var next := h.next + 1;
    var pop := |h.events| == max && h.events != [];
    var rest := if pop then h.events[1..] else h.events;
    History(next, if pushed then rest + [Record(next, event)] else rest, h.dropped + if pop then 1 else 0)
  }

  function PushAll<E>(max: nat, events: seq<E>): History<E> {
    if events == [] then History(0, [], 0) else Push(PushAll(max, events[..|events| - 1]), max, events[|events| - 1], true)
  }

  ghost predicate IsTail<E>(h: History<E>, max: nat, events: seq<E>) {
    var n := |events|;
    && h.next == n && |h.events| == (if n < max then n else max) && h.dropped + |h.events| == n
    && forall i :: 0 <= i < |h.events| ==> h.events[i] == Record(h.dropped + i + 1, events[h.dropped + i])
  }

  lemma TailStep<E>(h: History<E>, max: nat, events: seq<E>, event: E)
    requires max > 0 && IsTail(h, max, events)
    ensures IsTail(Push(h, max, event, true), max, events + [event])
  {
  }

  /** The history is the last records, numbered without a gap, and nothing is lost without being counted. */
  lemma {:induction false} HistoryIsTail<E>(max: nat, events: seq<E>)
    requires max > 0
    ensures IsTail(PushAll(max, events), max, events)
    decreases |events|
  {
    hide Push, IsTail;
    if events == [] {
      NoEvents<E>(max);
    } else {
      var n := |events| - 1;
      HistoryIsTail(max, events[..n]);
      TailStep(PushAll(max, events[..n]), max, events[..n], events[n]);
      assert events[..n] + [events[n]] == events;
    }
  }

  lemma NoEvents<E>(max: nat)
    ensures IsTail(PushAll<E>(max, []), max, [])
  {
  }

  /** An event, and whether the deque took it. */
  datatype Attempt<E> = Attempt(event: E, pushed: bool)

  function PushLog<E>(max: nat, log: seq<Attempt<E>>): History<E> {
    if log == [] then History(0, [], 0)
    else var last := log[|log| - 1]; Push(PushLog(max, log[..|log| - 1]), max, last.event, last.pushed)
  }

  /** The records of the attempts that went through, numbered by the attempts. */
  function Taken<E>(log: seq<Attempt<E>>): seq<Record<E>> {
    if log == [] then []
    else
      var n := |log| - 1;
      Taken(log[..n]) + if log[n].pushed then [Record(n + 1, log[n].event)] else []
  }

  /** How many records are held: one more for an attempt that goes through, but a full history first loses one. */
  function Held<E>(max: nat, log: seq<Attempt<E>>): nat {
    if log == [] then 0
    else
      var before := Held(max, log[..|log| - 1]);
      (if before == max && max > 0 then max - 1 else before) + if log[|log| - 1].pushed then 1 else 0
  }

  ghost function Refusals<E>(log: seq<Attempt<E>>): set<nat> {
    set k: nat | k < |log| && !log[k].pushed
  }

  lemma RefusalsStep<E>(log: seq<Attempt<E>>)
    requires log != []
    ensures |Refusals(log)| == |Refusals(log[..|log| - 1])| + if log[|log| - 1].pushed then 0 else 1
  {
    var n, front := |log| - 1, log[..|log| - 1];
    assert Refusals(log) == Refusals(front) + if log[n].pushed then {} else {n};
    assert n !in Refusals(front);
  }

  lemma PushMeans<E>(h: History<E>, max: nat, event: E, pushed: bool, taken: seq<Record<E>>)
    requires max > 0 && |h.events| <= max && h.dropped + |h.events| == |taken| && h.events == taken[h.dropped..]
    ensures var t := Push(h, max, event, pushed);
            var taken' := taken + if pushed then [Record(h.next + 1, event)] else [];
            && t.next == h.next + 1 && t.dropped + |t.events| == |taken'| && t.events == taken'[t.dropped..]
            && |t.events| == (if |h.events| == max then max - 1 else |h.events|) + if pushed then 1 else 0
  {
    var rest := if |h.events| == max then h.events[1..] else h.events;
    var d := h.dropped + if |h.events| == max then 1 else 0;
    assert rest == taken[d..];
    assert (taken + [Record(h.next + 1, event)])[d..] == taken[d..] + [Record(h.next + 1, event)];
  }

  /** Over every sequence of attempts, failed ones too, the history is the end of what went through, and every number
      given out is of a record held, dropped or refused. */
  lemma {:induction false} HistoryMeans<E>(max: nat, log: seq<Attempt<E>>)
    requires max > 0
    ensures var h := PushLog(max, log);
            && h.next == |log| && |h.events| == Held(max, log) <= max
            && h.dropped + |h.events| == |Taken(log)| && h.events == Taken(log)[h.dropped..]
            && h.dropped + |h.events| + |Refusals(log)| == h.next
    decreases |log|
  {
    hide Push;
    if log != [] {
      var n, front := |log| - 1, log[..|log| - 1];
      HistoryMeans(max, front);
      RefusalsStep(log);
      hide Refusals;
      PushMeans(PushLog(max, front), max, log[n].event, log[n].pushed, Taken(front));
    }
  }

  /** The numbers go up, and each is that of the attempt with the event. */
  lemma {:induction false} TakenNumbers<E>(log: seq<Attempt<E>>)
    ensures forall i :: 0 <= i < |Taken(log)| ==>
              var x := Taken(log)[i]; 0 < x.sequence <= |log| && log[x.sequence - 1] == Attempt(x.event, true)
    ensures forall i, j :: 0 <= i < j < |Taken(log)| ==> Taken(log)[i].sequence < Taken(log)[j].sequence
    decreases |log|
  {
    if log != [] {
      TakenNumbers(log[..|log| - 1]);
    }
  }

  // ----- the observer

  class Observer<E> {
    const maxStages: nat
    const maxEvents: nat
    var stageCalls: nat
    var stageErrors: nat
    var series: seq<Series>
    var droppedSeries: nat
    var nextSequence: nat
    var events: seq<Record<E>>
    var droppedEvents: nat

    constructor (maxStages: nat, maxEvents: nat)
      requires maxStages > 0 && maxEvents > 0
      ensures this.maxStages == maxStages && this.maxEvents == maxEvents
      ensures StagesNow() == CompleteAll(maxStages, []) && HistoryNow() == PushAll(maxEvents, [])
    {
      this.maxStages, this.maxEvents := maxStages, maxEvents;
      stageCalls, stageErrors, series, droppedSeries := 0, 0, [], 0;
      nextSequence, events, droppedEvents := 0, [], 0;
    }

    ghost function StagesNow(): Stages
      reads this
    {
      Stages(stageCalls, stageErrors, series, droppedSeries)
    }

    ghost function HistoryNow(): History<E>
      reads this
    {
      History(nextSequence, events, droppedEvents)
    }

    method FindStage(name: string) returns (i: nat)
      ensures i <= |series| && (i < |series| ==> series[i].name == name)
      ensures forall k :: 0 <= k < i ==> series[k].name != name
      ensures i == FindFrom(series, name, 0)
    {
      i := 0;
      while i < |series| && series[i].name != name
        invariant i <= |series| && FindFrom(series, name, 0) == FindFrom(series, name, i)
        invariant forall k :: 0 <= k < i ==> series[k].name != name
      {
        i := i + 1;
      }
    }

    method StageComplete(c: Completed)
      modifies this
      ensures StagesNow() == Complete(old(StagesNow()), maxStages, c) && HistoryNow() == old(HistoryNow())
    {
      stageCalls := stageCalls + 1;
      if c.failed {
        stageErrors := stageErrors + 1;
      }
      var i := FindStage(c.stage);
      if i == |series| && |series| < maxStages && c.stored {
        series := series + [Series(c.stage, 0, 0, 0, 0)];
      }
      if i < |series| {
        var s := series[i];
        var errors := if c.failed then s.errors + 1 else s.errors;
        var longest := if c.duration > s.longest then c.duration else s.longest;
        series := series[i := Series(s.name, s.calls + 1, errors, s.total + c.duration, longest)];
      } else {
        droppedSeries := droppedSeries + 1;
      }
    }

    method RecordControlEvent(event: E, pushed: bool)
      modifies this
      ensures HistoryNow() == Push(old(HistoryNow()), maxEvents, event, pushed) && StagesNow() == old(StagesNow())
    {
      nextSequence := nextSequence + 1;
      if |events| == maxEvents && events != [] {
        events, droppedEvents := events[1..], droppedEvents + 1;
      }
      if pushed {
        events := events + [Record(nextSequence, event)];
      }
    }
  }
}
