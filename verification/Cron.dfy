/** The cron source and timer slices. */
module Cron {
  // From schedule/src/flow_schedule.c: the catch-up cursor with its bounded emission.

  import opened Wrappers

  // ----- timer slices

  const NATIVE_TIMER_MAX: nat := 0xFFFF_FFFE

  function SliceCount(delay: nat): (n: nat)
    ensures delay > 0 ==> n > 0 && (n - 1) * NATIVE_TIMER_MAX < delay <= n * NATIVE_TIMER_MAX
  {
    delay / NATIVE_TIMER_MAX + if delay % NATIVE_TIMER_MAX != 0 then 1 else 0
  }

  function TimerSlice(delay: nat): nat {
    if delay <= NATIVE_TIMER_MAX then delay
    else
      var n := SliceCount(delay);
      delay / n + if delay % n != 0 then 1 else 0
  }

  /** The slices fit the native timer, exactly as many as needed cover the delay, and they overshoot it by less than
      one millisecond each. */
  lemma SlicesCoverDelay(delay: nat)
    requires delay > 0
    ensures var n, slice := SliceCount(delay), TimerSlice(delay);
            && 0 < slice <= NATIVE_TIMER_MAX
            && (n - 1) * slice < delay <= n * slice
            && n * slice - delay < n
  {
    var n, slice := SliceCount(delay), TimerSlice(delay);
    if delay <= NATIVE_TIMER_MAX {
      assert n == 1;
    } else {
      MulCancel(n, slice - 1, NATIVE_TIMER_MAX);
      MulMono(n - 1, slice, NATIVE_TIMER_MAX);
    }
  }

  lemma MulCancel(n: nat, a: int, b: int)
    requires n * a < n * b
    ensures a < b
  {
  }

  lemma MulMono(n: nat, a: int, b: int)
    requires a <= b
    ensures n * a <= n * b
  {
  }

  // ----- the cron cursor

  /** The remainder of C, with the sign of the dividend. */
  function Remainder(x: int, m: int): int
    requires m > 0
  {
    if x >= 0 then x % m else -((-x) % m)
  }

  function FloorMinute(value: int): (minute: int)
    ensures minute % 60 == 0 && minute <= value < minute + 60
  {
    var r := Remainder(value, 60);
    value - if r < 0 then r + 60 else r
  }

  /** How the emission of one advance ends: at the current minute, truncated, or with an error of the cron oracle or
      of a publication. */
  datatype End = Reached | Truncated | NoNext | Rejected

  datatype Emission = Emission(fires: seq<int>, end: End)

  /** The cursor (0 while unset), the fire times published so far, and the truncation counter. */
  datatype Source = Source(cursor: int, fires: seq<int>, truncations: nat)

  /** One call: its time, what the cron oracle answers, and which publications succeed. */
  datatype Call = Call(now: int, next: int -> Option<int>, accepts: int -> bool)

  /** The oracle answers with the least match after its argument, or fails. */
  ghost predicate Answers(hits: int -> bool, next: int -> Option<int>) {
    forall t :: next(t).Some? ==> Follows(hits, t, next(t).value)
  }

  ghost predicate Follows(hits: int -> bool, t: int, r: int) {
    t < r && hits(r) && forall u :: t < u < r ==> !hits(u)
  }

  /** The emission loop from `check` on, with `left` more publications allowed. */
  function Emit(call: Call, check: int, minute: int, left: nat): Emission
    decreases left, 1
  {
    var fire := call.next(check);
    if fire.None? then Emission([], NoNext)
    else if fire.value > minute then Emission([], Reached)
    else if left == 0 then Emission([], Truncated)
    else if !call.accepts(fire.value) then Emission([], Rejected)
    else
      var rest := Emit(call, fire.value, minute, left - 1);
      Emission([fire.value] + rest.fires, rest.end)
  }

  /** Where the window of a call begins, for a call that has one. */
  function From(s: Source, minute: int): int {
    if s.cursor == 0 then minute - 60 else s.cursor
  }

  predicate Skips(s: Source, minute: int) {
    s.cursor != 0 && minute <= s.cursor
  }

  function EmitAll(s: Source, call: Call, limit: nat): Emission {
    var minute := FloorMinute(call.now);
    Emit(call, From(s, minute), minute, limit + 1)
  }

  function Advance(s: Source, call: Call, limit: nat): Source {
    var minute := FloorMinute(call.now);
    if Skips(s, minute) then s
    else
      var e := EmitAll(s, call, limit);
      Source(minute, s.fires + e.fires, s.truncations + if e.end == Truncated then 1 else 0)
  }

  // ----- one call

  ghost predicate Increasing(fires: seq<int>) {
    forall i, j :: 0 <= i < j < |fires| ==> fires[i] < fires[j]
  }

  /** The fire times are the first matches after `from`, up to and including `upTo`. */
  ghost predicate AllMatches(hits: int -> bool, from: int, upTo: int, fires: seq<int>) {
    && Increasing(fires)
    && (forall i :: 0 <= i < |fires| ==> from < fires[i] <= upTo && hits(fires[i]))
    && (forall u :: from < u <= upTo && hits(u) ==> u in fires)
  }

  /** The matches in the window still held one more than were published. */
  ghost predicate HeldMore(hits: int -> bool, from: int, minute: int) {
    exists u :: from < u <= minute && hits(u)
  }

  /** Where the published fire times end. */
  function Last(from: int, fires: seq<int>): int {
    if fires == [] then from else fires[|fires| - 1]
  }

  /** The published fire times are the first matches of the window: all of them if the emission reached the current
      minute, as many as allowed and not all if it was truncated. */
  ghost predicate FirstMatches(hits: int -> bool, check: int, minute: int, left: nat, e: Emission) {
    && |e.fires| <= left
    && Last(check, e.fires) <= minute
    && AllMatches(hits, check, Last(check, e.fires), e.fires)
    && (e.end == Reached ==> AllMatches(hits, check, minute, e.fires))
    && (e.end == Truncated ==> |e.fires| == left && HeldMore(hits, Last(check, e.fires), minute))
  }

  lemma NextMatch(hits: int -> bool, check: int, fire: int, upTo: int, rest: seq<int>)
    requires Follows(hits, check, fire) && fire <= upTo && AllMatches(hits, fire, upTo, rest)
    ensures AllMatches(hits, check, upTo, [fire] + rest)
  {
    var fires := [fire] + rest;
    forall u | check < u <= upTo && hits(u) ensures u in fires {
      if u == fire {
        assert fires[0] == u;
      } else {
        assert u in rest;
      }
    }
  }

  lemma NoMatch(hits: int -> bool, check: int, upTo: int)
    requires forall u :: check < u <= upTo ==> !hits(u)
    ensures AllMatches(hits, check, upTo, [])
  {
  }

  lemma {:induction false} EmitsFirstMatches(hits: int -> bool, call: Call, check: int, minute: int, left: nat)
    requires Answers(hits, call.next) && check <= minute
    ensures FirstMatches(hits, check, minute, left, Emit(call, check, minute, left))
    decreases left
  {
    hide AllMatches;
    NoMatch(hits, check, check);
    var fire := call.next(check);
    if fire.Some? {
      assert Follows(hits, check, fire.value);
      if fire.value > minute {
        NoMatch(hits, check, minute);
      } else if left > 0 && call.accepts(fire.value) {
        EmitsFirstMatches(hits, call, fire.value, minute, left - 1);
        OneMore(hits, check, fire.value, minute, left - 1, Emit(call, fire.value, minute, left - 1));
      }
    }
  }

  lemma OneMore(hits: int -> bool, check: int, fire: int, minute: int, left: nat, rest: Emission)
    requires Follows(hits, check, fire) && fire <= minute && FirstMatches(hits, fire, minute, left, rest)
    ensures FirstMatches(hits, check, minute, left + 1, Emission([fire] + rest.fires, rest.end))
  {
    NextMatch(hits, check, fire, Last(fire, rest.fires), rest.fires);
    if rest.end == Reached {
      NextMatch(hits, check, fire, minute, rest.fires);
    }
    hide AllMatches, HeldMore;
    assert Last(check, [fire] + rest.fires) == Last(fire, rest.fires);
  }

  // ----- every run

  /** The calls after one another, from a started source. */
  function Run(calls: seq<Call>, limit: nat): Source {
    if calls == [] then Source(0, [], 0)
    else Advance(Run(calls[..|calls| - 1], limit), calls[|calls| - 1], limit)
  }

  ghost predicate Proper(hits: int -> bool, calls: seq<Call>) {
    forall k :: 0 <= k < |calls| ==> Answers(hits, calls[k].next) && FloorMinute(calls[k].now) != 0
  }

  /** The fire times of a run increase strictly, so no minute is published twice, and all match. */
  ghost predicate Once(hits: int -> bool, s: Source) {
    && Increasing(s.fires)
    && (forall i :: 0 <= i < |s.fires| ==> hits(s.fires[i]) && s.fires[i] <= s.cursor)
    && (s.cursor == 0 ==> s.fires == [])
  }

  lemma {:induction false} EachMinuteOnce(hits: int -> bool, calls: seq<Call>, limit: nat)
    requires Proper(hits, calls)
    ensures Once(hits, Run(calls, limit))
    ensures calls != [] ==> Run(calls, limit).cursor != 0
    decreases |calls|
  {
    if calls != [] {
      var n := |calls| - 1;
      EachMinuteOnce(hits, calls[..n], limit);
      AdvanceOnce(hits, Run(calls[..n], limit), calls[n], limit);
    }
  }

  lemma AdvanceOnce(hits: int -> bool, s: Source, call: Call, limit: nat)
    requires Answers(hits, call.next) && FloorMinute(call.now) != 0 && Once(hits, s)
    ensures Once(hits, Advance(s, call, limit)) && Advance(s, call, limit).cursor != 0
    ensures |Advance(s, call, limit).fires| <= |s.fires| + limit + 1
  {
    var minute := FloorMinute(call.now);
    if !Skips(s, minute) {
      hide Answers, Emit;
      EmitsFirstMatches(hits, call, From(s, minute), minute, limit + 1);
    }
  }

  /** The run has no truncated and no failed call. */
  ghost predicate Clean(calls: seq<Call>, limit: nat) {
    forall k :: 0 <= k < |calls| ==> CleanCall(Run(calls[..k], limit), calls[k], limit)
  }

  predicate CleanCall(s: Source, call: Call, limit: nat) {
    Skips(s, FloorMinute(call.now)) || EmitAll(s, call, limit).end == Reached
  }

  lemma CleanPrefix(calls: seq<Call>, n: nat, limit: nat)
    requires Clean(calls, limit) && n <= |calls|
    ensures Clean(calls[..n], limit)
  {
    hide CleanCall, Run;
    forall k | 0 <= k < n ensures CleanCall(Run(calls[..n][..k], limit), calls[..n][k], limit) {
      assert calls[..n][..k] == calls[..k];
    }
  }

  lemma CleanAdvance(hits: int -> bool, s: Source, call: Call, limit: nat, from: int)
    requires Answers(hits, call.next) && FloorMinute(call.now) != 0 && CleanCall(s, call, limit)
    requires if s.cursor == 0 then s.fires == [] && from == FloorMinute(call.now) - 60
             else from <= s.cursor && AllMatches(hits, from, s.cursor, s.fires)
    ensures var t := Advance(s, call, limit); t.cursor != 0 && from <= t.cursor && AllMatches(hits, from, t.cursor, t.fires)
  {
    hide AllMatches, Answers;
    var minute := FloorMinute(call.now);
    if !Skips(s, minute) {
      var fires := EmitAll(s, call, limit).fires;
      EmitsFirstMatches(hits, call, From(s, minute), minute, limit + 1);
      if s.cursor == 0 {
        assert s.fires + fires == fires;
      } else {
        Joined(hits, from, s.cursor, s.fires, minute, fires);
      }
    }
  }

  /** Without truncation or failure the run publishes exactly the matching minutes from the one of its first call on. */
  lemma {:induction false} CleanRunMissesNothing(hits: int -> bool, calls: seq<Call>, limit: nat)
    requires Proper(hits, calls) && Clean(calls, limit) && calls != []
    ensures var (s, from) := (Run(calls, limit), FloorMinute(calls[0].now) - 60);
            s.cursor != 0 && from <= s.cursor && AllMatches(hits, from, s.cursor, s.fires)
    decreases |calls|
  {
    hide AllMatches, Answers, CleanCall, Advance;
    var n := |calls| - 1;
    var s := Run(calls[..n], limit);
    assert CleanCall(s, calls[n], limit);
    if n > 0 {
      CleanPrefix(calls, n, limit);
      CleanRunMissesNothing(hits, calls[..n], limit);
    }
    CleanAdvance(hits, s, calls[n], limit, FloorMinute(calls[0].now) - 60);
  }

  lemma Joined(hits: int -> bool, from: int, mid: int, left: seq<int>, upTo: int, right: seq<int>)
    requires AllMatches(hits, from, mid, left) && AllMatches(hits, mid, upTo, right) && from <= mid <= upTo
    ensures AllMatches(hits, from, upTo, left + right)
  {
  }

  /** Two lists of first matches agree as far as both go. */
  lemma {:induction false} MatchesAgree(hits: int -> bool, from: int, upTo: int, minute: int,
                                        fires: seq<int>, window: seq<int>, i: nat)
    requires AllMatches(hits, from, upTo, fires) && AllMatches(hits, from, minute, window) && upTo <= minute
    requires i < |fires|
    ensures i < |window| && fires[i] == window[i]
    decreases i
  {
    forall j | 0 <= j < i ensures j < |window| && fires[j] == window[j] {
      MatchesAgree(hits, from, upTo, minute, fires, window, j);
    }
    assert fires[i] in window;
    var k :| 0 <= k < |window| && window[k] == fires[i];
    if i < k {
      assert window[i] in fires;
    }
  }

  /** If a call does not fail, it publishes the first matching minutes of its window, up to one more than the catch-up
      limit, and counts a truncation exactly if the window held more. */
  lemma CatchUpExact(hits: int -> bool, s: Source, call: Call, limit: nat, window: seq<int>)
    requires Answers(hits, call.next) && !Skips(s, FloorMinute(call.now))
    requires AllMatches(hits, From(s, FloorMinute(call.now)), FloorMinute(call.now), window)
    ensures var (e, t) := (EmitAll(s, call, limit), Advance(s, call, limit));
            && e.fires <= window && |e.fires| <= limit + 1 && t.fires == s.fires + e.fires
            && (e.end == Reached || e.end == Truncated ==>
                  && e.fires == (if |window| <= limit + 1 then window else window[..limit + 1])
                  && (t.truncations == s.truncations + 1 <==> |window| > limit + 1))
  {
    hide AllMatches, Answers;
    var minute := FloorMinute(call.now);
    var from, e := From(s, minute), EmitAll(s, call, limit);
    EmitsFirstMatches(hits, call, from, minute, limit + 1);
    Prefix(hits, from, Last(from, e.fires), minute, e.fires, window);
    if e.end == Reached {
      Prefix(hits, from, minute, minute, window, e.fires);
    } else if e.end == Truncated {
      WindowHeldMore(hits, from, minute, e.fires, window);
    }
  }

  lemma WindowHeldMore(hits: int -> bool, from: int, minute: int, fires: seq<int>, window: seq<int>)
    requires AllMatches(hits, from, minute, window) && AllMatches(hits, from, Last(from, fires), fires)
    requires HeldMore(hits, Last(from, fires), minute) && fires <= window
    ensures |window| > |fires|
  {
    var u :| Last(from, fires) < u <= minute && hits(u);
    assert u in window && u !in fires;
  }

  lemma Prefix(hits: int -> bool, from: int, upTo: int, minute: int, fires: seq<int>, window: seq<int>)
    requires AllMatches(hits, from, upTo, fires) && AllMatches(hits, from, minute, window) && upTo <= minute
    ensures fires <= window
  {
    hide AllMatches;
    forall i | 0 <= i < |fires| ensures i < |window| && fires[i] == window[i] {
      MatchesAgree(hits, from, upTo, minute, fires, window, i);
    }
    if fires != [] {
      MatchesAgree(hits, from, upTo, minute, fires, window, |fires| - 1);
    }
    assert fires == window[..|fires|];
  }

  // ----- every call of every run, truncated and failed ones included

  /** The matches after `from`, up to and including `upTo`. */
  function Matches(hits: int -> bool, from: int, upTo: int): seq<int>
    decreases upTo - from
  {
    if upTo <= from then [] else Matches(hits, from, upTo - 1) + if hits(upTo) then [upTo] else []
  }

  lemma {:induction false} MatchesAre(hits: int -> bool, from: int, upTo: int)
    ensures AllMatches(hits, from, upTo, Matches(hits, from, upTo))
    decreases upTo - from
  {
    if from < upTo {
      MatchesAre(hits, from, upTo - 1);
    }
  }

  /** Where the oracle is asked for the match `i` of a window. */
  function Check(from: int, window: seq<int>, i: nat): int
    requires i <= |window|
  {
    if i == 0 then from else window[i - 1]
  }

  function Least(a: nat, b: nat): nat {
    if a < b then a else b
  }

  /** Of the matches of its window a call publishes the first `n`: as many as the limit allows, or up to the first for
      which the oracle or the publication fails. */
  ghost predicate PublishesFirst(call: Call, from: int, window: seq<int>, limit: nat, n: nat) {
    && n <= Least(|window|, limit + 1)
    && (forall i: nat :: i < n ==> call.next(Check(from, window, i)).Some? && call.accepts(window[i]))
    && (n == Least(|window|, limit + 1) || call.next(Check(from, window, n)).None? || !call.accepts(window[n]))
  }

  /** How it ends then. */
  function EndsBy(call: Call, from: int, window: seq<int>, limit: nat, n: nat): End
    requires n <= |window|
  {
    if call.next(Check(from, window, n)).None? then NoNext
    else if n == |window| then Reached
    else if n == limit + 1 then Truncated
    else Rejected
  }

  /** The matches behind the first one. */
  lemma RestOfMatches(hits: int -> bool, from: int, minute: int, fire: int)
    requires Follows(hits, from, fire) && fire <= minute
    ensures Matches(hits, from, minute) == [fire] + Matches(hits, fire, minute)
  {
    hide AllMatches;
    MatchesAre(hits, from, minute);
    MatchesAre(hits, fire, minute);
    NextMatch(hits, from, fire, minute, Matches(hits, fire, minute));
    Prefix(hits, from, minute, minute, Matches(hits, from, minute), [fire] + Matches(hits, fire, minute));
    Prefix(hits, from, minute, minute, [fire] + Matches(hits, fire, minute), Matches(hits, from, minute));
  }

  lemma NoMatches(hits: int -> bool, from: int, minute: int, fire: int)
    requires Follows(hits, from, fire) && minute < fire
    ensures Matches(hits, from, minute) == []
  {
    hide Matches;
    MatchesAre(hits, from, minute);
    NoMatch(hits, from, minute);
    Prefix(hits, from, minute, minute, Matches(hits, from, minute), []);
  }

  lemma {:induction false} EmitIs(hits: int -> bool, call: Call, from: int, minute: int, left: nat) returns (n: nat)
    requires Answers(hits, call.next) && left > 0
    ensures var (e, window) := (Emit(call, from, minute, left), Matches(hits, from, minute));
            PublishesFirst(call, from, window, left - 1, n) && e == Emission(window[..n], EndsBy(call, from, window, left - 1, n))
    decreases left
  {
    n := 0;
    var fire, window := call.next(from), Matches(hits, from, minute);
    if fire.Some? {
      assert Follows(hits, from, fire.value);
      if fire.value > minute {
        NoMatches(hits, from, minute, fire.value);
      } else {
        RestOfMatches(hits, from, minute, fire.value);
        if call.accepts(fire.value) {
          n := EmitBehind(hits, call, from, minute, left, fire.value);
        }
      }
    }
  }

  lemma EmitBehind(hits: int -> bool, call: Call, from: int, minute: int, left: nat, fire: int) returns (n: nat)
    requires Answers(hits, call.next) && left > 0 && call.next(from) == Some(fire) && fire <= minute && call.accepts(fire)
    requires Matches(hits, from, minute) == [fire] + Matches(hits, fire, minute)
    ensures var (e, window) := (Emit(call, from, minute, left), Matches(hits, from, minute));
            PublishesFirst(call, from, window, left - 1, n) && e == Emission(window[..n], EndsBy(call, from, window, left - 1, n))
    decreases left, 0
  {
    hide Answers, Matches;
    var window, rest := Matches(hits, from, minute), Matches(hits, fire, minute);
    if left == 1 {
      n := 1;
      LastEmission(hits, call, fire, minute);
      assert window[..1] == [fire];
    } else {
      var k := EmitIs(hits, call, fire, minute, left - 1);
      n := k + 1;
      ShiftFirst(call, from, fire, rest, left - 2, k);
      hide PublishesFirst, EndsBy;
      assert window[..n] == [fire] + rest[..k];
    }
  }

  lemma ShiftFirst(call: Call, from: int, fire: int, rest: seq<int>, limit: nat, k: nat)
    requires call.next(from).Some? && call.accepts(fire) && PublishesFirst(call, fire, rest, limit, k)
    ensures var window := [fire] + rest;
            && PublishesFirst(call, from, window, limit + 1, k + 1)
            && EndsBy(call, from, window, limit + 1, k + 1) == EndsBy(call, fire, rest, limit, k)
  {
    var window := [fire] + rest;
    forall i: nat | i <= |rest| ensures Check(from, window, i + 1) == Check(fire, rest, i) {
    }
    forall i: nat | i < k + 1 ensures call.next(Check(from, window, i)).Some? && call.accepts(window[i]) {
      if i > 0 {
        assert call.next(Check(fire, rest, i - 1)).Some? && call.accepts(rest[i - 1]);
      }
    }
  }

  /** With no publication left, the loop only looks whether there is more. */
  lemma LastEmission(hits: int -> bool, call: Call, check: int, minute: int)
    requires Answers(hits, call.next)
    ensures var (e, rest) := (Emit(call, check, minute, 0), Matches(hits, check, minute));
            && e.fires == []
            && e.end == if call.next(check).None? then NoNext else if rest == [] then Reached else Truncated
  {
    var fire := call.next(check);
    if fire.Some? {
      assert Follows(hits, check, fire.value);
      if fire.value > minute {
        NoMatches(hits, check, minute, fire.value);
      } else {
        RestOfMatches(hits, check, minute, fire.value);
      }
    }
  }

  /** The latest minute of the calls. */
  function LatestMinute(calls: seq<Call>): int
    requires calls != []
  {
    var minute := FloorMinute(calls[|calls| - 1].now);
    if |calls| == 1 then minute
    else var before := LatestMinute(calls[..|calls| - 1]); if before < minute then minute else before
  }

  /** Where the window of call `k` begins: behind the latest minute of the calls before it. */
  function WindowStart(calls: seq<Call>, k: nat): int
    requires k < |calls|
  {
    if k == 0 then FloorMinute(calls[0].now) - 60 else LatestMinute(calls[..k])
  }

  /** What call `k` publishes, and whether it is truncated, from the calls alone. */
  ghost predicate Publishes(hits: int -> bool, calls: seq<Call>, limit: nat, k: nat, fires: seq<int>, truncated: bool) {
    && k < |calls|
    && var (from, minute) := (WindowStart(calls, k), FloorMinute(calls[k].now));
    && var window := Matches(hits, from, minute);
    if minute <= from then fires == [] && !truncated
    else exists n: nat ::
      && PublishesFirst(calls[k], from, window, limit, n) && fires == window[..n]
      && (truncated <==> EndsBy(calls[k], from, window, limit, n) == Truncated)
  }

  datatype Part = Part(fires: seq<int>, truncated: bool)

  function AllFires(parts: seq<Part>): seq<int> {
    if parts == [] then [] else AllFires(parts[..|parts| - 1]) + parts[|parts| - 1].fires
  }

  function Truncations(parts: seq<Part>): nat {
    if parts == [] then 0 else Truncations(parts[..|parts| - 1]) + if parts[|parts| - 1].truncated then 1 else 0
  }

  /** However a call ends, the cursor is at its minute, unless it was not ahead of the cursor. */
  lemma CursorAfter(s: Source, call: Call, limit: nat)
    ensures var (t, minute) := (Advance(s, call, limit), FloorMinute(call.now));
            if s.cursor != 0 && minute <= s.cursor then t == s else t.cursor == minute
  {
  }

  lemma AdvanceIs(hits: int -> bool, calls: seq<Call>, limit: nat, s: Source) returns (part: Part)
    requires calls != [] && Proper(hits, calls) && s.cursor == if |calls| == 1 then 0 else LatestMinute(calls[..|calls| - 1])
    ensures var t := Advance(s, calls[|calls| - 1], limit);
            && Publishes(hits, calls, limit, |calls| - 1, part.fires, part.truncated)
            && t == Source(LatestMinute(calls), s.fires + part.fires, s.truncations + if part.truncated then 1 else 0)
  {
    hide Advance, Answers, PublishesFirst, EndsBy, Matches;
    var k := |calls| - 1;
    var call := calls[k];
    var minute, from := FloorMinute(call.now), WindowStart(calls, k);
    assert calls[..k] == calls[..|calls| - 1];
    if k > 0 {
      LatestNotZero(hits, calls[..k]);
    }
    if minute <= from {
      part := Part([], false);
      assert s.fires + [] == s.fires;
      CursorAfter(s, call, limit);
    } else {
      var n := AdvancesBy(hits, s, call, limit, from);
      var window := Matches(hits, from, minute);
      part := Part(window[..n], EndsBy(call, from, window, limit, n) == Truncated);
    }
  }

  lemma AdvancesBy(hits: int -> bool, s: Source, call: Call, limit: nat, from: int) returns (n: nat)
    requires Answers(hits, call.next) && !Skips(s, FloorMinute(call.now)) && from == From(s, FloorMinute(call.now))
    ensures var (window, minute) := (Matches(hits, from, FloorMinute(call.now)), FloorMinute(call.now));
            && n <= |window| && PublishesFirst(call, from, window, limit, n)
            && Advance(s, call, limit) ==
                 Source(minute, s.fires + window[..n], s.truncations + if EndsBy(call, from, window, limit, n) == Truncated then 1 else 0)
  {
    hide Answers, EndsBy, Matches, Emit;
    CursorAfter(s, call, limit);
    n := EmitIs(hits, call, from, FloorMinute(call.now), limit + 1);
  }

  lemma {:induction false} LatestNotZero(hits: int -> bool, calls: seq<Call>)
    requires calls != [] && Proper(hits, calls)
    ensures LatestMinute(calls) != 0
    decreases |calls|
  {
    hide Answers;
    assert FloorMinute(calls[|calls| - 1].now) != 0;
    if |calls| > 1 {
      LatestNotZero(hits, calls[..|calls| - 1]);
    }
  }

  /** Every run outside minute 0: call by call it publishes the first matches behind the latest minute before, whatever
      was truncated or failed; and the cursor is at the latest minute. */
  lemma {:induction false} EveryRunExact(hits: int -> bool, calls: seq<Call>, limit: nat) returns (parts: seq<Part>)
    requires Proper(hits, calls)
    ensures |parts| == |calls|
    ensures forall k: nat :: k < |calls| ==> Publishes(hits, calls, limit, k, parts[k].fires, parts[k].truncated)
    ensures Run(calls, limit) == Source(if calls == [] then 0 else LatestMinute(calls), AllFires(parts), Truncations(parts))
    decreases |calls|
  {
    hide Advance, LatestMinute, Answers, Publishes;
    parts := [];
    if calls != [] {
      var n := |calls| - 1;
      var before := EveryRunExact(hits, calls[..n], limit);
      var part := AdvanceIs(hits, calls, limit, Run(calls[..n], limit));
      parts := before + [part];
      assert parts[..n] == before;
      forall k: nat | k < n ensures Publishes(hits, calls, limit, k, parts[k].fires, parts[k].truncated) {
        SameCall(hits, calls, limit, k, parts[k].fires, parts[k].truncated, n);
      }
    }
  }

  lemma SameCall(hits: int -> bool, calls: seq<Call>, limit: nat, k: nat, fires: seq<int>, truncated: bool, n: nat)
    requires k < n <= |calls| && Publishes(hits, calls[..n], limit, k, fires, truncated)
    ensures Publishes(hits, calls, limit, k, fires, truncated)
  {
    hide PublishesFirst, Matches, EndsBy;
    assert calls[..n][..k] == calls[..k] && calls[..n][k] == calls[k] && calls[..n][0] == calls[0];
  }

  // ----- calls in the minute 0

  // The cursor value 0 means that the source has no cursor yet, also after a call in the minute 0.

  /** At or after the epoch, with the oracle of the schedule. */
  ghost predicate Timely(hits: int -> bool, calls: seq<Call>) {
    forall k :: 0 <= k < |calls| ==> Answers(hits, calls[k].next) && calls[k].now >= 0
  }

  /** All calls are in the minute 0. */
  predicate AllZero(calls: seq<Call>) {
    forall k :: 0 <= k < |calls| ==> FloorMinute(calls[k].now) == 0
  }

  /** A call in the minute 0, with no cursor, publishes something. */
  predicate PublishesZero(call: Call) {
    var fire := call.next(-60); fire.Some? && fire.value <= 0 && call.accepts(fire.value)
  }

  /** Of the calls in the minute 0 before the first later one, at most one publishes. */
  ghost predicate AtMostOnce(calls: seq<Call>) {
    forall i, j :: 0 <= i < j < |calls| && AllZero(calls[..j + 1]) ==> !(PublishesZero(calls[i]) && PublishesZero(calls[j]))
  }

  ghost predicate Silent(calls: seq<Call>) {
    forall i :: 0 <= i < |calls| ==> !PublishesZero(calls[i])
  }

  /** What a run of calls in the minute 0 has published begins with the first match after the minute before. */
  ghost predicate ZeroState(hits: int -> bool, calls: seq<Call>, s: Source) {
    && s.cursor == 0 && (s.fires == [] <==> Silent(calls))
    && (s.fires != [] ==> Follows(hits, -60, s.fires[0]))
  }

  lemma ZeroCall(hits: int -> bool, s: Source, call: Call, limit: nat)
    requires Answers(hits, call.next) && FloorMinute(call.now) == 0 && s.cursor == 0
    ensures var e := EmitAll(s, call, limit);
      && Advance(s, call, limit).fires == s.fires + e.fires && Advance(s, call, limit).cursor == 0
      && (e.fires != [] <==> PublishesZero(call)) && (e.fires != [] ==> Follows(hits, -60, e.fires[0]))
      && Increasing(e.fires) && (forall i :: 0 <= i < |e.fires| ==> -60 < e.fires[i] <= 0)
      && (e.end == Reached ==> AllMatches(hits, -60, 0, e.fires))
  {
    EmitsFirstMatches(hits, call, -60, 0, limit + 1);
    if call.next(-60).Some? {
      assert Follows(hits, -60, call.next(-60).value);
    }
  }

  lemma ZeroMore(calls: seq<Call>, call: Call)
    ensures Silent(calls + [call]) <==> Silent(calls) && !PublishesZero(call)
    ensures AllZero(calls + [call]) <==> AllZero(calls) && FloorMinute(call.now) == 0
    ensures AtMostOnce(calls + [call]) <==> AtMostOnce(calls) && !(AllZero(calls + [call]) && !Silent(calls) && PublishesZero(call))
  {
    var more := calls + [call];
    assert forall i :: 0 <= i < |calls| ==> more[i] == calls[i];
    assert more[|calls|] == call;
    assert more[..|calls| + 1] == more;
    forall j | 0 <= j <= |calls| ensures more[..j] == calls[..j] {
    }
  }

  /** What holds after any calls at or after the epoch. */
  ghost predicate OnceState(hits: int -> bool, calls: seq<Call>, s: Source) {
    && (AllZero(calls) ==> ZeroState(hits, calls, s))
    && (!AllZero(calls) ==> s.cursor > 0)
    && (forall i :: 0 <= i < |s.fires| ==> s.fires[i] <= s.cursor)
    && (Increasing(s.fires) <==> AtMostOnce(calls))
  }

  lemma OnceMore(hits: int -> bool, calls: seq<Call>, s: Source, call: Call, limit: nat)
    requires OnceState(hits, calls, s) && Answers(hits, call.next) && call.now >= 0
    ensures OnceState(hits, calls + [call], Advance(s, call, limit))
  {
    hide Emit, PublishesZero, AtMostOnce, Silent, AllZero, Answers;
    var minute := FloorMinute(call.now);
    ZeroMore(calls, call);
    if s.cursor == 0 && minute == 0 {
      ZeroCall(hits, s, call, limit);
      OnceZero(hits, calls, s, EmitAll(s, call, limit).fires, PublishesZero(call));
    } else if !Skips(s, minute) {
      EmitsFirstMatches(hits, call, From(s, minute), minute, limit + 1);
      OnceLater(s.fires, EmitAll(s, call, limit).fires, s.cursor);
    }
  }

  lemma OnceZero(hits: int -> bool, calls: seq<Call>, s: Source, fires: seq<int>, publishes: bool)
    requires ZeroState(hits, calls, s) && Increasing(fires) && (fires != [] <==> publishes)
    requires fires != [] ==> Follows(hits, -60, fires[0])
    ensures s.fires == [] ==> Increasing(s.fires + fires)
    ensures fires == [] ==> (Increasing(s.fires + fires) <==> Increasing(s.fires))
    ensures s.fires != [] && fires != [] ==> !Increasing(s.fires + fires)
    ensures s.fires + fires != [] ==> Follows(hits, -60, (s.fires + fires)[0])
  {
    assert s.fires == [] ==> s.fires + fires == fires;
    assert fires == [] ==> s.fires + fires == s.fires;
    if s.fires != [] && fires != [] {
      var all := s.fires + fires;
      assert all[0] == s.fires[0] == fires[0] == all[|s.fires|];
    }
  }

  lemma OnceLater(before: seq<int>, fires: seq<int>, cursor: int)
    requires (forall i :: 0 <= i < |before| ==> before[i] <= cursor) && (forall i :: 0 <= i < |fires| ==> cursor < fires[i])
    requires Increasing(fires)
    ensures Increasing(before + fires) <==> Increasing(before)
  {
    var all := before + fires;
    if Increasing(all) {
      forall i, j | 0 <= i < j < |before| ensures before[i] < before[j] {
        assert all[i] == before[i] && all[j] == before[j];
      }
    }
  }

  lemma {:induction false} OnceAlways(hits: int -> bool, calls: seq<Call>, limit: nat)
    requires Timely(hits, calls)
    ensures OnceState(hits, calls, Run(calls, limit))
    decreases |calls|
  {
    hide AtMostOnce, OnceState, Advance;
    if calls == [] {
      NoCalls(hits);
    } else {
      var n := |calls| - 1;
      OnceAlways(hits, calls[..n], limit);
      OnceMore(hits, calls[..n], Run(calls[..n], limit), calls[n], limit);
      assert calls[..n] + [calls[n]] == calls;
    }
  }

  lemma NoCalls(hits: int -> bool)
    ensures OnceState(hits, [], Source(0, [], 0))
  {
  }

  /** At or after the epoch, the fire times increase strictly if and only if at most one of the calls in the minute 0
      before the first later one publishes. */
  lemma EachMinuteOnceIff(hits: int -> bool, calls: seq<Call>, limit: nat)
    requires Timely(hits, calls)
    ensures Increasing(Run(calls, limit).fires) <==> AtMostOnce(calls)
  {
    hide AtMostOnce, Increasing, Run;
    OnceAlways(hits, calls, limit);
  }

  /** No match lies between the minute 0 and the window of the first later call, if calls in the minute 0 came before. */
  ghost predicate NothingSkipped(hits: int -> bool, calls: seq<Call>) {
    forall k, u :: 0 < k < |calls| && AllZero(calls[..k]) && 0 < u <= FloorMinute(calls[k].now) - 60 ==> !hits(u)
  }

  /** The published times after clean calls: all matches of the first window, and from the window of the first later
      call, in the minute `later`, on. */
  ghost predicate CleanState(hits: int -> bool, calls: seq<Call>, s: Source, later: int) {
    if AllZero(calls) then s.cursor == 0 && (AtMostOnce(calls) ==> AllMatches(hits, -60, 0, s.fires))
    else if FloorMinute(calls[0].now) > 0 then
      FloorMinute(calls[0].now) - 60 <= s.cursor != 0 && AllMatches(hits, FloorMinute(calls[0].now) - 60, s.cursor, s.fires)
    else
      && 60 <= later <= s.cursor && (NothingSkipped(hits, calls) <==> forall u :: 0 < u <= later - 60 ==> !hits(u))
      && (AtMostOnce(calls) ==> TwoParts(hits, s.fires, later, s.cursor))
  }

  ghost predicate TwoParts(hits: int -> bool, fires: seq<int>, later: int, cursor: int) {
    exists n :: 0 <= n <= |fires| && AllMatches(hits, -60, 0, fires[..n]) && AllMatches(hits, later - 60, cursor, fires[n..])
  }

  lemma SkippedMore(hits: int -> bool, calls: seq<Call>, call: Call)
    ensures NothingSkipped(hits, calls + [call]) <==>
      && NothingSkipped(hits, calls)
      && (calls != [] && AllZero(calls) ==> forall u :: 0 < u <= FloorMinute(call.now) - 60 ==> !hits(u))
  {
    var more := calls + [call];
    forall k | 0 <= k <= |calls| ensures more[..k] == calls[..k] {
    }
    assert calls[..|calls|] == calls && more[|calls|] == call;
    assert forall k :: 0 <= k < |calls| ==> more[k] == calls[k];
  }

  lemma ZeroSkipsNothing(hits: int -> bool, calls: seq<Call>)
    requires AllZero(calls)
    ensures NothingSkipped(hits, calls)
  {
  }

  lemma FirstClean(hits: int -> bool, call: Call, limit: nat)
    requires Answers(hits, call.next) && call.now >= 0 && CleanCall(Source(0, [], 0), call, limit)
    ensures CleanState(hits, [call], Advance(Source(0, [], 0), call, limit), 0)
  {
    hide Emit, AllMatches, Answers;
    var s, minute := Source(0, [], 0), FloorMinute(call.now);
    EmitsFirstMatches(hits, call, minute - 60, minute, limit + 1);
    assert [call][0] == call && [] + EmitAll(s, call, limit).fires == EmitAll(s, call, limit).fires;
  }

  lemma CleanZero(hits: int -> bool, calls: seq<Call>, s: Source, call: Call, limit: nat)
    requires AllZero(calls) && ZeroState(hits, calls, s) && (AtMostOnce(calls) ==> AllMatches(hits, -60, 0, s.fires))
    requires Answers(hits, call.next) && FloorMinute(call.now) == 0 && CleanCall(s, call, limit)
    ensures AtMostOnce(calls + [call]) ==> AllMatches(hits, -60, 0, Advance(s, call, limit).fires)
  {
    hide Emit, AllMatches, Answers, AtMostOnce, Silent, AllZero, PublishesZero;
    ZeroMore(calls, call);
    ZeroCall(hits, s, call, limit);
    var fires := EmitAll(s, call, limit).fires;
    if PublishesZero(call) {
      assert s.fires == [] ==> s.fires + fires == fires;
    } else {
      assert s.fires + fires == s.fires;
    }
  }

  lemma TwoMore(hits: int -> bool, fires: seq<int>, later: int, cursor: int, minute: int, more: seq<int>)
    requires TwoParts(hits, fires, later, cursor) && AllMatches(hits, cursor, minute, more) && later - 60 <= cursor <= minute
    ensures TwoParts(hits, fires + more, later, minute)
  {
    hide AllMatches;
    var n :| 0 <= n <= |fires| && AllMatches(hits, -60, 0, fires[..n]) && AllMatches(hits, later - 60, cursor, fires[n..]);
    Joined(hits, later - 60, cursor, fires[n..], minute, more);
    assert (fires + more)[..n] == fires[..n] && (fires + more)[n..] == fires[n..] + more;
  }

  lemma CleanMore(hits: int -> bool, calls: seq<Call>, s: Source, later: int, call: Call, limit: nat) returns (later': int)
    requires calls != [] && OnceState(hits, calls, s) && CleanState(hits, calls, s, later)
    requires Answers(hits, call.next) && call.now >= 0 && CleanCall(s, call, limit)
    ensures CleanState(hits, calls + [call], Advance(s, call, limit), later')
  {
    hide Emit, AllMatches, Answers, AtMostOnce, NothingSkipped, AllZero, TwoParts, Increasing;
    var minute := FloorMinute(call.now);
    later' := later;
    ZeroMore(calls, call);
    SkippedMore(hits, calls, call);
    assert (calls + [call])[0] == calls[0];
    if AllZero(calls) && minute == 0 {
      CleanZero(hits, calls, s, call, limit);
      ZeroCall(hits, s, call, limit);
    } else if AllZero(calls) {
      later' := minute;
      ZeroSkipsNothing(hits, calls);
      FirstIsZero(calls);
      EmitsFirstMatches(hits, call, minute - 60, minute, limit + 1);
      if AtMostOnce(calls) {
        FirstLater(hits, s.fires, minute, EmitAll(s, call, limit).fires);
      }
    } else if FloorMinute(calls[0].now) > 0 {
      if minute != 0 {
        CleanAdvance(hits, s, call, limit, FloorMinute(calls[0].now) - 60);
      }
    } else if !Skips(s, minute) {
      EmitsFirstMatches(hits, call, s.cursor, minute, limit + 1);
      if AtMostOnce(calls) {
        TwoMore(hits, s.fires, later, s.cursor, minute, EmitAll(s, call, limit).fires);
      }
    }
  }

  lemma FirstIsZero(calls: seq<Call>)
    requires AllZero(calls) && calls != []
    ensures FloorMinute(calls[0].now) == 0
  {
  }

  lemma FirstLater(hits: int -> bool, before: seq<int>, minute: int, fires: seq<int>)
    requires AllMatches(hits, -60, 0, before) && AllMatches(hits, minute - 60, minute, fires)
    ensures TwoParts(hits, before + fires, minute, minute)
  {
    hide AllMatches;
    var n := |before|;
    assert (before + fires)[..n] == before && (before + fires)[n..] == fires;
  }

  lemma {:induction false} CleanAlways(hits: int -> bool, calls: seq<Call>, limit: nat) returns (later: int)
    requires Timely(hits, calls) && Clean(calls, limit) && calls != []
    ensures OnceState(hits, calls, Run(calls, limit)) && CleanState(hits, calls, Run(calls, limit), later)
    decreases |calls|
  {
    hide OnceState, CleanState, CleanCall, Advance, Answers;
    var n := |calls| - 1;
    OnceAlways(hits, calls, limit);
    assert CleanCall(Run(calls[..n], limit), calls[n], limit);
    if n == 0 {
      FirstClean(hits, calls[0], limit);
      assert calls == [calls[0]] && calls[..0] == [];
      later := 0;
    } else {
      CleanPrefix(calls, n, limit);
      later := CleanAlways(hits, calls[..n], limit);
      later := CleanMore(hits, calls[..n], Run(calls[..n], limit), later, calls[n], limit);
      assert calls[..n] + [calls[n]] == calls;
    }
  }

  /** At or after the epoch, a run without truncation or failure publishes exactly the matching minutes from the one of
      its first call on, if and only if at most one call in the minute 0 before the first later one publishes, and no
      match lies between the minute 0 and the window of that one. */
  lemma CleanRunExact(hits: int -> bool, calls: seq<Call>, limit: nat)
    requires Timely(hits, calls) && Clean(calls, limit) && calls != []
    ensures var (s, from) := (Run(calls, limit), FloorMinute(calls[0].now) - 60);
            AllMatches(hits, from, s.cursor, s.fires) <==> AtMostOnce(calls) && NothingSkipped(hits, calls)
  {
    hide AtMostOnce, Clean, NothingSkipped, AllZero, TwoParts, Run;
    var s := Run(calls, limit);
    var later := CleanAlways(hits, calls, limit);
    if AllZero(calls) {
      ZeroSkipsNothing(hits, calls);
      FirstIsZero(calls);
    } else if FloorMinute(calls[0].now) > 0 {
      LaterSkipsNothing(hits, calls);
    } else if AtMostOnce(calls) {
      PartsJoin(hits, s.fires, later, s.cursor);
    }
  }

  lemma LaterSkipsNothing(hits: int -> bool, calls: seq<Call>)
    requires calls != [] && FloorMinute(calls[0].now) > 0
    ensures NothingSkipped(hits, calls)
  {
    forall k | 0 < k < |calls| ensures !AllZero(calls[..k]) {
      assert calls[..k][0] == calls[0];
    }
  }

  lemma PartsJoin(hits: int -> bool, fires: seq<int>, later: int, cursor: int)
    requires TwoParts(hits, fires, later, cursor) && 60 <= later <= cursor
    ensures AllMatches(hits, -60, cursor, fires) <==> forall u :: 0 < u <= later - 60 ==> !hits(u)
  {
    hide AllMatches;
    var n :| 0 <= n <= |fires| && AllMatches(hits, -60, 0, fires[..n]) && AllMatches(hits, later - 60, cursor, fires[n..]);
    assert fires == fires[..n] + fires[n..];
    if forall u :: 0 < u <= later - 60 ==> !hits(u) {
      NoMatch(hits, 0, later - 60);
      Joined(hits, 0, later - 60, [], cursor, fires[n..]);
      assert [] + fires[n..] == fires[n..];
      Joined(hits, -60, 0, fires[..n], cursor, fires[n..]);
    } else {
      var u :| 0 < u <= later - 60 && hits(u);
      MissedBetween(hits, fires[..n], fires[n..], later, cursor, u);
    }
  }

  lemma MissedBetween(hits: int -> bool, left: seq<int>, right: seq<int>, later: int, cursor: int, u: int)
    requires AllMatches(hits, -60, 0, left) && AllMatches(hits, later - 60, cursor, right) && later <= cursor
    requires 0 < u <= later - 60 && hits(u)
    ensures !AllMatches(hits, -60, cursor, left + right)
  {
    assert u !in left && u !in right;
    assert u !in left + right;
  }

  // ----- two runs

  /** A schedule that matches every minute, and a call that can publish everything. */
  const EveryMinute: int -> bool := u => u % 60 == 0

  function CallAt(now: int): Call {
    Call(now, t => Some(FloorMinute(t) + 60), _ => true)
  }

  lemma CallAnswers(now: int)
    ensures Answers(EveryMinute, CallAt(now).next)
  {
  }

  lemma EmitsOne(now: int, check: int, minute: int, left: nat)
    requires check % 60 == 0 && minute == check + 60
    ensures Emit(CallAt(now), check, minute, left + 1) == Emission([minute], Reached)
  {
    assert Emit(CallAt(now), minute, minute, left) == Emission([], Reached);
  }

  /** Two calls in the minute 0 publish that minute twice, because the cursor reads as unset after the first. */
  lemma MinuteZeroTwice(limit: nat)
    ensures Clean([CallAt(0), CallAt(30)], limit) && Run([CallAt(0), CallAt(30)], limit).fires == [0, 0]
  {
    var a, b := CallAt(0), CallAt(30);
    TwoCalls(a, b, limit);
    EmitsOne(0, -60, 0, limit);
    EmitsOne(30, -60, 0, limit);
  }

  /** A call in the minute 0 and one in the minute 120 miss the minute 60 in between, for the same reason. */
  lemma MinuteSkipped(limit: nat)
    ensures Clean([CallAt(0), CallAt(120)], limit) && Run([CallAt(0), CallAt(120)], limit).fires == [0, 120]
    ensures EveryMinute(60) && Timely(EveryMinute, [CallAt(0), CallAt(120)])
  {
    var a, b := CallAt(0), CallAt(120);
    TwoCalls(a, b, limit);
    EmitsOne(0, -60, 0, limit);
    EmitsOne(120, 60, 120, limit);
    CallAnswers(0);
    CallAnswers(120);
  }

  lemma TwoCalls(a: Call, b: Call, limit: nat)
    ensures var s := Source(0, [], 0);
      && Run([a, b], limit) == Advance(Advance(s, a, limit), b, limit)
      && (CleanCall(s, a, limit) && CleanCall(Advance(s, a, limit), b, limit) ==> Clean([a, b], limit))
  {
    assert [a, b][..1] == [a] && [a][..0] == [] && [a, b][..0] == [];
    assert Run([a], limit) == Advance(Run([], limit), a, limit);
  }

  // ----- the source

  class CronSource {
    const limit: nat
    var cursor: int
    var fires: seq<int>
    var truncations: nat

    constructor (limit: nat)
      ensures this.limit == limit && Value() == Run([], limit)
    {
      this.limit, cursor, fires, truncations := limit, 0, [], 0;
    }

    ghost function Value(): Source
      reads this
    {
      Source(cursor, fires, truncations)
    }

    /** The number of publications, or nothing after an error. */
    method AdvanceTo(call: Call) returns (emitted: Option<nat>)
      modifies this
      ensures Value() == Advance(old(Value()), call, limit)
      ensures cursor == if old(cursor) != 0 && FloorMinute(call.now) <= old(cursor) then old(cursor) else FloorMinute(call.now)
      ensures emitted.Some? ==> emitted.value == |fires| - |old(fires)|
      ensures emitted.None? <==>
                !Skips(old(Value()), FloorMinute(call.now))
                && EmitAll(old(Value()), call, limit).end in {NoNext, Rejected}
    {
      var minute := FloorMinute(call.now);
      if cursor != 0 && minute <= cursor {
        return Some(0);
      }
      var check := if cursor == 0 then minute - 60 else cursor;
      ghost var from := check;
      cursor := minute;
      var maxEmit, count := limit + 1, 0;
      while true
        invariant count <= maxEmit && cursor == minute && truncations == old(truncations)
        invariant |fires| == |old(fires)| + count
        invariant var (e, rest) := (Emit(call, from, minute, maxEmit), Emit(call, check, minute, maxEmit - count));
                  e.end == rest.end && old(fires) + e.fires == fires + rest.fires
        decreases maxEmit - count
      {
        var fire := call.next(check);
        if fire.None? {
          return None;
        }
        if fire.value > minute {
          break;
        }
        if count >= maxEmit {
          truncations := truncations + 1;
          break;
        }
        if !call.accepts(fire.value) {
          return None;
        }
        fires, count, check := fires + [fire.value], count + 1, fire.value;
      }
      return Some(count);
    }
  }
}
