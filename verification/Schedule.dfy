/** The publication slot of the schedule source. */
module Schedule {
  // From schedule/src/flow_schedule.c, one atomic operation per step, in interval and one-shot mode: the timer callbacks, the
  // completions, the bootstrap thread and stop.

  import opened Wrappers

  const U64_MAX: nat := 0xFFFF_FFFF_FFFF_FFFF
  const U32_MAX: nat := 0xFFFF_FFFF
  const NATIVE_TIMER_MAX: nat := U32_MAX - 1

  datatype Config = Config(oneShot: bool, delay: nat, repeatLimit: nat)

  /** Publications that may succeed in a run; 0 for any number. */
  function Limit(c: Config): nat {
    if c.oneShot then 1 else c.repeatLimit
  }

  function AddDelay(now: nat, delay: nat): nat {
    if delay > U64_MAX - now then U64_MAX else now + delay
  }

  /** An early one-shot callback starts the timer again, unless the timer runs in slices. */
  predicate Rearms(c: Config) {
    c.oneShot && c.delay <= NATIVE_TIMER_MAX
  }

  /** Where a timer callback stands; `now` is its clock reading. */
  datatype Callback =
    | LoadStarted | LoadCompleted | ReadClock
    | ReserveStarted(now: nat) | ReserveCompleted(now: nat) | ReserveSwap(now: nat)
    | RecheckStarted(now: nat) | RecheckCompleted(now: nat) | RecheckRelease
    | LoadDue(now: nat) | EarlyRelease | Rearm
    | SubmitStarted(now: nat) | ClonePayload(now: nat) | Publish(now: nat)
    | GiveUp | Refused(negative: bool) | Accepted | StoreCompleted | Leave

  /** Where the completion of an accepted publication stands. */
  datatype Completion =
    | Pending | CountRun | Counted(runFired: nat) | StoreDue(at: nat) | Failed | Release

  /** The thread that arms the timer once the flow has started. */
  datatype Bootstrap = Waiting | CheckStarted | ArmClock | ArmStore(at: nat) | ArmTimer | ArmFailed | Joined

  datatype Stopper = Idle | Joining | Destroying | Completing | Clearing

  /** What can end a run before its limit: the slot was taken when the flow was stopping, the payload could not be cloned,
      publish refused with an error, the timer could not be started again, the publication failed, the timer could not be
      started at all, or stop came to its end. */
  datatype Cause = NotStarted | NoPayload | Rejected | NoRearm | NotPublished | NoTimer | Stop

  /** What the laws are stated about: clock readings that start a delay, calls of publish, what may end the run, callbacks
      that come too early, and the timer started again. */
  datatype Event =
    | Reading(at: nat) | Submitted(at: nat, accepted: bool) | Ending(at: nat, cause: Cause) | Early(at: nat) | Restarted(at: nat)

  /** The shared fields, the clock, whether callbacks may arrive, the events of this run so far, and the successes counted
      in earlier runs. */
  datatype Shared = Shared(
    started: bool, completed: bool, active: bool, inflight: nat, runFired: nat, fired: nat, nextDue: nat,
    clock: nat, armed: bool, log: seq<Event>, before: nat)

  datatype State = State(
    shared: Shared, boot: Bootstrap, stop: Stopper, callbacks: map<nat, Callback>, outstanding: map<nat, Completion>)

  ghost predicate Init(s: State) {
    && s.shared == Shared(true, false, false, 0, 0, s.shared.before, 0, s.shared.clock, false, [], s.shared.before)
    && s.shared.clock <= U64_MAX
    && s.boot == Waiting && s.stop == Idle && s.callbacks == map[] && s.outstanding == map[]
  }

  // ----- steps

  function Ends(x: Shared, cause: Cause): Shared {
    x.(log := x.log + [Ending(x.clock, cause)])
  }

  /** fetch_sub on an unsigned counter. */
  function Decrement(n: nat): nat {
    if n == 0 then U32_MAX else n - 1
  }

  /** The steps before the publication slot is taken. */
  ghost predicate ReserveAct(x: Shared, pc: Callback, y: Shared, next: Callback) {
    match pc
    case LoadStarted => y == x && next == if x.started then LoadCompleted else Leave
    case LoadCompleted => y == x && next == if x.completed then Leave else ReadClock
    case ReadClock => y == x && next == ReserveStarted(x.clock)
    case ReserveStarted(now) => y == x && next == if x.started then ReserveCompleted(now) else Leave
    case ReserveCompleted(now) => y == x && next == if x.completed then Leave else ReserveSwap(now)
    case ReserveSwap(now) =>
      if x.inflight == 0 then y == x.(inflight := 1) && next == RecheckStarted(now) else y == x && next == Leave
    case _ => false
  }

  /** The steps with the slot taken, up to the decision to publish. */
  ghost predicate CheckAct(c: Config, x: Shared, pc: Callback, y: Shared, next: Callback) {
    match pc
    case RecheckStarted(now) => y == x && next == if x.started then RecheckCompleted(now) else RecheckRelease
    case RecheckCompleted(now) => y == x && next == if x.completed then RecheckRelease else LoadDue(now)
    case RecheckRelease => y == x.(inflight := 0) && next == Leave
    case LoadDue(now) =>
      if now < x.nextDue then y == x.(log := x.log + [Early(x.clock)]) && next == EarlyRelease else y == x && next == SubmitStarted(now)
    case EarlyRelease => y == x.(inflight := 0) && next == if Rearms(c) then Rearm else Leave
    case Rearm =>
      || (y == x.(log := x.log + [Restarted(x.clock)]) && next == Leave)
      || (y == Ends(x, NoRearm) && next == StoreCompleted)
    case _ => false
  }

  /** The steps of publishing. */
  ghost predicate PublishAct(x: Shared, pc: Callback, y: Shared, next: Callback) {
    match pc
    case SubmitStarted(now) =>
      if x.started then y == x && next == ClonePayload(now) else y == Ends(x, NotStarted) && next == GiveUp
    case ClonePayload(now) => (y == x && next == Publish(now)) || (y == Ends(x, NoPayload) && next == GiveUp)
    case GiveUp => y == x.(inflight := 0) && next == StoreCompleted
    case Publish(now) =>
      var called := x.(log := x.log + [Submitted(x.clock, next == Accepted)]);
      (next == Accepted || next.Refused?) && y == if next == Refused(true) then Ends(called, Rejected) else called
    case Refused(negative) =>
      y == x.(inflight := Decrement(x.inflight)) && next == if negative then StoreCompleted else Leave
    case StoreCompleted => y == x.(completed := true) && next == Leave
    case _ => false
  }

  ghost predicate CompletionAct(c: Config, x: Shared, pc: Completion, y: Shared, next: Completion) {
    match pc
    case Pending => (y == x.(fired := x.fired + 1) && next == CountRun) || (y == Ends(x, NotPublished) && next == Failed)
    case CountRun => y == x.(runFired := x.runFired + 1) && next == Counted(x.runFired + 1)
    case Counted(n) =>
      if c.oneShot || (c.repeatLimit > 0 && n >= c.repeatLimit)
      then y == x.(completed := true) && next == Release
      else y == x.(log := x.log + [Reading(x.clock)]) && next == StoreDue(x.clock)
    case StoreDue(at) => y == x.(nextDue := AddDelay(at, c.delay)) && next == Release
    case Failed => y == x.(completed := true) && next == Release
    case Release => false
  }

  ghost predicate BootstrapAct(c: Config, x: Shared, boot: Bootstrap, y: Shared, next: Bootstrap) {
    match boot
    case Waiting => y == x && next == CheckStarted
    case CheckStarted => y == x && next == if x.started then ArmClock else Joined
    case ArmClock => y == x.(log := x.log + [Reading(x.clock)]) && next == ArmStore(x.clock)
    case ArmStore(at) => y == x.(nextDue := AddDelay(at, c.delay)) && next == ArmTimer
    case ArmTimer => (y == x.(armed := true) && next == Joined) || (y == Ends(x, NoTimer) && next == ArmFailed)
    case ArmFailed => y == x.(completed := true) && next == Joined
    case Joined => false
  }

  /** Stop waits for the bootstrap thread, then destroys the timer, which waits for a running callback. */
  ghost predicate StopAct(s: State, y: Shared, next: Stopper) {
    match s.stop
    case Idle => y == s.shared.(started := false) && next == Joining
    case Joining => s.boot == Joined && y == s.shared && next == Destroying
    case Destroying => s.callbacks == map[] && y == s.shared.(armed := false) && next == Completing
    case Completing => y == Ends(s.shared, Stop).(completed := true) && next == Clearing
    case Clearing => y == s.shared.(active := false) && next == Idle
  }

  /** A callback arrives; it goes away again if one is running. */
  ghost predicate EnterStep(s: State, t: State) {
    && s.shared.armed
    && if s.shared.active then t == s
       else exists i: nat :: i !in s.callbacks &&
              t == s.(shared := s.shared.(active := true), callbacks := s.callbacks[i := LoadStarted])
  }

  ghost predicate CallbackStep(c: Config, s: State, t: State, i: nat)
    requires i in s.callbacks
  {
    exists y, next :: CallbackAct(c, s.shared, s.callbacks[i], y, next)
                   && t == s.(shared := y, callbacks := s.callbacks[i := next])
  }

  ghost predicate CallbackAct(c: Config, x: Shared, pc: Callback, y: Shared, next: Callback) {
    next != Accepted && (ReserveAct(x, pc, y, next) || CheckAct(c, x, pc, y, next) || PublishAct(x, pc, y, next))
  }

  /** An accepted publication will be completed once. */
  ghost predicate AcceptStep(s: State, t: State, i: nat)
    requires i in s.callbacks
  {
    exists y, o: nat :: PublishAct(s.shared, s.callbacks[i], y, Accepted) && o !in s.outstanding
                     && t == s.(shared := y, callbacks := s.callbacks[i := Leave],
                                outstanding := s.outstanding[o := Pending])
  }

  ghost predicate LeaveStep(s: State, t: State, i: nat)
    requires i in s.callbacks
  {
    s.callbacks[i] == Leave && t == s.(shared := s.shared.(active := false), callbacks := s.callbacks - {i})
  }

  ghost predicate CompletionStep(c: Config, s: State, t: State, o: nat)
    requires o in s.outstanding
  {
    exists y, next :: CompletionAct(c, s.shared, s.outstanding[o], y, next)
                   && t == s.(shared := y, outstanding := s.outstanding[o := next])
  }

  ghost predicate ReleaseStep(s: State, t: State, o: nat)
    requires o in s.outstanding
  {
    && s.outstanding[o] == Release
    && t == s.(shared := s.shared.(inflight := Decrement(s.shared.inflight)), outstanding := s.outstanding - {o})
  }

  ghost predicate BootstrapStep(c: Config, s: State, t: State) {
    exists y, next :: BootstrapAct(c, s.shared, s.boot, y, next) && t == s.(shared := y, boot := next)
  }

  ghost predicate StopStep(s: State, t: State) {
    exists y, next :: StopAct(s, y, next) && t == s.(shared := y, stop := next)
  }

  ghost predicate TickStep(s: State, t: State) {
    s.shared.clock <= t.shared.clock <= U64_MAX && t == s.(shared := s.shared.(clock := t.shared.clock))
  }

  ghost predicate Step(c: Config, s: State, t: State) {
    || EnterStep(s, t)
    || (exists i :: i in s.callbacks && (CallbackStep(c, s, t, i) || AcceptStep(s, t, i) || LeaveStep(s, t, i)))
    || (exists o :: o in s.outstanding && (CompletionStep(c, s, t, o) || ReleaseStep(s, t, o)))
    || BootstrapStep(c, s, t)
    || StopStep(s, t)
    || TickStep(s, t)
  }

  // ----- what every step keeps

  /** The callback has the publication slot. */
  predicate Holds(pc: Callback) {
    || pc.RecheckStarted? || pc.RecheckCompleted? || pc.RecheckRelease? || pc.LoadDue? || pc.EarlyRelease?
    || pc.SubmitStarted? || pc.ClonePayload? || pc.Publish? || pc.GiveUp? || pc.Refused?
  }

  /** The callback has seen that the run goes on, with the slot taken. */
  predicate Cleared(pc: Callback) {
    pc.LoadDue? || Publishing(pc)
  }

  predicate Publishing(pc: Callback) {
    pc.SubmitStarted? || pc.ClonePayload? || pc.Publish?
  }

  predicate HasNow(pc: Callback) {
    || pc.ReserveStarted? || pc.ReserveCompleted? || pc.ReserveSwap? || pc.RecheckStarted? || pc.RecheckCompleted?
    || Cleared(pc)
  }

  /** The map has at most one entry, and this is it. */
  ghost predicate Sole<T>(m: map<nat, T>, entry: Option<T>) {
    match entry
    case None => m == map[]
    case Some(x) => exists i :: i in m && m == map[i := x]
  }

  /** The slot counter counts the one holder: a callback or a completion. */
  ghost predicate OneHolder(x: Shared, cb: Option<Callback>, out: Option<Completion>) {
    && (cb.Some? ==> x.active && x.armed)
    && !(out.Some? && cb.Some? && Holds(cb.value))
    && x.inflight == (if out.Some? || (cb.Some? && Holds(cb.value)) then 1 else 0)
    && (cb.Some? && Cleared(cb.value) ==> !x.completed)
  }

  ghost predicate Booting(x: Shared, boot: Bootstrap, stop: Stopper, out: Option<Completion>) {
    && (boot != Joined ==> !x.armed && out.None?)
    && (stop == Destroying || stop == Completing || stop == Clearing ==> boot == Joined)
    && (stop == Completing || stop == Clearing ==> !x.armed)
  }

  /** The successes are counted, and stay within the limit. */
  ghost predicate Counting(c: Config, x: Shared, out: Option<Completion>) {
    && (out.Some? && out.value.Counted? ==> out.value.runFired == x.runFired > 0)
    && x.fired == x.before + x.runFired + (if out == Some(CountRun) then 1 else 0)
    && (Limit(c) > 0 ==>
        && x.runFired <= Limit(c)
        && (out == Some(Pending) || out == Some(CountRun) ==> x.runFired < Limit(c))
        && (x.runFired == Limit(c) ==> x.completed || (out.Some? && out.value.Counted?)))
  }

  /** Every delay started so far is over when the schedule is due. */
  ghost predicate DueCovers(c: Config, log: seq<Event>, due: nat) {
    forall k :: 0 <= k < |log| && log[k].Reading? ==> AddDelay(log[k].at, c.delay) <= due
  }

  ghost predicate EventsUpTo(log: seq<Event>, at: nat) {
    forall k :: 0 <= k < |log| ==> log[k].at <= at
  }

  ghost predicate ReadingsUpTo(log: seq<Event>, at: nat) {
    forall k :: 0 <= k < |log| && log[k].Reading? ==> log[k].at <= at
  }

  /** Every call of publish comes after each delay started before it. */
  ghost predicate Spaced(c: Config, log: seq<Event>) {
    forall j, k :: 0 <= j < k < |log| && log[j].Reading? && log[k].Submitted? ==>
                     AddDelay(log[j].at, c.delay) <= log[k].at
  }

  /** Every accepted publication was followed by the clock reading of its completion. */
  ghost predicate Answered(log: seq<Event>) {
    forall i :: 0 <= i < |log| && IsAccepted(log[i]) ==> ReadingBetween(log, i, |log|)
  }

  ghost predicate Alternates(log: seq<Event>) {
    forall i, j :: 0 <= i < j < |log| && IsAccepted(log[i]) && log[j].Submitted? ==> ReadingBetween(log, i, j)
  }

  predicate IsAccepted(e: Event) {
    e.Submitted? && e.accepted
  }

  ghost predicate ReadingBetween(log: seq<Event>, i: int, j: int)
    requires 0 <= i <= j <= |log|
  {
    exists k :: i < k < j && log[k].Reading?
  }

  ghost predicate Alternating(x: Shared, out: Option<Completion>) {
    && Alternates(x.log)
    && (x.completed || Answered(x.log) || (out.Some? && !out.value.StoreDue? && !out.value.Release?))
  }

  /** The due time covers the readings, except while a due time is being stored. */
  ghost predicate Dues(c: Config, x: Shared, boot: Bootstrap, cb: Option<Callback>, out: Option<Completion>) {
    && x.clock <= U64_MAX && EventsUpTo(x.log, x.clock) && Spaced(c, x.log)
    && (boot.ArmStore? ==> ReadingsUpTo(x.log, boot.at))
    && (out.Some? && out.value.StoreDue? ==> ReadingsUpTo(x.log, out.value.at))
    && (!boot.ArmStore? && !(out.Some? && out.value.StoreDue?) ==> DueCovers(c, x.log, x.nextDue))
    && (cb.Some? && HasNow(cb.value) ==> cb.value.now <= x.clock)
    && (cb.Some? && Publishing(cb.value) ==> x.nextDue <= cb.value.now)
  }

  /** The latest reading. */
  function Latest(log: seq<Event>): Option<nat> {
    if log == [] then None
    else if log[|log| - 1].Reading? then Some(log[|log| - 1].at)
    else Latest(log[..|log| - 1])
  }

  function DueOf(c: Config, log: seq<Event>): nat {
    match Latest(log)
    case None => 0
    case Some(at) => AddDelay(at, c.delay)
  }

  /** The due time is the delay after the latest reading, except while it is being stored. */
  ghost predicate DueIs(c: Config, x: Shared, boot: Bootstrap, out: Option<Completion>) {
    && (boot.ArmStore? ==> Latest(x.log) == Some(boot.at))
    && (out.Some? && out.value.StoreDue? ==> Latest(x.log) == Some(out.value.at))
    && (!boot.ArmStore? && !(out.Some? && out.value.StoreDue?) ==> x.nextDue == DueOf(c, x.log))
  }

  ghost predicate HasEnding(log: seq<Event>) {
    exists k :: 0 <= k < |log| && log[k].Ending?
  }

  /** The run is over only for a reason. */
  ghost predicate Reasons(c: Config, x: Shared, boot: Bootstrap, cb: Option<Callback>, out: Option<Completion>) {
    && (x.completed ==> (Limit(c) > 0 && x.runFired == Limit(c)) || HasEnding(x.log))
    && (UnderWay(boot, cb, out) ==> HasEnding(x.log)) && (HasEnding(x.log) ==> x.completed || UnderWay(boot, cb, out))
  }

  /** Somebody is on the way to setting `completed`. */
  predicate UnderWay(boot: Bootstrap, cb: Option<Callback>, out: Option<Completion>) {
    || (cb.Some? && (cb.value.GiveUp? || cb.value.StoreCompleted? || cb.value == Refused(true)))
    || out == Some(Failed) || boot.ArmFailed?
  }

  function Count(log: seq<Event>, counts: Event -> bool): nat {
    if log == [] then 0 else Count(log[..|log| - 1], counts) + if counts(log[|log| - 1]) then 1 else 0
  }

  function Earlies(log: seq<Event>): nat {
    Count(log, (e: Event) => e.Early?)
  }

  /** How often the timer was to be started again. */
  function Restarts(log: seq<Event>): nat {
    Count(log, (e: Event) => e.Restarted? || (e.Ending? && e.cause == NoRearm))
  }

  /** A one-shot timer within the native range is started again after every callback that comes too early; no other is. */
  ghost predicate Rearmed(c: Config, x: Shared, cb: Option<Callback>) {
    if c.oneShot && c.delay < 0xFFFF_FFFF then
      Earlies(x.log) == Restarts(x.log) + if cb == Some(EarlyRelease) || cb == Some(Rearm) then 1 else 0
    else Restarts(x.log) == 0 && cb != Some(Rearm)
  }

  lemma EndingCounts(log: seq<Event>, e: Event)
    ensures HasEnding(log + [e]) <==> HasEnding(log) || e.Ending?
    ensures Earlies(log + [e]) == Earlies(log) + if e.Early? then 1 else 0
    ensures Restarts(log + [e]) == Restarts(log) + if e.Restarted? || (e.Ending? && e.cause == NoRearm) then 1 else 0
  {
    hide Earlies, Restarts;
    CountMore(log, e);
    LatestMore(log, e);
  }

  lemma CountMore(log: seq<Event>, e: Event)
    ensures Earlies(log + [e]) == Earlies(log) + if e.Early? then 1 else 0
    ensures Restarts(log + [e]) == Restarts(log) + if e.Restarted? || (e.Ending? && e.cause == NoRearm) then 1 else 0
  {
    assert (log + [e])[..|log|] == log;
  }

  lemma LatestMore(log: seq<Event>, e: Event)
    ensures Latest(log + [e]) == if e.Reading? then Some(e.at) else Latest(log)
    ensures HasEnding(log + [e]) <==> HasEnding(log) || e.Ending?
  {
    var log' := log + [e];
    assert log'[..|log|] == log && log'[|log|] == e;
    if HasEnding(log) {
      var k :| 0 <= k < |log| && log[k].Ending?;
      assert log'[k].Ending?;
    }
  }

  /** An event that is neither a reading nor a call changes nothing about them. */
  lemma OtherKeeps(c: Config, log: seq<Event>, clock: nat, e: Event)
    requires EventsUpTo(log, clock) && Spaced(c, log) && Alternates(log) && !e.Reading? && !e.Submitted? && e.at == clock
    ensures var log' := log + [e];
            && EventsUpTo(log', clock) && Spaced(c, log') && Alternates(log') && (Answered(log) ==> Answered(log'))
            && Latest(log') == Latest(log)
            && (forall due :: DueCovers(c, log, due) ==> DueCovers(c, log', due))
            && (forall at :: ReadingsUpTo(log, at) ==> ReadingsUpTo(log', at))
  {
    hide Spaced, ReadingBetween, Alternates, Answered, Latest;
    SpacedMore(c, log, e);
    AlternatesMore(log, e);
    LatestMore(log, e);
    if Answered(log) {
      AnsweredMore(log, e);
    }
    SameReadings(c, log, e);
    hide DueCovers, ReadingsUpTo;
  }

  lemma EndingKeeps(c: Config, log: seq<Event>, clock: nat, cause: Cause)
    requires EventsUpTo(log, clock) && Spaced(c, log) && Alternates(log)
    ensures var log' := log + [Ending(clock, cause)];
            && EventsUpTo(log', clock) && Spaced(c, log') && Alternates(log') && (Answered(log) ==> Answered(log'))
            && Latest(log') == Latest(log)
            && (forall due :: DueCovers(c, log, due) ==> DueCovers(c, log', due))
            && (forall at :: ReadingsUpTo(log, at) ==> ReadingsUpTo(log', at))
  {
    OtherKeeps(c, log, clock, Ending(clock, cause));
  }

  lemma SameReadings(c: Config, log: seq<Event>, e: Event)
    requires !e.Reading?
    ensures forall due :: DueCovers(c, log, due) ==> DueCovers(c, log + [e], due)
    ensures forall at :: ReadingsUpTo(log, at) ==> ReadingsUpTo(log + [e], at)
  {
  }

  ghost predicate Flat(c: Config, x: Shared, boot: Bootstrap, stop: Stopper,
                       cb: Option<Callback>, out: Option<Completion>) {
    Slots(c, x, boot, stop, cb, out) && Times(c, x, boot, cb, out) && Outcomes(c, x, boot, cb, out)
  }

  ghost predicate Slots(c: Config, x: Shared, boot: Bootstrap, stop: Stopper, cb: Option<Callback>, out: Option<Completion>) {
    OneHolder(x, cb, out) && Booting(x, boot, stop, out) && Counting(c, x, out)
  }

  ghost predicate Times(c: Config, x: Shared, boot: Bootstrap, cb: Option<Callback>, out: Option<Completion>) {
    Alternating(x, out) && Dues(c, x, boot, cb, out) && DueIs(c, x, boot, out)
  }

  ghost predicate Outcomes(c: Config, x: Shared, boot: Bootstrap, cb: Option<Callback>, out: Option<Completion>) {
    Reasons(c, x, boot, cb, out) && Rearmed(c, x, cb)
  }

  /** At most one callback and at most one completion, at the given places. */
  ghost predicate Inv(c: Config, s: State, cb: Option<Callback>, out: Option<Completion>) {
    Sole(s.callbacks, cb) && Sole(s.outstanding, out) && Flat(c, s.shared, s.boot, s.stop, cb, out)
  }

  lemma SoleIs<T>(m: map<nat, T>, entry: Option<T>, i: nat, x: T)
    requires Sole(m, entry) && i in m
    ensures entry == Some(m[i]) && Sole(m[i := x], Some(x)) && Sole(m - {i}, None)
  {
    var k :| k in m && m == map[k := entry.value];
    assert m[i := x] == map[i := x];
    assert m - {i} == map[];
  }

  lemma SoleNew<T>(m: map<nat, T>, entry: Option<T>, i: nat, x: T)
    requires Sole(m, entry)
    ensures entry.None? <==> m == map[]
    ensures entry.None? ==> Sole(m[i := x], Some(x))
  {
    if entry.None? {
      assert i in m[i := x] && m[i := x] == map[i := x];
    }
  }

  lemma MoreReadings(c: Config, log: seq<Event>, clock: nat)
    requires EventsUpTo(log, clock) && Spaced(c, log) && Alternates(log)
    ensures var log' := log + [Reading(clock)];
            EventsUpTo(log', clock) && ReadingsUpTo(log', clock) && Spaced(c, log') && Alternates(log') && Answered(log')
  {
    hide Spaced, ReadingBetween;
    var log' := log + [Reading(clock)];
    assert Spaced(c, log') by { SpacedMore(c, log, Reading(clock)); }
    forall i | 0 <= i < |log| ensures ReadingBetween(log', i, |log'|) {
      IsBetween(log', i, |log|, |log'|);
    }
    AlternatesMore(log, Reading(clock));
  }

  lemma SpacedMore(c: Config, log: seq<Event>, e: Event)
    requires Spaced(c, log) && (e.Submitted? ==> DueCovers(c, log, e.at))
    ensures Spaced(c, log + [e])
  {
  }

  lemma IsBetween(log: seq<Event>, i: nat, k: nat, j: nat)
    requires i < k < j <= |log| && log[k].Reading?
    ensures ReadingBetween(log, i, j)
  {
  }

  lemma AlternatesMore(log: seq<Event>, e: Event)
    requires Alternates(log) && (e.Submitted? ==> Answered(log))
    ensures Alternates(log + [e])
  {
    var log' := log + [e];
    forall i, j | 0 <= i < j < |log'| && IsAccepted(log'[i]) && log'[j].Submitted? ensures ReadingBetween(log', i, j) {
      assert ReadingBetween(log, i, j);
      var k :| i < k < j && log[k].Reading?;
      assert log'[k].Reading?;
    }
  }

  lemma StoredDue(c: Config, log: seq<Event>, at: nat)
    requires ReadingsUpTo(log, at)
    ensures DueCovers(c, log, AddDelay(at, c.delay))
  {
  }

  /** A call of publish at the current time, when the schedule is due. */
  lemma OneMoreCall(c: Config, log: seq<Event>, due: nat, clock: nat, accepted: bool)
    requires EventsUpTo(log, clock) && Spaced(c, log) && Alternates(log)
    requires Answered(log) && DueCovers(c, log, due) && due <= clock
    ensures var log' := log + [Submitted(clock, accepted)];
            && EventsUpTo(log', clock) && Spaced(c, log') && Alternates(log') && DueCovers(c, log', due)
            && (forall at :: ReadingsUpTo(log, at) ==> ReadingsUpTo(log', at))
            && (!accepted ==> Answered(log'))
  {
    hide Spaced, ReadingBetween;
    var e := Submitted(clock, accepted);
    SpacedMore(c, log, e);
    AlternatesMore(log, e);
    if !accepted {
      AnsweredMore(log, e);
    }
  }

  lemma AnsweredMore(log: seq<Event>, e: Event)
    requires Answered(log) && !IsAccepted(e)
    ensures Answered(log + [e])
  {
    var log' := log + [e];
    forall i | 0 <= i < |log'| && IsAccepted(log'[i]) ensures ReadingBetween(log', i, |log'|) {
      assert ReadingBetween(log, i, |log|);
      var k :| i < k < |log| && log[k].Reading?;
      assert log'[k].Reading?;
    }
  }

  lemma ReserveKeeps(c: Config, x: Shared, boot: Bootstrap, stop: Stopper, pc: Callback, out: Option<Completion>,
                     y: Shared, next: Callback)
    requires Flat(c, x, boot, stop, Some(pc), out) && ReserveAct(x, pc, y, next)
    ensures Flat(c, y, boot, stop, Some(next), out)
  {
    hide EventsUpTo, ReadingsUpTo, Spaced, DueCovers, Alternates, Answered;
  }

  lemma CheckSlots(c: Config, x: Shared, boot: Bootstrap, stop: Stopper, pc: Callback, out: Option<Completion>,
                   y: Shared, next: Callback)
    requires Slots(c, x, boot, stop, Some(pc), out) && CheckAct(c, x, pc, y, next)
    ensures Slots(c, y, boot, stop, Some(next), out)
  {
  }

  /** Any other event leaves the times as they are. */
  lemma OtherTimes(c: Config, x: Shared, boot: Bootstrap, cb: Option<Callback>, out: Option<Completion>, e: Event)
    requires Times(c, x, boot, cb, out) && !e.Reading? && !e.Submitted? && e.at == x.clock
    ensures Times(c, x.(log := x.log + [e]), boot, cb, out)
  {
    hide EventsUpTo, ReadingsUpTo, Spaced, DueCovers, Alternates, Answered, Latest;
    OtherKeeps(c, x.log, x.clock, e);
  }

  /** So does a step without an event, as far as the callback knows the time. */
  lemma SameTimes(c: Config, x: Shared, y: Shared, boot: Bootstrap, cb: Option<Callback>, cb': Option<Callback>, out: Option<Completion>)
    requires Times(c, x, boot, cb, out) && y.log == x.log && y.clock == x.clock && y.nextDue == x.nextDue && (x.completed ==> y.completed)
    requires cb'.Some? && HasNow(cb'.value) ==> cb'.value.now <= x.clock
    requires cb'.Some? && Publishing(cb'.value) ==> x.nextDue <= cb'.value.now
    ensures Times(c, y, boot, cb', out)
  {
    hide EventsUpTo, ReadingsUpTo, Spaced, DueCovers, Alternates, Answered, Latest;
  }

  lemma TimesKnow(c: Config, x: Shared, boot: Bootstrap, pc: Callback, out: Option<Completion>)
    requires Times(c, x, boot, Some(pc), out)
    ensures HasNow(pc) ==> pc.now <= x.clock
    ensures Publishing(pc) ==> x.nextDue <= pc.now
  {
  }

  lemma CheckTimes(c: Config, x: Shared, boot: Bootstrap, pc: Callback, out: Option<Completion>, y: Shared, next: Callback)
    requires Times(c, x, boot, Some(pc), out) && CheckAct(c, x, pc, y, next)
    ensures Times(c, y, boot, Some(next), out)
  {
    hide Times;
    TimesKnow(c, x, boot, pc, out);
    if y.log != x.log {
      var e := if pc.Rearm? then if next == Leave then Restarted(x.clock) else Ending(x.clock, NoRearm) else Early(x.clock);
      OtherTimes(c, x, boot, Some(pc), out, e);
      SameTimes(c, x.(log := x.log + [e]), y, boot, Some(pc), Some(next), out);
    } else {
      SameTimes(c, x, y, boot, Some(pc), Some(next), out);
    }
  }

  lemma CheckOutcomes(c: Config, x: Shared, boot: Bootstrap, pc: Callback, out: Option<Completion>, y: Shared, next: Callback)
    requires Outcomes(c, x, boot, Some(pc), out) && CheckAct(c, x, pc, y, next)
    ensures Outcomes(c, y, boot, Some(next), out)
  {
    hide HasEnding, Earlies, Restarts;
    if pc.Rearm? {
      EndingCounts(x.log, if next == Leave then Restarted(x.clock) else Ending(x.clock, NoRearm));
    } else if pc.LoadDue? {
      EndingCounts(x.log, Early(x.clock));
    }
  }

  lemma CheckKeeps(c: Config, x: Shared, boot: Bootstrap, stop: Stopper, pc: Callback, out: Option<Completion>,
                   y: Shared, next: Callback)
    requires Flat(c, x, boot, stop, Some(pc), out) && CheckAct(c, x, pc, y, next)
    ensures Flat(c, y, boot, stop, Some(next), out)
  {
    hide Slots, Times, Outcomes, CheckAct;
    CheckSlots(c, x, boot, stop, pc, out, y, next);
    CheckTimes(c, x, boot, pc, out, y, next);
    CheckOutcomes(c, x, boot, pc, out, y, next);
  }

  /** Where the callback and its publication stand after a step of publishing. */
  function Then(next: Callback): Callback {
    if next == Accepted then Leave else next
  }

  function Out(next: Callback, out: Option<Completion>): Option<Completion> {
    if next == Accepted then Some(Pending) else out
  }

  lemma PublishSlots(c: Config, x: Shared, boot: Bootstrap, stop: Stopper, pc: Callback, out: Option<Completion>,
                     y: Shared, next: Callback)
    requires Slots(c, x, boot, stop, Some(pc), out) && PublishAct(x, pc, y, next)
    ensures Slots(c, y, boot, stop, Some(Then(next)), Out(next, out)) && (next == Accepted ==> out.None?)
  {
  }

  lemma CallTimes(c: Config, x: Shared, boot: Bootstrap, stop: Stopper, now: nat, out: Option<Completion>, y: Shared, next: Callback)
    requires Slots(c, x, boot, stop, Some(Publish(now)), out) && Times(c, x, boot, Some(Publish(now)), out)
    requires PublishAct(x, Publish(now), y, next)
    ensures Times(c, y, boot, Some(Then(next)), Out(next, out))
  {
    hide EventsUpTo, ReadingsUpTo, Spaced, DueCovers, Alternates, Answered, Latest;
    var e := Submitted(x.clock, next == Accepted);
    OneMoreCall(c, x.log, x.nextDue, x.clock, next == Accepted);
    LatestMore(x.log, e);
    if next == Refused(true) {
      EndingKeeps(c, x.log + [e], x.clock, Rejected);
    }
  }

  lemma PublishTimes(c: Config, x: Shared, boot: Bootstrap, stop: Stopper, pc: Callback, out: Option<Completion>,
                     y: Shared, next: Callback)
    requires Slots(c, x, boot, stop, Some(pc), out) && Times(c, x, boot, Some(pc), out) && PublishAct(x, pc, y, next)
    ensures Times(c, y, boot, Some(Then(next)), Out(next, out))
  {
    hide Times, Slots;
    TimesKnow(c, x, boot, pc, out);
    if pc.Publish? {
      CallTimes(c, x, boot, stop, pc.now, out, y, next);
    } else if y.log != x.log {
      var e := Ending(x.clock, if pc.SubmitStarted? then NotStarted else NoPayload);
      OtherTimes(c, x, boot, Some(pc), out, e);
      SameTimes(c, x.(log := x.log + [e]), y, boot, Some(pc), Some(next), out);
    } else {
      SameTimes(c, x, y, boot, Some(pc), Some(next), out);
    }
  }

  lemma CallOutcomes(c: Config, x: Shared, boot: Bootstrap, now: nat, out: Option<Completion>, y: Shared, next: Callback)
    requires Outcomes(c, x, boot, Some(Publish(now)), out) && PublishAct(x, Publish(now), y, next) && (next == Accepted ==> out.None?)
    ensures Outcomes(c, y, boot, Some(Then(next)), Out(next, out))
  {
    hide HasEnding, Earlies, Restarts;
    var e := Submitted(x.clock, next == Accepted);
    EndingCounts(x.log, e);
    if next == Refused(true) {
      EndingCounts(x.log + [e], Ending(x.clock, Rejected));
    }
  }

  lemma PublishOutcomes(c: Config, x: Shared, boot: Bootstrap, pc: Callback, out: Option<Completion>, y: Shared, next: Callback)
    requires Outcomes(c, x, boot, Some(pc), out) && PublishAct(x, pc, y, next) && (next == Accepted ==> out.None?)
    ensures Outcomes(c, y, boot, Some(Then(next)), Out(next, out))
  {
    if pc.Publish? {
      hide Outcomes, PublishAct;
      CallOutcomes(c, x, boot, pc.now, out, y, next);
    } else {
      QuietOutcomes(c, x, boot, pc, out, y, next);
    }
  }

  lemma QuietOutcomes(c: Config, x: Shared, boot: Bootstrap, pc: Callback, out: Option<Completion>, y: Shared, next: Callback)
    requires Outcomes(c, x, boot, Some(pc), out) && PublishAct(x, pc, y, next) && !pc.Publish?
    ensures Outcomes(c, y, boot, Some(next), out) && next != Accepted
  {
    hide HasEnding, Earlies, Restarts;
    if y.log != x.log {
      EndingCounts(x.log, Ending(x.clock, if pc.SubmitStarted? then NotStarted else NoPayload));
    }
  }

  lemma PublishKeeps(c: Config, x: Shared, boot: Bootstrap, stop: Stopper, pc: Callback, out: Option<Completion>,
                     y: Shared, next: Callback)
    requires Flat(c, x, boot, stop, Some(pc), out) && PublishAct(x, pc, y, next)
    ensures next != Accepted ==> Flat(c, y, boot, stop, Some(next), out)
    ensures next == Accepted ==> out.None? && Flat(c, y, boot, stop, Some(Leave), Some(Pending))
  {
    hide Slots, Times, Outcomes, PublishAct;
    PublishSlots(c, x, boot, stop, pc, out, y, next);
    PublishTimes(c, x, boot, stop, pc, out, y, next);
    PublishOutcomes(c, x, boot, pc, out, y, next);
  }

  lemma CompletionSlots(c: Config, x: Shared, boot: Bootstrap, stop: Stopper, cb: Option<Callback>, pc: Completion,
                        y: Shared, next: Completion)
    requires Slots(c, x, boot, stop, cb, Some(pc)) && CompletionAct(c, x, pc, y, next)
    ensures Slots(c, y, boot, stop, cb, Some(next))
  {
  }

  lemma CompletionTimes(c: Config, x: Shared, boot: Bootstrap, stop: Stopper, cb: Option<Callback>, pc: Completion,
                        y: Shared, next: Completion)
    requires Slots(c, x, boot, stop, cb, Some(pc)) && Times(c, x, boot, cb, Some(pc)) && CompletionAct(c, x, pc, y, next)
    ensures Times(c, y, boot, cb, Some(next))
  {
    hide EventsUpTo, ReadingsUpTo, Spaced, DueCovers, Alternates, Answered, Latest, Counting;
    if pc.Pending? {
      OtherTimes(c, x, boot, cb, Some(pc), Ending(x.clock, NotPublished));
    }
    if pc.Counted? {
      MoreReadings(c, x.log, x.clock);
      LatestMore(x.log, Reading(x.clock));
    }
    if pc.StoreDue? {
      StoredDue(c, x.log, pc.at);
    }
  }

  lemma CompletionOutcomes(c: Config, x: Shared, boot: Bootstrap, stop: Stopper, cb: Option<Callback>, pc: Completion,
                           y: Shared, next: Completion)
    requires Slots(c, x, boot, stop, cb, Some(pc)) && Outcomes(c, x, boot, cb, Some(pc)) && CompletionAct(c, x, pc, y, next)
    ensures Outcomes(c, y, boot, cb, Some(next))
  {
    hide HasEnding, Earlies, Restarts, OneHolder, Booting;
    EndingCounts(x.log, Ending(x.clock, NotPublished));
    EndingCounts(x.log, Reading(x.clock));
  }

  lemma CompletionKeeps(c: Config, x: Shared, boot: Bootstrap, stop: Stopper, cb: Option<Callback>, pc: Completion,
                        y: Shared, next: Completion)
    requires Flat(c, x, boot, stop, cb, Some(pc)) && CompletionAct(c, x, pc, y, next)
    ensures Flat(c, y, boot, stop, cb, Some(next))
  {
    hide Slots, Times, Outcomes, CompletionAct;
    CompletionSlots(c, x, boot, stop, cb, pc, y, next);
    CompletionTimes(c, x, boot, stop, cb, pc, y, next);
    CompletionOutcomes(c, x, boot, stop, cb, pc, y, next);
  }

  lemma BootstrapSlots(c: Config, x: Shared, boot: Bootstrap, stop: Stopper, cb: Option<Callback>, out: Option<Completion>,
                       y: Shared, next: Bootstrap)
    requires Slots(c, x, boot, stop, cb, out) && BootstrapAct(c, x, boot, y, next)
    ensures Slots(c, y, next, stop, cb, out)
  {
  }

  lemma BootstrapTimes(c: Config, x: Shared, boot: Bootstrap, stop: Stopper, cb: Option<Callback>, out: Option<Completion>,
                       y: Shared, next: Bootstrap)
    requires Slots(c, x, boot, stop, cb, out) && Times(c, x, boot, cb, out) && BootstrapAct(c, x, boot, y, next)
    ensures Times(c, y, next, cb, out)
  {
    hide EventsUpTo, ReadingsUpTo, Spaced, DueCovers, Alternates, Answered, Latest, Counting;
    if boot.ArmTimer? {
      OtherTimes(c, x, boot, cb, out, Ending(x.clock, NoTimer));
    }
    if boot.ArmClock? {
      MoreReadings(c, x.log, x.clock);
      LatestMore(x.log, Reading(x.clock));
    }
    if boot.ArmStore? {
      StoredDue(c, x.log, boot.at);
    }
  }

  lemma BootstrapOutcomes(c: Config, x: Shared, boot: Bootstrap, cb: Option<Callback>, out: Option<Completion>, y: Shared, next: Bootstrap)
    requires Outcomes(c, x, boot, cb, out) && BootstrapAct(c, x, boot, y, next)
    ensures Outcomes(c, y, next, cb, out)
  {
    hide HasEnding, Earlies, Restarts;
    EndingCounts(x.log, Ending(x.clock, NoTimer));
    EndingCounts(x.log, Reading(x.clock));
  }

  lemma BootstrapKeeps(c: Config, x: Shared, boot: Bootstrap, stop: Stopper,
                       cb: Option<Callback>, out: Option<Completion>, y: Shared, next: Bootstrap)
    requires Flat(c, x, boot, stop, cb, out) && BootstrapAct(c, x, boot, y, next)
    ensures Flat(c, y, next, stop, cb, out)
  {
    hide Slots, Times, Outcomes, BootstrapAct;
    BootstrapSlots(c, x, boot, stop, cb, out, y, next);
    BootstrapTimes(c, x, boot, stop, cb, out, y, next);
    BootstrapOutcomes(c, x, boot, cb, out, y, next);
  }

  lemma StopSlots(c: Config, s: State, cb: Option<Callback>, out: Option<Completion>, y: Shared, next: Stopper)
    requires Sole(s.callbacks, cb) && Slots(c, s.shared, s.boot, s.stop, cb, out) && StopAct(s, y, next)
    ensures Slots(c, y, s.boot, next, cb, out)
  {
    hide Sole;
    SoleNew(s.callbacks, cb, 0, Leave);
  }

  lemma StopTimes(c: Config, s: State, cb: Option<Callback>, out: Option<Completion>, y: Shared, next: Stopper)
    requires Times(c, s.shared, s.boot, cb, out) && StopAct(s, y, next)
    ensures Times(c, y, s.boot, cb, out)
  {
    hide EventsUpTo, ReadingsUpTo, Spaced, DueCovers, Alternates, Answered, Latest;
    OtherTimes(c, s.shared, s.boot, cb, out, Ending(s.shared.clock, Stop));
  }

  lemma StopOutcomes(c: Config, s: State, cb: Option<Callback>, out: Option<Completion>, y: Shared, next: Stopper)
    requires Outcomes(c, s.shared, s.boot, cb, out) && StopAct(s, y, next)
    ensures Outcomes(c, y, s.boot, cb, out)
  {
    hide HasEnding, Earlies, Restarts;
    EndingCounts(s.shared.log, Ending(s.shared.clock, Stop));
  }

  lemma StopKeeps(c: Config, s: State, cb: Option<Callback>, out: Option<Completion>, y: Shared, next: Stopper)
    requires Inv(c, s, cb, out) && StopAct(s, y, next)
    ensures Flat(c, y, s.boot, next, cb, out)
  {
    hide Sole, Slots, Times, Outcomes, StopAct;
    StopSlots(c, s, cb, out, y, next);
    StopTimes(c, s, cb, out, y, next);
    StopOutcomes(c, s, cb, out, y, next);
  }

  lemma CallbackKeeps(c: Config, s: State, t: State, i: nat, cb: Option<Callback>, out: Option<Completion>)
    returns (cb': Option<Callback>, out': Option<Completion>)
    requires Inv(c, s, cb, out) && i in s.callbacks
    requires CallbackStep(c, s, t, i) || AcceptStep(s, t, i) || LeaveStep(s, t, i)
    ensures Inv(c, t, cb', out')
  {
    hide Sole, Flat, ReserveAct, CheckAct, PublishAct;
    var x, pc := s.shared, s.callbacks[i];
    if CallbackStep(c, s, t, i) {
      var y, next :| CallbackAct(c, x, pc, y, next) && t == s.(shared := y, callbacks := s.callbacks[i := next]);
      SoleIs(s.callbacks, cb, i, next);
      if ReserveAct(x, pc, y, next) {
        ReserveKeeps(c, x, s.boot, s.stop, pc, out, y, next);
      } else if CheckAct(c, x, pc, y, next) {
        CheckKeeps(c, x, s.boot, s.stop, pc, out, y, next);
      } else {
        PublishKeeps(c, x, s.boot, s.stop, pc, out, y, next);
      }
      cb', out' := Some(next), out;
    } else if AcceptStep(s, t, i) {
      var y, o: nat :| PublishAct(x, pc, y, Accepted) && o !in s.outstanding
        && t == s.(shared := y, callbacks := s.callbacks[i := Leave], outstanding := s.outstanding[o := Pending]);
      SoleIs(s.callbacks, cb, i, Leave);
      PublishKeeps(c, x, s.boot, s.stop, pc, out, y, Accepted);
      SoleNew(s.outstanding, out, o, Pending);
      cb', out' := Some(Leave), Some(Pending);
    } else {
      SoleIs(s.callbacks, cb, i, Leave);
      ShortStepsKeep(c, x, s.boot, s.stop, cb, out, 0);
      cb', out' := None, out;
    }
  }

  /** The steps in which a callback comes or goes, a completion goes, or time passes. */
  lemma ShortStepsKeep(c: Config, x: Shared, boot: Bootstrap, stop: Stopper,
                       cb: Option<Callback>, out: Option<Completion>, clock: nat)
    requires Flat(c, x, boot, stop, cb, out)
    ensures cb == Some(Leave) ==> Flat(c, x.(active := false), boot, stop, None, out)
    ensures out == Some(Release) ==> Flat(c, x.(inflight := Decrement(x.inflight)), boot, stop, cb, None)
    ensures x.armed && !x.active ==> cb.None? && Flat(c, x.(active := true), boot, stop, Some(LoadStarted), out)
    ensures x.clock <= clock <= U64_MAX ==> Flat(c, x.(clock := clock), boot, stop, cb, out)
  {
  }

  /** Every step keeps the invariant. */
  lemma StepKeeps(c: Config, s: State, t: State, cb: Option<Callback>, out: Option<Completion>)
    returns (cb': Option<Callback>, out': Option<Completion>)
    requires Inv(c, s, cb, out) && Step(c, s, t)
    ensures Inv(c, t, cb', out')
  {
    hide Sole, Flat, CallbackStep, AcceptStep, LeaveStep, CompletionAct, BootstrapAct, StopAct;
    cb', out' := cb, out;
    var x := s.shared;
    if EnterStep(s, t) {
      ShortStepsKeep(c, x, s.boot, s.stop, cb, out, 0);
      if !x.active {
        var i: nat :| i !in s.callbacks
          && t == s.(shared := x.(active := true), callbacks := s.callbacks[i := LoadStarted]);
        SoleNew(s.callbacks, cb, i, LoadStarted);
        cb' := Some(LoadStarted);
      }
    } else if i :| i in s.callbacks && (CallbackStep(c, s, t, i) || AcceptStep(s, t, i) || LeaveStep(s, t, i)) {
      cb', out' := CallbackKeeps(c, s, t, i, cb, out);
    } else if o :| o in s.outstanding && (CompletionStep(c, s, t, o) || ReleaseStep(s, t, o)) {
      if CompletionStep(c, s, t, o) {
        var y, next :| CompletionAct(c, x, s.outstanding[o], y, next)
          && t == s.(shared := y, outstanding := s.outstanding[o := next]);
        SoleIs(s.outstanding, out, o, next);
        CompletionKeeps(c, x, s.boot, s.stop, cb, s.outstanding[o], y, next);
        out' := Some(next);
      } else {
        SoleIs(s.outstanding, out, o, Release);
        ShortStepsKeep(c, x, s.boot, s.stop, cb, out, 0);
        out' := None;
      }
    } else if BootstrapStep(c, s, t) {
      var y, next :| BootstrapAct(c, x, s.boot, y, next) && t == s.(shared := y, boot := next);
      BootstrapKeeps(c, x, s.boot, s.stop, cb, out, y, next);
    } else if StopStep(s, t) {
      var y, next :| StopAct(s, y, next) && t == s.(shared := y, stop := next);
      StopKeeps(c, s, cb, out, y, next);
    } else {
      ShortStepsKeep(c, x, s.boot, s.stop, cb, out, t.shared.clock);
    }
  }

  // ----- every run

  ghost predicate IsRun(c: Config, run: seq<State>) {
    && |run| > 0 && Init(run[0])
    && forall k :: 0 < k < |run| ==> Step(c, run[k - 1], run[k])
  }

  ghost predicate Kept(c: Config, s: State) {
    exists cb, out :: Inv(c, s, cb, out)
  }

  lemma {:induction false} RunKeeps(c: Config, run: seq<State>, k: nat)
    requires IsRun(c, run) && k < |run|
    ensures Kept(c, run[k])
    decreases k
  {
    hide Step, Inv, Init;
    if k == 0 {
      InitKeeps(c, run[0]);
    } else {
      RunKeeps(c, run, k - 1);
      var cb, out :| Inv(c, run[k - 1], cb, out);
      var cb', out' := StepKeeps(c, run[k - 1], run[k], cb, out);
    }
  }

  lemma InitKeeps(c: Config, s: State)
    requires Init(s)
    ensures Inv(c, s, None, None)
  {
  }

  /** In every reachable state at most one publication is outstanding and at most one callback runs; the slot counter
      is 1 exactly when a callback or a publication holds the slot, so it never wraps and the slot is never lost. */
  lemma AtMostOneOutstanding(c: Config, run: seq<State>, k: nat)
    requires IsRun(c, run) && k < |run|
    ensures var s := run[k];
            && |s.outstanding| <= 1 && |s.callbacks| <= 1
            && s.shared.inflight <= 1
            && (s.shared.inflight == 1 <==>
                s.outstanding != map[] || exists i :: i in s.callbacks && Holds(s.callbacks[i]))
  {
    hide IsRun;
    RunKeeps(c, run, k);
    var cb, out :| Inv(c, run[k], cb, out);
    SoleSize(run[k].callbacks, cb);
    SoleSize(run[k].outstanding, out);
  }

  lemma SoleSize<T>(m: map<nat, T>, entry: Option<T>)
    requires Sole(m, entry)
    ensures |m| <= 1 && (entry.None? <==> m == map[])
    ensures entry.Some? <==> exists i :: i in m && m[i] == entry.value
  {
    if entry.Some? {
      var i :| i in m && m == map[i := entry.value];
      assert m[i] == entry.value;
    }
  }

  /** Successes never exceed the limit. */
  lemma SuccessesBounded(c: Config, run: seq<State>, k: nat)
    requires IsRun(c, run) && k < |run| && Limit(c) > 0
    ensures run[k].shared.runFired <= run[k].shared.fired - run[k].shared.before <= Limit(c)
  {
    hide IsRun, Sole;
    RunKeeps(c, run, k);
    var cb, out :| Inv(c, run[k], cb, out);
  }

  /** A call of publish is at least the delay after the arming of the timer and after every completion before it
      (only at the largest time there is, where the due time is saturated, may it come sooner). */
  lemma SubmissionsSpaced(c: Config, run: seq<State>, k: nat, i: nat, j: nat)
    requires IsRun(c, run) && k < |run| && i < j < |run[k].shared.log|
    requires run[k].shared.log[i].Reading? && run[k].shared.log[j].Submitted?
    ensures var (from, to) := (run[k].shared.log[i].at, run[k].shared.log[j].at);
            to >= from + c.delay || (to == U64_MAX && from + c.delay > U64_MAX)
  {
    hide IsRun, Sole, OneHolder, Booting, Counting, Alternating;
    RunKeeps(c, run, k);
    var cb, out :| Inv(c, run[k], cb, out);
  }

  /** Between an accepted publication and the next call of publish comes the completion of the former. */
  lemma SubmissionsAlternate(c: Config, run: seq<State>, k: nat, i: nat, j: nat)
    requires IsRun(c, run) && k < |run| && i < j < |run[k].shared.log|
    requires IsAccepted(run[k].shared.log[i]) && run[k].shared.log[j].Submitted?
    ensures exists m :: i < m < j && run[k].shared.log[m].Reading?
  {
    hide IsRun, Sole, OneHolder, Booting, Counting, Dues;
    RunKeeps(c, run, k);
    var cb, out :| Inv(c, run[k], cb, out);
    assert ReadingBetween(run[k].shared.log, i, j);
  }

  /** A run is over only if its limit is reached, or something ended it that the log tells: a publication that failed or
      was refused, a timer that could not be started, a stop. */
  lemma CompletedForReason(c: Config, run: seq<State>, k: nat)
    requires IsRun(c, run) && k < |run| && run[k].shared.completed
    ensures (Limit(c) > 0 && run[k].shared.runFired == Limit(c)) || HasEnding(run[k].shared.log)
  {
    hide IsRun, Sole, OneHolder, Booting, Counting, Alternating, Dues, DueIs, HasEnding;
    RunKeeps(c, run, k);
    var cb, out :| Inv(c, run[k], cb, out);
  }

  /** And whatever may end a run does, once those on the way are done. */
  lemma EndingsComplete(c: Config, run: seq<State>, k: nat)
    requires IsRun(c, run) && k < |run| && HasEnding(run[k].shared.log)
    requires run[k].callbacks == map[] && run[k].outstanding == map[] && run[k].boot == Joined
    ensures run[k].shared.completed
  {
    hide IsRun, OneHolder, Booting, Counting, Alternating, Dues, DueIs, HasEnding, Rearmed;
    RunKeeps(c, run, k);
    var cb, out :| Inv(c, run[k], cb, out);
    SoleSize(run[k].callbacks, cb);
    SoleSize(run[k].outstanding, out);
  }

  /** Every callback of a one-shot timer within the native range that comes too early starts the timer again, or ends the
      run because that fails; a timer that repeats is never started again. */
  lemma EarlyStartsAgain(c: Config, run: seq<State>, k: nat)
    requires IsRun(c, run) && k < |run| && run[k].callbacks == map[]
    ensures var log := run[k].shared.log;
            if c.oneShot && c.delay < 0xFFFF_FFFF then Earlies(log) == Restarts(log) else Restarts(log) == 0
  {
    hide IsRun, OneHolder, Booting, Counting, Alternating, Dues, DueIs, Reasons, Earlies, Restarts;
    RunKeeps(c, run, k);
    var cb, out :| Inv(c, run[k], cb, out);
    SoleSize(run[k].callbacks, cb);
  }

  /** A run whose limit is reached is over once its completions are. */
  lemma LimitEndsRun(c: Config, run: seq<State>, k: nat)
    requires IsRun(c, run) && k < |run| && Limit(c) > 0 && run[k].shared.runFired == Limit(c) && run[k].outstanding == map[]
    ensures run[k].shared.completed
  {
    hide IsRun, OneHolder, Booting, Alternating, Dues, DueIs, Reasons;
    RunKeeps(c, run, k);
    var cb, out :| Inv(c, run[k], cb, out);
    SoleSize(run[k].outstanding, out);
  }

  /** The due time is the delay after the latest reading, saturated, or 0 if there was none, whenever nobody is about to store it. */
  lemma DueAfterLatest(c: Config, run: seq<State>, k: nat)
    requires IsRun(c, run) && k < |run| && !run[k].boot.ArmStore?
    requires forall o :: o in run[k].outstanding ==> !run[k].outstanding[o].StoreDue?
    ensures match Latest(run[k].shared.log)
            case None => run[k].shared.nextDue == 0
            case Some(at) => run[k].shared.nextDue == if at + c.delay <= U64_MAX then at + c.delay else U64_MAX
  {
    hide IsRun, OneHolder, Booting, Counting, Alternating, Dues, Reasons;
    RunKeeps(c, run, k);
    var cb, out :| Inv(c, run[k], cb, out);
    SoleSize(run[k].outstanding, out);
  }

  // ----- nothing after the end

  /** A step only adds to the log, keeps `completed`, and calls publish only while it is not set. */
  ghost predicate Quiet(x: Shared, y: Shared) {
    && x.log <= y.log && (x.completed ==> y.completed)
    && (x.completed ==> forall k :: |x.log| <= k < |y.log| ==> !y.log[k].Submitted?)
  }

  lemma CallbackQuiet(c: Config, x: Shared, pc: Callback, y: Shared, next: Callback)
    requires ReserveAct(x, pc, y, next) || CheckAct(c, x, pc, y, next) || PublishAct(x, pc, y, next)
    requires Cleared(pc) ==> !x.completed
    ensures Quiet(x, y)
  {
  }

  lemma CompletionQuiet(c: Config, x: Shared, pc: Completion, y: Shared, next: Completion)
    requires CompletionAct(c, x, pc, y, next)
    ensures Quiet(x, y)
  {
  }

  lemma BootstrapQuiet(c: Config, x: Shared, boot: Bootstrap, y: Shared, next: Bootstrap)
    requires BootstrapAct(c, x, boot, y, next)
    ensures Quiet(x, y)
  {
  }

  lemma StopQuiet(s: State, y: Shared, next: Stopper)
    requires StopAct(s, y, next)
    ensures Quiet(s.shared, y)
  {
  }

  lemma ClearedGoes(c: Config, s: State, i: nat)
    requires Kept(c, s) && i in s.callbacks && Cleared(s.callbacks[i])
    ensures !s.shared.completed
  {
    hide Sole, Booting, Counting, Alternating, Dues;
    var cb, out :| Inv(c, s, cb, out);
    SoleIs(s.callbacks, cb, i, Leave);
  }

  lemma StepQuiet(c: Config, s: State, t: State)
    requires Kept(c, s) && Step(c, s, t)
    ensures Quiet(s.shared, t.shared)
  {
    hide Kept, ReserveAct, CheckAct, PublishAct, CompletionAct, BootstrapAct, StopAct;
    var x, y := s.shared, t.shared;
    if i :| i in s.callbacks && (CallbackStep(c, s, t, i) || AcceptStep(s, t, i) || LeaveStep(s, t, i)) {
      if Cleared(s.callbacks[i]) {
        ClearedGoes(c, s, i);
      }
      if CallbackStep(c, s, t, i) {
        var next :| CallbackAct(c, x, s.callbacks[i], y, next);
        CallbackQuiet(c, x, s.callbacks[i], y, next);
      } else if AcceptStep(s, t, i) {
        CallbackQuiet(c, x, s.callbacks[i], y, Accepted);
      }
    } else if o :| o in s.outstanding && (CompletionStep(c, s, t, o) || ReleaseStep(s, t, o)) {
      if CompletionStep(c, s, t, o) {
        var next :| CompletionAct(c, x, s.outstanding[o], y, next);
        CompletionQuiet(c, x, s.outstanding[o], y, next);
      }
    } else if BootstrapStep(c, s, t) {
      var next :| BootstrapAct(c, x, s.boot, y, next);
      BootstrapQuiet(c, x, s.boot, y, next);
    } else if StopStep(s, t) {
      var next :| StopAct(s, y, next);
      StopQuiet(s, y, next);
    }
  }

  /** Once `completed` is set it stays set, and publish is not called again. */
  lemma {:induction false} NothingAfterCompleted(c: Config, run: seq<State>, i: nat, j: nat)
    requires IsRun(c, run) && i <= j < |run| && run[i].shared.completed
    ensures Quiet(run[i].shared, run[j].shared)
    decreases j
  {
    hide Step, Init, Kept;
    if i < j {
      NothingAfterCompleted(c, run, i, j - 1);
      RunKeeps(c, run, j - 1);
      StepQuiet(c, run[j - 1], run[j]);
    }
  }

  // ----- the slot is never lost

  /** The steps of `run`, one after another. */
  ghost predicate Steps(c: Config, run: seq<State>) {
    run != [] && forall k :: 0 < k < |run| ==> Step(c, run[k - 1], run[k])
  }

  lemma Extend(c: Config, run: seq<State>, t: State) returns (longer: seq<State>)
    requires Steps(c, run) && Step(c, run[|run| - 1], t)
    ensures Steps(c, longer) && longer[0] == run[0] && longer[|longer| - 1] == t
  {
    hide Step;
    longer := run + [t];
  }

  /** The state with a callback inside, at the given place. */
  ghost function Inside(s: State, x: Shared, pc: Callback): State {
    s.(shared := x, callbacks := map[0 := pc])
  }

  lemma CallbackMoves(c: Config, s: State, run: seq<State>, x: Shared, pc: Callback, y: Shared, next: Callback)
    returns (longer: seq<State>)
    requires Steps(c, run) && run[|run| - 1] == Inside(s, x, pc) && CallbackAct(c, x, pc, y, next)
    ensures Steps(c, longer) && longer[0] == run[0] && longer[|longer| - 1] == Inside(s, y, next)
  {
    hide CallbackAct;
    var u, t := Inside(s, x, pc), Inside(s, y, next);
    assert t.callbacks == u.callbacks[0 := next];
    assert CallbackAct(c, u.shared, u.callbacks[0], y, next) && t == u.(shared := y, callbacks := u.callbacks[0 := next]);
    assert CallbackStep(c, u, t, 0);
    longer := Extend(c, run, t);
  }

  /** Nothing keeps a callback from a free slot while the run goes on. */
  lemma CallbackGetsSlot(c: Config, s: State, x: Shared, start: seq<State>) returns (run: seq<State>)
    requires Steps(c, start) && start[|start| - 1] == Inside(s, x, LoadStarted)
    requires x.started && !x.completed && x.inflight == 0
    ensures Steps(c, run) && run[0] == start[0]
    ensures run[|run| - 1] == Inside(s, x.(inflight := 1), RecheckStarted(x.clock))
  {
    hide Steps, Inside;
    var now := x.clock;
    run := CallbackMoves(c, s, start, x, LoadStarted, x, LoadCompleted);
    run := CallbackMoves(c, s, run, x, LoadCompleted, x, ReadClock);
    run := CallbackMoves(c, s, run, x, ReadClock, x, ReserveStarted(now));
    run := CallbackMoves(c, s, run, x, ReserveStarted(now), x, ReserveCompleted(now));
    run := CallbackMoves(c, s, run, x, ReserveCompleted(now), x, ReserveSwap(now));
    run := CallbackMoves(c, s, run, x, ReserveSwap(now), x.(inflight := 1), RecheckStarted(now));
  }

  /** Nor, with the slot, from publishing when the schedule is due. */
  lemma HolderPublishes(c: Config, s: State, x: Shared, start: seq<State>, now: nat) returns (run: seq<State>)
    requires Steps(c, start) && start[|start| - 1] == Inside(s, x, RecheckStarted(now))
    requires x.started && !x.completed && x.nextDue <= now
    ensures Steps(c, run) && run[0] == start[0] && run[|run| - 1] == Inside(s, x, Publish(now))
  {
    hide Steps, Inside;
    run := CallbackMoves(c, s, start, x, RecheckStarted(now), x, RecheckCompleted(now));
    run := CallbackMoves(c, s, run, x, RecheckCompleted(now), x, LoadDue(now));
    run := CallbackMoves(c, s, run, x, LoadDue(now), x, SubmitStarted(now));
    run := CallbackMoves(c, s, run, x, SubmitStarted(now), x, ClonePayload(now));
    run := CallbackMoves(c, s, run, x, ClonePayload(now), x, Publish(now));
  }

  /** Whenever the schedule is due and nobody holds the slot, a callback that is not disturbed gets to publish: the run
      can go on to one more accepted publication. */
  lemma DueCallbackPublishes(c: Config, s: State) returns (run: seq<State>)
    requires Kept(c, s) && s.callbacks == map[] && s.outstanding == map[]
    requires var x := s.shared; x.started && !x.completed && x.armed && !x.active && x.nextDue <= x.clock
    ensures Steps(c, run) && run[0] == s
    ensures run[|run| - 1] == Submits(s, s.shared.(active := true, inflight := 1))
    ensures run[|run| - 1].shared.log == s.shared.log + [Submitted(s.shared.clock, true)]
  {
    hide Kept, Step;
    FreeSlot(c, s);
    var x, now := s.shared.(active := true), s.shared.clock;
    var t := Inside(s, x, LoadStarted);
    Enters(c, s);
    run := Extend(c, [s], t);
    run := CallbackGetsSlot(c, s, x, run);
    var held := x.(inflight := 1);
    run := HolderPublishes(c, s, held, run, now);
    Accepts(c, s, held, now);
    run := Extend(c, run, Submits(s, held));
  }

  lemma Enters(c: Config, s: State)
    requires s.callbacks == map[] && s.shared.armed && !s.shared.active
    ensures Step(c, s, Inside(s, s.shared.(active := true), LoadStarted))
  {
    assert 0 !in s.callbacks && s.callbacks[0 := LoadStarted] == map[0 := LoadStarted];
    assert EnterStep(s, Inside(s, s.shared.(active := true), LoadStarted));
  }

  ghost function Submits(s: State, x: Shared): State {
    Inside(s, x.(log := x.log + [Submitted(x.clock, true)]), Leave).(outstanding := map[0 := Pending])
  }

  lemma Accepts(c: Config, s: State, x: Shared, now: nat)
    requires s.outstanding == map[]
    ensures Step(c, Inside(s, x, Publish(now)), Submits(s, x))
  {
    var u, v := Inside(s, x, Publish(now)), Submits(s, x);
    assert 0 in u.callbacks && 0 !in u.outstanding;
    assert v.callbacks == u.callbacks[0 := Leave] && v.outstanding == u.outstanding[0 := Pending];
    assert PublishAct(u.shared, u.callbacks[0], v.shared, Accepted);
    assert AcceptStep(u, v, 0);
  }

  lemma FreeSlot(c: Config, s: State)
    requires Kept(c, s) && s.callbacks == map[] && s.outstanding == map[]
    ensures s.shared.inflight == 0
  {
    hide Booting, Counting, Alternating, Dues;
    var cb, out :| Inv(c, s, cb, out);
    SoleSize(s.callbacks, cb);
    SoleSize(s.outstanding, out);
  }

  /** Every schedule has runs that publish. */
  lemma SomeRunPublishes(c: Config) returns (run: seq<State>)
    ensures IsRun(c, run) && run[|run| - 1].shared.log == [Reading(0), Submitted(AddDelay(0, c.delay), true)]
    ensures var x := run[|run| - 1].shared; x.started && !x.completed && x.armed && x.active && x.inflight == 1
    ensures run[|run| - 1].boot == Joined && run[|run| - 1].stop == Idle
    ensures run[|run| - 1].callbacks == map[0 := Leave] && run[|run| - 1].outstanding == map[0 := Pending]
  {
    hide Step;
    run := ArmedRun(c);
    var s := run[|run| - 1];
    RunKeeps(c, run, |run| - 1);
    var more := DueCallbackPublishes(c, s);
    run := run + more[1..];
  }

  /** The bootstrap thread arms the timer, and the delay passes. */
  lemma ArmedRun(c: Config) returns (run: seq<State>)
    ensures IsRun(c, run)
    ensures var (s, due) := (run[|run| - 1], AddDelay(0, c.delay));
            s == State(Shared(true, false, false, 0, 0, 0, due, due, true, [Reading(0)], 0), Joined, Idle, map[], map[])
  {
    hide Step;
    var x := Shared(true, false, false, 0, 0, 0, 0, 0, false, [], 0);
    var y := x.(log := [Reading(0)]);
    var z := y.(nextDue := AddDelay(0, c.delay));
    var a := z.(armed := true);
    BootstrapMoves(c, x, Waiting, x, CheckStarted);
    BootstrapMoves(c, x, CheckStarted, x, ArmClock);
    BootstrapMoves(c, x, ArmClock, y, ArmStore(0));
    BootstrapMoves(c, y, ArmStore(0), z, ArmTimer);
    BootstrapMoves(c, z, ArmTimer, a, Joined);
    Waits(c, a, a.nextDue);
    run := [Fresh(x, Waiting), Fresh(x, CheckStarted), Fresh(x, ArmClock), Fresh(y, ArmStore(0)), Fresh(z, ArmTimer),
            Fresh(a, Joined), Fresh(a.(clock := a.nextDue), Joined)];
  }

  ghost function Fresh(x: Shared, boot: Bootstrap): State {
    State(x, boot, Idle, map[], map[])
  }

  lemma BootstrapMoves(c: Config, x: Shared, boot: Bootstrap, y: Shared, next: Bootstrap)
    requires BootstrapAct(c, x, boot, y, next)
    ensures Step(c, Fresh(x, boot), Fresh(y, next))
  {
    hide BootstrapAct;
    assert BootstrapStep(c, Fresh(x, boot), Fresh(y, next));
  }

  lemma Waits(c: Config, x: Shared, clock: nat)
    requires x.clock <= clock <= U64_MAX
    ensures Step(c, Fresh(x, Joined), Fresh(x.(clock := clock), Joined))
  {
    assert TickStep(Fresh(x, Joined), Fresh(x.(clock := clock), Joined));
  }

  // ----- every number of successes

  /** The schedule is due after `n` successes, and nothing is under way. */
  ghost predicate DueNext(c: Config, s: State, n: nat) {
    && s.boot == Joined && s.stop == Idle && s.callbacks == map[] && s.outstanding == map[]
    && var x := s.shared;
    && x.started && !x.completed && x.armed && !x.active && x.inflight == 0 && x.runFired == n && x.nextDue <= x.clock <= U64_MAX
  }

  /** After `n` successes, all told. */
  ghost predicate Succeeded(c: Config, s: State, n: nat) {
    && s.shared.runFired == n && s.callbacks == map[] && s.outstanding == map[]
    && if Limit(c) > 0 && n == Limit(c) then s.shared.completed && !HasEnding(s.shared.log) else DueNext(c, s, n)
  }

  lemma GivesBack(c: Config, s: State)
    requires s.outstanding == map[0 := Release] && s.shared.inflight == 1
    ensures Step(c, s, s.(shared := s.shared.(inflight := 0), outstanding := map[]))
  {
    assert s.outstanding - {0} == map[];
    assert ReleaseStep(s, s.(shared := s.shared.(inflight := 0), outstanding := map[]), 0);
  }

  lemma Passes(c: Config, s: State, clock: nat)
    requires s.shared.clock <= clock <= U64_MAX
    ensures Step(c, s, s.(shared := s.shared.(clock := clock)))
  {
    assert TickStep(s, s.(shared := s.shared.(clock := clock)));
  }

  /** One more publication, accepted and completed. */
  lemma OneSuccess(c: Config, run: seq<State>, n: nat) returns (longer: seq<State>)
    requires IsRun(c, run) && DueNext(c, run[|run| - 1], n) && (Limit(c) == 0 || n < Limit(c)) && !HasEnding(run[|run| - 1].shared.log)
    ensures IsRun(c, longer) && Succeeded(c, longer[|longer| - 1], n + 1) && !HasEnding(longer[|longer| - 1].shared.log)
  {
    hide Step, IsRun, HasEnding;
    Longer(c, run);
    var s := run[|run| - 1];
    longer := PublishedOnce(c, run, n);
    var u := longer[|longer| - 1];
    longer := CompletedOnce(c, longer, s.shared, n);
  }

  lemma PublishedOnce(c: Config, run: seq<State>, n: nat) returns (longer: seq<State>)
    requires IsRun(c, run) && |run| > 0 && DueNext(c, run[|run| - 1], n)
    ensures IsRun(c, longer) && |longer| > 0
    ensures var (s, t) := (run[|run| - 1], longer[|longer| - 1]);
            && t == State(t.shared, Joined, Idle, map[], map[0 := Pending])
            && t.shared == s.shared.(inflight := 1, log := s.shared.log + [Submitted(s.shared.clock, true)])
  {
    hide Step, Kept;
    var s := run[|run| - 1];
    RunKeeps(c, run, |run| - 1);
    var more := DueCallbackPublishes(c, s);
    longer := run + more[1..];
    assert longer[|longer| - 1] == more[|more| - 1];
    var t := longer[|longer| - 1];
    Leaves(c, t);
    longer := Moves(c, longer, t.(shared := t.shared.(active := false), callbacks := map[]));
  }

  lemma CompletedOnce(c: Config, run: seq<State>, x0: Shared, n: nat) returns (longer: seq<State>)
    requires IsRun(c, run) && |run| > 0 && (Limit(c) == 0 || n < Limit(c)) && !HasEnding(x0.log)
    requires x0.started && !x0.completed && x0.armed && !x0.active && x0.runFired == n && x0.clock <= U64_MAX
    requires var x := x0.(inflight := 1, log := x0.log + [Submitted(x0.clock, true)]);
             run[|run| - 1] == State(x, Joined, Idle, map[], map[0 := Pending])
    ensures IsRun(c, longer) && |longer| > 0 && Succeeded(c, longer[|longer| - 1], n + 1) && !HasEnding(longer[|longer| - 1].shared.log)
  {
    hide Step, IsRun, HasEnding;
    var s := run[|run| - 1];
    LatestMore(x0.log, Submitted(x0.clock, true));
    var x1 := s.shared.(fired := s.shared.fired + 1);
    var s1 := s.(shared := x1, outstanding := map[0 := CountRun]);
    Completes(c, s, Pending, x1, CountRun);
    longer := Moves(c, run, s1);
    var x2 := x1.(runFired := n + 1);
    var s2 := s1.(shared := x2, outstanding := map[0 := Counted(n + 1)]);
    Completes(c, s1, CountRun, x2, Counted(n + 1));
    longer := Moves(c, longer, s2);
    if Limit(c) > 0 && n + 1 == Limit(c) {
      var x3 := x2.(completed := true);
      var s3 := s2.(shared := x3, outstanding := map[0 := Release]);
      Completes(c, s2, Counted(n + 1), x3, Release);
      longer := Moves(c, longer, s3);
      GivesBack(c, s3);
      longer := Moves(c, longer, s3.(shared := x3.(inflight := 0), outstanding := map[]));
    } else {
      longer := DelayedAgain(c, longer, x2, n);
    }
  }

  lemma DelayedAgain(c: Config, run: seq<State>, x: Shared, n: nat) returns (longer: seq<State>)
    requires IsRun(c, run) && |run| > 0 && run[|run| - 1] == State(x, Joined, Idle, map[], map[0 := Counted(n + 1)]) && !HasEnding(x.log)
    requires x.started && !x.completed && x.armed && !x.active && x.inflight == 1 && x.runFired == n + 1 && x.clock <= U64_MAX
    requires !c.oneShot && (c.repeatLimit == 0 || n + 1 < c.repeatLimit)
    ensures IsRun(c, longer) && |longer| > 0 && DueNext(c, longer[|longer| - 1], n + 1) && !HasEnding(longer[|longer| - 1].shared.log)
  {
    hide Step, IsRun, HasEnding;
    var s := run[|run| - 1];
    LatestMore(x.log, Reading(x.clock));
    var x1 := x.(log := x.log + [Reading(x.clock)]);
    var s1 := s.(shared := x1, outstanding := map[0 := StoreDue(x.clock)]);
    Completes(c, s, Counted(n + 1), x1, StoreDue(x.clock));
    longer := Moves(c, run, s1);
    var due := AddDelay(x.clock, c.delay);
    var x2 := x1.(nextDue := due);
    var s2 := s1.(shared := x2, outstanding := map[0 := Release]);
    Completes(c, s1, StoreDue(x.clock), x2, Release);
    longer := Moves(c, longer, s2);
    GivesBack(c, s2);
    var s3 := s2.(shared := x2.(inflight := 0), outstanding := map[]);
    longer := Moves(c, longer, s3);
    Passes(c, s3, due);
    longer := Moves(c, longer, s3.(shared := s3.shared.(clock := due)));
  }

  /** For every number of successes up to the limit, if there is one, there is a run with that many, in which nothing fails;
      with as many as the limit it is over, and with fewer it is due again. */
  lemma {:induction false} SucceedsAnyTimes(c: Config, n: nat) returns (run: seq<State>)
    requires Limit(c) == 0 || n <= Limit(c)
    ensures IsRun(c, run) && |run| > 0 && Succeeded(c, run[|run| - 1], n) && !HasEnding(run[|run| - 1].shared.log)
    decreases n
  {
    hide Step, IsRun;
    if n == 0 {
      run := ArmedRun(c);
      Longer(c, run);
    } else {
      run := SucceedsAnyTimes(c, n - 1);
      run := OneSuccess(c, run, n - 1);
      Longer(c, run);
    }
  }

  // ----- starting again

  /** Stop has come to its end. */
  ghost predicate Stopped(s: State) {
    && !s.shared.started && !s.shared.armed && s.shared.clock <= U64_MAX
    && s.boot == Joined && s.stop == Idle && s.callbacks == map[]
  }

  /** flow_schedule_start on a stopped schedule: everything is reset but the cumulative counter, and publications of the
      old run may still be outstanding. */
  ghost function Restart(s: State): State {
    State(Shared(true, false, false, 0, 0, s.shared.fired, 0, s.shared.clock, false, [], s.shared.fired), Waiting, Idle, map[],
          s.outstanding)
  }

  /** What every step keeps holds after a restart if and only if no publication is outstanding; and then a new run
      begins, like the first. */
  lemma RestartKeeps(c: Config, s: State)
    requires Stopped(s)
    ensures Kept(c, Restart(s)) <==> s.outstanding == map[]
    ensures Init(Restart(s)) <==> s.outstanding == map[]
  {
    if s.outstanding == map[] {
      assert Init(Restart(s));
      InitKeeps(c, Restart(s));
    } else {
      forall cb, out ensures !Inv(c, Restart(s), cb, out) {
        if Sole(s.outstanding, out) && Sole(Restart(s).callbacks, cb) {
          SoleSize(s.outstanding, out);
          SoleSize(Restart(s).callbacks, cb);
        }
      }
    }
  }

  // ----- nothing after stop

  /** The callback has seen, with the slot taken, that the flow was started. */
  predicate Passed(pc: Callback) {
    || pc.RecheckCompleted? || Cleared(pc) || pc.EarlyRelease? || pc.Rearm? || pc.GiveUp? || pc.Refused? || pc.Accepted?
    || pc.StoreCompleted?
  }

  /** A callback calls publish, comes too early, starts the timer, or ends the run. */
  predicate ByCallback(e: Event) {
    e.Submitted? || e.Early? || e.Restarted? || (e.Ending? && e.cause in {NotStarted, NoPayload, Rejected, NoRearm})
  }

  /** Stop has begun, and no callback has passed its checks. */
  ghost predicate Shut(s: State) {
    !s.shared.started && forall i :: i in s.callbacks ==> !Passed(s.callbacks[i])
  }

  ghost predicate NoneBetween(log: seq<Event>, log': seq<Event>) {
    log <= log' && forall k :: |log| <= k < |log'| ==> !ByCallback(log'[k])
  }

  lemma ShutInside(c: Config, x: Shared, pc: Callback, y: Shared, next: Callback)
    requires !x.started && !Passed(pc)
    requires ReserveAct(x, pc, y, next) || CheckAct(c, x, pc, y, next) || PublishAct(x, pc, y, next)
    ensures !y.started && !Passed(next) && y.log == x.log && next != Accepted
  {
  }

  lemma ShutElsewhere(c: Config, s: State, t: State)
    requires BootstrapStep(c, s, t) || StopStep(s, t) || TickStep(s, t) || EnterStep(s, t)
    ensures t.shared.started ==> s.shared.started
    ensures NoneBetween(s.shared.log, t.shared.log)
    ensures forall i :: i in t.callbacks ==> (i in s.callbacks && t.callbacks[i] == s.callbacks[i]) || t.callbacks[i] == LoadStarted
  {
    if BootstrapStep(c, s, t) {
      var next :| BootstrapAct(c, s.shared, s.boot, t.shared, next);
    } else if StopStep(s, t) {
      var next :| StopAct(s, t.shared, next);
    }
  }

  lemma ShutCompletion(c: Config, x: Shared, pc: Completion, y: Shared, next: Completion)
    requires CompletionAct(c, x, pc, y, next)
    ensures y.started == x.started && NoneBetween(x.log, y.log)
  {
  }

  lemma ShutKept(c: Config, s: State, t: State)
    requires Shut(s) && Step(c, s, t)
    ensures Shut(t) && NoneBetween(s.shared.log, t.shared.log)
  {
    hide ReserveAct, CheckAct, PublishAct, CompletionAct, BootstrapStep, StopStep, TickStep, EnterStep, Passed;
    if i :| i in s.callbacks && (CallbackStep(c, s, t, i) || AcceptStep(s, t, i) || LeaveStep(s, t, i)) {
      if CallbackStep(c, s, t, i) {
        var next :| CallbackAct(c, s.shared, s.callbacks[i], t.shared, next) && t == s.(shared := t.shared, callbacks := s.callbacks[i := next]);
        ShutInside(c, s.shared, s.callbacks[i], t.shared, next);
      } else if AcceptStep(s, t, i) {
        var y :| PublishAct(s.shared, s.callbacks[i], y, Accepted);
        ShutInside(c, s.shared, s.callbacks[i], y, Accepted);
      }
    } else if o :| o in s.outstanding && (CompletionStep(c, s, t, o) || ReleaseStep(s, t, o)) {
      if CompletionStep(c, s, t, o) {
        var next :| CompletionAct(c, s.shared, s.outstanding[o], t.shared, next);
        ShutCompletion(c, s.shared, s.outstanding[o], t.shared, next);
      }
    } else {
      ShutElsewhere(c, s, t);
      NewHasNotPassed();
    }
  }

  lemma NewHasNotPassed()
    ensures !Passed(LoadStarted)
  {
  }

  /** Once stop has begun, and the callbacks that had passed their checks are gone, no callback calls publish, starts the
      timer or ends the run; a callback that takes the slot only gives it back. */
  lemma {:induction false} NothingAfterStop(c: Config, run: seq<State>, j: nat, k: nat)
    requires Steps(c, run) && j <= k < |run| && Shut(run[j])
    ensures Shut(run[k]) && NoneBetween(run[j].shared.log, run[k].shared.log)
    decreases k - j
  {
    hide Step, Shut;
    if j < k {
      ShutKept(c, run[j], run[j + 1]);
      NothingAfterStop(c, run, j + 1, k);
    }
  }

  /** The slot counter has wrapped, and nobody is left to count it back. */
  ghost predicate Lost(s: State) {
    && s.shared.inflight == U32_MAX && s.outstanding == map[]
    && (forall i :: i in s.callbacks ==> !Holds(s.callbacks[i]))
    && (forall k :: 0 <= k < |s.shared.log| ==> !s.shared.log[k].Submitted?)
  }

  lemma LostInside(c: Config, x: Shared, pc: Callback, y: Shared, next: Callback)
    requires x.inflight == U32_MAX && !Holds(pc)
    requires ReserveAct(x, pc, y, next) || CheckAct(c, x, pc, y, next) || PublishAct(x, pc, y, next)
    ensures y.inflight == U32_MAX && !Holds(next) && next != Accepted
    ensures x.log <= y.log && forall k :: |x.log| <= k < |y.log| ==> !y.log[k].Submitted?
  {
  }

  lemma LostElsewhere(c: Config, s: State, t: State)
    requires s.shared.inflight == U32_MAX && (BootstrapStep(c, s, t) || StopStep(s, t) || TickStep(s, t) || EnterStep(s, t))
    ensures t.shared.inflight == U32_MAX && t.outstanding == s.outstanding
    ensures forall i :: i in t.callbacks ==> (i in s.callbacks && t.callbacks[i] == s.callbacks[i]) || t.callbacks[i] == LoadStarted
    ensures s.shared.log <= t.shared.log && forall k :: |s.shared.log| <= k < |t.shared.log| ==> !t.shared.log[k].Submitted?
  {
    if BootstrapStep(c, s, t) {
      BootstrapLost(c, s, t);
    } else if StopStep(s, t) {
      var next :| StopAct(s, t.shared, next);
    }
  }

  lemma BootstrapLost(c: Config, s: State, t: State)
    requires BootstrapStep(c, s, t)
    ensures t.shared.inflight == s.shared.inflight && t.outstanding == s.outstanding && t.callbacks == s.callbacks
    ensures s.shared.log <= t.shared.log && forall k :: |s.shared.log| <= k < |t.shared.log| ==> !t.shared.log[k].Submitted?
  {
    var next :| BootstrapAct(c, s.shared, s.boot, t.shared, next);
  }

  lemma LostKept(c: Config, s: State, t: State)
    requires Lost(s) && Step(c, s, t)
    ensures Lost(t)
  {
    hide ReserveAct, CheckAct, PublishAct, CompletionAct, BootstrapStep, StopStep, TickStep, EnterStep, Holds;
    if i :| i in s.callbacks && (CallbackStep(c, s, t, i) || AcceptStep(s, t, i) || LeaveStep(s, t, i)) {
      if CallbackStep(c, s, t, i) {
        var next :| CallbackAct(c, s.shared, s.callbacks[i], t.shared, next) && t == s.(shared := t.shared, callbacks := s.callbacks[i := next]);
        LostInside(c, s.shared, s.callbacks[i], t.shared, next);
      } else if AcceptStep(s, t, i) {
        var y, o: nat :| PublishAct(s.shared, s.callbacks[i], y, Accepted) && o !in s.outstanding
          && t == s.(shared := y, callbacks := s.callbacks[i := Leave], outstanding := s.outstanding[o := Pending]);
        LostInside(c, s.shared, s.callbacks[i], y, Accepted);
      }
    } else {
      LostElsewhere(c, s, t);
      NewIsFree();
    }
  }

  lemma NewIsFree()
    ensures !Holds(LoadStarted)
  {
  }

  /** Once the slot is lost, it stays so, and publish is not called. */
  lemma {:induction false} LostForever(c: Config, run: seq<State>, j: nat, k: nat)
    requires Steps(c, run) && j <= k < |run| && Lost(run[j])
    ensures Lost(run[k])
    decreases k - j
  {
    hide Step, Lost;
    if j < k {
      LostKept(c, run[j], run[j + 1]);
      LostForever(c, run, j + 1, k);
    }
  }

  /** If the old run's completion gives back the slot after the restart and before anyone has taken it, the unsigned
      counter wraps, the slot is lost, and the schedule never publishes again. */
  lemma NeverPublishesAgain(c: Config, s: State, o: nat, run: seq<State>, k: nat)
    requires Stopped(s) && s.outstanding == map[o := Release] && Steps(c, run) && run[0] == Restart(s)
    requires 0 < k < |run| && ReleaseStep(run[0], run[1], o)
    ensures run[k].shared.inflight == U32_MAX && forall i :: 0 <= i < |run[k].shared.log| ==> !run[k].shared.log[i].Submitted?
    ensures Lost(run[k])
  {
    hide Step;
    assert run[1].outstanding == map[];
    LostForever(c, run, 1, k);
  }

  /** A run from `s` that loses the slot. */
  ghost predicate LosesSlot(c: Config, s: State, run: seq<State>) {
    Steps(c, run) && run[0] == s && Lost(run[|run| - 1])
  }

  /** The completion of the old run is on its way, and nobody has taken the slot since. */
  ghost predicate LateCompletion(s: State, o: nat, pc: Completion) {
    && s.outstanding == map[o := pc] && s.callbacks == map[] && s.shared.inflight == 0
    && forall k :: 0 <= k < |s.shared.log| ==> !s.shared.log[k].Submitted?
  }

  function StepsLeft(pc: Completion): nat {
    match pc
    case Pending => 2
    case CountRun => 3
    case Counted(_) => 2
    case StoreDue(_) => 1
    case Failed => 1
    case Release => 0
  }

  /** The step of such a completion, to failure if the publication is pending. */
  lemma LateStep(c: Config, s: State, o: nat, pc: Completion) returns (t: State, next: Completion)
    requires LateCompletion(s, o, pc) && pc != Release
    ensures Step(c, s, t) && LateCompletion(t, o, next) && StepsLeft(next) < StepsLeft(pc)
  {
    hide Step;
    var y;
    y, next := LateMove(c, s.shared, pc);
    t := s.(shared := y, outstanding := s.outstanding[o := next]);
    assert s.outstanding[o := next] == map[o := next];
    LateIsStep(c, s, o, pc, y, next, t);
  }

  lemma LateMove(c: Config, x: Shared, pc: Completion) returns (y: Shared, next: Completion)
    requires pc != Release
    ensures CompletionAct(c, x, pc, y, next) && StepsLeft(next) < StepsLeft(pc) && y.inflight == x.inflight
    ensures x.log <= y.log && forall k :: |x.log| <= k < |y.log| ==> !y.log[k].Submitted?
  {
    match pc
    case Pending => y, next := Ends(x, NotPublished), Failed;
    case CountRun => y, next := x.(runFired := x.runFired + 1), Counted(x.runFired + 1);
    case Counted(n) =>
      if c.oneShot || (c.repeatLimit > 0 && n >= c.repeatLimit) {
        y, next := x.(completed := true), Release;
      } else {
        y, next := x.(log := x.log + [Reading(x.clock)]), StoreDue(x.clock);
      }
    case StoreDue(at) => y, next := x.(nextDue := AddDelay(at, c.delay)), Release;
    case Failed => y, next := x.(completed := true), Release;
  }

  lemma LateIsStep(c: Config, s: State, o: nat, pc: Completion, y: Shared, next: Completion, t: State)
    requires o in s.outstanding && s.outstanding[o] == pc && CompletionAct(c, s.shared, pc, y, next)
    requires t == s.(shared := y, outstanding := s.outstanding[o := next])
    ensures Step(c, s, t)
  {
    hide CompletionAct;
    assert CompletionStep(c, s, t, o);
  }

  lemma {:induction false} LateRun(c: Config, s: State, o: nat, pc: Completion) returns (run: seq<State>)
    requires LateCompletion(s, o, pc)
    ensures LosesSlot(c, s, run)
    decreases StepsLeft(pc)
  {
    hide Step;
    if pc == Release {
      var t := s.(shared := s.shared.(inflight := U32_MAX), outstanding := map[]);
      ReleaseMoves(c, s, o, t);
      run := [s, t];
    } else {
      var t, next := LateStep(c, s, o, pc);
      var rest := LateRun(c, t, o, next);
      run := [s] + rest;
      assert forall k :: 0 < k < |run| ==> run[k] == rest[k - 1];
    }
  }

  lemma ReleaseMoves(c: Config, s: State, o: nat, t: State)
    requires s.outstanding == map[o := Release] && s.shared.inflight == 0
    requires t == s.(shared := s.shared.(inflight := U32_MAX), outstanding := map[])
    ensures Step(c, s, t)
  {
    assert s.outstanding - {o} == map[];
    assert ReleaseStep(s, t, o);
  }

  /** From a restart some run loses the slot if and only if a publication of the old run is outstanding. */
  lemma RestartLoses(c: Config, s: State)
    requires Stopped(s) && Kept(c, s)
    ensures (exists run :: LosesSlot(c, Restart(s), run)) <==> s.outstanding != map[]
  {
    if s.outstanding != map[] {
      var cb, out :| Inv(c, s, cb, out);
      SoleSize(s.outstanding, out);
      var o :| o in s.outstanding && s.outstanding == map[o := out.value];
      var run := LateRun(c, Restart(s), o, out.value);
    } else {
      forall run ensures !LosesSlot(c, Restart(s), run) {
        if LosesSlot(c, Restart(s), run) {
          NotLost(c, s, run);
        }
      }
    }
  }

  lemma NotLost(c: Config, s: State, run: seq<State>)
    requires Stopped(s) && s.outstanding == map[] && Steps(c, run) && run[0] == Restart(s)
    ensures !Lost(run[|run| - 1])
  {
    hide Step;
    AtMostOneOutstanding(c, run, |run| - 1);
  }

  lemma Moves(c: Config, run: seq<State>, t: State) returns (longer: seq<State>)
    requires IsRun(c, run) && Step(c, run[|run| - 1], t)
    ensures IsRun(c, longer) && |longer| > 0 && longer[|longer| - 1] == t
  {
    hide Step;
    longer := run + [t];
  }

  lemma Leaves(c: Config, s: State)
    requires s.callbacks == map[0 := Leave]
    ensures Step(c, s, s.(shared := s.shared.(active := false), callbacks := map[]))
  {
    assert s.callbacks - {0} == map[];
    assert LeaveStep(s, s.(shared := s.shared.(active := false), callbacks := map[]), 0);
  }

  lemma Stops(c: Config, s: State, y: Shared, next: Stopper)
    requires StopAct(s, y, next)
    ensures Step(c, s, s.(shared := y, stop := next))
  {
    hide StopAct;
    assert StopStep(s, s.(shared := y, stop := next));
  }

  lemma Completes(c: Config, s: State, pc: Completion, y: Shared, next: Completion)
    requires s.outstanding == map[0 := pc] && CompletionAct(c, s.shared, pc, y, next)
    ensures Step(c, s, s.(shared := y, outstanding := map[0 := next]))
  {
    hide CompletionAct;
    assert s.outstanding[0 := next] == map[0 := next];
    var t := s.(shared := y, outstanding := map[0 := next]);
    assert CompletionAct(c, s.shared, s.outstanding[0], y, next) && t == s.(shared := y, outstanding := s.outstanding[0 := next]);
    assert CompletionStep(c, s, t, 0);
  }

  /** Such a state is reached: stop does not wait for the completion of a publication. */
  lemma StopsBeforeCompletion(c: Config) returns (run: seq<State>)
    ensures IsRun(c, run) && Stopped(run[|run| - 1]) && run[|run| - 1].outstanding == map[0 := Release]
  {
    hide Step, IsRun;
    run := SomeRunPublishes(c);
    Longer(c, run);
    var s := run[|run| - 1];
    ClockInside(c, run);
    var x := s.shared.(active := false);
    var t := s.(shared := x, callbacks := map[]);
    Leaves(c, s);
    run := Moves(c, run, t);
    var x1 := x.(started := false);
    var t1 := t.(shared := x1, stop := Joining);
    Stops(c, t, x1, Joining);
    run := Moves(c, run, t1);
    var t2 := t1.(stop := Destroying);
    Stops(c, t1, x1, Destroying);
    run := Moves(c, run, t2);
    var x3 := x1.(armed := false);
    var t3 := t2.(shared := x3, stop := Completing);
    Stops(c, t2, x3, Completing);
    run := Moves(c, run, t3);
    var x4 := Ends(x3, Stop).(completed := true);
    var t4 := t3.(shared := x4, stop := Clearing);
    Stops(c, t3, x4, Clearing);
    run := Moves(c, run, t4);
    var t5 := t4.(stop := Idle);
    Stops(c, t4, x4, Idle);
    run := Moves(c, run, t5);
    var x6 := Ends(x4, NotPublished);
    var t6 := t5.(shared := x6, outstanding := map[0 := Failed]);
    Completes(c, t5, Pending, x6, Failed);
    run := Moves(c, run, t6);
    Completes(c, t6, Failed, x6, Release);
    run := Moves(c, run, t6.(outstanding := map[0 := Release]));
  }

  lemma ClockInside(c: Config, run: seq<State>)
    requires IsRun(c, run)
    ensures run[|run| - 1].shared.clock <= U64_MAX
  {
    hide IsRun, Sole, OneHolder, Booting, Counting, Alternating;
    assert |run| > 0 by {
      Longer(c, run);
    }
    RunKeeps(c, run, |run| - 1);
    var cb, out :| Inv(c, run[|run| - 1], cb, out);
  }

  lemma Longer(c: Config, run: seq<State>)
    requires IsRun(c, run)
    ensures |run| > 0
  {
  }
}
