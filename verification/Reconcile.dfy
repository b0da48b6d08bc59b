/** The observer's pool controller. */
module Reconcile {
  // From observe/src/flow_observe.c: one tick, and what holds over every trace of ticks.

  const U32_MAX: nat := 0xFFFF_FFFF
  const U64_MAX: nat := 0xFFFF_FFFF_FFFF_FFFF
  const FULL_BPS: nat := 10000

  datatype Policy = Policy(
    minimum: nat, maximum: nat, stepUp: nat, stepDown: nat, low: nat, high: nat,
    highObservations: nat, lowObservations: nat, cooldownMs: nat, systemLimit: nat)

  predicate ValidPolicy(p: Policy) {
    && p.minimum > 0 && p.maximum >= p.minimum && p.stepUp > 0 && p.stepDown > 0
    && p.low < p.high <= FULL_BPS && p.highObservations > 0 && p.lowObservations > 0
  }

  /** What one call observes: whether there is a started flow with the pool, the clock, the pool, the load of the
      system, and whether a resize command would be applied. */
  datatype Tick = Tick(
    available: bool, now: nat, parallelism: nat, utilization: nat, systemLoad: nat, applies: bool)

  datatype Memory = Memory(high: nat, low: nat, lastResize: nat)

  datatype Action = Invalid | Unavailable | Hysteresis | Stable | Cooldown | SystemLimit | Failed | Resized(target: nat)

  // ----- the laws, stated on ticks alone

  predicate InBand(p: Policy, t: Tick) {
    t.available && p.minimum <= t.parallelism <= p.maximum
  }

  /** A tick that speaks for growing or for shrinking. */
  predicate Speaks(p: Policy, t: Tick, up: bool) {
    InBand(p, t) && if up then t.utilization >= p.high else t.utilization <= p.low
  }

  function Count(p: Policy, ticks: seq<Tick>, up: bool): nat {
    if ticks == [] then 0
    else Count(p, ticks[..|ticks| - 1], up) + if Speaks(p, ticks[|ticks| - 1], up) then 1 else 0
  }

  /** Every in-band tick speaks for the same direction. */
  ghost predicate Unanimous(p: Policy, ticks: seq<Tick>, up: bool) {
    forall i :: 0 <= i < |ticks| && InBand(p, ticks[i]) ==> Speaks(p, ticks[i], up)
  }

  function Needed(p: Policy, up: bool): nat {
    if up then p.highObservations else p.lowObservations
  }

  function CooldownNs(p: Policy): nat {
    if p.cooldownMs > U64_MAX / 1000000 then U64_MAX else p.cooldownMs * 1000000
  }

  /** The time kept for a resize; 0 is kept for "never". */
  function Stamp(now: nat): nat {
    if now == 0 then 1 else now
  }

  // ----- one tick

  function Bump(n: nat): nat {
    if n < U32_MAX then n + 1 else n
  }

  function GrowTo(p: Policy, parallelism: nat): nat
    requires parallelism <= p.maximum
  {
    if p.stepUp > p.maximum - parallelism then p.maximum else parallelism + p.stepUp
  }

  function ShrinkTo(p: Policy, parallelism: nat): nat {
    var desired := if parallelism > p.stepDown then parallelism - p.stepDown else p.minimum;
    if desired < p.minimum then p.minimum else desired
  }

  /** The command, once a target is chosen. */
  function Command(p: Policy, m: Memory, t: Tick, desired: nat, upscale: bool): (Memory, Action) {
    if desired == t.parallelism then (m.(high := 0, low := 0), Stable)
    else
      var elapsed := if t.now >= m.lastResize then t.now - m.lastResize else 0;
      if m.lastResize != 0 && elapsed < CooldownNs(p) then (m, Cooldown)
      else if upscale && p.systemLimit > 0 && t.systemLoad >= p.systemLimit then (m, SystemLimit)
      else if !t.applies then (m, Failed)
      else (Memory(0, 0, Stamp(t.now)), Resized(desired))
  }

  function Step(p: Policy, m: Memory, t: Tick): (Memory, Action) {
    if !ValidPolicy(p) then (m, Invalid)
    else if !t.available then (m, Unavailable)
    else if t.parallelism < p.minimum then Command(p, m, t, p.minimum, true)
    else if t.parallelism > p.maximum then Command(p, m, t, p.maximum, false)
    else if t.utilization >= p.high then
      var m' := m.(low := 0, high := Bump(m.high));
      if m'.high < p.highObservations then (m', Hysteresis)
      else Command(p, m', t, GrowTo(p, t.parallelism), GrowTo(p, t.parallelism) > t.parallelism)
    else if t.utilization <= p.low then
      var m' := m.(high := 0, low := Bump(m.low));
      if m'.low < p.lowObservations then (m', Hysteresis)
      else Command(p, m', t, ShrinkTo(p, t.parallelism), false)
    else (m.(high := 0, low := 0), Stable)
  }

  // ----- traces

  /** The memory after the ticks. */
  function After(p: Policy, m: Memory, ticks: seq<Tick>): Memory {
    if ticks == [] then m else Step(p, After(p, m, ticks[..|ticks| - 1]), ticks[|ticks| - 1]).0
  }

  /** What the tick `k` of a trace does. */
  function ActionAt(p: Policy, m: Memory, ticks: seq<Tick>, k: nat): Action
    requires k < |ticks|
  {
    Step(p, After(p, m, ticks[..k]), ticks[k]).1
  }

  /** Every resize changes the parallelism and leads into the band; from inside the band it moves by at most one step,
      in the direction the tick speaks for; growing stops at the limit on the system's load. */
  lemma TargetsInBand(p: Policy, m: Memory, ticks: seq<Tick>, k: nat)
    requires k < |ticks| && ActionAt(p, m, ticks, k).Resized?
    ensures var (t, target) := (ticks[k], ActionAt(p, m, ticks, k).target);
            && t.available && t.applies
            && p.minimum <= target <= p.maximum && target != t.parallelism
            && (t.parallelism < p.minimum ==> target == p.minimum)
            && (t.parallelism > p.maximum ==> target == p.maximum)
            && (InBand(p, t) && target > t.parallelism ==> Speaks(p, t, true) && target <= t.parallelism + p.stepUp)
            && (InBand(p, t) && target < t.parallelism ==> Speaks(p, t, false) && t.parallelism <= target + p.stepDown)
            && (target > t.parallelism ==> p.systemLimit == 0 || t.systemLoad < p.systemLimit)
  {
  }

  function Counter(m: Memory, up: bool): nat {
    if up then m.high else m.low
  }

  /** The counters are never both set. */
  lemma {:induction false} NeverBoth(p: Policy, m: Memory, ticks: seq<Tick>)
    requires m.high == 0 || m.low == 0
    ensures var m' := After(p, m, ticks); m'.high == 0 || m'.low == 0
    decreases |ticks|
  {
    if ticks != [] {
      NeverBoth(p, m, ticks[..|ticks| - 1]);
    }
  }

  /** No resize at the ticks from `from` on. */
  ghost predicate NoResize(p: Policy, m: Memory, ticks: seq<Tick>, from: nat, to: nat)
    requires to <= |ticks|
  {
    forall i :: from <= i < to ==> !ActionAt(p, m, ticks, i).Resized?
  }

  /** The last ticks, since some tick after the latest resize, back the counter. */
  ghost predicate Backs(p: Policy, m: Memory, ticks: seq<Tick>, from: nat, up: bool, n: nat) {
    && from <= |ticks| && NoResize(p, m, ticks, from, |ticks|)
    && Unanimous(p, ticks[from..], up) && Count(p, ticks[from..], up) >= n
  }

  /** A counter that stays set: no resize, no contrary tick, and at most one more. */
  lemma StepCounter(p: Policy, m: Memory, t: Tick, up: bool)
    requires ValidPolicy(p) && Counter(Step(p, m, t).0, up) > 0
    ensures !Step(p, m, t).1.Resized? && (InBand(p, t) ==> Speaks(p, t, up))
    ensures Counter(Step(p, m, t).0, up) <= Counter(m, up) + if Speaks(p, t, up) then 1 else 0
  {
  }

  lemma {:induction false} CounterBacked(p: Policy, m: Memory, ticks: seq<Tick>, up: bool) returns (from: nat)
    requires ValidPolicy(p) && Counter(m, up) == 0
    ensures Backs(p, m, ticks, from, up, Counter(After(p, m, ticks), up))
    decreases |ticks|
  {
    hide Step, ValidPolicy;
    from := |ticks|;
    if ticks != [] && Counter(After(p, m, ticks), up) > 0 {
      var n := |ticks| - 1;
      var m' := After(p, m, ticks[..n]);
      from := CounterBacked(p, m, ticks[..n], up);
      StepCounter(p, m', ticks[n], up);
      OneMoreTick(p, m, ticks, up, from, Counter(m', up));
    }
  }

  lemma OneMoreTick(p: Policy, m: Memory, ticks: seq<Tick>, up: bool, from: nat, count: nat)
    requires ticks != [] && Backs(p, m, ticks[..|ticks| - 1], from, up, count)
    requires var n := |ticks| - 1;
             !ActionAt(p, m, ticks, n).Resized? && (InBand(p, ticks[n]) ==> Speaks(p, ticks[n], up))
    ensures Backs(p, m, ticks, from, up, count + if Speaks(p, ticks[|ticks| - 1], up) then 1 else 0)
  {
    hide Step, InBand, Speaks;
    var n := |ticks| - 1;
    var front := ticks[..n];
    assert ticks[from..][..n - from] == front[from..];
    assert ticks[from..][n - from] == ticks[n];
    forall i | from <= i < n ensures !ActionAt(p, m, ticks, i).Resized? {
      assert front[..i] == ticks[..i];
      assert !ActionAt(p, m, front, i).Resized?;
    }
    forall i | 0 <= i < |ticks[from..]| && InBand(p, ticks[from..][i]) ensures Speaks(p, ticks[from..][i], up) {
      if i < n - from {
        assert ticks[from..][i] == front[from..][i];
      }
    }
  }

  /** A resize from inside the band is backed by the needed number of ticks that speak for its direction, all after
      the resize before it and with no contrary in-band tick among them. */
  lemma ResizeBacked(p: Policy, m: Memory, ticks: seq<Tick>, k: nat) returns (from: nat)
    requires m.high == 0 && m.low == 0 && k < |ticks| && ActionAt(p, m, ticks, k).Resized? && InBand(p, ticks[k])
    ensures var up := ActionAt(p, m, ticks, k).target > ticks[k].parallelism;
            && from <= k && NoResize(p, m, ticks, from, k)
            && Unanimous(p, ticks[from..k + 1], up) && Count(p, ticks[from..k + 1], up) >= Needed(p, up)
  {
    var up := ActionAt(p, m, ticks, k).target > ticks[k].parallelism;
    var front, m' := ticks[..k], After(p, m, ticks[..k]);
    from := CounterBacked(p, m, front, up);
    TargetsInBand(p, m, ticks, k);
    hide Step, InBand, Speaks;
    var window := ticks[from..k + 1];
    assert window[..k - from] == front[from..];
    assert window[k - from] == ticks[k];
    forall i | from <= i < k ensures !ActionAt(p, m, ticks, i).Resized? {
      assert front[..i] == ticks[..i];
      assert !ActionAt(p, m, front, i).Resized?;
    }
    forall i | 0 <= i < |window| && InBand(p, window[i]) ensures Speaks(p, window[i], up) {
      if i < k - from {
        assert window[i] == front[from..][i];
      }
    }
  }

  // ----- cooldown

  /** The memory holds the stamp of the latest resize, and the cooldown has kept the stamps in order. */
  ghost predicate Stamped(p: Policy, m: Memory, ticks: seq<Tick>) {
    forall i :: 0 <= i < |ticks| && ActionAt(p, m, ticks, i).Resized? ==>
                  0 < Stamp(ticks[i].now) <= After(p, m, ticks).lastResize
  }

  lemma {:induction false} StampsKept(p: Policy, m: Memory, ticks: seq<Tick>)
    requires p.cooldownMs > 0
    ensures Stamped(p, m, ticks)
    decreases |ticks|
  {
    hide Step;
    if ticks != [] {
      var n := |ticks| - 1;
      var front := ticks[..n];
      StampsKept(p, m, front);
      forall i | 0 <= i < n && ActionAt(p, m, ticks, i).Resized?
        ensures 0 < Stamp(ticks[i].now) <= After(p, m, ticks).lastResize {
        assert front[..i] == ticks[..i];
        assert ActionAt(p, m, front, i).Resized?;
        StampGrows(p, After(p, m, front), ticks[n]);
      }
      StampGrows(p, After(p, m, front), ticks[n]);
    }
  }

  lemma StampGrows(p: Policy, m: Memory, t: Tick)
    requires p.cooldownMs > 0
    ensures var (m', a) := Step(p, m, t);
            && m.lastResize <= m'.lastResize
            && (a.Resized? ==> m'.lastResize == Stamp(t.now))
            && (a.Resized? && m.lastResize > 0 ==> t.now >= m.lastResize + CooldownNs(p))
  {
  }

  /** Two resizes are at least the cooldown apart, whatever the clock does in between; a cooldown beyond the range of
      the clock therefore allows one resize only. */
  lemma CooldownRespected(p: Policy, m: Memory, ticks: seq<Tick>, i: nat, j: nat)
    requires i < j < |ticks| && p.cooldownMs > 0
    requires ActionAt(p, m, ticks, i).Resized? && ActionAt(p, m, ticks, j).Resized?
    ensures ticks[j].now >= Stamp(ticks[i].now) + CooldownNs(p)
    ensures CooldownNs(p) == U64_MAX ==> ticks[j].now > U64_MAX
  {
    hide Step;
    var front := ticks[..j];
    StampsKept(p, m, front);
    assert front[..i] == ticks[..i];
    assert ActionAt(p, m, front, i).Resized?;
    StampGrows(p, After(p, m, front), ticks[j]);
  }

  // ----- what each tick of a trace does, from its ticks alone

  const Empty := Memory(0, 0, 0)

  function Min(a: int, b: int): int {
    if a < b then a else b
  }

  function Max(a: int, b: int): int {
    if a < b then b else a
  }

  /** Where the pool is to go: into the band, or one step in the direction that the tick speaks for. */
  function Target(p: Policy, t: Tick): int {
    if t.parallelism < p.minimum then p.minimum
    else if t.parallelism > p.maximum then p.maximum
    else if Speaks(p, t, true) then Min(p.maximum, t.parallelism + p.stepUp)
    else if Speaks(p, t, false) then Max(p.minimum, t.parallelism - p.stepDown)
    else t.parallelism
  }

  /** Tick `k` starts the counting for a direction anew. */
  ghost predicate Resets(p: Policy, ticks: seq<Tick>, k: nat, up: bool)
    requires k < |ticks|
  {
    var a := ActionAt(p, Empty, ticks, k);
    (InBand(p, ticks[k]) && !Speaks(p, ticks[k], up)) || a.Resized? || a.Stable?
  }

  /** The ticks before `k` that speak for a direction, since the latest that starts anew. */
  ghost function Streak(p: Policy, ticks: seq<Tick>, k: nat, up: bool): nat
    requires k <= |ticks|
  {
    if k == 0 || Resets(p, ticks, k - 1, up) then 0
    else Streak(p, ticks, k - 1, up) + if Speaks(p, ticks[k - 1], up) then 1 else 0
  }

  /** The time of the latest resize before tick `k`, at least 1; or 0. */
  ghost function LatestResize(p: Policy, ticks: seq<Tick>, k: nat): nat
    requires k <= |ticks|
  {
    if k == 0 then 0
    else if ActionAt(p, Empty, ticks, k - 1).Resized? then Max(1, ticks[k - 1].now)
    else LatestResize(p, ticks, k - 1)
  }

  lemma {:induction false} MemoryIs(p: Policy, ticks: seq<Tick>, k: nat)
    requires ValidPolicy(p) && k <= |ticks|
    ensures var m := After(p, Empty, ticks[..k]);
            && m.high == Min(Streak(p, ticks, k, true), U32_MAX) && m.low == Min(Streak(p, ticks, k, false), U32_MAX)
            && m.lastResize == LatestResize(p, ticks, k)
    decreases k
  {
    hide ValidPolicy, Step, InBand, Speaks;
    if k > 0 {
      MemoryIs(p, ticks, k - 1);
      var m := After(p, Empty, ticks[..k - 1]);
      assert ticks[..k][..k - 1] == ticks[..k - 1] && ticks[..k][k - 1] == ticks[k - 1];
      assert After(p, Empty, ticks[..k]) == Step(p, m, ticks[k - 1]).0;
      hide After;
      StepMemory(p, m, ticks[k - 1], true);
      StepMemory(p, m, ticks[k - 1], false);
    }
  }

  /** What a tick leaves in the memory. */
  lemma StepMemory(p: Policy, m: Memory, t: Tick, up: bool)
    requires ValidPolicy(p) && m.high <= U32_MAX && m.low <= U32_MAX
    ensures var (m', a) := Step(p, m, t);
            && Counter(m', up) ==
                 (if (InBand(p, t) && !Speaks(p, t, up)) || a.Resized? || a.Stable? then 0
                  else Min(Counter(m, up) + (if Speaks(p, t, up) then 1 else 0), U32_MAX))
            && m'.lastResize == if a.Resized? then Max(1, t.now) else m.lastResize
  {
  }

  /** Enough ticks speak for the direction of tick `k`, itself included; outside the band none is needed. */
  ghost predicate Ripe(p: Policy, ticks: seq<Tick>, k: nat)
    requires k < |ticks|
  {
    || !InBand(p, ticks[k])
    || exists up :: Speaks(p, ticks[k], up) && Min(Streak(p, ticks, k, up) + 1, U32_MAX) >= Needed(p, up)
  }

  ghost predicate Wants(p: Policy, ticks: seq<Tick>, k: nat)
    requires k < |ticks|
  {
    ticks[k].available && Ripe(p, ticks, k) && Target(p, ticks[k]) != ticks[k].parallelism
  }

  ghost predicate Cooled(p: Policy, ticks: seq<Tick>, k: nat)
    requires k < |ticks|
  {
    var last := LatestResize(p, ticks, k);
    last == 0 || p.cooldownMs == 0 || ticks[k].now >= last + Min(p.cooldownMs * 1000000, U64_MAX)
  }

  predicate Overloaded(p: Policy, t: Tick) {
    Target(p, t) > t.parallelism && p.systemLimit > 0 && t.systemLoad >= p.systemLimit
  }

  lemma CooldownIs(p: Policy)
    ensures CooldownNs(p) == Min(p.cooldownMs * 1000000, U64_MAX)
  {
  }

  /** Every tick of every trace: it resizes, and to which target, if and only if the pool is there, enough ticks speak for
      it, the target is another, the cooldown is over, the load allows it and the command is applied; and which of these
      fails decides what it reports. */
  lemma ExactlyWhen(p: Policy, ticks: seq<Tick>, k: nat)
    requires ValidPolicy(p) && k < |ticks|
    ensures var (t, a) := (ticks[k], ActionAt(p, Empty, ticks, k));
            var go := Wants(p, ticks, k) && Cooled(p, ticks, k);
            && !a.Invalid? && (a.Unavailable? <==> !t.available)
            && (a.Hysteresis? <==> InBand(p, t) && (Speaks(p, t, true) || Speaks(p, t, false)) && !Ripe(p, ticks, k))
            && (a.Stable? <==> InBand(p, t) && Target(p, t) == t.parallelism
                               && (Ripe(p, ticks, k) || !(Speaks(p, t, true) || Speaks(p, t, false))))
            && (a.Cooldown? <==> Wants(p, ticks, k) && !Cooled(p, ticks, k))
            && (a.SystemLimit? <==> go && Overloaded(p, t))
            && (a.Failed? <==> go && !Overloaded(p, t) && !t.applies)
            && (a.Resized? <==> go && !Overloaded(p, t) && t.applies)
            && (a.Resized? ==> a.target == Target(p, t))
  {
    MemoryIs(p, ticks, k);
    CooldownIs(p);
    hide CooldownNs;
    OneTick(p, After(p, Empty, ticks[..k]), ticks[k], Streak(p, ticks, k, true), Streak(p, ticks, k, false), LatestResize(p, ticks, k));
  }

  lemma OneTick(p: Policy, m: Memory, t: Tick, high: nat, low: nat, last: nat)
    requires ValidPolicy(p) && m == Memory(Min(high, U32_MAX), Min(low, U32_MAX), last)
    ensures var a := Step(p, m, t).1;
            var ripe := !InBand(p, t) || (Speaks(p, t, true) && Min(high + 1, U32_MAX) >= p.highObservations)
                        || (Speaks(p, t, false) && Min(low + 1, U32_MAX) >= p.lowObservations);
            var cooled := last == 0 || p.cooldownMs == 0 || t.now >= last + Min(p.cooldownMs * 1000000, U64_MAX);
            var wants := t.available && ripe && Target(p, t) != t.parallelism;
            && !a.Invalid? && (a.Unavailable? <==> !t.available)
            && (a.Hysteresis? <==> InBand(p, t) && (Speaks(p, t, true) || Speaks(p, t, false)) && !ripe)
            && (a.Stable? <==> InBand(p, t) && Target(p, t) == t.parallelism
                               && (ripe || !(Speaks(p, t, true) || Speaks(p, t, false))))
            && (a.Cooldown? <==> wants && !cooled) && (a.SystemLimit? <==> wants && cooled && Overloaded(p, t))
            && (a.Failed? <==> wants && cooled && !Overloaded(p, t) && !t.applies)
            && (a.Resized? <==> wants && cooled && !Overloaded(p, t) && t.applies)
            && (a.Resized? ==> a.target == Target(p, t))
  {
    CooldownIs(p);
  }

  /** The policies that are refused, whatever the tick. */
  lemma RefusedPolicies(p: Policy, ticks: seq<Tick>, k: nat)
    requires k < |ticks|
    ensures ActionAt(p, Empty, ticks, k).Invalid? <==>
              || p.minimum == 0 || p.minimum > p.maximum || p.stepUp == 0 || p.stepDown == 0
              || p.low >= p.high || p.high > 10000 || p.highObservations == 0 || p.lowObservations == 0
  {
  }

  // ----- the controller

  /** The memory a caller keeps between ticks, updated in place. */
  class Controller {
    var high: nat
    var low: nat
    var lastResize: nat

    constructor ()
      ensures Value() == Memory(0, 0, 0)
    {
      high, low, lastResize := 0, 0, 0;
    }

    ghost function Value(): Memory
      reads this
    {
      Memory(high, low, lastResize)
    }

    method ReconcilePool(p: Policy, t: Tick) returns (action: Action)
      modifies this
      ensures (Value(), action) == Step(p, old(Value()), t)
    {
      if !ValidPolicy(p) {
        return Invalid;
      }
      if !t.available {
        return Unavailable;
      }
      var desired, upscale := t.parallelism, false;
      if desired < p.minimum {
        desired, upscale := p.minimum, true;
      } else if desired > p.maximum {
        desired := p.maximum;
      } else if t.utilization >= p.high {
        low := 0;
        if high < U32_MAX {
          high := high + 1;
        }
        if high < p.highObservations {
          return Hysteresis;
        }
        desired := if p.stepUp > p.maximum - t.parallelism then p.maximum else t.parallelism + p.stepUp;
        upscale := desired > t.parallelism;
      } else if t.utilization <= p.low {
        high := 0;
        if low < U32_MAX {
          low := low + 1;
        }
        if low < p.lowObservations {
          return Hysteresis;
        }
        desired := if t.parallelism > p.stepDown then t.parallelism - p.stepDown else p.minimum;
        if desired < p.minimum {
          desired := p.minimum;
        }
      } else {
        high, low := 0, 0;
        return Stable;
      }
      if desired == t.parallelism {
        high, low := 0, 0;
        return Stable;
      }
      var elapsed := if t.now >= lastResize then t.now - lastResize else 0;
      if lastResize != 0 && elapsed < CooldownNs(p) {
        return Cooldown;
      }
      if upscale && p.systemLimit > 0 && t.systemLoad >= p.systemLimit {
        return SystemLimit;
      }
      if !t.applies {
        return Failed;
      }
      lastResize, high, low := Stamp(t.now), 0, 0;
      return Resized(desired);
    }
  }
}
