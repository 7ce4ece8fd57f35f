/** The periodic-trigger state machine of the multicast sound sender.
    The system clock is not read here: every query takes the current
    time `now` (nanoseconds) as a parameter. The C++ pacer reads the
    realtime clock, which may jump backwards, so nothing below
    assumes `now >= last_trigger_time`. Nanosecond quantities are
    mathematical integers; 64-bit overflow is not modelled. */
module SoundSender {

  /** The four phases a pacer can be in. */
  datatype State = READY | WAITING | OVERDUE | ABORTED

  /** Nanoseconds per second. */
  const Billion: int := 1000000000

  /** Default period: 256 samples at 48 kHz, in nanoseconds (truncated). */
  const DefaultPeriod: int := 256 * Billion / 48000

  /** Upper bound of the default due time slot: one millisecond. */
  const DefaultSlotCap: int := 1000000

  /** C++ integer division, which truncates toward zero (Dafny's `/` is Euclidean). */
  function TruncDiv(a: int, b: int): (q: int)
    requires b > 0
    ensures a >= 0 ==> q * b <= a < q * b + b
    ensures a < 0 ==> q <= 0 && q * b - b < a <= q * b
  {
    if a >= 0 then a / b else -((-a) / b)
  }

  /** The phase of a pacer with the given fields at time `now`. */
  function StateAt(period: int, duetimeslot: int, last: int, now: int): (s: State)
    ensures s == READY <==> last == 0
    ensures s == WAITING <==> last != 0 && now - last < period
    ensures s == OVERDUE <==> last != 0 && period <= now - last <= period + duetimeslot
    ensures s == ABORTED <==> last != 0 && period <= now - last && now - last > period + duetimeslot
  {
    if last == 0 then READY
    else if now - last < period then WAITING
    else if now - last > period + duetimeslot then ABORTED
    else OVERDUE
  }

  /** The time left until the next trigger is due; only WAITING has any. */
  function SleeptimeAt(period: int, duetimeslot: int, last: int, now: int): (r: int)
    ensures r >= 0
    ensures r > 0 <==> StateAt(period, duetimeslot, last, now) == WAITING
    ensures StateAt(period, duetimeslot, last, now) == WAITING ==> r == last + period - now
    ensures StateAt(period, duetimeslot, last, now) == WAITING && now >= last ==> r <= period
  {
    match StateAt(period, duetimeslot, last, now)
    case READY => 0
    case OVERDUE => 0
    case ABORTED => 0
    case WAITING => last + period - now
  }

  /** The value `trigger` gives to `last_trigger_time` when called at `now`. */
  function TriggeredAt(period: int, duetimeslot: int, last: int, now: int): (r: int)
    ensures StateAt(period, duetimeslot, last, now) in {WAITING, OVERDUE} ==>
              r == last + period
    ensures StateAt(period, duetimeslot, last, now) in {WAITING, OVERDUE} && now - last != period ==> r != now
    ensures StateAt(period, duetimeslot, last, now) in {READY, ABORTED} ==> r == now
  {
    match StateAt(period, duetimeslot, last, now)
    case WAITING => last + period
    case OVERDUE => last + period
    case READY => now
    case ABORTED => now
  }

  /** The due time slot the constructor chooses for period `ns` and requested slot `dt`. */
  function InitialSlot(ns: int, dt: int): (r: int)
    ensures dt != 0 ==> r == dt
    ensures dt == 0 ==> r <= DefaultSlotCap
    ensures dt == 0 && ns >= 0 ==> 0 <= r && 2 * r <= ns
    ensures dt == 0 && ns >= 2 * DefaultSlotCap ==> r == DefaultSlotCap
    ensures dt == 0 && 0 <= ns < 2 * DefaultSlotCap ==> r == ns / 2
  {
    if dt != 0 then dt
    else var half := TruncDiv(ns, 2); if half < DefaultSlotCap then half else DefaultSlotCap
  }

  /** A pacer: emits one trigger per period, and says whether its caller keeps up. */
  class Pacer {
    var period: int
    var duetimeslot: int
    var lastTriggerTime: int

    /** A fresh pacer has never been triggered. */
    constructor (ns: int := DefaultPeriod, dt: int := 0)
      ensures period == ns
      ensures duetimeslot == InitialSlot(ns, dt)
      ensures lastTriggerTime == 0
      ensures forall now :: GetState(now) == READY
    {
      lastTriggerTime := 0;
      duetimeslot := InitialSlot(ns, dt);
      period := ns;
    }

    function GetState(now: int): (s: State)
      reads this
      ensures s == READY <==> lastTriggerTime == 0
      ensures s == OVERDUE <==> lastTriggerTime != 0 && period <= now - lastTriggerTime <= period + duetimeslot
      ensures s == StateAt(period, duetimeslot, lastTriggerTime, now)
    {
      StateAt(period, duetimeslot, lastTriggerTime, now)
    }

    function GetSleeptime(now: int): (r: int)
      reads this
      ensures r >= 0
      ensures r > 0 <==> GetState(now) == WAITING
      ensures GetState(now) == WAITING ==> r == lastTriggerTime + period - now
    {
      SleeptimeAt(period, duetimeslot, lastTriggerTime, now)
    }

    function GetDuetimeslot(): (r: int)
      reads this
      ensures r == duetimeslot
    {
      duetimeslot
    }

    function GetPeriod(): (r: int)
      reads this
      ensures r == period
    {
      period
    }

    /** Advances the schedule by one period when on time, else re-anchors at `now`. */
    method Trigger(now: int)
      modifies this
      ensures old(GetState(now)) in {WAITING, OVERDUE} ==> lastTriggerTime == old(lastTriggerTime) + old(period)
      ensures old(GetState(now)) in {READY, ABORTED} ==> lastTriggerTime == now
      ensures lastTriggerTime == TriggeredAt(old(period), old(duetimeslot), old(lastTriggerTime), now)
      ensures GetPeriod() == old(GetPeriod()) && GetDuetimeslot() == old(GetDuetimeslot())
    {
      match GetState(now)
      case WAITING =>
        lastTriggerTime := lastTriggerTime + period;
      case OVERDUE =>
        lastTriggerTime := lastTriggerTime + period;
      case READY =>
        lastTriggerTime := now;
      case ABORTED =>
        lastTriggerTime := now;
    }
  }

  // ---------------------------------------------------------------------
  // Properties of the state machine

  /** Where the phase boundaries lie: both ends of the tolerance window are OVERDUE. */
  lemma StateBoundaries(period: int, duetimeslot: int, last: int, now: int)
    requires last != 0
    ensures now - last < period ==> StateAt(period, duetimeslot, last, now) == WAITING
    ensures duetimeslot >= 0 && now - last == period ==> StateAt(period, duetimeslot, last, now) == OVERDUE
    ensures duetimeslot >= 0 && now - last == period + duetimeslot ==> StateAt(period, duetimeslot, last, now) == OVERDUE
    ensures duetimeslot >= 0 && now - last > period + duetimeslot ==> StateAt(period, duetimeslot, last, now) == ABORTED
    ensures StateAt(period, duetimeslot, last, now) == OVERDUE <==> period <= now - last <= period + duetimeslot
  {
  }

  /** Position of a phase along the elapsed-time axis. */
  function Rank(s: State): nat
  {
    match s
    case READY => 0
    case WAITING => 1
    case OVERDUE => 2
    case ABORTED => 3
  }

  /** Once triggered, the phase only moves forward (WAITING, OVERDUE, ABORTED) as time passes. */
  lemma StateMonotone(period: int, duetimeslot: int, last: int, now1: int, now2: int)
    requires last != 0 && now1 <= now2
    ensures Rank(StateAt(period, duetimeslot, last, now1)) <= Rank(StateAt(period, duetimeslot, last, now2))
  {
  }

  /** No catch-up: after a trigger that re-anchors (READY or ABORTED), the pacer is
      WAITING at that same instant, with a full period to sleep. */
  lemma ResyncSuppressesCatchUp(period: int, duetimeslot: int, last: int, now: int)
    requires StateAt(period, duetimeslot, last, now) in {READY, ABORTED}
    requires period > 0 && now != 0
    ensures StateAt(period, duetimeslot, TriggeredAt(period, duetimeslot, last, now), now) == WAITING
    ensures SleeptimeAt(period, duetimeslot, TriggeredAt(period, duetimeslot, last, now), now) == period
  {
  }

  /** An on-time trigger (OVERDUE) leaves the pacer WAITING for the next period,
      provided the tolerance window is shorter than the period. */
  lemma OnTimeTriggerWaits(period: int, duetimeslot: int, last: int, now: int)
    requires StateAt(period, duetimeslot, last, now) == OVERDUE
    requires 0 <= duetimeslot < period && last + period != 0
    ensures StateAt(period, duetimeslot, TriggeredAt(period, duetimeslot, last, now), now) == WAITING
    ensures SleeptimeAt(period, duetimeslot, TriggeredAt(period, duetimeslot, last, now), now)
              == last + 2 * period - now
  {
  }

  /** `last_trigger_time` after one trigger at each of the times `nows`, in order. */
  function Schedule(period: int, duetimeslot: int, t0: int, nows: seq<int>): int
    decreases |nows|
  {
    if nows == [] then t0
    else TriggeredAt(period, duetimeslot, Schedule(period, duetimeslot, t0, nows[..|nows| - 1]), nows[|nows| - 1])
  }

  /** No drift: as long as every trigger comes while the pacer is WAITING or
      OVERDUE (early, or late within the tolerance window), n triggers advance
      the schedule by exactly n periods, whatever the times they were made at. */
  lemma {:induction false} NoDrift(period: int, duetimeslot: int, t0: int, nows: seq<int>)
    requires forall k :: 0 <= k < |nows| ==> StateAt(period, duetimeslot, t0 + k * period, nows[k]) in {WAITING, OVERDUE}
    ensures Schedule(period, duetimeslot, t0, nows) == t0 + |nows| * period
    decreases |nows|
  {
    if nows != [] {
      var n := |nows|;
      var init := nows[..n - 1];
      assert forall k :: 0 <= k < |init| ==> init[k] == nows[k];
      NoDrift(period, duetimeslot, t0, init);
      assert StateAt(period, duetimeslot, t0 + (n - 1) * period, nows[n - 1]) in {WAITING, OVERDUE};
      assert t0 + (n - 1) * period + period == t0 + n * period;
    }
  }

  /** By contrast, a trigger that finds the schedule lapsed (ABORTED) re-anchors
      at its own time: one late trigger after k on-time ones lands on `now`,
      not on t0 + (k + 1) periods. */
  lemma {:induction false} LapsedTriggerReanchors(period: int, duetimeslot: int, t0: int, nows: seq<int>, now: int)
    requires forall k :: 0 <= k < |nows| ==> StateAt(period, duetimeslot, t0 + k * period, nows[k]) in {WAITING, OVERDUE}
    requires StateAt(period, duetimeslot, t0 + |nows| * period, now) == ABORTED
    ensures Schedule(period, duetimeslot, t0, nows + [now]) == now
    ensures duetimeslot >= 0 ==> now > t0 + (|nows| + 1) * period + duetimeslot
  {
    NoDrift(period, duetimeslot, t0, nows);
    assert (nows + [now])[..|nows|] == nows;
  }

  /** The default period is 5333333 ns, and its default slot is capped at 1 ms. */
  lemma DefaultConstants()
    ensures DefaultPeriod == 5333333
    ensures InitialSlot(DefaultPeriod, 0) == 1000000
  {
  }
}
