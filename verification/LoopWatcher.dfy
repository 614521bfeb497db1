/** The watcher over CMO-driven reconciles: a leaky bucket fills on every effective update, a full bucket
    degrades the addon's status, and an emptied one restores it. */
module LoopWatcher {
  import opened Wrappers
  import opened ComponentStatus

  // ---- the bucket ------------------------------------------------------------------------------

  function Ceil(x: real): int {
    -((-x).Floor)
  }

  class LeakyBucket {
    const Capacity: nat
    const LeakPeriod: nat
    var len: nat

    ghost predicate Valid()
      reads this
    {
      Capacity > 0 && LeakPeriod > 0 && len <= Capacity
    }

    constructor (capacity: nat, leakPeriod: nat)
      requires capacity > 0 && leakPeriod > 0
      ensures Valid() && Capacity == capacity && LeakPeriod == leakPeriod && len == 0
    {
      Capacity, LeakPeriod, len := capacity, leakPeriod, 0;
    }

    /** False if the bucket is already full. */
    method Add() returns (ok: bool)
      requires Valid()
      modifies this
      ensures Valid() && ok == (old(len) < Capacity) && len == Filled(Capacity, old(len))
    {
      if len < Capacity {
        len := len + 1;
        return true;
      }
      return false;
    }

    /** What the ticker does once per leak period. */
    method Leak()
      requires Valid()
      modifies this
      ensures Valid() && len == Drained(old(len), 1)
    {
      if len > 0 {
        len := len - 1;
      }
    }

    function FillRatio(): real
      requires Valid()
      reads this
    {
      len as real / Capacity as real
    }
  }

  function Filled(capacity: nat, len: nat): nat {
    if len < capacity then len + 1 else len
  }

  /** The length after `n` leaks. */
  function Drained(len: nat, n: int): nat {
    if n <= 0 then len else if n >= len then 0 else len - n
  }

  /** How often the ticker fires in the interval after `from` up to and including `until`. */
  function Ticks(phase: int, period: nat, from: int, until: int): int
    requires period > 0
  {
    (until - phase) / period - (from - phase) / period
  }

  // ---- the check -------------------------------------------------------------------------------

  /** The two requeue delays, as a number of leak periods. */
  function PeriodsWhenFull(capacity: nat, resetRatio: real): int {
    Ceil(capacity as real * (1.0 - resetRatio))
  }

  function PeriodsWhenFilled(capacity: nat, resetRatio: real, len: nat): int {
    var target := (capacity as real * resetRatio).Floor;
    if len - target > 1 then len - target else 1
  }

  class CmoConfigChangesWatcher {
    const bucket: LeakyBucket
    const addon: Addon
    const statusResetFillRatio: real
    var checkedAtLeastOnce: bool

    ghost predicate Valid()
      reads this, bucket
    {
      bucket.Valid()
    }

    ghost function View(): State
      reads this, bucket, addon
    {
      State(bucket.len, ReasonOf(addon.Conditions, METRICS_COLLECTOR), checkedAtLeastOnce)
    }

    constructor (bucket: LeakyBucket, addon: Addon, statusResetFillRatio: real)
      requires bucket.Valid()
      ensures Valid() && this.bucket == bucket && this.addon == addon
              && this.statusResetFillRatio == statusResetFillRatio
      ensures !checkedAtLeastOnce
    {
      this.bucket, this.addon, this.statusResetFillRatio := bucket, addon, statusResetFillRatio;
      checkedAtLeastOnce := false;
    }

    /** `CheckRequest`: the delay after which to check again, zero for none, and whether there is no error; `known`
        tells whether the current reason can be fetched. */
    method CheckRequest(isCmoConfigMap: bool, cmoWasUpdated: bool, now: int, known: bool, persists: bool)
      returns (requeueAfter: int, ok: bool)
      requires Valid()
      modifies this, bucket, addon
      ensures Valid()
      ensures View() == AfterCheck(bucket.Capacity, statusResetFillRatio, old(View()),
                                   Check(isCmoConfigMap, cmoWasUpdated, known, persists))
      ensures requeueAfter == bucket.LeakPeriod * CheckDelay(bucket.Capacity, statusResetFillRatio, old(View()),
                                                             Check(isCmoConfigMap, cmoWasUpdated, known, persists))
      ensures ok <==> !CheckFails(bucket.Capacity, old(View()), Check(isCmoConfigMap, cmoWasUpdated, known, persists))
    {
      if checkedAtLeastOnce && !isCmoConfigMap {
        return 0, true;
      }
      checkedAtLeastOnce := true;
      if cmoWasUpdated {
        var ok := bucket.Add();
        if !ok {
          var wasReported, err := addon.UpdateComponentCondition(
            METRICS_COLLECTOR, CmoReconcileLoopDetected, "CMO configuration is being constantly updated.",
            now, persists);
          return bucket.LeakPeriod * PeriodsWhenFull(bucket.Capacity, statusResetFillRatio), true;
        }
      }
      if !known {
        return 0, false;
      }
      ok := true;
      var current := addon.Find(METRICS_COLLECTOR);
      if current == None || current.value.reason != CmoReconcileLoopDetected {
        return 0, true;
      }
      if bucket.FillRatio() <= statusResetFillRatio {
        var wasReported, err := addon.UpdateComponentCondition(
          METRICS_COLLECTOR, CmoReconcileLoopStopped, "CMO configuration updates have stopped.", now, persists);
        return 0, true;
      }
      requeueAfter := bucket.LeakPeriod * PeriodsWhenFilled(bucket.Capacity, statusResetFillRatio, bucket.len);
    }
  }

  /** Bucket length, reason of the metrics collector, and whether this process has checked before. */
  datatype State = State(len: nat, reason: Option<Reason>, checked: bool)

  predicate AtOrBelow(capacity: nat, ratio: real, len: nat)
    requires capacity > 0
  {
    len as real / capacity as real <= ratio
  }

  /** The request is dropped unread. */
  predicate Dropped(s: State, c: Event)
    requires c.Check?
  {
    s.checked && !c.isCmo
  }

  /** The update finds the bucket full. */
  predicate Overflows(capacity: nat, s: State, c: Event)
    requires c.Check?
  {
    c.updated && s.len >= capacity
  }

  /** The bucket length with the update of the request. */
  function LenAfter(s: State, c: Event): nat
    requires c.Check?
  {
    if c.updated then s.len + 1 else s.len
  }

  function AfterCheck(capacity: nat, ratio: real, s: State, c: Event): State
    requires capacity > 0 && c.Check?
  {
    if Dropped(s, c) then s
    else if Overflows(capacity, s, c)
      then State(s.len, ReasonAfter(s.reason, CmoReconcileLoopDetected, c.persists), true)
    else
      var len := LenAfter(s, c);
      if c.known && s.reason == Some(CmoReconcileLoopDetected) && AtOrBelow(capacity, ratio, len)
      then State(len, ReasonAfter(s.reason, CmoReconcileLoopStopped, c.persists), true)
      else State(len, s.reason, true)
  }

  /** The requeue delay of a check, in leak periods. */
  function CheckDelay(capacity: nat, ratio: real, s: State, c: Event): int
    requires capacity > 0 && c.Check?
  {
    if Dropped(s, c) then 0
    else if Overflows(capacity, s, c) then PeriodsWhenFull(capacity, ratio)
    else
      var len := LenAfter(s, c);
      if c.known && s.reason == Some(CmoReconcileLoopDetected) && !AtOrBelow(capacity, ratio, len)
      then PeriodsWhenFilled(capacity, ratio, len) else 0
  }

  /** The check returns an error: it has to look the reason up and cannot. */
  predicate CheckFails(capacity: nat, s: State, c: Event)
    requires c.Check?
  {
    !Dropped(s, c) && !Overflows(capacity, s, c) && !c.known
  }

  // ---- runs ------------------------------------------------------------------------------------

  /** Ticks of the leak, checks, reports of other controllers for the same component, and process restarts. */
  datatype Event =
    | Tick
    | Check(isCmo: bool, updated: bool, known: bool, persists: bool)
    | Report(reason: Reason, persists: bool)
    | Restart

  function Next(capacity: nat, ratio: real, s: State, e: Event): State
    requires capacity > 0
  {
    match e
    case Tick => s.(len := Drained(s.len, 1))
    case Check(_, _, _, _) => AfterCheck(capacity, ratio, s, e)
    case Report(reason, persists) => s.(reason := ReasonAfter(s.reason, reason, persists))
    case Restart => State(0, s.reason, false)
  }

  /** A check whose update found room in the bucket. */
  predicate AddsTo(capacity: nat, s: State, e: Event) {
    e.Check? && e.updated && !(s.checked && !e.isCmo) && s.len < capacity
  }

  function RunOf(capacity: nat, ratio: real, s: State, events: seq<Event>): State
    requires capacity > 0
  {
    if events == [] then s
    else Next(capacity, ratio, RunOf(capacity, ratio, s, events[..|events| - 1]), events[|events| - 1])
  }

  function Adds(capacity: nat, ratio: real, s: State, events: seq<Event>): nat
    requires capacity > 0
  {
    if events == [] then 0
    else
      var before := events[..|events| - 1];
      Adds(capacity, ratio, s, before)
      + if AddsTo(capacity, RunOf(capacity, ratio, s, before), events[|events| - 1]) then 1 else 0
  }

  function Leaks(events: seq<Event>): nat {
    if events == [] then 0 else Leaks(events[..|events| - 1]) + if events[|events| - 1].Tick? then 1 else 0
  }

  predicate OneProcess(events: seq<Event>) {
    Restart !in events
  }

  /** Over any stretch of one process the bucket stays within its capacity, and at most capacity plus leaks
      updates find room in it. */
  lemma {:induction false} BucketBounds(capacity: nat, ratio: real, s: State, events: seq<Event>)
    requires capacity > 0 && s.len <= capacity && OneProcess(events)
    ensures RunOf(capacity, ratio, s, events).len <= capacity
    ensures Adds(capacity, ratio, s, events) + s.len <= RunOf(capacity, ratio, s, events).len + Leaks(events)
    ensures Adds(capacity, ratio, s, events) <= capacity + Leaks(events)
  {
    if events != [] {
      assert forall x | x in events[..|events| - 1] :: x in events;
      BucketBounds(capacity, ratio, s, events[..|events| - 1]);
      assert events[|events| - 1] in events;
    }
  }

  /** Only the watcher reports the two loop reasons. */
  ghost predicate OthersReport(e: Event) {
    e.Report? ==> e.reason != CmoReconcileLoopDetected && e.reason != CmoReconcileLoopStopped
  }

  /** Whatever the step: the loop-detected reason is entered only by a check on a full bucket, left only for stopped,
      disabled or not-supported, and stopped is entered only by a check at or below the reset ratio. */
  lemma LoopReasonSteps(capacity: nat, ratio: real, s: State, e: Event)
    requires capacity > 0 && OthersReport(e)
    ensures var s' := Next(capacity, ratio, s, e);
            && (s'.reason == Some(CmoReconcileLoopDetected) && s.reason != s'.reason ==>
                  e.Check? && e.updated && s.len >= capacity)
            && (s.reason == Some(CmoReconcileLoopDetected) && s'.reason != s.reason ==>
                  s'.reason in {Some(CmoReconcileLoopStopped), Some(Disabled), Some(NotSupported)})
            && (s'.reason == Some(CmoReconcileLoopStopped) && s.reason != s'.reason ==>
                  s.reason == Some(CmoReconcileLoopDetected) && e.Check? && AtOrBelow(capacity, ratio, s'.len))
  {
  }

  /** In every run, a state with the loop-detected reason goes back to a step that found the bucket full, with nothing
      but that reason in between. */
  lemma {:induction false} LoopDetectionHadCause(capacity: nat, ratio: real, s: State, events: seq<Event>)
    returns (at: nat)
    requires capacity > 0 && s.reason != Some(CmoReconcileLoopDetected)
    requires forall i | 0 <= i < |events| :: OthersReport(events[i])
    requires RunOf(capacity, ratio, s, events).reason == Some(CmoReconcileLoopDetected)
    ensures at < |events| && events[at].Check? && events[at].updated
    ensures RunOf(capacity, ratio, s, events[..at]).len >= capacity
    ensures forall i | at < i <= |events| ::
            RunOf(capacity, ratio, s, events[..i]).reason == Some(CmoReconcileLoopDetected)
  {
    assert events[..|events|] == events;
    var before := events[..|events| - 1];
    var mid := RunOf(capacity, ratio, s, before);
    if mid.reason == Some(CmoReconcileLoopDetected) {
      at := LoopDetectionHadCause(capacity, ratio, s, before);
      assert forall i | 0 <= i <= |before| :: events[..i] == before[..i];
    } else {
      at := |before|;
      LoopReasonSteps(capacity, ratio, mid, events[|before|]);
    }
  }

  // ---- a loop is detected ----------------------------------------------------------------------

  /** Reasons of a working or recovered collector. */
  predicate Detectable(r: Option<Reason>) {
    || r.None? || r.value.UpdateSuccessful? || r.value.ForwardSuccessful? || r.value.ForwardFailed?
    || r.value.CmoReconcileLoopStopped?
  }

  /** A check that is read and overflows leaves the loop-detected reason exactly if it was there, or the report is
      stored and the reason before was that of a working or recovered collector, or none. */
  lemma DetectsExactly(capacity: nat, ratio: real, s: State, c: Event)
    requires capacity > 0 && c.Check? && !Dropped(s, c) && Overflows(capacity, s, c)
    ensures Next(capacity, ratio, s, c).reason == Some(CmoReconcileLoopDetected) <==>
              s.reason == Some(CmoReconcileLoopDetected) || (c.persists && Detectable(s.reason))
  {
  }

  /** The checks that are read and come with an update. */
  function Updates(capacity: nat, ratio: real, s: State, events: seq<Event>): nat
    requires capacity > 0
  {
    if events == [] then 0
    else
      var before, e := events[..|events| - 1], events[|events| - 1];
      Updates(capacity, ratio, s, before)
      + if e.Check? && e.updated && !Dropped(RunOf(capacity, ratio, s, before), e) then 1 else 0
  }

  /** An update that finds no room overflows. */
  lemma {:induction false} RejectedUpdate(capacity: nat, ratio: real, s: State, events: seq<Event>) returns (at: nat)
    requires capacity > 0 && Updates(capacity, ratio, s, events) > Adds(capacity, ratio, s, events)
    ensures at < |events| && events[at].Check?
    ensures var before := RunOf(capacity, ratio, s, events[..at]);
            !Dropped(before, events[at]) && Overflows(capacity, before, events[at])
  {
    var init, e := events[..|events| - 1], events[|events| - 1];
    if Updates(capacity, ratio, s, init) > Adds(capacity, ratio, s, init) {
      at := RejectedUpdate(capacity, ratio, s, init);
      assert events[..at] == init[..at];
    } else {
      at := |init|;
    }
  }

  /** In every run of one process: more updates than there is room and leaks make a check overflow, and that check
      leaves the loop-detected reason if its report is stored and the collector was working or recovered (or had it
      before). */
  lemma LoopIsDetected(capacity: nat, ratio: real, s: State, events: seq<Event>) returns (at: nat)
    requires capacity > 0 && s.len <= capacity && OneProcess(events)
    requires Updates(capacity, ratio, s, events) > capacity - s.len + Leaks(events)
    ensures at < |events| && events[at].Check? && events[at].updated
    ensures var before, after := RunOf(capacity, ratio, s, events[..at]), RunOf(capacity, ratio, s, events[..at + 1]);
            after.reason == Some(CmoReconcileLoopDetected) <==>
              before.reason == Some(CmoReconcileLoopDetected) || (events[at].persists && Detectable(before.reason))
  {
    BucketBounds(capacity, ratio, s, events);
    at := RejectedUpdate(capacity, ratio, s, events);
    assert events[..at + 1][..at] == events[..at];
    DetectsExactly(capacity, ratio, RunOf(capacity, ratio, s, events[..at]), events[at]);
  }

  /** Ticks, and checks that are read, whose reports are stored. */
  ghost predicate OnlyStoredChecks(events: seq<Event>) {
    forall i | 0 <= i < |events| :: events[i].Tick? || (events[i].Check? && events[i].isCmo && events[i].persists)
  }

  /** With nobody else reporting, a working collector is in one of the working reasons or in the
      detected one, always. */
  lemma {:induction false} StaysDetectable(capacity: nat, ratio: real, s: State, events: seq<Event>)
    requires capacity > 0 && OnlyStoredChecks(events)
    requires Detectable(s.reason) || s.reason == Some(CmoReconcileLoopDetected)
    ensures var r := RunOf(capacity, ratio, s, events).reason; Detectable(r) || r == Some(CmoReconcileLoopDetected)
  {
    if events != [] {
      StaysDetectable(capacity, ratio, s, events[..|events| - 1]);
    }
  }

  /** So then the loop is reported for sure. */
  lemma LoopIsReported(capacity: nat, ratio: real, s: State, events: seq<Event>) returns (at: nat)
    requires capacity > 0 && s.len <= capacity && OnlyStoredChecks(events)
    requires Detectable(s.reason) || s.reason == Some(CmoReconcileLoopDetected)
    requires Updates(capacity, ratio, s, events) > capacity - s.len + Leaks(events)
    ensures at < |events| && events[at].Check? && events[at].updated
    ensures RunOf(capacity, ratio, s, events[..at + 1]).reason == Some(CmoReconcileLoopDetected)
  {
    assert OneProcess(events);
    at := LoopIsDetected(capacity, ratio, s, events);
    StaysDetectable(capacity, ratio, s, events[..at]);
  }

  // ---- the delays suffice ----------------------------------------------------------------------

  lemma TicksInPeriods(phase: int, period: nat, from: int, n: nat, until: int)
    requires period > 0 && until >= from + n * period
    ensures Ticks(phase, period, from, until) >= n
  {
    var x := from - phase;
    DivideShifted(x, n, period);
    DivideMonotone(x + n * period, until - phase, period);
  }

  lemma ProductMonotone(a: int, b: int, d: nat)
    requires a <= b
    ensures a * d <= b * d
  {
  }

  lemma QuotientBelow(q: int, r: int, q': int, r': int, d: nat, x: int, y: int)
    requires 0 <= r < d && 0 <= r' < d && x == q * d + r && y == q' * d + r' && x <= y
    ensures q <= q'
  {
    assert (q' + 1) * d == q' * d + d;
    if q' + 1 <= q {
      ProductMonotone(q' + 1, q, d);
    }
  }

  lemma DivideMonotone(x: int, y: int, d: nat)
    requires d > 0 && x <= y
    ensures x / d <= y / d
  {
    QuotientBelow(x / d, x % d, y / d, y % d, d, x, y);
  }

  lemma DivideShifted(x: int, n: nat, d: nat)
    requires d > 0
    ensures (x + n * d) / d == x / d + n
  {
    var q, r := x / d, x % d;
    var y := x + n * d;
    assert (q + n) * d == q * d + n * d;
    QuotientBelow(q + n, r, y / d, y % d, d, y, y);
    QuotientBelow(y / d, y % d, q + n, r, d, y, y);
  }

  lemma RealProductStrict(a: real, b: real, c: real)
    requires a < b && c > 0.0
    ensures a * c < b * c
  {
  }

  lemma RatioBelow(a: real, c: real, r: real)
    requires c > 0.0
    ensures a / c <= r <==> a <= c * r
  {
    var q := a / c;
    assert q * c == a;
    if q < r { RealProductStrict(q, r, c); }
    if r < q { RealProductStrict(r, q, c); }
  }

  lemma RatioAtOrBelow(capacity: nat, ratio: real, len: nat)
    requires capacity > 0
    ensures AtOrBelow(capacity, ratio, len) <==> len as real <= capacity as real * ratio
  {
    RatioBelow(len as real, capacity as real, ratio);
  }

  lemma DrainedEnough(capacity: nat, ratio: real, len: nat, n: int, ticks: int)
    requires capacity > 0 && ratio >= 0.0 && ticks >= n
    requires len as real - n as real <= capacity as real * ratio
    ensures AtOrBelow(capacity, ratio, Drained(len, ticks))
  {
    assert capacity as real * ratio >= 0.0;
    RatioAtOrBelow(capacity, ratio, Drained(len, ticks));
  }

  /** The delay of any check that is read and knows the reason is long enough: if no update fills the bucket meanwhile,
      a check that comes that much later or still later finds the fill ratio at or below the reset ratio, whatever the
      phase of the ticker. */
  lemma DelaySuffices(capacity: nat, period: nat, ratio: real, s: State, c: Event, phase: int, from: int, until: int)
    requires capacity > 0 && period > 0 && ratio >= 0.0 && s.len <= capacity && c.Check? && !Dropped(s, c)
    requires Overflows(capacity, s, c)
             || (c.known && AfterCheck(capacity, ratio, s, c).reason == Some(CmoReconcileLoopDetected))
    requires until >= from + period * CheckDelay(capacity, ratio, s, c) && until >= from
    ensures AtOrBelow(capacity, ratio,
                      Drained(AfterCheck(capacity, ratio, s, c).len, Ticks(phase, period, from, until)))
  {
    var s' := AfterCheck(capacity, ratio, s, c);
    var n := CheckDelay(capacity, ratio, s, c);
    var ticks := Ticks(phase, period, from, until);
    DelayPassed(phase, period, from, n, until);
    RatioAtOrBelow(capacity, ratio, s'.len);
    if Overflows(capacity, s, c) {
      FullDelay(capacity, ratio);
      DrainedEnough(capacity, ratio, s'.len, n, ticks);
    } else if AtOrBelow(capacity, ratio, s'.len) {
      DrainedEnough(capacity, ratio, s'.len, 0, ticks);
    } else {
      DrainedEnough(capacity, ratio, s'.len, n, ticks);
    }
  }

  lemma DelayPassed(phase: int, period: nat, from: int, n: int, until: int)
    requires period > 0 && until >= from + period * n && until >= from
    ensures Ticks(phase, period, from, until) >= n && Ticks(phase, period, from, until) >= 0
  {
    TicksInPeriods(phase, period, from, 0, until);
    if n > 0 { TicksInPeriods(phase, period, from, n, until); }
  }

  lemma FullDelay(capacity: nat, ratio: real)
    ensures capacity as real - PeriodsWhenFull(capacity, ratio) as real <= capacity as real * ratio
  {
    var c := capacity as real;
    assert c * (1.0 - ratio) == c - c * ratio;
  }

  /** And it is not too long: of all the numbers of leaks after the check, those that reach the delay are the ones that
      bring the fill ratio to the reset ratio or below. */
  lemma DelayIsLeast(capacity: nat, ratio: real, s: State, c: Event, leaks: nat)
    requires capacity > 0 && 0.0 <= ratio < 1.0 && s.len <= capacity && c.Check?
    requires CheckDelay(capacity, ratio, s, c) != 0
    ensures leaks >= CheckDelay(capacity, ratio, s, c) <==>
              AtOrBelow(capacity, ratio, Drained(AfterCheck(capacity, ratio, s, c).len, leaks))
  {
    var len, left := AfterCheck(capacity, ratio, s, c).len, Drained(AfterCheck(capacity, ratio, s, c).len, leaks);
    RatioAtOrBelow(capacity, ratio, left);
    RatioAtOrBelow(capacity, ratio, len);
    assert capacity as real * ratio >= 0.0;
    if Overflows(capacity, s, c) {
      var x := capacity as real;
      assert x * (1.0 - ratio) == x - x * ratio;
    }
  }

  /** A check ends the degraded status if and only if it is read, finds room for its update, knows the reason, finds the
      fill ratio at or below the reset ratio, and its report is stored. */
  lemma CheckRecoversExactly(capacity: nat, ratio: real, s: State, c: Event)
    requires capacity > 0 && c.Check? && s.reason == Some(CmoReconcileLoopDetected)
    ensures Next(capacity, ratio, s, c).reason == Some(CmoReconcileLoopStopped) <==>
              !Dropped(s, c) && !Overflows(capacity, s, c) && c.known && AtOrBelow(capacity, ratio, LenAfter(s, c))
                  && c.persists
    ensures Next(capacity, ratio, s, c).reason in {Some(CmoReconcileLoopStopped), Some(CmoReconcileLoopDetected)}
  {
    assert CmoReconcileLoopStopped in AllowedFrom(CmoReconcileLoopDetected);
  }

  /** A check that leaves the status degraded returns neither a delay nor an error, so that nobody asks for another one,
      exactly if it is dropped, or if its report that the loop stopped was not stored. */
  lemma NoRequeueExactly(capacity: nat, ratio: real, s: State, c: Event)
    requires capacity > 0 && 0.0 <= ratio < 1.0 && s.len <= capacity && c.Check?
    requires AfterCheck(capacity, ratio, s, c).reason == Some(CmoReconcileLoopDetected)
    ensures CheckDelay(capacity, ratio, s, c) == 0 && !CheckFails(capacity, s, c) <==>
              Dropped(s, c) || ReportIsLost(capacity, ratio, s, c)
  {
    if Overflows(capacity, s, c) {
      FullDelay(capacity, ratio);
      RealProductStrict(ratio, 1.0, capacity as real);
    }
    if !Dropped(s, c) && !Overflows(capacity, s, c) && c.known && s.reason == Some(CmoReconcileLoopDetected) {
      CheckRecoversExactly(capacity, ratio, s, c);
    }
  }

  /** The check finds that updates have stopped, but its report is not stored. */
  predicate ReportIsLost(capacity: nat, ratio: real, s: State, c: Event)
    requires capacity > 0 && c.Check?
  {
    !Dropped(s, c) && !Overflows(capacity, s, c) && c.known && AtOrBelow(capacity, ratio, LenAfter(s, c)) && !c.persists
  }

  lemma {:induction false} TicksDrain(capacity: nat, ratio: real, s: State, ticks: seq<Event>)
    requires capacity > 0 && forall i | 0 <= i < |ticks| :: ticks[i].Tick?
    ensures RunOf(capacity, ratio, s, ticks) == s.(len := Drained(s.len, |ticks|))
  {
    if ticks != [] { TicksDrain(capacity, ratio, s, ticks[..|ticks| - 1]); }
  }

  /** The requeued request itself ends the degraded status, once updates have stopped, exactly if it is about the
      monitoring ConfigMap (any other is dropped the second time), knows the reason, and its report is stored. */
  lemma RequeueRecoversExactly(capacity: nat, period: nat, ratio: real, s: State, first: Event, ticks: seq<Event>,
                               again: Event, phase: int, from: int, until: int)
    requires capacity > 0 && period > 0 && ratio >= 0.0 && s.len <= capacity
    requires first.Check? && CheckDelay(capacity, ratio, s, first) > 0
    requires AfterCheck(capacity, ratio, s, first).reason == Some(CmoReconcileLoopDetected)
    requires until >= from + period * CheckDelay(capacity, ratio, s, first) && until >= from
    requires (forall i | 0 <= i < |ticks| :: ticks[i].Tick?) && |ticks| == Ticks(phase, period, from, until)
    requires again.Check? && again.isCmo == first.isCmo && !again.updated
    ensures RunOf(capacity, ratio, Next(capacity, ratio, s, first), ticks + [again]).reason
            == Some(CmoReconcileLoopStopped)
            <==> first.isCmo && again.known && again.persists
  {
    var s1 := Next(capacity, ratio, s, first);
    DelaySuffices(capacity, period, ratio, s, first, phase, from, until);
    TicksDrain(capacity, ratio, s1, ticks);
    var s2 := RunOf(capacity, ratio, s1, ticks);
    assert (ticks + [again])[..|ticks|] == ticks;
    CheckRecoversExactly(capacity, ratio, s2, again);
  }
}
