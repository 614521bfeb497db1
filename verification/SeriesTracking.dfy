/** The life of one series under one collect rule: pending while present, firing once present for the
    rule's duration, dropped once absent for 15 minutes. */
module SeriesTracking {

  /** 15 minutes, in nanoseconds. */
  const EXPIRE_DURATION := 900_000_000_000

  datatype Track =
    | Idle
    | Pending(since: int)
    | Firing(since: int)
    | Resolving(since: int, absentFrom: int)

  predicate IsOn(t: Track) {
    t.Firing? || t.Resolving?
  }

  /** One successful evaluation as this series saw it: the rule's duration at the time, the clock when the
      evaluation started, the clock at each sample that carried the series, and the clock when its absence was
      looked at. */
  datatype Seen = Seen(duration: int, now: int, samples: seq<int>, absence: int)

  /** One sample of the series, looked at when the clock says `at`. */
  function Sample(t: Track, e: Seen, at: int): Track {
    match t
    case Idle => if e.duration == 0 then Firing(e.now) else Pending(e.now)
    case Pending(since) => if at - since >= e.duration then Firing(e.now) else t
    case Firing(_) => t
    case Resolving(since, _) => Firing(since)
  }

  function Samples(t: Track, e: Seen, readings: seq<int>): Track {
    if readings == [] then t else Sample(Samples(t, e, Init(readings)), e, Last(readings))
  }

  /** An evaluation without the series. */
  function Absence(t: Track, e: Seen): Track {
    match t
    case Idle => Idle
    case Pending(_) => Idle
    case Firing(since) => Resolving(since, e.now)
    case Resolving(_, from) => if e.absence - from >= EXPIRE_DURATION then Idle else t
  }

  function Observe(t: Track, e: Seen): Track {
    if e.samples != [] then Samples(t, e, e.samples) else Absence(t, e)
  }

  function Last<T>(s: seq<T>): T
    requires s != []
  {
    s[|s| - 1]
  }

  function Init<T>(s: seq<T>): seq<T>
    requires s != []
  {
    s[..|s| - 1]
  }

  /** The series after a run of evaluations. */
  function Run(hist: seq<Seen>): Track {
    if hist == [] then Idle else Observe(Run(Init(hist)), Last(hist))
  }

  /** The same, from a given standing. */
  function RunFrom(t: Track, hist: seq<Seen>): Track
    decreases |hist|
  {
    if hist == [] then t else RunFrom(Observe(t, hist[0]), hist[1..])
  }

  lemma {:induction false} RunContinues(hist: seq<Seen>, more: seq<Seen>)
    ensures Run(hist + more) == RunFrom(Run(hist), more)
    decreases |more|
  {
    if more == [] {
      assert hist + more == hist;
    } else {
      var next := hist + [more[0]];
      assert Init(next) == hist;
      RunContinues(next, more[1..]);
      assert next + more[1..] == hist + more;
    }
  }

  lemma {:induction false} RunFromAppend(t: Track, hist: seq<Seen>, e: Seen)
    ensures RunFrom(t, hist + [e]) == Observe(RunFrom(t, hist), e)
    decreases |hist|
  {
    if hist == [] {
      assert hist + [e] == [e];
    } else {
      RunFromAppend(Observe(t, hist[0]), hist[1..], e);
      assert (hist + [e])[1..] == hist[1..] + [e];
    }
  }

  /** Where the trailing stretch of evaluations begins in which the series was always present. */
  function PresentFrom(hist: seq<Seen>): nat {
    if hist == [] || Last(hist).samples == [] then |hist| else PresentFrom(Init(hist))
  }

  /** Where the trailing stretch begins in which it was always absent. */
  function AbsentFrom(hist: seq<Seen>): nat {
    if hist == [] || Last(hist).samples != [] then |hist| else AbsentFrom(Init(hist))
  }

  lemma {:induction false} PresentFromMeans(hist: seq<Seen>)
    ensures PresentFrom(hist) <= |hist|
    ensures forall i | PresentFrom(hist) <= i < |hist| :: hist[i].samples != []
    ensures PresentFrom(hist) > 0 ==> hist[PresentFrom(hist) - 1].samples == []
  {
    if hist != [] && Last(hist).samples != [] { PresentFromMeans(Init(hist)); }
  }

  lemma {:induction false} AbsentFromMeans(hist: seq<Seen>)
    ensures AbsentFrom(hist) <= |hist|
    ensures forall i | AbsentFrom(hist) <= i < |hist| :: hist[i].samples == []
    ensures AbsentFrom(hist) > 0 ==> hist[AbsentFrom(hist) - 1].samples != []
  {
    if hist != [] && Last(hist).samples == [] { AbsentFromMeans(Init(hist)); }
  }

  /** What the recorded times stand for: a pending series remembers the start of its current presence, a
      resolving one the start of its current absence. */
  ghost predicate TimesAreStarts(hist: seq<Seen>) {
    match Run(hist)
    case Idle => PresentFrom(hist) == |hist|
    case Pending(since) => PresentFrom(hist) < |hist| && since == hist[PresentFrom(hist)].now
    case Firing(_) => PresentFrom(hist) < |hist|
    case Resolving(_, from) => AbsentFrom(hist) < |hist| && from == hist[AbsentFrom(hist)].now
  }

  /** At some reading from the given one on, the start lies at least the duration back. */
  ghost predicate Reached(readings: seq<int>, from: nat, since: int, duration: int) {
    exists i | from <= i < |readings| :: readings[i] - since >= duration
  }

  lemma {:induction false} SamplesFrom(t: Track, e: Seen, readings: seq<int>)
    requires readings != []
    ensures t.Firing? || t.Resolving? ==> Samples(t, e, readings) == Firing(t.since)
    ensures t.Pending? ==>
            Samples(t, e, readings) == if Reached(readings, 0, t.since, e.duration) then Firing(e.now) else t
    ensures t.Idle? ==> Samples(t, e, readings) == if e.duration == 0 || Reached(readings, 1, e.now, e.duration)
                          then Firing(e.now) else Pending(e.now)
  {
    var init, n := Init(readings), |readings| - 1;
    assert forall i | 0 <= i < n :: init[i] == readings[i];
    if n > 0 {
      SamplesFrom(t, e, init);
      forall from: nat, since | from <= 1
        ensures Reached(readings, from, since, e.duration)
           <==> Reached(init, from, since, e.duration) || readings[n] - since >= e.duration
      {
        if Reached(init, from, since, e.duration) {
          var i :| from <= i < |init| && init[i] - since >= e.duration;
          assert readings[i] - since >= e.duration;
        }
      }
    } else {
      assert Samples(t, e, init) == t;
    }
  }

  lemma {:induction false} TimesAlwaysAreStarts(hist: seq<Seen>)
    ensures TimesAreStarts(hist)
  {
    if hist != [] {
      var h, e := Init(hist), Last(hist);
      TimesAlwaysAreStarts(h);
      PresentFromMeans(h);
      AbsentFromMeans(h);
      if e.samples != [] {
        SamplesFrom(Run(h), e, e.samples);
      }
    }
  }

  /** At some sample of this evaluation the beginning of the current presence lies at least the duration back; if the
      presence begins in this evaluation, its first sample does not ask, but fires if there is no duration. */
  ghost predicate PresentLongEnough(hist: seq<Seen>)
    requires hist != []
  {
    var e, start := Last(hist), PresentFrom(hist);
    if start < |hist| - 1 then Reached(e.samples, 0, hist[start].now, e.duration)
    else start < |hist| && (e.duration == 0 || Reached(e.samples, 1, e.now, e.duration))
  }

  lemma StartsFromIdle(hist: seq<Seen>)
    requires hist != [] && Run(Init(hist)).Idle? && Last(hist).samples != []
    ensures Run(hist) == Samples(Idle, Last(hist), Last(hist).samples)
    ensures IsOn(Run(hist)) <==> PresentLongEnough(hist)
  {
    TimesAlwaysAreStarts(Init(hist));
    SamplesFrom(Idle, Last(hist), Last(hist).samples);
    assert PresentFrom(hist) == PresentFrom(Init(hist)) == |hist| - 1;
    assert hist[PresentFrom(hist)] == Last(hist);
  }

  lemma StartsFromPending(hist: seq<Seen>)
    requires hist != [] && Run(Init(hist)).Pending? && Last(hist).samples != []
    ensures IsOn(Run(hist)) <==> PresentLongEnough(hist)
  {
    var h := Init(hist);
    TimesAlwaysAreStarts(h);
    SamplesFrom(Run(h), Last(hist), Last(hist).samples);
    assert PresentFrom(hist) == PresentFrom(h) < |hist| - 1;
    assert hist[PresentFrom(hist)] == h[PresentFrom(h)];
  }

  /** A series starts firing in an evaluation exactly when it is present there and has been present in every successful
      evaluation of a span at least as long as the rule's duration. */
  lemma StartsFiringExactly(hist: seq<Seen>)
    requires hist != [] && !IsOn(Run(Init(hist)))
    ensures IsOn(Run(hist)) <==> Last(hist).samples != [] && PresentLongEnough(hist)
  {
    if Last(hist).samples != [] {
      if Run(Init(hist)).Idle? { StartsFromIdle(hist); } else { StartsFromPending(hist); }
    }
  }

  /** A firing series is dropped in an evaluation exactly when it has been absent from every successful
      evaluation since an earlier one, its first absence, and that lies at least 15 minutes back. */
  lemma StopsFiringExactly(hist: seq<Seen>)
    requires hist != [] && IsOn(Run(Init(hist)))
    ensures !IsOn(Run(hist)) <==>
              var e, start := Last(hist), AbsentFrom(hist);
              e.samples == [] && start < |hist| - 1 && e.absence - hist[start].now >= 15 * 60 * 1_000_000_000
  {
    var h, e := Init(hist), Last(hist);
    TimesAlwaysAreStarts(h);
    AbsentFromMeans(h);
    if e.samples != [] {
      SamplesFrom(Run(h), e, e.samples);
    } else if Run(h).Firing? {
      PresentFromMeans(h);
      assert Last(h).samples != [];
    }
  }

  /** Present in every evaluation from `start` on, over a span of at least the current duration. */
  ghost predicate PresentForDuration(hist: seq<Seen>, start: nat)
    requires start < |hist|
  {
    && (forall i | start <= i < |hist| :: hist[i].samples != [])
    && Reached(Last(hist).samples, 0, hist[start].now, Last(hist).duration)
  }

  ghost predicate StartedAt(hist: seq<Seen>, n: nat)
    requires 0 < n <= |hist|
  {
    && !IsOn(Run(hist[..n - 1]))
    && (forall m | n <= m <= |hist| :: IsOn(Run(hist[..m])))
    && (hist[n - 1].duration == 0 || exists start | 0 <= start < n :: PresentForDuration(hist[..n], start))
  }

  /** In every run: a series that is firing started at some evaluation, has been firing ever since, and had by
      then been present in every successful evaluation of a span of the rule's duration. */
  lemma {:induction false} FiringWasEarned(hist: seq<Seen>)
    requires IsOn(Run(hist))
    ensures exists n | 0 < n <= |hist| :: StartedAt(hist, n)
  {
    var h := Init(hist);
    assert hist[..|hist|] == hist && hist[..|hist| - 1] == h;
    if IsOn(Run(h)) {
      FiringWasEarned(h);
      var n :| 0 < n <= |h| && StartedAt(h, n);
      assert forall m | 0 <= m <= |h| :: hist[..m] == h[..m];
      assert StartedAt(hist, n);
    } else {
      StartsFiringExactly(hist);
      PresentFromMeans(hist);
      if Last(hist).duration != 0 { assert PresentForDuration(hist[..|hist|], PresentFrom(hist)); }
      assert StartedAt(hist, |hist|);
    }
  }
}
