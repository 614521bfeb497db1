/** Turning families into remote-write series and sending them in chunks. */
module RemoteWrite {
  import opened Wrappers
  import opened Sorted
  import opened Compaction
  import opened MetricFamilies
  import opened FederateSamples
  import opened SeriesLabels

  const NAME_LABEL := "__name__"
  const MAX_SERIES_LENGTH := 10000

  datatype Sample = Sample(timestamp: int, value: string)

  datatype TimeSeries = TimeSeries(labels: seq<Label>, sample: Sample)

  // ---- what the code dereferences --------------------------------------------------------------

  /** The value of a label is looked at only if its name is not empty. */
  predicate ReadableLabel(l: Option<LabelPair>) {
    l.Some? && l.value.name.Some? && (l.value.name.value == "" || l.value.value.Some?)
  }

  predicate ReadableLabels(ls: seq<Option<LabelPair>>) {
    forall i | 0 <= i < |ls| :: ReadableLabel(ls[i])
  }

  /** Everything the conversion of a sample dereferences before it looks at the type. */
  predicate Readable(name: Option<string>, t: Option<MetricType>, m: Option<Metric>) {
    name.Some? && t.Some? && m.Some? && m.value.timestampMs.Some? && ReadableLabels(m.value.labels)
  }

  predicate Supported(t: MetricType) {
    t in {COUNTER, GAUGE, UNTYPED}
  }

  /** The sample has the message of its type, and that message has a value. */
  predicate HasValue(t: MetricType, m: Metric)
    requires Supported(t)
  {
    FieldOf(t) in m.fields && m.fields[FieldOf(t)].Some?
  }

  // ---- labels of a series ----------------------------------------------------------------------

  function LabelOf(l: Option<LabelPair>): Label
    requires ReadableLabel(l)
  {
    Label(l.value.name.value, if l.value.value.Some? then l.value.value.value else "")
  }

  function LabelsOf(ls: seq<Option<LabelPair>>): (r: seq<Label>)
    requires ReadableLabels(ls)
    ensures |r| == |ls| && forall i | 0 <= i < |ls| :: r[i] == LabelOf(ls[i])
  {
    seq(|ls|, i requires 0 <= i < |ls| => LabelOf(ls[i]))
  }

  /** The metric name, then the first non-empty label of each other name. */
  function Deduped(name: string, ls: seq<Label>): seq<Label> {
    if ls == [] then [Label(NAME_LABEL, name)]
    else
      var before, l := Deduped(name, ls[..|ls| - 1]), ls[|ls| - 1];
      if NonEmpty(l) && Of(before, l.name) == [] then before + [l] else before
  }

  /** The labels of a series. */
  function SeriesLabelsOf(name: string, ls: seq<Label>): seq<Label> {
    SortByName(Deduped(name, ls))
  }

  /** What one name should end up with: the metric name, or the first of its non-empty labels. */
  ghost function FirstOf(name: string, ls: seq<Label>, n: string): seq<Label> {
    var own := Of(Kept(ls, NonEmpty), n);
    if n == NAME_LABEL then [Label(NAME_LABEL, name)] else if own == [] then [] else [own[0]]
  }

  lemma {:induction false} DedupedOf(name: string, ls: seq<Label>, n: string)
    ensures Of(Deduped(name, ls), n) == FirstOf(name, ls, n)
  {
    if ls == [] {
      OfPush([], Label(NAME_LABEL, name), n);
    } else {
      var init, l := ls[..|ls| - 1], ls[|ls| - 1];
      DedupedOf(name, init, n);
      OfPush(Deduped(name, init), l, n);
      OfPush(Kept(init, NonEmpty), l, n);
    }
  }

  ghost predicate StrictByName(s: seq<Label>) {
    forall i, j | 0 <= i < j < |s| :: Lt(s[i].name, s[j].name)
  }

  /** Sorted, with at most one label of each name. */
  lemma {:induction false} FewMeansStrict(s: seq<Label>)
    requires SortedByName(s) && forall n :: |Of(s, n)| <= 1
    ensures StrictByName(s)
  {
    if s != [] {
      var init, l := s[..|s| - 1], s[|s| - 1];
      assert s == init + [l];
      forall n ensures |Of(init, n)| <= 1 {
        OfPush(init, l, n);
        assert |Of(s, n)| <= 1;
      }
      FewMeansStrict(init);
      forall i | 0 <= i < |init| ensures Lt(s[i].name, l.name) {
        assert init[i] in init;
        OfHas(init, init[i]);
        OfPush(init, l, l.name);
        assert |Of(s, l.name)| <= 1;
      }
    }
  }

  /** The labels follow section "Labels" of the Prometheus Remote-Write 1.0 specification: in strict order of
      their names, hence without repetition; they are the one such list that holds the metric name and the first
      non-empty label of every other name. */
  lemma SeriesLabelsExactly(name: string, ls: seq<Label>, r: seq<Label>)
    ensures r == SeriesLabelsOf(name, ls) <==> StrictByName(r) && forall n :: Of(r, n) == FirstOf(name, ls, n)
  {
    var a := SeriesLabelsOf(name, ls);
    SortSorts(Deduped(name, ls), "");
    forall n ensures Of(a, n) == FirstOf(name, ls, n) && |Of(a, n)| <= 1 {
      DedupedOf(name, ls, n);
      SortSorts(Deduped(name, ls), n);
    }
    FewMeansStrict(a);
    if StrictByName(r) && forall n :: Of(r, n) == FirstOf(name, ls, n) {
      assert forall n :: Of(r, n) == Of(a, n);
      SortedIsUnique(r, a);
    }
  }

  lemma {:induction false} OwnAreNotEmpty(ls: seq<Label>, n: string)
    ensures forall l | l in Of(Kept(ls, NonEmpty), n) :: NonEmpty(l)
  {
    if ls != [] {
      OwnAreNotEmpty(ls[..|ls| - 1], n);
      OfPush(Kept(ls[..|ls| - 1], NonEmpty), ls[|ls| - 1], n);
    }
  }

  lemma LabelIsNotEmpty(name: string, ls: seq<Label>, l: Label)
    requires l in SeriesLabelsOf(name, ls)
    ensures NonEmpty(l) || l == Label(NAME_LABEL, name)
  {
    SeriesLabelsExactly(name, ls, SeriesLabelsOf(name, ls));
    OfHas(SeriesLabelsOf(name, ls), l);
    assert l in FirstOf(name, ls, l.name);
    OwnAreNotEmpty(ls, l.name);
  }

  /** No label of a series is empty, exactly when the metric has a name. */
  lemma SeriesLabelsNotEmpty(name: string, ls: seq<Label>)
    ensures name != "" <==> forall l | l in SeriesLabelsOf(name, ls) :: NonEmpty(l)
  {
    var a := SeriesLabelsOf(name, ls);
    forall l | l in a ensures NonEmpty(l) || l == Label(NAME_LABEL, name) { LabelIsNotEmpty(name, ls, l); }
    SeriesLabelsExactly(name, ls, a);
    OfHas(a, Label(NAME_LABEL, name));
    assert Label(NAME_LABEL, name) in FirstOf(name, ls, NAME_LABEL);
  }

  // ---- conversion ------------------------------------------------------------------------------

  /** How a conversion ends; a nil pointer ends the process. */
  datatype Conversion = Converted(series: seq<TimeSeries>) | Unsupported | NilPointer

  /** The first part that does not convert decides. */
  function Then(a: Conversion, b: Conversion): Conversion {
    if !a.Converted? then a else if !b.Converted? then b else Converted(a.series + b.series)
  }

  /** The series of a sample; a timestamp in the future becomes the present. */
  function SeriesOf(name: string, t: MetricType, m: Metric, now: int): TimeSeries
    requires m.timestampMs.Some? && ReadableLabels(m.labels) && Supported(t) && HasValue(t, m)
  {
    TimeSeries(SeriesLabelsOf(name, LabelsOf(m.labels)),
               Sample(if m.timestampMs.value > now then now else m.timestampMs.value, m.fields[FieldOf(t)].value))
  }

  function MetricConversion(name: Option<string>, t: Option<MetricType>, m: Option<Metric>, now: int): Conversion {
    if !Readable(name, t, m) then NilPointer
    else if !Supported(t.value) then Unsupported
    else if !HasValue(t.value, m.value) then NilPointer
    else Converted([SeriesOf(name.value, t.value, m.value, now)])
  }

  function InTurn(cs: seq<Conversion>): Conversion {
    if cs == [] then Converted([]) else Then(InTurn(cs[..|cs| - 1]), cs[|cs| - 1])
  }

  function MetricConversions(f: Scrape, now: int): (cs: seq<Conversion>)
    ensures |cs| == |f.metrics|
    ensures forall i | 0 <= i < |cs| :: cs[i] == MetricConversion(f.name, f.typ, f.metrics[i], now)
  {
    seq(|f.metrics|, i requires 0 <= i < |f.metrics| => MetricConversion(f.name, f.typ, f.metrics[i], now))
  }

  function FamilyConversions(fs: seq<Scrape>, now: int): (cs: seq<Conversion>)
    ensures |cs| == |fs| && forall i | 0 <= i < |cs| :: cs[i] == InTurn(MetricConversions(fs[i], now))
  {
    seq(|fs|, i requires 0 <= i < |fs| => InTurn(MetricConversions(fs[i], now)))
  }

  function AllConversion(fs: seq<Scrape>, now: int): Conversion {
    InTurn(FamilyConversions(fs, now))
  }

  lemma {:induction false} InTurnStops(cs: seq<Conversion>, n: nat)
    requires n < |cs| && InTurn(cs[..n]).Converted? && !cs[n].Converted?
    ensures InTurn(cs) == cs[n]
    decreases |cs|
  {
    if n < |cs| - 1 {
      assert cs[..|cs| - 1][..n] == cs[..n];
      InTurnStops(cs[..|cs| - 1], n);
    }
  }

  lemma {:induction false} InTurnConverts(cs: seq<Conversion>)
    ensures InTurn(cs).Converted? <==> forall i | 0 <= i < |cs| :: cs[i].Converted?
    ensures !InTurn(cs).Converted? ==> InTurn(cs) in cs
  {
    if cs != [] { InTurnConverts(cs[..|cs| - 1]); }
  }

  // ---- when a conversion succeeds --------------------------------------------------------------

  predicate Convertible(name: Option<string>, t: Option<MetricType>, m: Option<Metric>) {
    Readable(name, t, m) && Supported(t.value) && HasValue(t.value, m.value)
  }

  /** Spelt out: no nil pointer on the way, one of the three simple types, and a value in the message of that type. */
  lemma ConvertibleExactly(name: Option<string>, t: Option<MetricType>, m: Option<Metric>)
    ensures Convertible(name, t, m) <==>
              && name.Some? && m.Some? && m.value.timestampMs.Some?
              && (forall i | 0 <= i < |m.value.labels| ::
                    var l := m.value.labels[i];
                    l.Some? && l.value.name.Some? && (l.value.name.value != "" ==> l.value.value.Some?))
              && (|| (t == Some(COUNTER) && Counter in m.value.fields && m.value.fields[Counter].Some?)
                  || (t == Some(GAUGE) && Gauge in m.value.fields && m.value.fields[Gauge].Some?)
                  || (t == Some(UNTYPED) && Untyped in m.value.fields && m.value.fields[Untyped].Some?))
  {
  }

  lemma FamilyConverts(f: Scrape, now: int)
    ensures InTurn(MetricConversions(f, now)).Converted? <==>
              forall i | 0 <= i < |f.metrics| :: Convertible(f.name, f.typ, f.metrics[i])
  {
    var cs := MetricConversions(f, now);
    InTurnConverts(cs);
    assert forall i | 0 <= i < |f.metrics| :: cs[i].Converted? <==> Convertible(f.name, f.typ, f.metrics[i]);
  }

  /** Conversion succeeds exactly if every sample of every family has all that is dereferenced, a supported type
      and a value. */
  lemma ConvertsExactly(fs: seq<Scrape>, now: int)
    ensures AllConversion(fs, now).Converted? <==>
              forall i, j | 0 <= i < |fs| && 0 <= j < |fs[i].metrics| ::
                  Convertible(fs[i].name, fs[i].typ, fs[i].metrics[j])
  {
    InTurnConverts(FamilyConversions(fs, now));
    forall i | 0 <= i < |fs| { FamilyConverts(fs[i], now); }
    if AllConversion(fs, now).Converted? {
      forall i, j | 0 <= i < |fs| && 0 <= j < |fs[i].metrics|
        ensures Convertible(fs[i].name, fs[i].typ, fs[i].metrics[j])
      {
        assert FamilyConversions(fs, now)[i].Converted?;
      }
    } else {
      var i :| 0 <= i < |fs| && !FamilyConversions(fs, now)[i].Converted?;
    }
  }

  /** Where at most values are missing, the conversion of a supported family fails by a nil pointer or not at all;
      that of an unsupported one is refused. */
  lemma ReadableConversion(f: Scrape, t: MetricType, now: int)
    requires f.metrics != [] && f.typ == Some(t)
    requires forall i | 0 <= i < |f.metrics| :: Readable(f.name, f.typ, f.metrics[i])
    ensures InTurn(MetricConversions(f, now)) == Unsupported <==> !Supported(t)
  {
    var cs := MetricConversions(f, now);
    InTurnConverts(cs);
    assert Readable(f.name, f.typ, f.metrics[0]);
    assert Supported(t) ==> Unsupported !in cs;
    assert !Supported(t) ==> cs[0] == Unsupported && NilPointer !in cs;
  }

  /** One series for each sample, in order. */
  lemma {:induction false} SeriesInOrder(f: Scrape, n: nat, i: nat, now: int)
    requires i < n <= |f.metrics| && InTurn(MetricConversions(f, now)[..n]).Converted?
    ensures |InTurn(MetricConversions(f, now)[..n]).series| == n
    ensures Convertible(f.name, f.typ, f.metrics[i])
    ensures InTurn(MetricConversions(f, now)[..n]).series[i]
         == SeriesOf(f.name.value, f.typ.value, f.metrics[i].value, now)
  {
    var cs := MetricConversions(f, now);
    assert cs[..n][..n - 1] == cs[..n - 1];
    if n > 1 { SeriesInOrder(f, n - 1, if i < n - 1 then i else 0, now); }
    assert cs[i] == MetricConversion(f.name, f.typ, f.metrics[i], now);
  }

  /** What a series says: the value of the message that goes with the type, at the time of the sample, but not later
      than now. */
  lemma SeriesMeans(name: string, t: MetricType, m: Metric, now: int)
    requires m.timestampMs.Some? && ReadableLabels(m.labels) && Supported(t) && HasValue(t, m)
    ensures var series, at := SeriesOf(name, t, m, now), m.timestampMs.value;
            && series.sample.timestamp <= now
            && (at <= now ==> series.sample.timestamp == at) && (at > now ==> series.sample.timestamp == now)
            && (t == COUNTER ==> Counter in m.fields && m.fields[Counter] == Some(series.sample.value))
            && (t == GAUGE ==> Gauge in m.fields && m.fields[Gauge] == Some(series.sample.value))
            && (t == UNTYPED ==> Untyped in m.fields && m.fields[Untyped] == Some(series.sample.value))
  {
  }

  /** What gets through the validating pipeline has everything but, possibly, its values: it converts exactly if its
      type is supported and every sample that passes the checks has its value set.  The checks do not look at the value,
      and a missing one is a nil pointer. */
  lemma AcceptedConversion(min: int, before: Scrape, after: Scrape, now: int)
    requires Runs([DropInvalidStage(min), PackMetricsStage, SortMetricsStage], before, after, Accepted)
    ensures HeaderOk(before.name, before.typ)
    ensures var t, c := before.typ.value, InTurn(MetricConversions(after, now));
            if !Supported(t) then c == Unsupported
            else if forall m | m in Survivors(t, min, before.metrics) :: m.Some? && HasValue(t, m.value)
            then c.Converted?
            else c == NilPointer
  {
    FederatePipeline(min, before, after, Accepted);
    var t, ms, n := before.typ.value, Survivors(before.typ.value, min, before.metrics), |after.metrics|;
    AcceptedIsReadable(min, before, after);
    ReadableConversion(after, t, now);
    FamilyConverts(after, now);
    if Supported(t) {
      forall m | m in ms ensures m.Some? && m in after.metrics { InEither(after.metrics, ms, m); }
      forall i | 0 <= i < n ensures after.metrics[i] in ms { InEither(after.metrics, ms, after.metrics[i]); }
    }
  }

  lemma InEither<T>(s: seq<T>, t: seq<T>, x: T)
    requires multiset(s) == multiset(t)
    ensures x in s <==> x in t
  {
    assert x in s <==> x in multiset(s);
    assert x in t <==> x in multiset(t);
  }

  lemma AcceptedIsReadable(min: int, before: Scrape, after: Scrape)
    requires Runs([DropInvalidStage(min), PackMetricsStage, SortMetricsStage], before, after, Accepted)
    ensures after.metrics != [] && forall i | 0 <= i < |after.metrics| ::
            Readable(after.name, after.typ, after.metrics[i])
    ensures forall m | m in Survivors(before.typ.value, min, before.metrics) :: m.Some?
  {
    FederatePipeline(min, before, after, Accepted);
    var t, ms := before.typ.value, Survivors(before.typ.value, min, before.metrics);
    SurvivorsAreValid(t, min, before.metrics);
    InEither(after.metrics, ms, ms[0]);
    forall i | 0 <= i < |after.metrics| ensures Readable(after.name, after.typ, after.metrics[i]) {
      InEither(after.metrics, ms, after.metrics[i]);
    }
  }

  function EmptyCounter(min: int): Scrape {
    Scrape(Some("requests"), Some(COUNTER), [Some(Metric([], Some(min), map[Counter := None]))])
  }

  lemma EmptyCounterSteps(min: int)
    ensures var f := EmptyCounter(min);
            && StageStep(DropInvalidStage(min), f, f, Accepted) && StageStep(PackMetricsStage, f, f, Accepted)
            && StageStep(SortMetricsStage, f, f, Accepted)
  {
    var f := EmptyCounter(min);
    assert Cleaned(f.metrics[0].value) == f.metrics[0].value;
    assert DropAll(COUNTER, min, f.metrics) == f.metrics;
    assert Kept(f.metrics[..0], IsSome) == [];
  }

  lemma StepThenRuns(stages: seq<Stage>, f: Scrape)
    requires stages != [] && StageStep(stages[0], f, f, Accepted) && Runs(stages[1..], f, f, Accepted)
    ensures Runs(stages, f, f, Accepted)
  {
  }

  lemma EmptyCounterIsAccepted(min: int)
    ensures Runs([DropInvalidStage(min), PackMetricsStage, SortMetricsStage], EmptyCounter(min), EmptyCounter(min),
                 Accepted)
  {
    var f := EmptyCounter(min);
    EmptyCounterSteps(min);
    var last, rest := [SortMetricsStage], [PackMetricsStage, SortMetricsStage];
    assert last[1..] == [] && rest[1..] == last;
    StepThenRuns(last, f);
    StepThenRuns(rest, f);
    var stages := [DropInvalidStage(min), PackMetricsStage, SortMetricsStage];
    assert stages[1..] == rest;
    StepThenRuns(stages, f);
  }

  /** A counter whose message is empty passes every check, and the conversion fails on it. */
  lemma EmptyCounterFails(min: int, now: int)
    ensures Runs([DropInvalidStage(min), PackMetricsStage, SortMetricsStage], EmptyCounter(min), EmptyCounter(min),
                 Accepted)
    ensures AllConversion([EmptyCounter(min)], now) == NilPointer
  {
    EmptyCounterIsAccepted(min);
    InTurnStops(MetricConversions(EmptyCounter(min), now), 0);
    InTurnStops(FamilyConversions([EmptyCounter(min)], now), 0);
  }

  lemma OneMoreLabel(name: string, ls: seq<Option<LabelPair>>, i: nat)
    requires i < |ls| && ReadableLabels(ls[..i]) && ReadableLabel(ls[i])
    ensures ReadableLabels(ls[..i + 1])
    ensures var before, l := Deduped(name, LabelsOf(ls[..i])), LabelOf(ls[i]);
            Deduped(name, LabelsOf(ls[..i + 1]))
                == if NonEmpty(l) && Of(before, l.name) == [] then before + [l] else before
  {
    assert ls[..i + 1] == ls[..i] + [ls[i]];
    assert LabelsOf(ls[..i + 1])[..i] == LabelsOf(ls[..i]);
  }

  /** The labels of one sample: the metric name first, then whatever is new. */
  method CollectLabels(name: string, ls: seq<Option<LabelPair>>) returns (pairs: seq<Label>, read: bool)
    ensures read <==> ReadableLabels(ls)
    ensures read ==> pairs == Deduped(name, LabelsOf(ls))
  {
    pairs := [Label(NAME_LABEL, name)];
    var dedup := {NAME_LABEL};
    forall n ensures n in dedup <==> Of(pairs, n) != [] { OfPush([], pairs[0], n); }
    for i := 0 to |ls|
      invariant ReadableLabels(ls[..i]) && pairs == Deduped(name, LabelsOf(ls[..i]))
      invariant forall n :: n in dedup <==> Of(pairs, n) != []
    {
      if ls[i] == None || ls[i].value.name == None { return pairs, false; }
      if ls[i].value.name.value != "" && ls[i].value.value == None { return pairs, false; }
      OneMoreLabel(name, ls, i);
      var l := LabelOf(ls[i]);
      if l.name == "" || l.value == "" { continue; }
      if l.name in dedup { continue; }
      forall n ensures Of(pairs + [l], n) != [] <==> n in dedup || n == l.name { OfPush(pairs, l, n); }
      pairs := pairs + [l];
      dedup := dedup + {l.name};
    }
    assert ls[..|ls|] == ls;
    read := true;
  }

  /** `sortLabels`; the names differ, so that any sorting method gives this result. */
  method SortLabels(labels: seq<Label>) returns (r: seq<Label>)
    ensures r == SortByName(labels)
  {
    r := [];
    for i := 0 to |labels|
      invariant r == SortByName(labels[..i])
    {
      assert labels[..i + 1][..i] == labels[..i];
      r := InsertLexicographicallyByName(r, labels[i]);
    }
    assert labels[..|labels|] == labels;
  }

  method ConvertMetric(name: Option<string>, t: Option<MetricType>, m: Option<Metric>, now: int) returns (c: Conversion)
    ensures c == MetricConversion(name, t, m, now)
  {
    if name == None || m == None { return NilPointer; }
    var labels, read := CollectLabels(name.value, m.value.labels);
    if !read || m.value.timestampMs == None { return NilPointer; }
    var timestamp := m.value.timestampMs.value;
    if timestamp > now { timestamp := now; }
    if t == None { return NilPointer; }
    if t.value != COUNTER && t.value != GAUGE && t.value != UNTYPED { return Unsupported; }
    var fields := m.value.fields;
    if FieldOf(t.value) !in fields || fields[FieldOf(t.value)] == None { return NilPointer; }
    labels := SortLabels(labels);
    c := Converted([TimeSeries(labels, Sample(timestamp, fields[FieldOf(t.value)].value))]);
  }

  /** The samples of one family. */
  method ConvertFamily(f: Scrape, now: int) returns (c: Conversion)
    ensures c == InTurn(MetricConversions(f, now))
  {
    var timeseries: seq<TimeSeries> := [];
    ghost var cs := MetricConversions(f, now);
    for j := 0 to |f.metrics|
      invariant InTurn(cs[..j]) == Converted(timeseries)
    {
      c := ConvertMetric(f.name, f.typ, f.metrics[j], now);
      if !c.Converted? {
        InTurnStops(cs, j);
        return;
      }
      assert cs[..j + 1][..j] == cs[..j];
      timeseries := timeseries + c.series;
    }
    assert cs[..|f.metrics|] == cs;
    c := Converted(timeseries);
  }

  /** `convertToTimeseries`, with its nil pointers. */
  method ConvertToTimeseries(families: seq<Scrape>, now: int) returns (c: Conversion)
    ensures c == AllConversion(families, now)
  {
    var timeseries: seq<TimeSeries> := [];
    ghost var cs := FamilyConversions(families, now);
    for i := 0 to |families|
      invariant InTurn(cs[..i]) == Converted(timeseries)
    {
      c := ConvertFamily(families[i], now);
      if !c.Converted? {
        InTurnStops(cs, i);
        return;
      }
      assert cs[..i + 1][..i] == cs[..i];
      timeseries := timeseries + c.series;
    }
    assert cs[..|families|] == cs;
    c := Converted(timeseries);
  }

  // ---- sending ---------------------------------------------------------------------------------

  function Joined<T>(chunks: seq<seq<T>>): seq<T> {
    if chunks == [] then [] else Joined(chunks[..|chunks| - 1]) + chunks[|chunks| - 1]
  }

  /** Requests of full size, but for the last one. */
  ghost predicate Chunked<T>(chunks: seq<seq<T>>) {
    && (forall i | 0 <= i < |chunks| :: 0 < |chunks[i]| <= 10000)
    && (forall i | 0 <= i < |chunks| - 1 :: |chunks[i]| == 10000)
  }

  datatype WriteOutcome = Pushed | NotConverted | Crashed | NotSent

  /** The requests of `RemoteWrite` that were accepted, in order; `accepted` says whether the n-th request is, within
      its retries.  Every series is sent once and in order, up to the first request that fails for good. */
  method RemoteWrite(families: seq<Scrape>, now: int, accepted: nat -> bool)
    returns (sent: seq<seq<TimeSeries>>, o: WriteOutcome)
    ensures AllConversion(families, now) == Unsupported <==> o == NotConverted
    ensures AllConversion(families, now) == NilPointer <==> o == Crashed
    ensures o == NotConverted || o == Crashed ==> sent == []
    ensures o == Pushed || o == NotSent ==>
              var series := AllConversion(families, now).series;
              && Chunked(sent) && Joined(sent) <= series
              && (forall i | 0 <= i < |sent| :: accepted(i))
              && (o == Pushed <==> Joined(sent) == series)
              && (o == NotSent ==> !accepted(|sent|))
  {
    var c := ConvertToTimeseries(families, now);
    match c
    case Unsupported => return [], NotConverted;
    case NilPointer => return [], Crashed;
    case Converted(timeseries) =>
      var ok;
      sent, ok := SendChunks(timeseries, accepted);
      o := if ok then Pushed else NotSent;
  }

  /** The sending loop. */
  method SendChunks<T>(timeseries: seq<T>, accepted: nat -> bool) returns (sent: seq<seq<T>>, ok: bool)
    ensures Chunked(sent) && Joined(sent) <= timeseries
    ensures forall i | 0 <= i < |sent| :: accepted(i)
    ensures ok <==> Joined(sent) == timeseries
    ensures !ok ==> !accepted(|sent|)
  {
    sent := [];
    var i := 0;
    while i < |timeseries|
      invariant i >= 0 && Chunked(sent) && Joined(sent) == timeseries[..Min(i, |timeseries|)]
      invariant AllFull(sent) || i >= |timeseries|
      invariant forall k | 0 <= k < |sent| :: accepted(k)
    {
      var length := Min(i + MAX_SERIES_LENGTH, |timeseries|);
      var sub := timeseries[i..length];
      if !accepted(|sent|) { return sent, false; }
      JoinedOneMore(sent, sub);
      assert timeseries[..length] == timeseries[..i] + sub;
      sent := sent + [sub];
      i := i + MAX_SERIES_LENGTH;
    }
    ok := true;
  }

  ghost predicate AllFull<T>(chunks: seq<seq<T>>) {
    forall k | 0 <= k < |chunks| :: |chunks[k]| == MAX_SERIES_LENGTH
  }

  lemma JoinedOneMore<T>(chunks: seq<seq<T>>, last: seq<T>)
    ensures Joined(chunks + [last]) == Joined(chunks) + last
    ensures AllFull(chunks) && 0 < |last| <= MAX_SERIES_LENGTH ==> Chunked(chunks + [last])
    ensures AllFull(chunks) && |last| == MAX_SERIES_LENGTH ==> AllFull(chunks + [last])
  {
    assert (chunks + [last])[..|chunks|] == chunks;
  }

  function Min(a: int, b: int): int {
    if a < b then a else b
  }
}
