/** The validating stages a scraped family passes: dropping invalid samples and labels, packing, sorting, and
    the strict check that reports instead of dropping. */
module FederateSamples {
  import opened Wrappers
  import opened Compaction
  import opened MetricFamilies

  // ---- what is valid ---------------------------------------------------------------------------

  predicate ValidLabel(l: LabelPair) {
    l.name.Some? && 0 < |l.name.value| <= 255 && l.value.Some? && |l.value.value| <= 255
  }

  predicate IsValidLabel(l: Option<LabelPair>) {
    l.Some? && ValidLabel(l.value)
  }

  function FieldOf(t: MetricType): Field
    requires t != GAUGE_HISTOGRAM
  {
    match t
    case COUNTER => Counter
    case GAUGE => Gauge
    case SUMMARY => Summary
    case UNTYPED => Untyped
    case HISTOGRAM => Histogram
  }

  /** The metric carries exactly the message of the family's type; whether that has a value is not looked at. */
  predicate FieldsMatch(t: MetricType, m: Metric)
    requires t != GAUGE_HISTOGRAM
  {
    m.fields.Keys == {FieldOf(t)}
  }

  predicate TimestampOk(min: int, m: Metric) {
    m.timestampMs.Some? && m.timestampMs.value >= min
  }

  function GetName(name: Option<string>): string {
    if name.Some? then name.value else ""
  }

  predicate HeaderOk(name: Option<string>, typ: Option<MetricType>) {
    0 < |GetName(name)| <= 255 && typ.Some? && typ.value != GAUGE_HISTOGRAM
  }

  /** No nil pointer where the code dereferences one. */
  predicate NoNilLabel(m: Option<Metric>) {
    m.Some? ==> forall j | 0 <= j < |m.value.labels| :: m.value.labels[j].Some?
  }

  predicate LabelsNotNil(ms: seq<Option<Metric>>) {
    forall i | 0 <= i < |ms| :: NoNilLabel(ms[i])
  }

  // ---- the stages on values --------------------------------------------------------------------

  /** A metric without its invalid labels. */
  function Cleaned(m: Metric): Metric {
    m.(labels := Kept(m.labels, IsValidLabel))
  }

  function DropOne(t: MetricType, min: int, m: Option<Metric>): Option<Metric>
    requires t != GAUGE_HISTOGRAM
  {
    if m.Some? && TimestampOk(min, m.value) && FieldsMatch(t, m.value) then Some(Cleaned(m.value)) else None
  }

  function DropAll(t: MetricType, min: int, ms: seq<Option<Metric>>): seq<Option<Metric>>
    requires t != GAUGE_HISTOGRAM
  {
    seq(|ms|, i requires 0 <= i < |ms| => DropOne(t, min, ms[i]))
  }

  datatype Error =
    | NameTooLong | UnknownType | BadLabelName | BadLabelValue | NoTimestamp | TimestampTooOld | WrongField

  datatype Outcome = Accepted | Rejected | Failed(error: Error)

  function LabelVerdict(l: Option<LabelPair>): Outcome {
    if l.None? then Accepted
    else if l.value.name.None? || |l.value.name.value| == 0 || |l.value.name.value| > 255 then Failed(BadLabelName)
    else if l.value.value.None? || |l.value.value.value| > 255 then Failed(BadLabelValue)
    else Accepted
  }

  function LabelsVerdict(ls: seq<Option<LabelPair>>): Outcome {
    if ls == [] then Accepted
    else if LabelVerdict(ls[0]) != Accepted then LabelVerdict(ls[0])
    else LabelsVerdict(ls[1..])
  }

  function MetricVerdict(t: MetricType, min: int, m: Option<Metric>): Outcome
    requires t != GAUGE_HISTOGRAM
  {
    if m.None? then Accepted
    else if LabelsVerdict(m.value.labels) != Accepted then LabelsVerdict(m.value.labels)
    else if m.value.timestampMs.None? then Failed(NoTimestamp)
    else if m.value.timestampMs.value < min then Failed(TimestampTooOld)
    else if !FieldsMatch(t, m.value) then Failed(WrongField)
    else Accepted
  }

  function MetricsVerdict(t: MetricType, min: int, ms: seq<Option<Metric>>): Outcome
    requires t != GAUGE_HISTOGRAM
  {
    if ms == [] then Accepted
    else if MetricVerdict(t, min, ms[0]) != Accepted then MetricVerdict(t, min, ms[0])
    else MetricsVerdict(t, min, ms[1..])
  }

  function Verdict(name: Option<string>, typ: Option<MetricType>, min: int, ms: seq<Option<Metric>>): Outcome {
    if |GetName(name)| == 0 then Rejected
    else if |GetName(name)| > 255 then Failed(NameTooLong)
    else if typ.None? then Rejected
    else if typ.value == GAUGE_HISTOGRAM then Failed(UnknownType)
    else MetricsVerdict(typ.value, min, ms)
  }

  /** The strict check accepts exactly the families whose header and whose every sample are valid. */
  lemma VerdictAcceptsExactly(name: Option<string>, typ: Option<MetricType>, min: int, ms: seq<Option<Metric>>)
    ensures Verdict(name, typ, min, ms) == Accepted <==>
              HeaderOk(name, typ)
              && forall i | 0 <= i < |ms| && ms[i].Some? ::
                   TimestampOk(min, ms[i].value) && FieldsMatch(typ.value, ms[i].value)
                   && forall j | 0 <= j < |ms[i].value.labels| && ms[i].value.labels[j].Some? ::
                        ValidLabel(ms[i].value.labels[j].value)
  {
    if HeaderOk(name, typ) { MetricsVerdictAccepts(typ.value, min, ms); }
  }

  lemma {:induction false} LabelsVerdictAccepts(ls: seq<Option<LabelPair>>)
    ensures LabelsVerdict(ls) == Accepted <==> forall j | 0 <= j < |ls| && ls[j].Some? :: ValidLabel(ls[j].value)
  {
    if ls != [] {
      LabelsVerdictAccepts(ls[1..]);
      assert forall j | 0 < j < |ls| :: ls[j] == ls[1..][j - 1];
    }
  }

  lemma {:induction false} MetricsVerdictAccepts(t: MetricType, min: int, ms: seq<Option<Metric>>)
    requires t != GAUGE_HISTOGRAM
    ensures MetricsVerdict(t, min, ms) == Accepted <==>
              forall i | 0 <= i < |ms| && ms[i].Some? ::
                TimestampOk(min, ms[i].value) && FieldsMatch(t, ms[i].value)
                && forall j | 0 <= j < |ms[i].value.labels| && ms[i].value.labels[j].Some? ::
                     ValidLabel(ms[i].value.labels[j].value)
  {
    if ms != [] {
      MetricsVerdictAccepts(t, min, ms[1..]);
      assert forall i | 0 < i < |ms| :: ms[i] == ms[1..][i - 1];
      if ms[0].Some? { LabelsVerdictAccepts(ms[0].value.labels); }
    }
  }

  /** The error is true of the sample. */
  ghost predicate Offends(t: MetricType, min: int, m: Metric, err: Error)
    requires t != GAUGE_HISTOGRAM
  {
    match err
    case BadLabelName =>
      exists l | Some(l) in m.labels :: l.name.None? || |l.name.value| == 0 || |l.name.value| > 255
    case BadLabelValue => exists l | Some(l) in m.labels :: l.value.None? || |l.value.value| > 255
    case NoTimestamp => m.timestampMs.None?
    case TimestampTooOld => m.timestampMs.Some? && m.timestampMs.value < min
    case WrongField => !FieldsMatch(t, m)
    case _ => false
  }

  lemma {:induction false} LabelsVerdictIsTrue(ls: seq<Option<LabelPair>>)
    ensures LabelsVerdict(ls) != Rejected
    ensures LabelsVerdict(ls).Failed? ==>
              exists l | Some(l) in ls :: LabelVerdict(Some(l)) == LabelsVerdict(ls)
  {
    if ls != [] {
      if LabelVerdict(ls[0]) != Accepted {
        assert Some(ls[0].value) in ls;
      } else {
        LabelsVerdictIsTrue(ls[1..]);
      }
    }
  }

  lemma MetricVerdictIsTrue(t: MetricType, min: int, m: Metric)
    requires t != GAUGE_HISTOGRAM
    ensures MetricVerdict(t, min, Some(m)) != Rejected
    ensures MetricVerdict(t, min, Some(m)).Failed? ==> Offends(t, min, m, MetricVerdict(t, min, Some(m)).error)
  {
    LabelsVerdictIsTrue(m.labels);
  }

  /** The error of a refused family is true of its first sample that is not accepted. */
  lemma {:induction false} VerdictIsTrue(t: MetricType, min: int, ms: seq<Option<Metric>>) returns (i: nat)
    requires t != GAUGE_HISTOGRAM && MetricsVerdict(t, min, ms) != Accepted
    ensures i < |ms| && ms[i].Some? && MetricsVerdict(t, min, ms).Failed?
    ensures Offends(t, min, ms[i].value, MetricsVerdict(t, min, ms).error)
    ensures forall j | 0 <= j < i :: MetricVerdict(t, min, ms[j]) == Accepted
  {
    if MetricVerdict(t, min, ms[0]) != Accepted {
      MetricVerdictIsTrue(t, min, ms[0].value);
      i := 0;
    } else {
      var k := VerdictIsTrue(t, min, ms[1..]);
      i := k + 1;
    }
  }

  // ---- timestamp order -------------------------------------------------------------------------

  /** `MetricsByTimestamp.Less`. */
  predicate Less(a: Option<Metric>, b: Option<Metric>) {
    if a.None? then b.Some?
    else if b.None? then false
    else if a.value.timestampMs.None? then b.value.timestampMs.Some?
    else if b.value.timestampMs.None? then false
    else a.value.timestampMs.value < b.value.timestampMs.value
  }

  predicate InOrder(ms: seq<Option<Metric>>) {
    forall i, j | 0 <= i < j < |ms| :: !Less(ms[j], ms[i])
  }

  /** What any sort by `Less` guarantees. */
  ghost predicate SortOf(before: seq<Option<Metric>>, after: seq<Option<Metric>>) {
    multiset(after) == multiset(before) && InOrder(after)
  }

  // ---- the family object -----------------------------------------------------------------------

  class MetricFamily {
    const Name: Option<string>
    const Type: Option<MetricType>
    var Metric: seq<Option<Metric>>

    constructor (name: Option<string>, typ: Option<MetricType>, metrics: seq<Option<Metric>>)
      ensures Name == name && Type == typ && Metric == metrics
    {
      Name, Type, Metric := name, typ, metrics;
    }
  }

  /** The label loop of the dropping transformer: invalid labels become holes, and holes are packed away. */
  method CleanLabels(labels: seq<Option<LabelPair>>) returns (r: seq<Option<LabelPair>>)
    requires forall j | 0 <= j < |labels| :: labels[j].Some?
    ensures r == Kept(labels, IsValidLabel)
  {
    var slice := new Option<LabelPair>[|labels|](i requires 0 <= i < |labels| => labels[i]);
    var packLabels := false;
    for j := 0 to |labels|
      invariant forall m | j <= m < |labels| :: slice[m] == labels[m]
      invariant forall m | 0 <= m < j :: slice[m] == if IsValidLabel(labels[m]) then labels[m] else None
      invariant !packLabels ==> forall m | 0 <= m < j :: IsValidLabel(labels[m])
    {
      var pair := labels[j].value;
      if pair.name.None? || |pair.name.value| == 0 || |pair.name.value| > 255 {
        slice[j] := None;
        packLabels := true;
      }
      if pair.value.None? || |pair.value.value| > 255 {
        slice[j] := None;
        packLabels := true;
      }
    }
    PunchedIsKept(labels, slice[..], IsValidLabel);
    if packLabels {
      var n, probes := PackLabels(slice);
      r := slice[..n];
    } else {
      AllKept(labels, IsValidLabel);
      r := labels;
    }
  }

  /** Punching holes and packing them is filtering. */
  lemma {:induction false} PunchedIsKept<T>(s: seq<Option<T>>, p: seq<Option<T>>, keep: Option<T> -> bool)
    requires |p| == |s| && forall x | keep(x) :: x.Some?
    requires forall i | 0 <= i < |s| :: p[i] == if keep(s[i]) then s[i] else None
    ensures Kept(p, IsSome) == Kept(s, keep)
  {
    if s != [] { PunchedIsKept(s[..|s| - 1], p[..|s| - 1], keep); }
  }

  lemma {:induction false} AllKept<T>(s: seq<T>, keep: T -> bool)
    requires forall i | 0 <= i < |s| :: keep(s[i])
    ensures Kept(s, keep) == s
  {
    if s != [] {
      AllKept(s[..|s| - 1], keep);
      assert s == s[..|s| - 1] + [s[|s| - 1]];
    }
  }

  /** `dropInvalidFederateSamples.Transform`. */
  method DropInvalid(family: MetricFamily, min: int) returns (o: Outcome)
    requires LabelsNotNil(family.Metric)
    modifies family
    ensures o == if HeaderOk(family.Name, family.Type) then Accepted else Rejected
    ensures family.Metric
            == if o == Accepted then DropAll(family.Type.value, min, old(family.Metric)) else old(family.Metric)
  {
    var name := GetName(family.Name);
    if |name| == 0 { return Rejected; }
    if |name| > 255 { return Rejected; }
    if family.Type == None { return Rejected; }
    var t := family.Type.value;
    if t == GAUGE_HISTOGRAM { return Rejected; }
    ghost var was := family.Metric;
    for i := 0 to |family.Metric|
      invariant |family.Metric| == |was|
      invariant forall m | 0 <= m < i :: family.Metric[m] == DropOne(t, min, was[m])
      invariant forall m | i <= m < |was| :: family.Metric[m] == was[m]
    {
      if family.Metric[i] == None {
        continue;
      }
      var m := family.Metric[i].value;
      var labels := CleanLabels(m.labels);
      m := m.(labels := labels);
      if m.timestampMs == None || m.timestampMs.value < min || !FieldsMatch(t, m) {
        family.Metric := family.Metric[i := None];
      } else {
        family.Metric := family.Metric[i := Some(m)];
      }
    }
    o := Accepted;
  }

  /** `errorInvalidFederateSamples.Transform`: the first offence decides. */
  method ErrorInvalid(family: MetricFamily, min: int) returns (o: Outcome)
    requires LabelsNotNil(family.Metric)
    ensures o == Verdict(family.Name, family.Type, min, family.Metric)
  {
    var name := GetName(family.Name);
    if |name| == 0 { return Rejected; }
    if |name| > 255 { return Failed(NameTooLong); }
    if family.Type == None { return Rejected; }
    var t := family.Type.value;
    if t == GAUGE_HISTOGRAM { return Failed(UnknownType); }
    var ms := family.Metric;
    for i := 0 to |ms|
      invariant MetricsVerdict(t, min, ms) == MetricsVerdict(t, min, ms[i..])
    {
      assert ms[i..][1..] == ms[i + 1..];
      if ms[i] == None {
        continue;
      }
      var m := ms[i].value;
      for j := 0 to |m.labels|
        invariant LabelsVerdict(m.labels) == LabelsVerdict(m.labels[j..])
      {
        assert m.labels[j..][1..] == m.labels[j + 1..];
        var l := m.labels[j].value;
        if l.name.None? || |l.name.value| == 0 || |l.name.value| > 255 {
          return Failed(BadLabelName);
        }
        if l.value.None? || |l.value.value| > 255 {
          return Failed(BadLabelValue);
        }
      }
      if m.timestampMs == None { return Failed(NoTimestamp); }
      if m.timestampMs.value < min { return Failed(TimestampTooOld); }
      if !FieldsMatch(t, m) { return Failed(WrongField); }
    }
    o := Accepted;
  }

  /** `PackMetrics`: a family left without metrics is rejected. */
  method PackMetrics(family: MetricFamily) returns (o: Outcome)
    modifies family
    ensures family.Metric == Kept(old(family.Metric), IsSome)
    ensures o == if family.Metric == [] then Rejected else Accepted
  {
    var ms := family.Metric;
    var slice := new Option<Metric>[|ms|](i requires 0 <= i < |ms| => ms[i]);
    assert slice[..] == ms;
    var n, probes := PackMetricSlice(slice);
    family.Metric := slice[..n];
    o := if |family.Metric| > 0 then Accepted else Rejected;
  }

  function Swapped<T>(s: seq<T>, j: nat): (r: seq<T>)
    requires 0 < j < |s|
    ensures |r| == |s|
    ensures multiset(r) == multiset(s)
  {
    assert s == s[..j - 1] + [s[j - 1], s[j]] + s[j + 1..];
    s[..j - 1] + [s[j], s[j - 1]] + s[j + 1..]
  }

  /** The first `i + 1` are in order but for the one at `j`, which is smaller than all behind it. */
  ghost predicate Inserting(ms: seq<Option<Metric>>, i: nat, j: nat)
    requires j <= i < |ms|
  {
    && (forall a, b | 0 <= a < b <= i && a != j && b != j :: !Less(ms[b], ms[a]))
    && (forall b | j < b <= i :: Less(ms[j], ms[b]))
  }

  lemma SwapInserts(ms: seq<Option<Metric>>, i: nat, j: nat)
    requires 0 < j <= i < |ms| && Inserting(ms, i, j) && Less(ms[j], ms[j - 1])
    ensures Inserting(Swapped(ms, j), i, j - 1)
  {
    var r := Swapped(ms, j);
    assert forall a | 0 <= a < |ms| :: r[a] == if a == j then ms[j - 1] else if a == j - 1 then ms[j] else ms[a];
  }

  lemma Inserted(ms: seq<Option<Metric>>, i: nat, j: nat)
    requires j <= i < |ms| && Inserting(ms, i, j) && (j > 0 ==> !Less(ms[j], ms[j - 1]))
    ensures InOrder(ms[..i + 1])
  {
    forall a | 0 <= a < j
      ensures !Less(ms[j], ms[a])
    {
      if a < j - 1 { assert !Less(ms[j - 1], ms[a]); }
    }
  }

  /** `SortMetrics`; the library's sort is represented by insertion with neighbour swaps. */
  method SortMetrics(family: MetricFamily) returns (o: Outcome)
    modifies family
    ensures SortOf(old(family.Metric), family.Metric)
    ensures o == Accepted
  {
    var ms := family.Metric;
    for i := 0 to |ms|
      invariant |ms| == |old(family.Metric)|
      invariant multiset(ms) == multiset(old(family.Metric))
      invariant InOrder(ms[..i])
    {
      var j := i;
      assert forall a | 0 <= a < i :: ms[a] == ms[..i][a];
      while j > 0 && Less(ms[j], ms[j - 1])
        invariant 0 <= j <= i < |ms| == |old(family.Metric)|
        invariant multiset(ms) == multiset(old(family.Metric))
        invariant Inserting(ms, i, j)
      {
        SwapInserts(ms, i, j);
        ms := Swapped(ms, j);
        j := j - 1;
      }
      Inserted(ms, i, j);
    }
    assert ms[..|ms|] == ms;
    family.Metric := ms;
    o := Accepted;
  }

  // ---- the stages in a row ---------------------------------------------------------------------

  datatype Stage = DropInvalidStage(min: int) | PackMetricsStage | SortMetricsStage | ErrorInvalidStage(min: int)

  /** A family as a value. */
  datatype Scrape = Scrape(name: Option<string>, typ: Option<MetricType>, metrics: seq<Option<Metric>>)

  ghost predicate StageStep(st: Stage, before: Scrape, after: Scrape, o: Outcome) {
    && after.name == before.name && after.typ == before.typ
    && match st
       case DropInvalidStage(min) =>
         && o == (if HeaderOk(before.name, before.typ) then Accepted else Rejected)
         && after.metrics == if o == Accepted then DropAll(before.typ.value, min, before.metrics) else before.metrics
       case PackMetricsStage =>
         && after.metrics == Kept(before.metrics, IsSome)
         && o == if after.metrics == [] then Rejected else Accepted
       case SortMetricsStage => SortOf(before.metrics, after.metrics) && o == Accepted
       case ErrorInvalidStage(min) =>
         after.metrics == before.metrics && o == Verdict(before.name, before.typ, min, before.metrics)
  }

  /** The stages run in order until one does not accept. */
  ghost predicate Runs(stages: seq<Stage>, before: Scrape, after: Scrape, o: Outcome)
    decreases |stages|
  {
    if stages == [] then after == before && o == Accepted
    else exists mid, first: Outcome ::
           StageStep(stages[0], before, mid, first)
           && if first == Accepted then Runs(stages[1..], mid, after, o) else after == mid && o == first
  }

  ghost function ScrapeOf(f: MetricFamily): Scrape
    reads f
  {
    Scrape(f.Name, f.Type, f.Metric)
  }

  method Apply(st: Stage, family: MetricFamily) returns (o: Outcome)
    requires LabelsNotNil(family.Metric)
    modifies family
    ensures StageStep(st, old(ScrapeOf(family)), ScrapeOf(family), o)
  {
    match st
    case DropInvalidStage(min) => o := DropInvalid(family, min);
    case PackMetricsStage => o := PackMetrics(family);
    case SortMetricsStage => o := SortMetrics(family);
    case ErrorInvalidStage(min) => o := ErrorInvalid(family, min);
  }

  lemma {:induction false} KeptLabelsNotNil(ms: seq<Option<Metric>>, keep: Option<Metric> -> bool)
    requires LabelsNotNil(ms)
    ensures LabelsNotNil(Kept(ms, keep))
  {
    if ms != [] { KeptLabelsNotNil(ms[..|ms| - 1], keep); }
  }

  lemma StageKeepsLabelsNotNil(st: Stage, before: Scrape, after: Scrape, o: Outcome)
    requires StageStep(st, before, after, o) && LabelsNotNil(before.metrics)
    ensures LabelsNotNil(after.metrics)
  {
    match st
    case DropInvalidStage(min) =>
      if o == Accepted {
        forall i | 0 <= i < |after.metrics| ensures NoNilLabel(after.metrics[i]) {
          DroppedHasNoNilLabel(before.typ.value, min, before.metrics[i]);
        }
      }
    case PackMetricsStage => KeptLabelsNotNil(before.metrics, IsSome);
    case SortMetricsStage =>
      forall i | 0 <= i < |after.metrics| ensures NoNilLabel(after.metrics[i]) {
        assert after.metrics[i] in multiset(after.metrics);
        assert after.metrics[i] in before.metrics;
      }
    case ErrorInvalidStage(_) =>
  }

  lemma DroppedHasNoNilLabel(t: MetricType, min: int, m: Option<Metric>)
    requires t != GAUGE_HISTOGRAM
    ensures NoNilLabel(DropOne(t, min, m))
  {
    if m.Some? {
      KeptMeans(m.value.labels, IsValidLabel);
      var ls := Kept(m.value.labels, IsValidLabel);
      assert forall j | 0 <= j < |ls| :: ls[j] in ls && IsValidLabel(ls[j]);
    }
  }

  class MultiTransformer {
    var transformers: seq<Stage>
    /** What the builder functions build. */
    var builderFuncs: seq<Stage>

    constructor ()
      ensures transformers == [] && builderFuncs == []
    {
      transformers, builderFuncs := [], [];
    }

    method With(t: Stage)
      modifies this
      ensures transformers == old(transformers) + [t] && builderFuncs == old(builderFuncs)
    {
      transformers := transformers + [t];
    }

    method WithFunc(t: Stage)
      modifies this
      ensures builderFuncs == old(builderFuncs) + [t] && transformers == old(transformers)
    {
      builderFuncs := builderFuncs + [t];
    }

    /** `Transform`: built stages first, then the fixed ones, stopping at the first that does not accept. */
    method Transform(family: MetricFamily) returns (o: Outcome)
      requires LabelsNotNil(family.Metric) && family as object != this
      modifies family
      ensures Runs(builderFuncs + transformers, old(ScrapeOf(family)), ScrapeOf(family), o)
    {
      var ts := builderFuncs + transformers;
      ghost var start := ScrapeOf(family);
      for i := 0 to |ts|
        invariant LabelsNotNil(family.Metric)
        invariant forall after, last :: Runs(ts[i..], ScrapeOf(family), after, last) ==> Runs(ts, start, after, last)
      {
        ghost var before := ScrapeOf(family);
        o := Apply(ts[i], family);
        StageKeepsLabelsNotNil(ts[i], before, ScrapeOf(family), o);
        assert ts[i..][0] == ts[i] && ts[i..][1..] == ts[i + 1..];
        if o != Accepted {
          assert Runs(ts[i..], before, ScrapeOf(family), o);
          return;
        }
        forall after, last | Runs(ts[i + 1..], ScrapeOf(family), after, last)
          ensures Runs(ts, start, after, last)
        {
          assert Runs(ts[i..], before, after, last);
        }
      }
      assert ts[|ts|..] == [];
      assert Runs([], ScrapeOf(family), ScrapeOf(family), Accepted);
      o := Accepted;
    }
  }

  // ---- the federate pipeline -------------------------------------------------------------------

  /** The samples that pass the timestamp and type checks, cleaned of invalid labels, in order. */
  function Survivors(t: MetricType, min: int, ms: seq<Option<Metric>>): seq<Option<Metric>>
    requires t != GAUGE_HISTOGRAM
  {
    if ms == [] then []
    else
      var m := ms[|ms| - 1];
      var before := Survivors(t, min, ms[..|ms| - 1]);
      if m.Some? && TimestampOk(min, m.value) && FieldsMatch(t, m.value) then before + [Some(Cleaned(m.value))]
      else before
  }

  lemma {:induction false} DroppedAndPacked(t: MetricType, min: int, ms: seq<Option<Metric>>)
    requires t != GAUGE_HISTOGRAM
    ensures Kept(DropAll(t, min, ms), IsSome) == Survivors(t, min, ms)
  {
    if ms != [] {
      DroppedAndPacked(t, min, ms[..|ms| - 1]);
      assert DropAll(t, min, ms)[..|ms| - 1] == DropAll(t, min, ms[..|ms| - 1]);
    }
  }

  lemma {:induction false} SurvivorsAreValid(t: MetricType, min: int, ms: seq<Option<Metric>>)
    requires t != GAUGE_HISTOGRAM
    ensures forall m | m in Survivors(t, min, ms) ::
              m.Some? && TimestampOk(min, m.value) && FieldsMatch(t, m.value)
              && forall j | 0 <= j < |m.value.labels| :: IsValidLabel(m.value.labels[j])
  {
    if ms != [] {
      SurvivorsAreValid(t, min, ms[..|ms| - 1]);
      var m := ms[|ms| - 1];
      if m.Some? { KeptMeans(m.value.labels, IsValidLabel); }
    }
  }

  /** A sample fits a type exactly if of the five messages it carries the one of that type and no other. */
  lemma FieldsMatchExactly(t: MetricType, m: Metric)
    requires t != GAUGE_HISTOGRAM
    ensures FieldsMatch(t, m) <==>
              && (Counter in m.fields <==> t == COUNTER) && (Gauge in m.fields <==> t == GAUGE)
              && (Summary in m.fields <==> t == SUMMARY) && (Untyped in m.fields <==> t == UNTYPED)
              && (Histogram in m.fields <==> t == HISTOGRAM)
  {
    if (Counter in m.fields <==> t == COUNTER) && (Gauge in m.fields <==> t == GAUGE)
       && (Summary in m.fields <==> t == SUMMARY) && (Untyped in m.fields <==> t == UNTYPED)
       && (Histogram in m.fields <==> t == HISTOGRAM)
    {
      forall f ensures f in m.fields.Keys <==> f == FieldOf(t) {
        match f {
          case Counter => case Gauge => case Summary => case Untyped => case Histogram =>
        }
      }
    }
    if FieldsMatch(t, m) {
      assert forall f :: f in m.fields.Keys <==> f in {FieldOf(t)};
    }
  }

  /** Cleaning keeps the very labels the strict check would accept, and all else of the sample. */
  lemma CleanedExactly(m: Metric, l: Option<LabelPair>)
    ensures multiset(Cleaned(m).labels)[l]
         == if l.Some? && LabelVerdict(l) == Accepted then multiset(m.labels)[l] else 0
    ensures Cleaned(m).timestampMs == m.timestampMs && Cleaned(m).fields == m.fields
  {
    KeptMeans(m.labels, IsValidLabel);
    if !IsValidLabel(l) { assert l !in Cleaned(m).labels; }
  }

  /** The strict check accepts the sample, once its invalid labels are gone. */
  function StrictlyOk(t: MetricType, min: int): Option<Metric> -> bool
    requires t != GAUGE_HISTOGRAM
  {
    (m: Option<Metric>) => m.Some? && MetricVerdict(t, min, Some(Cleaned(m.value))) == Accepted
  }

  lemma StrictlyOkMeans(t: MetricType, min: int, m: Metric)
    requires t != GAUGE_HISTOGRAM
    ensures StrictlyOk(t, min)(Some(m)) <==> TimestampOk(min, m) && FieldsMatch(t, m)
  {
    CleanedLabelsPass(m);
    assert Cleaned(m).fields == m.fields && Cleaned(m).timestampMs == m.timestampMs;
  }

  lemma CleanedLabelsPass(m: Metric)
    ensures LabelsVerdict(Cleaned(m).labels) == Accepted
  {
    var ls := Cleaned(m).labels;
    KeptMeans(m.labels, IsValidLabel);
    forall j | 0 <= j < |ls| ensures ls[j].Some? && ValidLabel(ls[j].value) { assert ls[j] in ls; }
    LabelsVerdictAccepts(ls);
  }

  /** What the lenient stages leave is what the strict check would let through, sample by sample, in order. */
  lemma {:induction false} SurvivesExactly(t: MetricType, min: int, ms: seq<Option<Metric>>)
    requires t != GAUGE_HISTOGRAM
    ensures var kept, left := Kept(ms, StrictlyOk(t, min)), Survivors(t, min, ms);
            |left| == |kept| && forall i | 0 <= i < |left| :: kept[i].Some? && left[i] == Some(Cleaned(kept[i].value))
  {
    if ms != [] {
      SurvivesExactly(t, min, ms[..|ms| - 1]);
      if ms[|ms| - 1].Some? { StrictlyOkMeans(t, min, ms[|ms| - 1].value); }
    }
  }

  /** A family that gets through dropping, packing and sorting is nil-free, in timestamp order, holds exactly the
      samples passing the checks with only invalid labels removed, and passes the strict check with the
      same bound; it gets through exactly when its header is good and some sample passes. */
  lemma FederatePipeline(min: int, before: Scrape, after: Scrape, o: Outcome)
    requires Runs([DropInvalidStage(min), PackMetricsStage, SortMetricsStage], before, after, o)
    ensures o == Accepted <==>
            HeaderOk(before.name, before.typ) && Survivors(before.typ.value, min, before.metrics) != []
    ensures after.name == before.name && after.typ == before.typ
    ensures o == Accepted ==>
              && multiset(after.metrics) == multiset(Survivors(before.typ.value, min, before.metrics))
              && (forall i | 0 <= i < |after.metrics| ::
                  after.metrics[i].Some? && after.metrics[i].value.timestampMs.Some?)
              && (forall i, j | 0 <= i < j < |after.metrics| ::
                    after.metrics[i].value.timestampMs.value <= after.metrics[j].value.timestampMs.value)
              && Verdict(after.name, after.typ, min, after.metrics) == Accepted
  {
    var stages := [DropInvalidStage(min), PackMetricsStage, SortMetricsStage];
    var dropped, o1 :| StageStep(stages[0], before, dropped, o1)
      && if o1 == Accepted then Runs(stages[1..], dropped, after, o) else after == dropped && o == o1;
    if HeaderOk(before.name, before.typ) {
      var t := before.typ.value;
      var packed, o2 :| StageStep(stages[1..][0], dropped, packed, o2)
        && if o2 == Accepted then Runs(stages[1..][1..], packed, after, o) else after == packed && o == o2;
      DroppedAndPacked(t, min, before.metrics);
      assert packed.metrics == Survivors(t, min, before.metrics);
      if o2 == Accepted {
        var sorted, o3 :| StageStep(stages[1..][1..][0], packed, sorted, o3)
          && if o3 == Accepted then Runs(stages[1..][1..][1..], sorted, after, o) else after == sorted && o == o3;
        assert after == sorted;
        SurvivorsAreValid(t, min, before.metrics);
        SortedSurvivorsPass(t, min, packed, after);
      }
    }
  }

  lemma SortedSurvivorsPass(t: MetricType, min: int, packed: Scrape, sorted: Scrape)
    requires t != GAUGE_HISTOGRAM && HeaderOk(packed.name, packed.typ) && packed.typ == Some(t)
    requires sorted.name == packed.name && sorted.typ == packed.typ && SortOf(packed.metrics, sorted.metrics)
    requires forall m | m in packed.metrics ::
               m.Some? && TimestampOk(min, m.value) && FieldsMatch(t, m.value)
               && forall j | 0 <= j < |m.value.labels| :: IsValidLabel(m.value.labels[j])
    ensures forall i | 0 <= i < |sorted.metrics| :: sorted.metrics[i].Some? && sorted.metrics[i].value.timestampMs.Some?
    ensures forall i, j | 0 <= i < j < |sorted.metrics| ::
              sorted.metrics[i].value.timestampMs.value <= sorted.metrics[j].value.timestampMs.value
    ensures Verdict(sorted.name, sorted.typ, min, sorted.metrics) == Accepted
  {
    var ms := sorted.metrics;
    forall i | 0 <= i < |ms| ensures ms[i] in packed.metrics {
      assert ms[i] in multiset(ms);
      assert ms[i] in multiset(packed.metrics);
    }
    forall i, j | 0 <= i < j < |ms| ensures ms[i].value.timestampMs.value <= ms[j].value.timestampMs.value {
      assert !Less(ms[j], ms[i]);
    }
    VerdictAcceptsExactly(sorted.name, sorted.typ, min, ms);
  }

  /** The order of a `MultiTransformer` set up with the dropping stage as a builder and packing and sorting as
      fixed stages is the order of the pipeline, whatever order they were registered in. */
  method FederateFamily(family: MetricFamily, min: int) returns (o: Outcome)
    requires LabelsNotNil(family.Metric)
    modifies family
    ensures o == Accepted <==>
            HeaderOk(family.Name, family.Type) && Survivors(family.Type.value, min, old(family.Metric)) != []
    ensures o == Accepted ==>
              && multiset(family.Metric) == multiset(Survivors(family.Type.value, min, old(family.Metric)))
              && Verdict(family.Name, family.Type, min, family.Metric) == Accepted
  {
    var t := new MultiTransformer();
    t.With(PackMetricsStage);
    t.With(SortMetricsStage);
    t.WithFunc(DropInvalidStage(min));
    assert t.builderFuncs + t.transformers == [DropInvalidStage(min), PackMetricsStage, SortMetricsStage];
    ghost var before := ScrapeOf(family);
    o := t.Transform(family);
    FederatePipeline(min, before, ScrapeOf(family), o);
  }
}
