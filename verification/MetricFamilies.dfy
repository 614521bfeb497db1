/** Metric families as the collector handles them; a nil pointer is `None`. */
module MetricFamilies {
  import opened Wrappers
  import opened Compaction

  datatype MetricType = COUNTER | GAUGE | SUMMARY | UNTYPED | HISTOGRAM | GAUGE_HISTOGRAM

  /** The messages a metric may carry, one per basic type. */
  datatype Field = Counter | Gauge | Summary | Untyped | Histogram

  datatype LabelPair = LabelPair(name: Option<string>, value: Option<string>)

  /** Of the messages, the ones that are not nil; each has a value of its own, which may be missing. */
  datatype Metric = Metric(labels: seq<Option<LabelPair>>, timestampMs: Option<int>, fields: map<Field, Option<string>>)

  predicate IsSome<T>(x: Option<T>) {
    x.Some?
  }

  /** `PackLabels`. */
  method PackLabels(labels: array<Option<LabelPair>>) returns (n: nat, probes: nat)
    modifies labels
    ensures n <= labels.Length && probes <= labels.Length
    ensures labels[..n] == Kept(old(labels[..]), IsSome)
  {
    n, probes := Compact(labels, IsSome, None);
  }

  /** The loop of `PackMetrics`. */
  method PackMetricSlice(metrics: array<Option<Metric>>) returns (n: nat, probes: nat)
    modifies metrics
    ensures n <= metrics.Length && probes <= metrics.Length
    ensures metrics[..n] == Kept(old(metrics[..]), IsSome)
  {
    n, probes := Compact(metrics, IsSome, None);
  }

  // ---- families of one scrape -------------------------------------------------------------------

  /** A family without nil metrics. */
  datatype Family = Family(name: string, metrics: seq<Metric>)

  predicate HasMetrics(f: Option<Family>) {
    f.Some? && |f.value.metrics| > 0
  }

  /** `Pack`: families that are nil or have no metrics go. */
  method Pack(families: array<Option<Family>>) returns (n: nat, probes: nat)
    modifies families
    ensures n <= families.Length && probes <= families.Length
    ensures families[..n] == Kept(old(families[..]), HasMetrics)
  {
    n, probes := Compact(families, HasMetrics, None);
  }
}
