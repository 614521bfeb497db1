/** `MergeSortedWithTimestamps`: neighbouring families of one name are merged by timestamp. */
module MetricMerge {
  import opened Wrappers
  import opened Compaction
  import opened MetricFamilies
  import S = Sorted

  function Timestamp(m: Metric): int
    requires m.timestampMs.Some?
  {
    m.timestampMs.value
  }

  predicate Timed(ms: seq<Metric>) {
    forall i | 0 <= i < |ms| :: ms[i].timestampMs.Some?
  }

  predicate Sorted(ms: seq<Metric>)
    requires Timed(ms)
  {
    forall i, j | 0 <= i < j < |ms| :: Timestamp(ms[i]) <= Timestamp(ms[j])
  }

  /** What the merge demands of a family. */
  predicate Mergeable(f: Family) {
    f.metrics != [] && Timed(f.metrics) && Sorted(f.metrics)
  }

  /** Stable merge of two runs: on equal timestamps the left one goes first. */
  function MergeRuns(xs: seq<Metric>, ys: seq<Metric>): (r: seq<Metric>)
    requires Timed(xs) && Timed(ys)
    ensures Timed(r) && |r| == |xs| + |ys|
    decreases |xs| + |ys|
  {
    if xs == [] then ys
    else if ys == [] then xs
    else if Timestamp(xs[0]) <= Timestamp(ys[0]) then [xs[0]] + MergeRuns(xs[1..], ys)
    else [ys[0]] + MergeRuns(xs, ys[1..])
  }

  lemma {:induction false} MergeConservesMetrics(xs: seq<Metric>, ys: seq<Metric>)
    requires Timed(xs) && Timed(ys)
    ensures multiset(MergeRuns(xs, ys)) == multiset(xs) + multiset(ys)
    decreases |xs| + |ys|
  {
    if xs != [] && ys != [] {
      assert xs == [xs[0]] + xs[1..] && ys == [ys[0]] + ys[1..];
      if Timestamp(xs[0]) <= Timestamp(ys[0]) { MergeConservesMetrics(xs[1..], ys); }
      else { MergeConservesMetrics(xs, ys[1..]); }
    }
  }

  lemma MergeIsNotEarlier(xs: seq<Metric>, ys: seq<Metric>, first: int)
    requires Timed(xs) && Timed(ys)
    requires forall i | 0 <= i < |xs| :: first <= Timestamp(xs[i])
    requires forall i | 0 <= i < |ys| :: first <= Timestamp(ys[i])
    ensures forall i | 0 <= i < |MergeRuns(xs, ys)| :: first <= Timestamp(MergeRuns(xs, ys)[i])
  {
    var merged := MergeRuns(xs, ys);
    MergeConservesMetrics(xs, ys);
    forall i | 0 <= i < |merged| ensures first <= Timestamp(merged[i]) {
      assert merged[i] in multiset(merged);
      if merged[i] in multiset(xs) { assert merged[i] in xs; } else { assert merged[i] in ys; }
    }
  }

  lemma {:induction false} MergeSorts(xs: seq<Metric>, ys: seq<Metric>)
    requires Timed(xs) && Timed(ys) && Sorted(xs) && Sorted(ys)
    ensures Sorted(MergeRuns(xs, ys))
    decreases |xs| + |ys|
  {
    if xs != [] && ys != [] {
      if Timestamp(xs[0]) <= Timestamp(ys[0]) {
        MergeSorts(xs[1..], ys);
        MergeIsNotEarlier(xs[1..], ys, Timestamp(xs[0]));
      } else {
        MergeSorts(xs, ys[1..]);
        MergeIsNotEarlier(xs, ys[1..], Timestamp(ys[0]));
      }
    }
  }

  /** The metrics of one timestamp, in order. */
  function At(ms: seq<Metric>, time: int): seq<Metric> {
    if ms == [] then []
    else if ms[0].timestampMs == Some(time) then [ms[0]] + At(ms[1..], time)
    else At(ms[1..], time)
  }

  lemma {:induction false} AtIsLater(ms: seq<Metric>, time: int)
    requires Timed(ms) && forall i | 0 <= i < |ms| :: time < Timestamp(ms[i])
    ensures At(ms, time) == []
  {
    if ms != [] { AtIsLater(ms[1..], time); }
  }

  /** Taking the head of a run takes it from its timestamp. */
  lemma AtHead(head: Metric, rest: seq<Metric>, time: int)
    ensures At([head] + rest, time) == (if head.timestampMs == Some(time) then [head] else []) + At(rest, time)
  {
    assert ([head] + rest)[1..] == rest;
  }

  lemma StablePush(x: Metric, rest: seq<Metric>, merged: seq<Metric>, right: seq<Metric>, time: int)
    requires At(merged, time) == At(rest, time) + right
    ensures At([x] + merged, time) == At([x] + rest, time) + right
  {
    AtHead(x, rest, time);
    AtHead(x, merged, time);
  }

  lemma StableFromLeft(xs: seq<Metric>, ys: seq<Metric>, time: int)
    requires xs != [] && ys != [] && Timed(xs) && Timed(ys) && Timestamp(xs[0]) <= Timestamp(ys[0])
    requires At(MergeRuns(xs[1..], ys), time) == At(xs[1..], time) + At(ys, time)
    ensures At(MergeRuns(xs, ys), time) == At(xs, time) + At(ys, time)
  {
    StablePush(xs[0], xs[1..], MergeRuns(xs[1..], ys), At(ys, time), time);
    assert xs == [xs[0]] + xs[1..];
    assert MergeRuns(xs, ys) == [xs[0]] + MergeRuns(xs[1..], ys);
  }

  lemma StableFromRight(xs: seq<Metric>, ys: seq<Metric>, time: int)
    requires xs != [] && ys != [] && Timed(xs) && Timed(ys) && Sorted(xs) && Timestamp(xs[0]) > Timestamp(ys[0])
    requires At(MergeRuns(xs, ys[1..]), time) == At(xs, time) + At(ys[1..], time)
    ensures At(MergeRuns(xs, ys), time) == At(xs, time) + At(ys, time)
  {
    var y, rest, merged := ys[0], ys[1..], MergeRuns(xs, ys[1..]);
    assert ys == [y] + rest && MergeRuns(xs, ys) == [y] + merged;
    AtHead(y, rest, time);
    AtHead(y, merged, time);
    if y.timestampMs == Some(time) { AtIsLater(xs, time); }
  }

  /** The merge is stable: of the metrics with one timestamp, those of the left run come first, and each run keeps its
      order. */
  lemma {:induction false} MergeIsStable(xs: seq<Metric>, ys: seq<Metric>, time: int)
    requires Timed(xs) && Timed(ys) && Sorted(xs) && Sorted(ys)
    ensures At(MergeRuns(xs, ys), time) == At(xs, time) + At(ys, time)
    decreases |xs| + |ys|
  {
    if xs != [] && ys != [] {
      if Timestamp(xs[0]) <= Timestamp(ys[0]) {
        MergeIsStable(xs[1..], ys, time);
        StableFromLeft(xs, ys, time);
      } else {
        MergeIsStable(xs, ys[1..], time);
        StableFromRight(xs, ys, time);
      }
    }
  }

  /** When the ranges do not overlap, appending is the merge. */
  lemma {:induction false} AppendIsMerge(xs: seq<Metric>, ys: seq<Metric>)
    requires xs != [] && ys != [] && Timed(xs) && Timed(ys) && Sorted(xs) && Sorted(ys)
    requires Timestamp(xs[|xs| - 1]) < Timestamp(ys[0])
    ensures MergeRuns(xs, ys) == xs + ys
    decreases |xs|
  {
    assert xs == [xs[0]] + xs[1..];
    if |xs| > 1 { AppendIsMerge(xs[1..], ys); }
  }

  /** Nor is prepending anything else. */
  lemma {:induction false} PrependIsMerge(xs: seq<Metric>, ys: seq<Metric>)
    requires xs != [] && ys != [] && Timed(xs) && Timed(ys) && Sorted(xs) && Sorted(ys)
    requires Timestamp(ys[|ys| - 1]) < Timestamp(xs[0])
    ensures MergeRuns(xs, ys) == ys + xs
    decreases |ys|
  {
    var rest := ys[1..];
    assert ys == [ys[0]] + rest && MergeRuns(xs, ys) == [ys[0]] + MergeRuns(xs, rest);
    if rest != [] {
      assert rest[|rest| - 1] == ys[|ys| - 1];
      PrependIsMerge(xs, rest);
    }
  }

  predicate AllMergeable(fs: seq<Family>) {
    forall i | 0 <= i < |fs| :: Mergeable(fs[i])
  }

  function MergeTwo(dst: Family, src: Family): (r: Family)
    requires Mergeable(dst) && Mergeable(src)
    ensures Mergeable(r) && r.name == dst.name
  {
    MergeSorts(dst.metrics, src.metrics);
    Family(dst.name, MergeRuns(dst.metrics, src.metrics))
  }

  /** What the pass over the families amounts to.  When the name changes, the newcomer is kept but is no
      merge target: the pass starts afresh behind it. */
  function Collapse(fs: seq<Family>): (r: seq<Family>)
    requires AllMergeable(fs)
    ensures AllMergeable(r)
    decreases |fs|
  {
    if |fs| <= 1 then fs
    else
      assert Mergeable(fs[0]) && Mergeable(fs[1]);
      if fs[0].name != fs[1].name then [fs[0], fs[1]] + Collapse(fs[2..])
      else Collapse([MergeTwo(fs[0], fs[1])] + fs[2..])
  }

  // ---- the code --------------------------------------------------------------------------------

  method AppendFrom(prefix: seq<Metric>, ms: seq<Metric>, start: nat) returns (result: seq<Metric>)
    requires start <= |ms|
    ensures result == prefix + ms[start..]
  {
    result := prefix;
    for i := start to |ms|
      invariant result == prefix + ms[start..i]
    {
      result := result + [ms[i]];
    }
  }

  /** The result so far, followed by the merge of what is left, is the merge of both runs. */
  ghost predicate Zipped(result: seq<Metric>, dst: seq<Metric>, src: seq<Metric>, i: nat, j: nat)
    requires i <= |dst| && j <= |src| && Timed(dst) && Timed(src)
  {
    result + MergeRuns(dst[i..], src[j..]) == MergeRuns(dst, src)
  }

  lemma ZipTakesLeft(result: seq<Metric>, dst: seq<Metric>, src: seq<Metric>, i: nat, j: nat)
    requires i < |dst| && j < |src| && Timed(dst) && Timed(src) && Timestamp(dst[i]) <= Timestamp(src[j])
    requires Zipped(result, dst, src, i, j)
    ensures Zipped(result + [dst[i]], dst, src, i + 1, j)
  {
    assert dst[i..][1..] == dst[i + 1..];
    assert MergeRuns(dst[i..], src[j..]) == [dst[i]] + MergeRuns(dst[i + 1..], src[j..]);
  }

  lemma ZipTakesRight(result: seq<Metric>, dst: seq<Metric>, src: seq<Metric>, i: nat, j: nat)
    requires i < |dst| && j < |src| && Timed(dst) && Timed(src) && Timestamp(dst[i]) > Timestamp(src[j])
    requires Zipped(result, dst, src, i, j)
    ensures Zipped(result + [src[j]], dst, src, i, j + 1)
  {
    assert src[j..][1..] == src[j + 1..];
    assert MergeRuns(dst[i..], src[j..]) == [src[j]] + MergeRuns(dst[i..], src[j + 1..]);
  }

  lemma ZipEnds(result: seq<Metric>, dst: seq<Metric>, src: seq<Metric>, i: nat, j: nat)
    requires i <= |dst| && j <= |src| && Timed(dst) && Timed(src) && Zipped(result, dst, src, i, j)
    ensures j == |src| ==> result + dst[i..] == MergeRuns(dst, src)
    ensures i == |dst| ==> result + src[j..] == MergeRuns(dst, src)
  {
  }

  /** The `Merge:` loop. */
  method ZipMerge(dst: seq<Metric>, src: seq<Metric>) returns (result: seq<Metric>)
    requires Timed(dst) && Timed(src)
    ensures result == MergeRuns(dst, src)
  {
    var i, j := 0, 0;
    result := [];
    while true
      invariant 0 <= i <= |dst| && 0 <= j <= |src|
      invariant Zipped(result, dst, src, i, j)
      decreases |dst| - i + |src| - j
    {
      ZipEnds(result, dst, src, i, j);
      if j >= |src| {
        result := AppendFrom(result, dst, i);
        return;
      }
      if i >= |dst| {
        result := AppendFrom(result, src, j);
        return;
      }
      if Timestamp(dst[i]) <= Timestamp(src[j]) {
        ZipTakesLeft(result, dst, src, i, j);
        result := result + [dst[i]];
        i := i + 1;
      } else {
        ZipTakesRight(result, dst, src, i, j);
        result := result + [src[j]];
        j := j + 1;
      }
    }
  }

  /** One step on two families of a name: block append, block prepend, or zip. */
  method MergeInto(dst: seq<Metric>, src: seq<Metric>) returns (result: seq<Metric>)
    requires dst != [] && src != [] && Timed(dst) && Timed(src) && Sorted(dst) && Sorted(src)
    ensures result == MergeRuns(dst, src)
  {
    var dstBegin, dstEnd := Timestamp(dst[0]), Timestamp(dst[|dst| - 1]);
    var srcBegin, srcEnd := Timestamp(src[0]), Timestamp(src[|src| - 1]);
    if dstEnd < srcBegin {
      AppendIsMerge(dst, src);
      return dst + src;
    }
    if srcEnd < dstBegin {
      PrependIsMerge(dst, src);
      return src + dst;
    }
    result := ZipMerge(dst, src);
  }

  /** The families that are still there, in order. */
  function Present(s: seq<Option<Family>>): seq<Family> {
    if s == [] then []
    else if s[|s| - 1].Some? then Present(s[..|s| - 1]) + [s[|s| - 1].value]
    else Present(s[..|s| - 1])
  }

  ghost predicate Dense(s: seq<Option<Family>>) {
    forall i | 0 <= i < |s| :: s[i].Some? && Mergeable(s[i].value)
  }

  ghost function Values(s: seq<Option<Family>>): (r: seq<Family>)
    requires Dense(s)
    ensures |r| == |s| && forall i | 0 <= i < |s| :: r[i] == s[i].value
  {
    seq(|s|, i requires 0 <= i < |s| => s[i].value)
  }

  lemma PresentOneMore(s: seq<Option<Family>>, k: nat)
    requires k < |s|
    ensures Present(s[..k + 1]) == if s[k].Some? then Present(s[..k]) + [s[k].value] else Present(s[..k])
  {
    assert s[..k + 1][..k] == s[..k];
  }

  /** Positions between `d` and the end are empty, so `d` holds the last family present. */
  lemma {:induction false} PresentUpTo(s: seq<Option<Family>>, d: nat, k: nat)
    requires d < k <= |s| && s[d].Some?
    requires forall i | d < i < k :: s[i].None?
    ensures Present(s[..k]) == Present(s[..d]) + [s[d].value]
  {
    PresentOneMore(s, k - 1);
    if k > d + 1 { PresentUpTo(s, d, k - 1); }
  }

  lemma {:induction false} PresentIsKept(s: seq<Option<Family>>)
    requires forall i | 0 <= i < |s| :: s[i].Some? ==> Mergeable(s[i].value)
    ensures |Kept(s, HasMetrics)| == |Present(s)|
    ensures forall i | 0 <= i < |Present(s)| :: Kept(s, HasMetrics)[i] == Some(Present(s)[i])
  {
    if s != [] { PresentIsKept(s[..|s| - 1]); }
  }

  /** What the loop has left to do: `a` is processed, `dst` is the current merge target in it. */
  ghost function Remaining(a: seq<Option<Family>>, dst: Option<nat>, rest: seq<Family>): seq<Family>
    requires GoodTarget(a, dst) && AllMergeable(rest)
  {
    if dst.None? then Present(a) + Collapse(rest)
    else Present(a[..dst.value]) + Collapse([a[dst.value].value] + rest)
  }

  ghost predicate GoodTarget(a: seq<Option<Family>>, dst: Option<nat>) {
    && (forall i | 0 <= i < |a| :: a[i].Some? ==> Mergeable(a[i].value))
    && (dst.Some? ==> dst.value < |a| && a[dst.value].Some? && forall i | dst.value < i < |a| :: a[i].None?)
  }

  lemma StartsAtNewcomer(a: seq<Option<Family>>, rest: seq<Family>)
    requires GoodTarget(a, None) && AllMergeable(rest) && rest != []
    ensures GoodTarget(a + [Some(rest[0])], Some(|a|))
    ensures Remaining(a + [Some(rest[0])], Some(|a|), rest[1..]) == Remaining(a, None, rest)
  {
    var a' := a + [Some(rest[0])];
    assert Mergeable(rest[0]);
    assert a'[..|a|] == a;
    assert [rest[0]] + rest[1..] == rest;
  }

  lemma SkipsHead(head: Family, rest: seq<Family>)
    requires Mergeable(head) && AllMergeable(rest) && rest != [] && head.name != rest[0].name
    ensures Collapse([head] + rest) == [head, rest[0]] + Collapse(rest[1..])
  {
    var todo := [head] + rest;
    assert todo[2..] == rest[1..] && todo[1] == rest[0];
  }

  lemma PresentPush(a: seq<Option<Family>>, d: nat, f: Family)
    requires GoodTarget(a, Some(d))
    ensures Present(a + [Some(f)]) == Present(a[..d]) + [a[d].value, f]
  {
    PresentUpTo(a, d, |a|);
    assert a[..|a|] == a && (a + [Some(f)])[..|a|] == a;
  }

  lemma StillGood(a: seq<Option<Family>>, d: Option<nat>, f: Family)
    requires GoodTarget(a, d) && Mergeable(f)
    ensures GoodTarget(a + [Some(f)], None)
  {
  }

  lemma SkipsOtherName(a: seq<Option<Family>>, d: nat, rest: seq<Family>)
    requires GoodTarget(a, Some(d)) && AllMergeable(rest) && rest != []
    requires a[d].value.name != rest[0].name
    ensures GoodTarget(a + [Some(rest[0])], None)
    ensures Remaining(a + [Some(rest[0])], None, rest[1..]) == Remaining(a, Some(d), rest)
  {
    assert Mergeable(rest[0]);
    StillGood(a, Some(d), rest[0]);
    SkipsHead(a[d].value, rest);
    PresentPush(a, d, rest[0]);
  }

  lemma MergesSameName(a: seq<Option<Family>>, d: nat, rest: seq<Family>)
    requires GoodTarget(a, Some(d)) && AllMergeable(rest) && rest != []
    requires a[d].value.name == rest[0].name
    ensures Mergeable(rest[0])
    ensures var a' := a[d := Some(MergeTwo(a[d].value, rest[0]))] + [None];
            GoodTarget(a', Some(d)) && Remaining(a', Some(d), rest[1..]) == Remaining(a, Some(d), rest)
  {
    assert Mergeable(rest[0]);
    var a' := a[d := Some(MergeTwo(a[d].value, rest[0]))] + [None];
    assert a'[..d] == a[..d];
    var todo := [a[d].value] + rest;
    assert todo[2..] == rest[1..] && todo[1] == rest[0];
  }

  lemma NothingRemains(a: seq<Option<Family>>, dst: Option<nat>)
    requires GoodTarget(a, dst)
    ensures Remaining(a, dst, []) == Present(a)
  {
    if dst.Some? {
      PresentUpTo(a, dst.value, |a|);
      assert a[..|a|] == a;
      assert [a[dst.value].value] + [] == [a[dst.value].value];
    }
  }

  /** The body of the loop of `MergeSortedWithTimestamps`. */
  method MergeStep(families: array<Option<Family>>, pos: nat, dst0: Option<nat>, ghost was: seq<Family>)
    returns (dst: Option<nat>)
    requires pos < families.Length == |was| && AllMergeable(was)
    requires forall i | pos <= i < families.Length :: families[i] == Some(was[i])
    requires GoodTarget(families[..pos], dst0)
    modifies families
    ensures forall i | pos < i < families.Length :: families[i] == Some(was[i])
    ensures GoodTarget(families[..pos + 1], dst)
    ensures Remaining(families[..pos + 1], dst, was[pos + 1..]) == old(Remaining(families[..pos], dst0, was[pos..]))
  {
    ghost var before, rest := families[..pos], was[pos..];
    assert rest[0] == was[pos] && rest[1..] == was[pos + 1..];
    assert families[..pos + 1] == before + [Some(rest[0])];
    if dst0 == None {
      StartsAtNewcomer(before, rest);
      return Some(pos);
    }
    var d := dst0.value;
    if families[d].value.name != families[pos].value.name {
      SkipsOtherName(before, d, rest);
      return None;
    }
    MergesSameName(before, d, rest);
    MergeCells(families, d, pos);
    assert families[..pos + 1] == before[d := families[d]] + [None];
    return dst0;
  }

  /** The merge itself: the target takes the metrics over, the other family's cell is cleared. */
  method MergeCells(families: array<Option<Family>>, d: nat, pos: nat)
    requires d < pos < families.Length && families[d].Some? && families[pos].Some?
    requires Mergeable(families[d].value) && Mergeable(families[pos].value)
    modifies families
    ensures families[d] == Some(MergeTwo(old(families[d].value), old(families[pos].value)))
    ensures families[pos] == None
    ensures forall i | 0 <= i < families.Length && i != d && i != pos :: families[i] == old(families[i])
  {
    var merged := MergeInto(families[d].value.metrics, families[pos].value.metrics);
    families[d] := Some(Family(families[d].value.name, merged));
    families[pos] := None;
  }

  /** The loop of `MergeSortedWithTimestamps`: merged families leave holes behind. */
  method MergePass(families: array<Option<Family>>)
    requires Dense(families[..])
    modifies families
    ensures GoodTarget(families[..], None)
    ensures Present(families[..]) == Collapse(old(Values(families[..])))
  {
    ghost var was := Values(families[..]);
    var dst: Option<nat> := None;
    for pos := 0 to families.Length
      invariant forall i | pos <= i < families.Length :: families[i] == Some(was[i])
      invariant GoodTarget(families[..pos], dst)
      invariant Remaining(families[..pos], dst, was[pos..]) == Collapse(was)
    {
      dst := MergeStep(families, pos, dst, was);
    }
    assert families[..families.Length] == families[..];
    NothingRemains(families[..], dst);
  }

  /** `MergeSortedWithTimestamps`, for a slice without nil entries whose families share nothing. */
  method MergeSortedWithTimestamps(families: array<Option<Family>>) returns (n: nat)
    requires Dense(families[..])
    modifies families
    ensures n <= families.Length
    ensures Dense(families[..n])
    ensures Values(families[..n]) == Collapse(old(Values(families[..])))
  {
    ghost var was := Values(families[..]);
    MergePass(families);
    PresentIsKept(families[..]);
    var probes;
    n, probes := Pack(families);
    assert forall i | 0 <= i < n :: families[..n][i] == Some(Collapse(was)[i]);
  }

  // ---- what the pass keeps ---------------------------------------------------------------------

  ghost function Tagged(name: string, ms: seq<Metric>): multiset<(string, Metric)> {
    if ms == [] then multiset{} else multiset{(name, ms[0])} + Tagged(name, ms[1..])
  }

  ghost function Pairs(fs: seq<Family>): multiset<(string, Metric)> {
    if fs == [] then multiset{} else Tagged(fs[0].name, fs[0].metrics) + Pairs(fs[1..])
  }

  lemma {:induction false} MergeConservesTagged(name: string, xs: seq<Metric>, ys: seq<Metric>)
    requires Timed(xs) && Timed(ys)
    ensures Tagged(name, MergeRuns(xs, ys)) == Tagged(name, xs) + Tagged(name, ys)
    decreases |xs| + |ys|
  {
    if xs != [] && ys != [] {
      if Timestamp(xs[0]) <= Timestamp(ys[0]) {
        MergeConservesTagged(name, xs[1..], ys);
        assert MergeRuns(xs, ys)[1..] == MergeRuns(xs[1..], ys);
      } else {
        MergeConservesTagged(name, xs, ys[1..]);
        assert MergeRuns(xs, ys)[1..] == MergeRuns(xs, ys[1..]);
      }
    }
  }

  lemma PairsOfTwo(f: Family, g: Family, rest: seq<Family>)
    ensures Pairs([f, g] + rest) == Tagged(f.name, f.metrics) + Tagged(g.name, g.metrics) + Pairs(rest)
    ensures Pairs([f] + rest) == Tagged(f.name, f.metrics) + Pairs(rest)
  {
    assert ([f, g] + rest)[1..] == [g] + rest;
    assert ([g] + rest)[1..] == rest;
    assert ([f] + rest)[1..] == rest;
  }

  lemma MergeTwoConservesPairs(f: Family, g: Family, rest: seq<Family>)
    requires Mergeable(f) && Mergeable(g) && f.name == g.name
    ensures Pairs([MergeTwo(f, g)] + rest) == Pairs([f, g] + rest)
  {
    MergeConservesTagged(f.name, f.metrics, g.metrics);
    PairsOfTwo(f, g, rest);
    PairsOfTwo(MergeTwo(f, g), g, rest);
  }

  /** No sample is lost, invented or moved to another family name. */
  lemma {:induction false} CollapseConservesPairs(fs: seq<Family>)
    requires AllMergeable(fs)
    ensures Pairs(Collapse(fs)) == Pairs(fs)
    decreases |fs|
  {
    if |fs| > 1 {
      var f, g, rest := fs[0], fs[1], fs[2..];
      assert Mergeable(f) && Mergeable(g);
      assert fs == [f, g] + rest;
      if f.name != g.name {
        CollapseConservesPairs(rest);
        PairsOfTwo(f, g, rest);
        PairsOfTwo(f, g, Collapse(rest));
      } else {
        MergeTwoConservesPairs(f, g, rest);
        CollapseConservesPairs([MergeTwo(f, g)] + rest);
      }
    }
  }

  /** The metrics of one family name and timestamp, in order, over all the families. */
  function AllAt(fs: seq<Family>, name: string, time: int): seq<Metric> {
    if fs == [] then []
    else (if fs[0].name == name then At(fs[0].metrics, time) else []) + AllAt(fs[1..], name, time)
  }

  lemma AllAtTwo(f: Family, g: Family, rest: seq<Family>, name: string, time: int)
    ensures AllAt([f] + rest, name, time)
         == (if f.name == name then At(f.metrics, time) else []) + AllAt(rest, name, time)
    ensures AllAt([f, g] + rest, name, time)
         == (if f.name == name then At(f.metrics, time) else [])
            + (if g.name == name then At(g.metrics, time) else []) + AllAt(rest, name, time)
  {
    assert ([f] + rest)[1..] == rest;
    assert ([f, g] + rest)[1..] == [g] + rest && ([g] + rest)[1..] == rest;
  }

  /** The pass is stable: metrics of one family name and timestamp keep their order. */
  lemma {:induction false} CollapseIsStable(fs: seq<Family>, name: string, time: int)
    requires AllMergeable(fs)
    ensures AllAt(Collapse(fs), name, time) == AllAt(fs, name, time)
    decreases |fs|
  {
    if |fs| > 1 {
      var f, g, rest := fs[0], fs[1], fs[2..];
      assert Mergeable(f) && Mergeable(g);
      assert fs == [f, g] + rest;
      AllAtTwo(f, g, rest, name, time);
      if f.name != g.name {
        CollapseIsStable(rest, name, time);
        AllAtTwo(f, g, Collapse(rest), name, time);
      } else {
        CollapseIsStable([MergeTwo(f, g)] + rest, name, time);
        AllAtTwo(MergeTwo(f, g), g, rest, name, time);
        MergeIsStable(f.metrics, g.metrics, time);
      }
    }
  }

  // ---- when one family per name is left --------------------------------------------------------

  function Names(fs: seq<Family>): (ns: seq<string>)
    ensures |ns| == |fs| && forall i | 0 <= i < |fs| :: ns[i] == fs[i].name
  {
    seq(|fs|, i requires 0 <= i < |fs| => fs[i].name)
  }

  /** Families of one name are neighbours. */
  predicate Grouped(ns: seq<string>) {
    forall i, j, k | 0 <= i < j < k < |ns| :: ns[i] == ns[k] ==> ns[j] == ns[i]
  }

  /** How often the name changes on the way to position `i`; even on the way into the 1st, 3rd, 5th run of a name. */
  function Changes(ns: seq<string>, i: nat): nat
    requires i < |ns|
  {
    if i == 0 then 0 else Changes(ns, i - 1) + if ns[i - 1] == ns[i] then 0 else 1
  }

  /** Only the 1st, 3rd, 5th run of a name may be longer than one. */
  predicate EvenRunsAreSingle(ns: seq<string>) {
    forall i | 0 <= i < |ns| - 1 && ns[i] == ns[i + 1] :: Changes(ns, i) % 2 == 0
  }

  lemma {:induction false} ChangesBehind(ns: seq<string>, i: nat)
    requires i + 1 < |ns|
    ensures Changes(ns, i + 1) == Changes(ns[1..], i) + if ns[0] == ns[1] then 0 else 1
  {
    if i > 0 { ChangesBehind(ns, i - 1); }
  }

  lemma {:induction false} RunsBehindSame(ns: seq<string>)
    requires |ns| > 1 && ns[0] == ns[1]
    ensures EvenRunsAreSingle(ns) <==> EvenRunsAreSingle(ns[1..])
    ensures Grouped(ns) <==> Grouped(ns[1..])
  {
    var t := ns[1..];
    forall i | 0 <= i < |t| ensures Changes(ns, i + 1) == Changes(t, i) { ChangesBehind(ns, i); }
    if EvenRunsAreSingle(ns) {
      forall i | 0 <= i < |t| - 1 && t[i] == t[i + 1] ensures Changes(t, i) % 2 == 0 {
        assert ns[i + 1] == ns[i + 2];
      }
    }
    if EvenRunsAreSingle(t) {
      forall i | 0 <= i < |ns| - 1 && ns[i] == ns[i + 1] ensures Changes(ns, i) % 2 == 0 {
        if i > 0 { assert t[i - 1] == t[i]; }
      }
    }
    if Grouped(t) {
      forall i, j, k | 0 <= i < j < k < |ns| && ns[i] == ns[k] ensures ns[j] == ns[i] {
        if i > 0 {
          assert t[i - 1] == t[k - 1] && t[j - 1] == ns[j];
        } else if j > 1 {
          assert t[0] == t[k - 1] && t[j - 1] == ns[j];
        }
      }
    }
  }

  lemma {:induction false} RunsBehindOther(ns: seq<string>)
    requires |ns| > 1 && ns[0] != ns[1]
    ensures EvenRunsAreSingle(ns) <==> (|ns| == 2 || ns[1] != ns[2]) && EvenRunsAreSingle(ns[2..])
  {
    var t := ns[2..];
    assert Changes(ns, 1) == 1 by { ChangesBehind(ns, 0); }
    forall i | 0 <= i < |t| ensures Changes(ns, i + 2) == Changes(t, i) + 1 + if ns[1] == ns[2] then 0 else 1 {
      ChangesBehind(ns, i + 1);
      ChangesBehind(ns[1..], i);
      assert ns[1..][1..] == t;
    }
    if EvenRunsAreSingle(ns) {
      assert |ns| == 2 || ns[1] != ns[2];
      forall i | 0 <= i < |t| - 1 && t[i] == t[i + 1] ensures Changes(t, i) % 2 == 0 {
        assert ns[i + 2] == ns[i + 3];
        assert Changes(ns, i + 2) % 2 == 0;
      }
    }
    if (|ns| == 2 || ns[1] != ns[2]) && EvenRunsAreSingle(t) {
      forall i | 0 <= i < |ns| - 1 && ns[i] == ns[i + 1] ensures Changes(ns, i) % 2 == 0 {
        assert i >= 2;
        assert t[i - 2] == t[i - 1];
      }
    }
  }

  lemma {:induction false} GroupedBehindOther(ns: seq<string>)
    requires |ns| > 1 && ns[0] != ns[1] && (|ns| == 2 || ns[1] != ns[2])
    ensures Grouped(ns) <==> ns[0] !in ns[2..] && ns[1] !in ns[2..] && Grouped(ns[2..])
  {
    var t := ns[2..];
    if Grouped(ns) {
      forall k | 0 <= k < |t| ensures t[k] != ns[0] && t[k] != ns[1] {
        assert ns[k + 2] == t[k];
        assert k > 0 ==> ns[2] == t[0];
      }
      forall i, j, k | 0 <= i < j < k < |t| && t[i] == t[k] ensures t[j] == t[i] {
        assert ns[i + 2] == ns[k + 2] && ns[j + 2] == t[j];
      }
    }
    if ns[0] !in t && ns[1] !in t && Grouped(t) {
      forall i, j, k | 0 <= i < j < k < |ns| && ns[i] == ns[k] ensures ns[j] == ns[i] {
        assert k >= 2 && ns[k] == t[k - 2];
        assert i >= 2;
        assert t[i - 2] == t[k - 2] && t[j - 2] == ns[j];
      }
    }
  }

  /** What the pass does to the names alone. */
  function CollapsedNames(ns: seq<string>): seq<string> {
    if |ns| <= 1 then ns
    else if ns[0] != ns[1] then [ns[0], ns[1]] + CollapsedNames(ns[2..])
    else CollapsedNames(ns[1..])
  }

  lemma NamesOfTwo(f: Family, g: Family, rest: seq<Family>)
    ensures Names([f] + rest) == [f.name] + Names(rest)
    ensures Names([f, g] + rest) == [f.name, g.name] + Names(rest)
  {
  }

  lemma CollapsedTwo(a: string, b: string, ns: seq<string>)
    ensures CollapsedNames([a, b] + ns)
         == if a != b then [a, b] + CollapsedNames(ns) else CollapsedNames([b] + ns)
  {
    assert ([a, b] + ns)[2..] == ns && ([a, b] + ns)[1..] == [b] + ns;
  }

  lemma {:induction false} NamesOfCollapse(fs: seq<Family>)
    requires AllMergeable(fs)
    ensures Names(Collapse(fs)) == CollapsedNames(Names(fs))
    decreases |fs|
  {
    if |fs| > 1 {
      var f, g, rest := fs[0], fs[1], fs[2..];
      assert Mergeable(f) && Mergeable(g);
      assert fs == [f, g] + rest;
      NamesOfTwo(f, g, rest);
      CollapsedTwo(f.name, g.name, Names(rest));
      if f.name != g.name {
        NamesOfCollapse(rest);
        NamesOfTwo(f, g, Collapse(rest));
      } else {
        NamesOfCollapse([MergeTwo(f, g)] + rest);
        NamesOfTwo(MergeTwo(f, g), g, rest);
      }
    }
  }

  lemma {:induction false} NoNameIsLost(ns: seq<string>, n: string)
    ensures n in CollapsedNames(ns) <==> n in ns
  {
    if |ns| > 1 {
      if ns[0] != ns[1] {
        NoNameIsLost(ns[2..], n);
        assert ns == [ns[0], ns[1]] + ns[2..];
      } else {
        NoNameIsLost(ns[1..], n);
        assert ns == [ns[0]] + ns[1..] && ns[1..][0] == ns[0];
      }
    }
  }

  lemma DistinctBehindTwo(a: string, b: string, ns: seq<string>)
    requires S.NoDuplicates([a, b] + ns)
    ensures a != b && a !in ns && b !in ns && S.NoDuplicates(ns)
  {
    var s := [a, b] + ns;
    assert s[0] == a && s[1] == b && s[0] != s[1];
    forall i | 0 <= i < |ns| ensures ns[i] != a && ns[i] != b { assert s[i + 2] == ns[i]; }
    forall i, j | 0 <= i < j < |ns| ensures ns[i] != ns[j] { assert s[i + 2] != s[j + 2]; }
  }

  lemma DistinctTwoMore(a: string, b: string, ns: seq<string>)
    ensures S.NoDuplicates([a, b] + ns) <==> a != b && a !in ns && b !in ns && S.NoDuplicates(ns)
  {
    var s := [a, b] + ns;
    if S.NoDuplicates(s) { DistinctBehindTwo(a, b, ns); }
    if a != b && a !in ns && b !in ns && S.NoDuplicates(ns) {
      forall i, j | 0 <= i < j < |s| ensures s[i] != s[j] {
        if j >= 2 {
          assert s[j] == ns[j - 2] && ns[j - 2] in ns;
          if i >= 2 { assert s[i] == ns[i - 2]; }
        }
      }
    }
  }

  lemma {:induction false} NamesDistinctExactly(ns: seq<string>)
    ensures S.NoDuplicates(CollapsedNames(ns)) <==> Grouped(ns) && EvenRunsAreSingle(ns)
  {
    if |ns| > 1 {
      if ns[0] == ns[1] {
        NamesDistinctExactly(ns[1..]);
        RunsBehindSame(ns);
      } else {
        NamesDistinctExactly(ns[2..]);
        DistinctTwoMore(ns[0], ns[1], CollapsedNames(ns[2..]));
        NoNameIsLost(ns[2..], ns[0]);
        NoNameIsLost(ns[2..], ns[1]);
        RunsBehindOther(ns);
        if |ns| == 2 || ns[1] != ns[2] { GroupedBehindOther(ns); } else { assert ns[2..][0] == ns[1]; }
      }
    }
  }

  /** One family per name is left if and only if the families of a name are neighbours and every 2nd, 4th, ... run of a
      name is a single family. */
  lemma OneFamilyPerNameExactly(fs: seq<Family>)
    requires AllMergeable(fs)
    ensures S.NoDuplicates(Names(Collapse(fs))) <==> Grouped(Names(fs)) && EvenRunsAreSingle(Names(fs))
  {
    NamesOfCollapse(fs);
    NamesDistinctExactly(Names(fs));
  }

  /** Two families of one name behind one of another name stay apart. */
  lemma SecondNameStaysSplit(a: Family, b: Family, c: Family)
    requires Mergeable(a) && Mergeable(b) && Mergeable(c) && a.name != b.name && b.name == c.name
    ensures Collapse([a, b, c]) == [a, b, c]
  {
    assert [a, b, c][2..] == [c];
  }
}
