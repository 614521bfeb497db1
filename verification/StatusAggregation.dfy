/** The status controller: the conditions of the components are folded into one of the standard conditions
    Available, Progressing and Degraded. */
module StatusAggregation {
  import opened Wrappers
  import opened Sorted
  import opened Compaction
  import opened ComponentStatus

  const AVAILABLE := "Available"
  const PROGRESSING := "Progressing"
  const DEGRADED := "Degraded"

  predicate IsComponent(c: Condition) {
    c.typ == METRICS_COLLECTOR || c.typ == UWL_METRICS_COLLECTOR
  }

  predicate IsStandard(c: Condition) {
    c.typ == AVAILABLE || c.typ == PROGRESSING || c.typ == DEGRADED
  }

  lemma StandardIsNoComponent(c: Condition)
    ensures !(IsStandard(c) && IsComponent(c))
  {
    assert METRICS_COLLECTOR[0] == 'M' && UWL_METRICS_COLLECTOR[0] == 'U';
    assert AVAILABLE[0] == 'A' && PROGRESSING[0] == 'P' && DEGRADED[0] == 'D';
  }

  /** `newReason`: priority and standard type of a component's reason. */
  function Priority(r: Reason): int {
    match r
    case Disabled => 1
    case ForwardSuccessful => 2
    case CmoReconcileLoopStopped => 3
    case UpdateSuccessful => 4
    case ForwardFailed => 5
    case CmoReconcileLoopDetected => 6
    case UpdateFailed => 7
    case NotSupported => 8
    case Unknown(_) => -1
  }

  function StdType(r: Reason): string {
    match r
    case ForwardSuccessful => AVAILABLE
    case CmoReconcileLoopStopped => PROGRESSING
    case UpdateSuccessful => PROGRESSING
    case _ => DEGRADED
  }

  // ---- sorting ---------------------------------------------------------------------------------

  type Comparator = (Condition, Condition) -> bool

  /** Moves `x` left past everything it is less than. */
  function InsertRight(s: seq<Condition>, x: Condition, less: Comparator): (r: seq<Condition>)
    ensures |r| == |s| + 1
  {
    if s != [] && less(x, s[|s| - 1]) then InsertRight(s[..|s| - 1], x, less) + [s[|s| - 1]] else s + [x]
  }

  function InsertionSort(s: seq<Condition>, less: Comparator): (r: seq<Condition>)
    ensures |r| == |s|
  {
    if s == [] then [] else InsertRight(InsertionSort(s[..|s| - 1], less), s[|s| - 1], less)
  }

  /** The inner loop: the element at `i` sinks to its place among the sorted ones before it. */
  method Sink(s: seq<Condition>, i: nat, less: Comparator) returns (r: seq<Condition>)
    requires i < |s|
    ensures r == InsertRight(s[..i], s[i], less) + s[i + 1..]
  {
    r := s;
    var j := i;
    ghost var x, done, tail := s[i], s[..i], s[i + 1..];
    assert done[..i] == done && done[i..] == [];
    while j > 0 && less(r[j], r[j - 1])
      invariant 0 <= j <= i
      invariant r == done[..j] + [x] + done[j..] + tail
      invariant InsertRight(done, x, less) == InsertRight(done[..j], x, less) + done[j..]
    {
      SinkStep(done, x, tail, j, less);
      r := r[j := r[j - 1]][j - 1 := r[j]];
      j := j - 1;
    }
    assert j > 0 ==> done[..j][|done[..j]| - 1] == done[j - 1];
  }

  lemma SinkStep(done: seq<Condition>, x: Condition, tail: seq<Condition>, j: nat, less: Comparator)
    requires 0 < j <= |done| && less(x, done[j - 1])
    ensures var r := done[..j] + [x] + done[j..] + tail;
            r[j := r[j - 1]][j - 1 := r[j]] == done[..j - 1] + [x] + done[j - 1..] + tail
    ensures InsertRight(done[..j], x, less) + done[j..] == InsertRight(done[..j - 1], x, less) + done[j - 1..]
  {
    assert done[..j][..j - 1] == done[..j - 1];
    assert done[j - 1..] == [done[j - 1]] + done[j..];
  }

  /** `sort.Slice`, which is an insertion sort up to a dozen elements, run with whatever comparator it is given. */
  method SortSlice(s: seq<Condition>, less: Comparator) returns (r: seq<Condition>)
    ensures r == InsertionSort(s, less)
  {
    r := s;
    for i := 0 to |s|
      invariant |r| == |s| && r[i..] == s[i..]
      invariant r[..i] == InsertionSort(s[..i], less)
    {
      assert r[i] == r[i..][0] == s[i];
      assert s[..i + 1][..i] == s[..i];
      assert r[i + 1..] == r[i..][1..] == s[i + 1..];
      r := Sink(r, i, less);
    }
    assert s[..|s|] == s && r[..|s|] == r;
  }

  lemma {:induction false} InsertRightHas(s: seq<Condition>, x: Condition, less: Comparator)
    ensures multiset(InsertRight(s, x, less)) == multiset(s) + multiset{x}
  {
    if s != [] && less(x, s[|s| - 1]) {
      InsertRightHas(s[..|s| - 1], x, less);
      assert s == s[..|s| - 1] + [s[|s| - 1]];
    }
  }

  lemma {:induction false} InsertionSortHas(s: seq<Condition>, less: Comparator)
    ensures multiset(InsertionSort(s, less)) == multiset(s)
  {
    if s != [] {
      var init, x := s[..|s| - 1], s[|s| - 1];
      assert multiset(s) == multiset(init) + multiset{x} by { assert s == init + [x]; }
      InsertionSortHas(init, less);
      InsertRightHas(InsertionSort(init, less), x, less);
    }
  }

  lemma SortedHasTheSame(s: seq<Condition>, less: Comparator, x: Condition)
    ensures x in InsertionSort(s, less) <==> x in s
  {
    InsertionSortHas(s, less);
    assert x in multiset(InsertionSort(s, less)) <==> x in multiset(s);
  }

  /** The element that is never overtaken by one behind it. */
  function Champion(s: seq<Condition>, less: Comparator): Condition
    requires s != []
  {
    if |s| == 1 then s[0]
    else
      var c, x := Champion(s[..|s| - 1], less), s[|s| - 1];
      if less(x, c) then c else x
  }

  /** Whatever the comparator, lawful or not: the champion comes out last. */
  lemma {:induction false} ChampionComesLast(s: seq<Condition>, less: Comparator)
    requires s != []
    ensures InsertionSort(s, less)[|s| - 1] == Champion(s, less)
  {
    if |s| > 1 { ChampionComesLast(s[..|s| - 1], less); }
  }

  // ---- aggregation -----------------------------------------------------------------------------

  /** Highest priority first, ties by type. */
  predicate PriorityLess(a: Condition, b: Condition) {
    if Priority(a.reason) == Priority(b.reason) then Lt(a.typ, b.typ) else Priority(a.reason) > Priority(b.reason)
  }

  lemma NotLessIsTransitive(a: Condition, b: Condition, c: Condition)
    requires !PriorityLess(a, b) && !PriorityLess(b, c)
    ensures !PriorityLess(a, c)
  {
    LeTotal(a.typ, b.typ);
    LeTotal(b.typ, c.typ);
    if Lt(a.typ, c.typ) && Priority(a.reason) == Priority(b.reason) == Priority(c.reason) {
      LeTransitive(c.typ, b.typ, a.typ);
      LeAntisymmetric(a.typ, c.typ);
    }
  }

  lemma NotBothLess(a: Condition, b: Condition)
    requires PriorityLess(a, b)
    ensures !PriorityLess(b, a)
  {
    if Le(b.typ, a.typ) && Le(a.typ, b.typ) { LeAntisymmetric(a.typ, b.typ); }
  }

  ghost predicate InPriorityOrder(s: seq<Condition>) {
    forall i, j | 0 <= i <= j < |s| :: !PriorityLess(s[j], s[i])
  }

  lemma {:induction false} InsertKeepsOrder(s: seq<Condition>, x: Condition)
    requires InPriorityOrder(s)
    ensures InPriorityOrder(InsertRight(s, x, PriorityLess))
  {
    var r := InsertRight(s, x, PriorityLess);
    if s != [] && PriorityLess(x, s[|s| - 1]) {
      var init, last := s[..|s| - 1], s[|s| - 1];
      InsertKeepsOrder(init, x);
      InsertRightHas(init, x, PriorityLess);
      NotBothLess(x, last);
      var r' := InsertRight(init, x, PriorityLess);
      forall i | 0 <= i < |r'| ensures !PriorityLess(last, r'[i]) {
        assert r'[i] in multiset(r');
        assert r'[i] in multiset(init) ==> r'[i] in init;
      }
      assert !PriorityLess(last, last);
    } else {
      forall i | 0 <= i < |s| ensures !PriorityLess(x, s[i]) {
        NotLessIsTransitive(x, s[|s| - 1], s[i]);
      }
      assert !PriorityLess(x, x);
    }
  }

  lemma {:induction false} SortsByPriority(s: seq<Condition>)
    ensures InPriorityOrder(InsertionSort(s, PriorityLess))
  {
    if s != [] {
      SortsByPriority(s[..|s| - 1]);
      InsertKeepsOrder(InsertionSort(s[..|s| - 1], PriorityLess), s[|s| - 1]);
    }
  }

  function AggregatedMessage(first: Condition): string {
    var typ := StdType(first.reason);
    var message :=
      if typ == AVAILABLE then "observability-controller add-on is available."
      else if typ == PROGRESSING then "observability-controller add-on is progressing."
      else if typ == DEGRADED && first.reason == Disabled then "observability-controller add-on is disabled."
      else first.typ + ": " + first.message;
    if |message| > 256 then message[..253] + "..." else message
  }

  /** `aggregateComponentsConditions`. */
  function Aggregated(cs: seq<Condition>, now: int): Option<Condition> {
    var components := Kept(cs, IsComponent);
    if components == [] then None
    else
      var first := InsertionSort(components, PriorityLess)[0];
      Some(Condition(StdType(first.reason), first.reason, AggregatedMessage(first), true, now))
  }

  /** The comparator of `shouldUpdateConditions`: false before true, otherwise earlier before later. */
  predicate MixedLess(a: Condition, b: Condition) {
    (!a.isTrue && b.isTrue) || a.time < b.time
  }

  function ShouldUpdate(cs: seq<Condition>, c: Condition): bool {
    var standard := Kept(cs, IsStandard);
    if standard == [] then true
    else
      var last := InsertionSort(standard, MixedLess)[|standard| - 1];
      last.typ != c.typ || last.isTrue != c.isTrue || last.reason != c.reason || last.message != c.message
  }

  /** `resetMainConditionsStatus`. */
  function Reset(cs: seq<Condition>): (r: seq<Condition>)
    ensures |r| == |cs|
    ensures forall i | 0 <= i < |cs| :: r[i] == if IsStandard(cs[i]) then cs[i].(isTrue := false) else cs[i]
  {
    seq(|cs|, i requires 0 <= i < |cs| => if IsStandard(cs[i]) then cs[i].(isTrue := false) else cs[i])
  }

  /** The update body of `updateSpokeAddon`, and whether it writes. */
  function Updated(cs: seq<Condition>, now: int): (seq<Condition>, bool) {
    var c := Aggregated(cs, now);
    if c.None? then (cs, false)
    else if !ShouldUpdate(cs, c.value) then (cs, false)
    else (MutateOrAppend(Reset(cs), c.value), true)
  }

  method Filtered(cs: seq<Condition>, keep: Condition -> bool) returns (r: seq<Condition>)
    ensures r == Kept(cs, keep)
  {
    r := [];
    for i := 0 to |cs|
      invariant r == Kept(cs[..i], keep)
    {
      KeptOneMore(cs, i, keep);
      if keep(cs[i]) {
        r := r + [cs[i]];
      }
    }
    assert cs[..|cs|] == cs;
  }

  method Aggregate(cs: seq<Condition>, now: int) returns (r: Option<Condition>)
    ensures r == Aggregated(cs, now)
  {
    var components := Filtered(cs, IsComponent);
    if |components| == 0 {
      return None;
    }
    var sorted := SortSlice(components, PriorityLess);
    r := Some(Condition(StdType(sorted[0].reason), sorted[0].reason, AggregatedMessage(sorted[0]), true, now));
  }

  method ShouldUpdateConditions(cs: seq<Condition>, c: Condition) returns (r: bool)
    ensures r == ShouldUpdate(cs, c)
  {
    var standard := Filtered(cs, IsStandard);
    if |standard| == 0 {
      return true;
    }
    var sorted := SortSlice(standard, MixedLess);
    var last := sorted[|sorted| - 1];
    r := last.typ != c.typ || last.isTrue != c.isTrue || last.reason != c.reason || last.message != c.message;
  }

  /** The in-place loop of `resetMainConditionsStatus`. */
  method ResetMainConditions(addon: Addon)
    modifies addon
    ensures addon.Conditions == Reset(old(addon.Conditions))
  {
    for i := 0 to |addon.Conditions|
      invariant |addon.Conditions| == |old(addon.Conditions)|
      invariant forall k | 0 <= k < i :: addon.Conditions[k] == Reset(old(addon.Conditions))[k]
      invariant forall k | i <= k < |addon.Conditions| :: addon.Conditions[k] == old(addon.Conditions)[k]
    {
      if IsStandard(addon.Conditions[i]) {
        addon.Conditions := addon.Conditions[i := addon.Conditions[i].(isTrue := false)];
      }
    }
  }

  /** `updateSpokeAddon` with a write that the API server accepts. */
  method UpdateSpokeAddon(addon: Addon, now: int) returns (wrote: bool)
    modifies addon
    ensures (addon.Conditions, wrote) == Updated(old(addon.Conditions), now)
  {
    var c := Aggregate(addon.Conditions, now);
    if c == None {
      return false;
    }
    var should := ShouldUpdateConditions(addon.Conditions, c.value);
    if !should {
      return false;
    }
    ResetMainConditions(addon);
    addon.Put(c.value);
    wrote := true;
  }

  // ---- what an update leaves -------------------------------------------------------------------

  ghost predicate NotAfter(cs: seq<Condition>, now: int) {
    forall i | 0 <= i < |cs| :: cs[i].time <= now
  }

  lemma FirstIsWorst(s: seq<Condition>)
    requires s != []
    ensures InsertionSort(s, PriorityLess)[0] in s
    ensures forall x | x in s :: !PriorityLess(x, InsertionSort(s, PriorityLess)[0])
  {
    var sorted := InsertionSort(s, PriorityLess);
    SortsByPriority(s);
    SortedHasTheSame(s, PriorityLess, sorted[0]);
    forall x | x in s
      ensures !PriorityLess(x, sorted[0])
    {
      SortedHasTheSame(s, PriorityLess, x);
      var j :| 0 <= j < |sorted| && sorted[j] == x;
    }
  }

  /** The component condition speaks for all: none has a higher priority, nor the same with a smaller type. */
  ghost predicate Worst(cs: seq<Condition>, first: Condition) {
    && first in cs && IsComponent(first)
    && forall x | x in cs && IsComponent(x) :: !PriorityLess(x, first)
  }

  /** The aggregate is the standard condition for the worst component. */
  lemma AggregateIsWorst(cs: seq<Condition>, now: int) returns (first: Condition)
    requires Kept(cs, IsComponent) != []
    ensures Worst(cs, first)
    ensures var c := Aggregated(cs, now).value;
            IsStandard(c) && c.isTrue && c.time == now
            && c.reason == first.reason && c.typ == StdType(first.reason) && c.message == AggregatedMessage(first)
  {
    var components := Kept(cs, IsComponent);
    FirstIsWorst(components);
    first := InsertionSort(components, PriorityLess)[0];
    KeptMeans(cs, IsComponent);
    forall x | x in cs && IsComponent(x)
      ensures !PriorityLess(x, first)
    {
      KeptHas(cs, IsComponent, x);
    }
  }

  lemma KeptHas(cs: seq<Condition>, keep: Condition -> bool, x: Condition)
    requires x in cs && keep(x)
    ensures x in Kept(cs, keep)
  {
    KeptMeans(cs, keep);
    assert x in multiset(cs);
    assert x in multiset(Kept(cs, keep));
  }

  /** Of the standard conditions `c` is the only true one, and none is later. */
  ghost predicate OnlyTrue(cs: seq<Condition>, c: Condition) {
    && UniqueTypes(cs)
    && c in cs && c.isTrue
    && forall i | 0 <= i < |cs| && IsStandard(cs[i]) :: (cs[i].isTrue ==> cs[i] == c) && cs[i].time <= c.time
  }

  lemma {:induction false} ComponentsUntouched(cs: seq<Condition>, c: Condition)
    requires !IsComponent(c) && forall i | 0 <= i < |cs| :: cs[i].typ == c.typ ==> !IsComponent(cs[i])
    ensures Kept(MutateOrAppend(cs, c), IsComponent) == Kept(cs, IsComponent)
  {
    if cs == [] {
      assert [c][..0] == [];
    } else if cs[0].typ == c.typ {
      KeptAppends([c], cs[1..], IsComponent);
      KeptAppends([cs[0]], cs[1..], IsComponent);
      assert cs == [cs[0]] + cs[1..];
      assert [c][..0] == [] && [cs[0]][..0] == [];
    } else {
      ComponentsUntouched(cs[1..], c);
      KeptAppends([cs[0]], MutateOrAppend(cs[1..], c), IsComponent);
      KeptAppends([cs[0]], cs[1..], IsComponent);
      assert cs == [cs[0]] + cs[1..];
    }
  }

  lemma {:induction false} ResetKeepsComponents(cs: seq<Condition>)
    ensures Kept(Reset(cs), IsComponent) == Kept(cs, IsComponent)
  {
    if cs != [] {
      ResetKeepsComponents(cs[..|cs| - 1]);
      assert Reset(cs)[..|cs| - 1] == Reset(cs[..|cs| - 1]);
      StandardIsNoComponent(cs[|cs| - 1]);
      StandardIsNoComponent(Reset(cs)[|cs| - 1]);
    }
  }

  lemma UpdateKeepsComponents(cs: seq<Condition>, now: int)
    requires Updated(cs, now).1
    ensures Kept(Updated(cs, now).0, IsComponent) == Kept(cs, IsComponent)
  {
    var c := Aggregated(cs, now).value;
    var first := AggregateIsWorst(cs, now);
    var base := Reset(cs);
    StandardIsNoComponent(c);
    forall i | 0 <= i < |base| && base[i].typ == c.typ ensures !IsComponent(base[i]) { StandardIsNoComponent(base[i]); }
    ComponentsUntouched(base, c);
    ResetKeepsComponents(cs);
  }

  /** An update that writes leaves exactly one of the standard conditions true, the one for the worst component, keeps
      condition types unique and the components' own conditions as they were. */
  lemma UpdateLeavesOneTrue(cs: seq<Condition>, now: int)
    requires UniqueTypes(cs) && NotAfter(cs, now) && Updated(cs, now).1
    ensures OnlyTrue(Updated(cs, now).0, Aggregated(cs, now).value)
    ensures Kept(Updated(cs, now).0, IsComponent) == Kept(cs, IsComponent)
  {
    var c := Aggregated(cs, now).value;
    var first := AggregateIsWorst(cs, now);
    var base := Reset(cs);
    var after := MutateOrAppend(base, c);
    StandardIsNoComponent(c);
    MutateOrAppendKeepsTypesUnique(base, c);
    forall i | 0 <= i < |after|
      ensures IsStandard(after[i]) && after[i].isTrue ==> after[i] == c
      ensures after[i].time <= now
    {
      MutateOrAppendAt(base, c, i);
    }
    MutateOrAppendFinds(base, c, c.typ);
    FoundIsThere(after, c.typ);
    UpdateKeepsComponents(cs, now);
  }

  lemma {:induction false} FoundIsThere(cs: seq<Condition>, t: string)
    requires ByType(cs, t).Some?
    ensures ByType(cs, t).value in cs
  {
    if cs[0].typ != t { FoundIsThere(cs[1..], t); }
  }

  /** `c` is the only true standard condition. */
  ghost predicate SoleTrue(cs: seq<Condition>, c: Condition) {
    && UniqueTypes(cs) && c in cs && IsStandard(c) && c.isTrue
    && forall i | 0 <= i < |cs| && IsStandard(cs[i]) :: cs[i].isTrue ==> cs[i] == c
  }

  /** Some standard condition listed before `c` is later than `c`. */
  ghost predicate LaterBefore(cs: seq<Condition>, c: Condition) {
    exists i, j | 0 <= i < j < |cs| :: cs[j] == c && IsStandard(cs[i]) && c.time < cs[i].time
  }

  /** Among false conditions the latest one is the champion. */
  lemma {:induction false} FalseChampion(cs: seq<Condition>)
    requires forall i | 0 <= i < |cs| && IsStandard(cs[i]) :: !cs[i].isTrue
    requires Kept(cs, IsStandard) != []
    ensures var p := Champion(Kept(cs, IsStandard), MixedLess);
            p in cs && IsStandard(p) && forall i | 0 <= i < |cs| && IsStandard(cs[i]) :: cs[i].time <= p.time
  {
    var init, x := cs[..|cs| - 1], cs[|cs| - 1];
    if Kept(init, IsStandard) != [] {
      FalseChampion(init);
      assert forall i | 0 <= i < |init| :: init[i] == cs[i];
    } else {
      NoneKept(init);
    }
  }

  lemma {:induction false} NoneKept(cs: seq<Condition>)
    ensures Kept(cs, IsStandard) == [] <==> forall i | 0 <= i < |cs| :: !IsStandard(cs[i])
  {
    if cs != [] { NoneKept(cs[..|cs| - 1]); }
  }

  lemma SoleTrueBehind(init: seq<Condition>, x: Condition, c: Condition)
    requires SoleTrue(init + [x], c) && x != c
    ensures SoleTrue(init, c) && (LaterBefore(init + [x], c) <==> LaterBefore(init, c))
  {
    var cs := init + [x];
    assert forall i | 0 <= i < |init| :: init[i] == cs[i];
    if LaterBefore(cs, c) {
      var i, j :| 0 <= i < j < |cs| && cs[j] == c && IsStandard(cs[i]) && c.time < cs[i].time;
      assert init[j] == c && init[i] == cs[i];
    }
    if LaterBefore(init, c) {
      var i, j :| 0 <= i < j < |init| && init[j] == c && IsStandard(init[i]) && c.time < init[i].time;
      assert cs[j] == c && cs[i] == init[i];
    }
  }

  lemma OneMoreChampion(init: seq<Condition>, x: Condition)
    ensures Kept(init + [x], IsStandard)
         == if IsStandard(x) then Kept(init, IsStandard) + [x] else Kept(init, IsStandard)
    ensures IsStandard(x) ==>
              Champion(Kept(init + [x], IsStandard), MixedLess)
              == if Kept(init, IsStandard) == [] then x
                 else
                   var p := Champion(Kept(init, IsStandard), MixedLess);
                   if MixedLess(x, p) then p else x
  {
    assert (init + [x])[..|init|] == init;
  }

  lemma {:induction false} TrueChampion(cs: seq<Condition>, c: Condition)
    requires SoleTrue(cs, c)
    ensures Kept(cs, IsStandard) != []
    ensures var p := Champion(Kept(cs, IsStandard), MixedLess);
            if LaterBefore(cs, c) then !p.isTrue && c.time < p.time else p == c
  {
    var init, x := cs[..|cs| - 1], cs[|cs| - 1];
    assert cs == init + [x];
    OneMoreChampion(init, x);
    if x != c {
      SoleTrueBehind(init, x, c);
      TrueChampion(init, c);
    } else {
      TrueComesLater(init, c);
    }
  }

  lemma TrueComesLater(init: seq<Condition>, c: Condition)
    requires SoleTrue(init + [c], c)
    ensures if Kept(init, IsStandard) == [] then !LaterBefore(init + [c], c)
            else var p := Champion(Kept(init, IsStandard), MixedLess);
                 !p.isTrue && (LaterBefore(init + [c], c) <==> c.time < p.time)
  {
    var cs := init + [c];
    assert cs[|init|] == c;
    forall i | 0 <= i < |init| ensures init[i] == cs[i] && init[i].typ != c.typ {}
    NoneKept(init);
    if Kept(init, IsStandard) != [] {
      FalseChampion(init);
      var p := Champion(Kept(init, IsStandard), MixedLess);
      var i :| 0 <= i < |init| && init[i] == p;
      assert cs[i] == p;
    }
  }

  /** The comparator mixing status and time puts the one true condition last if and only if no standard condition listed
      before it is later. */
  lemma TrueConditionSortsLast(cs: seq<Condition>, c: Condition)
    requires SoleTrue(cs, c)
    ensures Kept(cs, IsStandard) != []
    ensures var standard := Kept(cs, IsStandard);
            InsertionSort(standard, MixedLess)[|standard| - 1] == c <==> !LaterBefore(cs, c)
  {
    TrueChampion(cs, c);
    ChampionComesLast(Kept(cs, IsStandard), MixedLess);
  }

  /** The order of listing decides: a true condition that is older than a false one comes last from the front, and
      does not from the back. */
  lemma OlderTrueCondition()
    ensures var t := Condition(AVAILABLE, ForwardSuccessful, "", true, 1);
            var f := Condition(DEGRADED, ForwardFailed, "", false, 2);
            InsertionSort([t, f], MixedLess) == [f, t] && InsertionSort([f, t], MixedLess) == [t, f]
  {
    var t, f := Condition(AVAILABLE, ForwardSuccessful, "", true, 1), Condition(DEGRADED, ForwardFailed, "", false, 2);
    assert [t, f][..1] == [t] && [f, t][..1] == [f] && [t][..0] == [] && [f][..0] == [];
    assert InsertionSort([t], MixedLess) == [t] && InsertionSort([f], MixedLess) == [f];
    assert InsertRight([t], f, MixedLess) == [f, t] && InsertRight([f], t, MixedLess) == [t, f];
  }

  predicate SameText(a: Condition, b: Condition) {
    a.typ == b.typ && a.reason == b.reason && a.message == b.message
  }

  /** A pass writes exactly if the one true condition says something else than the aggregate, or some standard condition
      listed before it is later; in that last case alone the write is redundant. */
  lemma WritesExactly(cs: seq<Condition>, c: Condition, now: int)
    requires SoleTrue(cs, c) && Aggregated(cs, now).Some?
    ensures Updated(cs, now).1 <==> !SameText(c, Aggregated(cs, now).value) || LaterBefore(cs, c)
  {
    TrueChampion(cs, c);
    ChampionComesLast(Kept(cs, IsStandard), MixedLess);
  }

  lemma OnlyTrueIsSole(cs: seq<Condition>, c: Condition)
    requires OnlyTrue(cs, c) && IsStandard(c)
    ensures SoleTrue(cs, c) && !LaterBefore(cs, c)
  {
  }

  /** A second pass, with nothing in between, writes nothing, whether or not the first one did. */
  lemma SecondPassWritesNothing(cs: seq<Condition>, now: int, later: int)
    requires UniqueTypes(cs) && NotAfter(cs, now)
    ensures var after := Updated(cs, now).0; Updated(after, later) == (after, false)
  {
    if Updated(cs, now).1 {
      UpdateLeavesOneTrue(cs, now);
      var first := AggregateIsWorst(cs, now);
      OnlyTrueIsSole(Updated(cs, now).0, Aggregated(cs, now).value);
      TrueConditionSortsLast(Updated(cs, now).0, Aggregated(cs, now).value);
    }
  }

  // ---- runs ------------------------------------------------------------------------------------

  /** A component reports, or the controller makes a pass; time passes before either. */
  datatype Event =
    | Report(userWorkload: bool, reason: Reason, message: string, elapsed: nat, persists: bool)
    | Pass(elapsed: nat, persists: bool)

  datatype Status = Status(conditions: seq<Condition>, clock: int)

  function AfterReport(cs: seq<Condition>, e: Event, now: int): Status
    requires e.Report?
  {
    var component := if e.userWorkload then UWL_METRICS_COLLECTOR else METRICS_COLLECTOR;
    if Reported(cs, component, e.reason, e.message) && e.persists
    then Status(MutateOrAppend(cs, Condition(component, e.reason, e.message, true, now)), now)
    else Status(cs, now)
  }

  function AfterPass(cs: seq<Condition>, e: Event, now: int): Status {
    Status(if e.persists then Updated(cs, now).0 else cs, now)
  }

  function Next(s: Status, e: Event): Status {
    var now := s.clock + e.elapsed;
    if e.Report? then AfterReport(s.conditions, e, now) else AfterPass(s.conditions, e, now)
  }

  function RunOf(s: Status, events: seq<Event>): Status {
    if events == [] then s else Next(RunOf(s, events[..|events| - 1]), events[|events| - 1])
  }

  ghost predicate NoStandard(cs: seq<Condition>) {
    forall i | 0 <= i < |cs| :: !IsStandard(cs[i])
  }

  ghost predicate OneTrue(cs: seq<Condition>) {
    exists c :: OnlyTrue(cs, c) && IsStandard(c)
  }

  /** There are no standard conditions yet, or exactly one of them is true. */
  ghost predicate StandardsAgree(cs: seq<Condition>) {
    NoStandard(cs) || OneTrue(cs)
  }

  ghost predicate Sound(s: Status) {
    UniqueTypes(s.conditions) && NotAfter(s.conditions, s.clock) && StandardsAgree(s.conditions)
  }

  lemma PutPlaces(cs: seq<Condition>, c: Condition)
    requires IsComponent(c)
    ensures var after := MutateOrAppend(cs, c);
            forall i | 0 <= i < |after| :: after[i] == c || (i < |cs| && after[i] == cs[i])
    ensures forall x | x in cs && IsStandard(x) :: x in MutateOrAppend(cs, c)
  {
    var after := MutateOrAppend(cs, c);
    forall i | 0 <= i < |after| ensures after[i] == c || (i < |cs| && after[i] == cs[i]) {
      MutateOrAppendAt(cs, c, i);
    }
    forall x | x in cs && IsStandard(x) ensures x in after {
      var k :| 0 <= k < |cs| && cs[k] == x;
      StandardIsNoComponent(x);
      MutateOrAppendAt(cs, c, k);
      assert after[k] == x;
    }
  }

  lemma PutKeepsSound(cs: seq<Condition>, c: Condition, clock: int)
    requires Sound(Status(cs, clock)) && IsComponent(c) && clock <= c.time
    ensures Sound(Status(MutateOrAppend(cs, c), c.time))
  {
    var after := MutateOrAppend(cs, c);
    StandardIsNoComponent(c);
    MutateOrAppendKeepsTypesUnique(cs, c);
    PutPlaces(cs, c);
    assert NotAfter(after, c.time);
    if OneTrue(cs) {
      var std :| OnlyTrue(cs, std) && IsStandard(std);
      assert OnlyTrue(after, std);
    } else {
      assert NoStandard(after);
    }
  }

  lemma WrittenIsSound(cs: seq<Condition>, now: int)
    requires UniqueTypes(cs) && NotAfter(cs, now) && Updated(cs, now).1
    ensures NotAfter(Updated(cs, now).0, now) && OneTrue(Updated(cs, now).0)
  {
    var c := Aggregated(cs, now).value;
    UpdateLeavesOneTrue(cs, now);
    var first := AggregateIsWorst(cs, now);
    assert IsStandard(c) && c in Updated(cs, now).0;
    forall i | 0 <= i < |Updated(cs, now).0| ensures Updated(cs, now).0[i].time <= now {
      MutateOrAppendAt(Reset(cs), c, i);
    }
  }

  lemma LaterIsSound(s: Status, now: int)
    requires Sound(s) && s.clock <= now
    ensures Sound(Status(s.conditions, now))
  {
  }

  lemma ReportIsSound(cs: seq<Condition>, e: Event, now: int)
    requires Sound(Status(cs, now)) && e.Report?
    ensures Sound(AfterReport(cs, e, now))
  {
    var component := if e.userWorkload then UWL_METRICS_COLLECTOR else METRICS_COLLECTOR;
    PutKeepsSound(cs, Condition(component, e.reason, e.message, true, now), now);
  }

  lemma PassIsSound(cs: seq<Condition>, e: Event, now: int)
    requires Sound(Status(cs, now))
    ensures Sound(AfterPass(cs, e, now))
  {
    if Updated(cs, now).1 {
      WrittenIsSound(cs, now);
      UpdateLeavesOneTrue(cs, now);
    }
  }

  lemma NextIsSound(s: Status, e: Event)
    requires Sound(s)
    ensures Sound(Next(s, e))
  {
    var now := s.clock + e.elapsed;
    LaterIsSound(s, now);
    if e.Report? {
      ReportIsSound(s.conditions, e, now);
      assert Next(s, e) == AfterReport(s.conditions, e, now);
    } else {
      PassIsSound(s.conditions, e, now);
      assert Next(s, e) == AfterPass(s.conditions, e, now);
    }
  }

  lemma {:induction false} RunIsSound(events: seq<Event>, start: int)
    ensures Sound(RunOf(Status([], start), events))
  {
    if events != [] {
      RunIsSound(events[..|events| - 1], start);
      NextIsSound(RunOf(Status([], start), events[..|events| - 1]), events[|events| - 1]);
    }
  }

  /** The standard condition tells what the worst component reported. */
  ghost predicate Tells(cs: seq<Condition>, c: Condition) {
    exists first :: Worst(cs, first) && Says(c, first)
  }

  /** Exactly one standard condition is true, and it tells what the worst component reported. */
  ghost predicate TellsTheWorst(cs: seq<Condition>) {
    exists c :: OnlyTrue(cs, c) && IsStandard(c) && Tells(cs, c)
  }

  ghost predicate Says(c: Condition, first: Condition) {
    c.typ == StdType(first.reason) && c.reason == first.reason && c.message == AggregatedMessage(first)
  }

  lemma WrittenTells(cs: seq<Condition>, now: int)
    requires UniqueTypes(cs) && NotAfter(cs, now) && Updated(cs, now).1
    ensures Tells(Updated(cs, now).0, Aggregated(cs, now).value)
  {
    UpdateLeavesOneTrue(cs, now);
    var first := AggregateIsWorst(cs, now);
    WorstIsKept(cs, Updated(cs, now).0, first);
  }

  lemma UnwrittenTells(cs: seq<Condition>, now: int, std: Condition)
    requires Kept(cs, IsComponent) != [] && !Updated(cs, now).1
    requires IsStandard(std) && OnlyTrue(cs, std)
    ensures Tells(cs, std)
  {
    var first := AggregateIsWorst(cs, now);
    OnlyTrueIsSole(cs, std);
    TrueConditionSortsLast(cs, std);
    assert Worst(cs, first) && Says(std, first);
  }

  /** In every run, once a component has reported, each stored pass leaves exactly one standard condition true, and
      that one tells what the worst component reported, whether or not the pass had to write. */
  lemma PassTellsTheWorst(events: seq<Event>, start: int, s: Status, now: int)
    requires s == RunOf(Status([], start), events) && Kept(s.conditions, IsComponent) != [] && s.clock <= now
    ensures TellsTheWorst(Updated(s.conditions, now).0)
  {
    RunIsSound(events, start);
    LaterIsSound(s, now);
    PassTells(s.conditions, now);
  }

  lemma PassTells(cs: seq<Condition>, now: int)
    requires Sound(Status(cs, now)) && Kept(cs, IsComponent) != []
    ensures TellsTheWorst(Updated(cs, now).0)
  {
    var c, after := Aggregated(cs, now).value, Updated(cs, now).0;
    if Updated(cs, now).1 {
      UpdateLeavesOneTrue(cs, now);
      WrittenTells(cs, now);
      var first := AggregateIsWorst(cs, now);
      assert c in after && IsStandard(c);
    } else {
      SomeStandard(cs);
      var std :| OnlyTrue(cs, std) && IsStandard(std);
      UnwrittenTells(cs, now, std);
      assert std in after;
    }
  }

  lemma SomeStandard(cs: seq<Condition>)
    ensures Kept(cs, IsStandard) != [] ==> !NoStandard(cs)
  {
    if Kept(cs, IsStandard) != [] {
      KeptMeans(cs, IsStandard);
      assert Kept(cs, IsStandard)[0] in cs;
    }
  }

  lemma WorstIsKept(cs: seq<Condition>, after: seq<Condition>, first: Condition)
    requires Worst(cs, first) && Kept(after, IsComponent) == Kept(cs, IsComponent)
    ensures Worst(after, first)
  {
    KeptHas(cs, IsComponent, first);
    KeptMeans(after, IsComponent);
    forall x | x in after && IsComponent(x) ensures !PriorityLess(x, first) {
      KeptHas(after, IsComponent, x);
      KeptMeans(cs, IsComponent);
    }
  }

  // ---- what the addon says, from the reports alone ---------------------------------------------

  ghost predicate SomeReport(cs: seq<Condition>, r: Reason) {
    exists x | x in cs && IsComponent(x) :: x.reason == r
  }

  ghost predicate SomeFailure(cs: seq<Condition>) {
    SomeReport(cs, NotSupported) || SomeReport(cs, UpdateFailed) || SomeReport(cs, CmoReconcileLoopDetected)
    || SomeReport(cs, ForwardFailed)
  }

  ghost predicate SomeProgress(cs: seq<Condition>) {
    SomeReport(cs, UpdateSuccessful) || SomeReport(cs, CmoReconcileLoopStopped)
  }

  /** Every component is disabled or reports something unknown. */
  ghost predicate NothingRuns(cs: seq<Condition>) {
    forall x | x in cs && IsComponent(x) :: x.reason.Disabled? || x.reason.Unknown?
  }

  /** The reason that counts: failures first, the gravest in front, then progress, then success. */
  ghost predicate TellsReason(cs: seq<Condition>, r: Reason) {
    if SomeReport(cs, NotSupported) then r == NotSupported
    else if SomeReport(cs, UpdateFailed) then r == UpdateFailed
    else if SomeReport(cs, CmoReconcileLoopDetected) then r == CmoReconcileLoopDetected
    else if SomeReport(cs, ForwardFailed) then r == ForwardFailed
    else if SomeReport(cs, UpdateSuccessful) then r == UpdateSuccessful
    else if SomeReport(cs, CmoReconcileLoopStopped) then r == CmoReconcileLoopStopped
    else if SomeReport(cs, ForwardSuccessful) then r == ForwardSuccessful
    else if SomeReport(cs, Disabled) then r == Disabled
    else r.Unknown? && SomeReport(cs, r)
  }

  lemma WorstTellsReason(cs: seq<Condition>, first: Condition)
    requires Worst(cs, first)
    ensures SomeReport(cs, first.reason) && TellsReason(cs, first.reason)
  {
    assert SomeReport(cs, first.reason);
    forall r | SomeReport(cs, r) ensures Priority(r) <= Priority(first.reason) {
      var x :| x in cs && IsComponent(x) && x.reason == r;
      assert !PriorityLess(x, first);
    }
  }

  lemma OnlyOffReports(cs: seq<Condition>)
    requires !SomeFailure(cs) && !SomeProgress(cs)
    ensures NothingRuns(cs) <==> !SomeReport(cs, ForwardSuccessful)
  {
    forall x | x in cs && IsComponent(x) ensures SomeReport(cs, x.reason) {}
    if !SomeReport(cs, ForwardSuccessful) {
      forall x | x in cs && IsComponent(x) ensures x.reason.Disabled? || x.reason.Unknown? {
        assert SomeReport(cs, x.reason);
      }
    }
  }

  lemma ReasonTellsType(cs: seq<Condition>, r: Reason)
    requires TellsReason(cs, r)
    ensures StdType(r) == DEGRADED <==> SomeFailure(cs) || NothingRuns(cs)
    ensures StdType(r) == AVAILABLE <==>
              !SomeFailure(cs) && !SomeProgress(cs) && SomeReport(cs, ForwardSuccessful)
    ensures StdType(r) == PROGRESSING <==> !SomeFailure(cs) && SomeProgress(cs)
  {
    assert AVAILABLE[0] == 'A' && PROGRESSING[0] == 'P' && DEGRADED[0] == 'D';
    if !SomeFailure(cs) {
      if SomeProgress(cs) {
        assert !NothingRuns(cs);
      } else {
        OnlyOffReports(cs);
      }
    }
  }

  /** A failure names its component and carries its message, cut at 256 characters. */
  lemma FailureTellsComponent(first: Condition)
    requires StdType(first.reason) == DEGRADED && !first.reason.Disabled?
    ensures var told, full := AggregatedMessage(first), first.typ + ": " + first.message;
            |told| <= 256 && (|full| <= 256 ==> told == full) && (|full| > 256 ==> told == full[..253] + "...")
  {
    assert AVAILABLE[0] == 'A' && PROGRESSING[0] == 'P' && DEGRADED[0] == 'D';
  }

  ghost predicate IsTrue(cs: seq<Condition>, typ: string) {
    exists x | x in cs :: x.typ == typ && x.isTrue
  }

  /** In every run, once a component has reported, the conditions after a stored pass say of the reports: degraded, if
      one is a failure or nothing runs at all; otherwise progressing, if one is on its way; otherwise available. */
  lemma PassTellsReports(events: seq<Event>, start: int, s: Status, now: int)
    requires s == RunOf(Status([], start), events) && Kept(s.conditions, IsComponent) != [] && s.clock <= now
    ensures var cs, after := s.conditions, Updated(s.conditions, now).0;
            && (IsTrue(after, "Degraded") <==> SomeFailure(cs) || NothingRuns(cs))
            && (IsTrue(after, "Available") <==>
                  !SomeFailure(cs) && !SomeProgress(cs) && SomeReport(cs, ForwardSuccessful))
            && (IsTrue(after, "Progressing") <==> !SomeFailure(cs) && SomeProgress(cs))
            && forall x | x in after && IsStandard(x) && x.isTrue :: TellsReason(cs, x.reason)
  {
    var cs, after := s.conditions, Updated(s.conditions, now).0;
    PassTellsTheWorst(events, start, s, now);
    var c :| OnlyTrue(after, c) && IsStandard(c) && Tells(after, c);
    var first :| Worst(after, first) && Says(c, first);
    RunIsSound(events, start);
    PassKeepsReports(s, now);
    WorstTellsReason(after, first);
    SameReports(cs, after);
    SameReason(cs, after, c.reason);
    ReasonTellsType(cs, c.reason);
    forall typ | typ in {"Degraded", "Available", "Progressing"} ensures IsTrue(after, typ) <==> c.typ == typ {
      OnlyTrueOfType(after, c, typ);
    }
  }

  lemma OnlyTrueOfType(cs: seq<Condition>, c: Condition, typ: string)
    requires OnlyTrue(cs, c) && IsStandard(c) && typ in {"Degraded", "Available", "Progressing"}
    ensures IsTrue(cs, typ) <==> c.typ == typ
    ensures forall x | x in cs && IsStandard(x) && x.isTrue :: x == c
  {
    forall x | x in cs && IsStandard(x) && x.isTrue ensures x == c {
      var i :| 0 <= i < |cs| && cs[i] == x;
    }
    if IsTrue(cs, typ) {
      var x :| x in cs && x.typ == typ && x.isTrue;
      assert IsStandard(x);
    }
  }

  lemma PassKeepsReports(s: Status, now: int)
    requires Sound(s) && s.clock <= now
    ensures Kept(Updated(s.conditions, now).0, IsComponent) == Kept(s.conditions, IsComponent)
  {
    LaterIsSound(s, now);
    if Updated(s.conditions, now).1 { UpdateLeavesOneTrue(s.conditions, now); }
  }

  lemma SameReports(cs: seq<Condition>, after: seq<Condition>)
    requires Kept(after, IsComponent) == Kept(cs, IsComponent)
    ensures forall x | IsComponent(x) :: x in cs <==> x in after
    ensures forall r :: SomeReport(cs, r) <==> SomeReport(after, r)
  {
    KeptMeans(cs, IsComponent);
    KeptMeans(after, IsComponent);
    forall x | IsComponent(x) ensures x in cs <==> x in after {
      if x in cs { KeptHas(cs, IsComponent, x); }
      if x in after { KeptHas(after, IsComponent, x); }
    }
    forall r ensures SomeReport(cs, r) <==> SomeReport(after, r) {
      if SomeReport(cs, r) { var x :| x in cs && IsComponent(x) && x.reason == r; assert x in after; }
      if SomeReport(after, r) { var x :| x in after && IsComponent(x) && x.reason == r; assert x in cs; }
    }
  }

  lemma SameReason(cs: seq<Condition>, after: seq<Condition>, r: Reason)
    requires forall t :: SomeReport(cs, t) <==> SomeReport(after, t)
    ensures TellsReason(cs, r) <==> TellsReason(after, r)
  {
  }
}
