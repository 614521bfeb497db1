/** The collect-rule evaluator: the trigger and resolve times of every registered rule, the table of
    matches enabled by the firing series, and the worker that forwards those matches. */
module CollectRules {
  import opened Wrappers
  import opened Bags
  import opened SeriesTracking

  /** A series, identified by its labels. */
  datatype Labels = Labels(pairs: map<string, string>)

  /** The hash of a series under a rule; the rule's name is one of the hashed labels, and hashing is
      taken to be injective. */
  datatype Key = Key(rule: string, labels: Labels)

  datatype CollectRule = CollectRule(name: string, expr: string, duration: int, names: seq<string>,
                                     matches: seq<string>)

  type Times = map<Labels, int>
  datatype EvaluatedRule = EvaluatedRule(triggerTime: Times, resolveTime: Times)

  /** `renderMatches`, a text substitution. */
  type Render = (CollectRule, Labels) -> seq<string>
  type Table = map<Key, seq<string>>

  /** The answer to a rule's query: the series of its samples in order, the clock at the start of the
      evaluation, and its readings at each sample and, later, for each absent series. */
  datatype Answer = Answer(samples: seq<Labels>, now: int, reading: nat -> int, absence: Labels -> int)

  /** The clock readings at the samples of a series, among the first `n` samples. */
  function ReadingsOf(a: Answer, n: nat, k: Labels): seq<int>
    requires n <= |a.samples|
  {
    if n == 0 then [] else ReadingsOf(a, n - 1, k) + if a.samples[n - 1] == k then [a.reading(n - 1)] else []
  }

  lemma {:induction false} NoReadings(a: Answer, n: nat, k: Labels)
    requires n <= |a.samples|
    ensures ReadingsOf(a, n, k) == [] <==> k !in a.samples[..n]
  {
    if n > 0 {
      NoReadings(a, n - 1, k);
      assert a.samples[..n] == a.samples[..n - 1] + [a.samples[n - 1]];
    }
  }

  function TrackIn(pending: Times, firing: EvaluatedRule, k: Labels): Track {
    if k in firing.triggerTime then
      if k in firing.resolveTime then Resolving(firing.triggerTime[k], firing.resolveTime[k])
      else Firing(firing.triggerTime[k])
    else if k in pending then Pending(pending[k])
    else Idle
  }

  ghost predicate Disjoint(pending: Times, firing: EvaluatedRule) {
    pending.Keys !! firing.triggerTime.Keys && firing.resolveTime.Keys <= firing.triggerTime.Keys
  }

  ghost function SeenAs(r: CollectRule, a: Answer, k: Labels): Seen {
    Seen(r.duration, a.now, ReadingsOf(a, |a.samples|, k), a.absence(k))
  }

  /** `after` differs from `before` only under the rule: its keys there are the given ones, kept keys keep
      their matches and new keys have those rendered for the series. */
  ghost predicate TableFollows(render: Render, r: CollectRule, before: Table, after: Table, on: set<Labels>) {
    && (forall key: Key | key.rule != r.name :: key in after <==> key in before)
    && (forall k :: Key(r.name, k) in after <==> k in on)
    && (forall key | key in after ::
          if key in before then after[key] == before[key] else after[key] == render(r, key.labels))
  }

  lemma TableWithout(render: Render, r: CollectRule, before: Table, after: Table, on: set<Labels>, k: Labels)
    requires TableFollows(render, r, before, after, on)
    ensures TableFollows(render, r, before, after - {Key(r.name, k)}, on - {k})
  {
  }

  lemma TakeOne<T>(all: set<T>, todo: set<T>, k: T)
    requires todo <= all && k in todo
    ensures all - (todo - {k}) == all - todo + {k}
  {
  }

  lemma TakeMore<T>(all: set<T>, gone: set<T>, k: T)
    ensures all - gone - {k} == all - (gone + {k})
  {
  }

  /** The tracked series that the samples lack. */
  function Missing(tracked: set<Labels>, samples: seq<Labels>): set<Labels> {
    set k | k in tracked && k !in samples
  }

  /** The body of the sample loop; `fired` is what it adds to the update flag. */
  method ProcessSample(r: CollectRule, a: Answer, i: nat, h: Labels, pending0: Times, firing0: EvaluatedRule)
    returns (pending: Times, firing: EvaluatedRule, fired: bool)
    requires Disjoint(pending0, firing0)
    ensures Disjoint(pending, firing)
    ensures forall k :: TrackIn(pending, firing, k)
                     == if k == h then Sample(TrackIn(pending0, firing0, h), SeenAs(r, a, h), a.reading(i))
                        else TrackIn(pending0, firing0, k)
    ensures fired <==> h !in firing0.triggerTime && h in firing.triggerTime
    ensures firing.triggerTime.Keys == if fired then firing0.triggerTime.Keys + {h} else firing0.triggerTime.Keys
  {
    pending, firing, fired := pending0, firing0, false;
    if h in firing.triggerTime {
      if h in firing.resolveTime {
        firing := firing.(resolveTime := firing.resolveTime - {h});
      }
    } else if h !in pending {
      if r.duration == 0 {
        firing := firing.(triggerTime := firing.triggerTime[h := a.now]);
        fired := true;
      } else {
        pending := pending[h := a.now];
      }
    } else if a.reading(i) - pending[h] >= r.duration {
      firing := firing.(triggerTime := firing.triggerTime[h := a.now]);
      pending := pending - {h};
      fired := true;
    }
  }

  ghost predicate SamplesProcessed(r: CollectRule, a: Answer, n: nat, pending0: Times, firing0: EvaluatedRule,
                                   pending: Times, firing: EvaluatedRule)
    requires n <= |a.samples|
  {
    && Disjoint(pending, firing)
    && firing0.triggerTime.Keys <= firing.triggerTime.Keys
    && forall k :: TrackIn(pending, firing, k)
                == Samples(TrackIn(pending0, firing0, k), SeenAs(r, a, k), ReadingsOf(a, n, k))
  }

  lemma SampleProcessed(r: CollectRule, a: Answer, i: nat, pending0: Times, firing0: EvaluatedRule,
                        pending: Times, firing: EvaluatedRule, pending': Times, firing': EvaluatedRule)
    requires i < |a.samples|
    requires SamplesProcessed(r, a, i, pending0, firing0, pending, firing)
    requires Disjoint(pending', firing') && firing.triggerTime.Keys <= firing'.triggerTime.Keys
    requires var h := a.samples[i];
             forall k :: TrackIn(pending', firing', k)
                      == if k == h then Sample(TrackIn(pending, firing, h), SeenAs(r, a, h), a.reading(i))
                         else TrackIn(pending, firing, k)
    ensures SamplesProcessed(r, a, i + 1, pending0, firing0, pending', firing')
  {
    forall k
      ensures TrackIn(pending', firing', k)
           == Samples(TrackIn(pending0, firing0, k), SeenAs(r, a, k), ReadingsOf(a, i + 1, k))
    {
      if k == a.samples[i] {
        assert Init(ReadingsOf(a, i + 1, k)) == ReadingsOf(a, i, k);
      } else {
        assert ReadingsOf(a, i + 1, k) == ReadingsOf(a, i, k);
      }
    }
  }

  lemma MissingAfter(tracked: set<Labels>, samples: seq<Labels>, i: nat)
    requires i < |samples|
    ensures Missing(tracked, samples[..i + 1]) == Missing(tracked, samples[..i]) - {samples[i]}
  {
    assert samples[..i + 1] == samples[..i] + [samples[i]];
  }

  /** The loop over the samples of an answer: besides the new times, the tracked series the answer lacks. */
  method ProcessSamples(render: Render, r: CollectRule, a: Answer, pending0: Times, firing0: EvaluatedRule,
                        enabled0: Table)
    returns (pending: Times, firing: EvaluatedRule, enabled: Table, pendings: set<Labels>, firings: set<Labels>,
             isUpdate: bool)
    requires Disjoint(pending0, firing0)
    requires TableFollows(render, r, enabled0, enabled0, firing0.triggerTime.Keys)
    ensures SamplesProcessed(r, a, |a.samples|, pending0, firing0, pending, firing)
    ensures pendings == Missing(pending0.Keys, a.samples)
    ensures firings == Missing(firing0.triggerTime.Keys, a.samples)
    ensures TableFollows(render, r, enabled0, enabled, firing.triggerTime.Keys)
    ensures isUpdate <==> firing.triggerTime.Keys != firing0.triggerTime.Keys
  {
    pending, firing, enabled, isUpdate := pending0, firing0, enabled0, false;
    pendings, firings := pending.Keys, firing.triggerTime.Keys;
    for i := 0 to |a.samples|
      invariant SamplesProcessed(r, a, i, pending0, firing0, pending, firing)
      invariant pendings == Missing(pending0.Keys, a.samples[..i])
      invariant firings == Missing(firing0.triggerTime.Keys, a.samples[..i])
      invariant TableFollows(render, r, enabled0, enabled, firing.triggerTime.Keys)
      invariant isUpdate <==> firing.triggerTime.Keys != firing0.triggerTime.Keys
    {
      var h := a.samples[i];
      MissingAfter(pending0.Keys, a.samples, i);
      MissingAfter(firing0.triggerTime.Keys, a.samples, i);
      var pending', firing', fired := ProcessSample(r, a, i, h, pending, firing);
      SampleProcessed(r, a, i, pending0, firing0, pending, firing, pending', firing');
      pending, firing := pending', firing';
      // A pending series is never in `firings`, nor a firing one in `pendings`.
      pendings, firings := pendings - {h}, firings - {h};
      if fired {
        enabled := enabled[Key(r.name, h) := render(r, h)];
        isUpdate := true;
      }
    }
    assert a.samples[..|a.samples|] == a.samples;
  }

  /** The body of the loop over absent firing series; `dropped` is what it adds to the update flag. */
  method ResolveOne(r: CollectRule, a: Answer, k: Labels, firing0: EvaluatedRule)
    returns (firing: EvaluatedRule, dropped: bool)
    requires firing0.resolveTime.Keys <= firing0.triggerTime.Keys && k in firing0.triggerTime
    ensures firing.resolveTime.Keys <= firing.triggerTime.Keys
    ensures firing.triggerTime.Keys == if dropped then firing0.triggerTime.Keys - {k} else firing0.triggerTime.Keys
    ensures forall x :: TrackIn(map[], firing, x)
                     == if x == k then Absence(TrackIn(map[], firing0, k), SeenAs(r, a, k))
                        else TrackIn(map[], firing0, x)
  {
    firing, dropped := firing0, false;
    if k !in firing.resolveTime {
      firing := firing.(resolveTime := firing.resolveTime[k := a.now]);
    } else if a.absence(k) - firing.resolveTime[k] >= EXPIRE_DURATION {
      firing := EvaluatedRule(firing.triggerTime - {k}, firing.resolveTime - {k});
      dropped := true;
    }
  }

  ghost predicate AbsencesProcessed(r: CollectRule, a: Answer, done: set<Labels>, firing0: EvaluatedRule,
                                    firing: EvaluatedRule) {
    && firing.resolveTime.Keys <= firing.triggerTime.Keys <= firing0.triggerTime.Keys
    && forall k :: TrackIn(map[], firing, k)
                == if k in done then Absence(TrackIn(map[], firing0, k), SeenAs(r, a, k))
                   else TrackIn(map[], firing0, k)
  }

  lemma AbsenceProcessed(r: CollectRule, a: Answer, done: set<Labels>, k: Labels, firing0: EvaluatedRule,
                         firing: EvaluatedRule, firing': EvaluatedRule)
    requires AbsencesProcessed(r, a, done, firing0, firing) && k !in done
    requires firing'.resolveTime.Keys <= firing'.triggerTime.Keys <= firing.triggerTime.Keys
    requires forall x :: TrackIn(map[], firing', x)
                      == if x == k then Absence(TrackIn(map[], firing, k), SeenAs(r, a, k))
                         else TrackIn(map[], firing, x)
    ensures AbsencesProcessed(r, a, done + {k}, firing0, firing')
  {
  }

  /** The loop over the firing series the answer lacks: resolve them, or drop them when that is 15 minutes old. */
  method ResolveAbsent(render: Render, r: CollectRule, a: Answer, absent: set<Labels>, firing0: EvaluatedRule,
                       ghost base: Table, enabled0: Table)
    returns (firing: EvaluatedRule, enabled: Table, isUpdate: bool)
    requires firing0.resolveTime.Keys <= firing0.triggerTime.Keys && absent <= firing0.triggerTime.Keys
    requires TableFollows(render, r, base, enabled0, firing0.triggerTime.Keys)
    ensures AbsencesProcessed(r, a, absent, firing0, firing)
    ensures TableFollows(render, r, base, enabled, firing.triggerTime.Keys)
    ensures isUpdate <==> firing.triggerTime.Keys != firing0.triggerTime.Keys
  {
    firing, enabled, isUpdate := firing0, enabled0, false;
    var todo := absent;
    ghost var gone: set<Labels> := {};
    while todo != {}
      invariant todo <= absent && todo <= firing.triggerTime.Keys
      invariant AbsencesProcessed(r, a, absent - todo, firing0, firing)
      invariant TableFollows(render, r, base, enabled, firing.triggerTime.Keys)
      invariant gone <= firing0.triggerTime.Keys && firing.triggerTime.Keys == firing0.triggerTime.Keys - gone
      invariant isUpdate <==> gone != {}
      decreases |todo|
    {
      var k :| k in todo;
      var firing', dropped := ResolveOne(r, a, k, firing);
      AbsenceProcessed(r, a, absent - todo, k, firing0, firing, firing');
      TakeOne(absent, todo, k);
      if dropped {
        TableWithout(render, r, base, enabled, firing.triggerTime.Keys, k);
        enabled := enabled - {Key(r.name, k)};
        isUpdate := true;
        TakeMore(firing0.triggerTime.Keys, gone, k);
        gone := gone + {k};
      }
      todo, firing := todo - {k}, firing';
    }
    assert absent - {} == absent;
  }

  lemma SeriesEvaluated(r: CollectRule, a: Answer, pending0: Times, firing0: EvaluatedRule, pending1: Times,
                        firing1: EvaluatedRule, pending: Times, firing: EvaluatedRule, k: Labels)
    requires Disjoint(pending0, firing0)
    requires SamplesProcessed(r, a, |a.samples|, pending0, firing0, pending1, firing1)
    requires pending == pending1 - Missing(pending0.Keys, a.samples)
    requires AbsencesProcessed(r, a, Missing(firing0.triggerTime.Keys, a.samples), firing1, firing)
    ensures TrackIn(pending, firing, k) == Observe(TrackIn(pending0, firing0, k), SeenAs(r, a, k))
    ensures k in firing1.triggerTime && k !in firing0.triggerTime ==> k in firing.triggerTime
    ensures k in firing1.triggerTime && k !in firing.triggerTime ==> k in firing0.triggerTime
  {
    assert a.samples[..|a.samples|] == a.samples;
    NoReadings(a, |a.samples|, k);
    assert TrackIn(map[], firing, k)
        == if k in Missing(firing0.triggerTime.Keys, a.samples)
             then Absence(TrackIn(map[], firing1, k), SeenAs(r, a, k))
           else TrackIn(map[], firing1, k);
  }

  lemma RuleEvaluated(r: CollectRule, a: Answer, pending0: Times, firing0: EvaluatedRule, pending1: Times,
                      firing1: EvaluatedRule, pending: Times, firing: EvaluatedRule)
    requires Disjoint(pending0, firing0)
    requires SamplesProcessed(r, a, |a.samples|, pending0, firing0, pending1, firing1)
    requires pending == pending1 - Missing(pending0.Keys, a.samples)
    requires AbsencesProcessed(r, a, Missing(firing0.triggerTime.Keys, a.samples), firing1, firing)
    ensures Disjoint(pending, firing)
    ensures forall k :: TrackIn(pending, firing, k) == Observe(TrackIn(pending0, firing0, k), SeenAs(r, a, k))
    ensures firing.triggerTime.Keys == firing0.triggerTime.Keys
       <==> firing1.triggerTime.Keys == firing0.triggerTime.Keys && firing.triggerTime.Keys == firing1.triggerTime.Keys
  {
    forall k
      ensures TrackIn(pending, firing, k) == Observe(TrackIn(pending0, firing0, k), SeenAs(r, a, k))
      ensures k in firing1.triggerTime && k !in firing0.triggerTime ==> k in firing.triggerTime
      ensures k in firing1.triggerTime && k !in firing.triggerTime ==> k in firing0.triggerTime
    {
      SeriesEvaluated(r, a, pending0, firing0, pending1, firing1, pending, firing, k);
    }
    if firing.triggerTime.Keys == firing0.triggerTime.Keys {
      assert firing0.triggerTime.Keys <= firing1.triggerTime.Keys;
      forall k | k in firing1.triggerTime ensures k in firing0.triggerTime {}
    }
  }

  /** `evaluateRule` on the times of one rule name. */
  method EvaluateTimes(render: Render, r: CollectRule, a: Answer, pending0: Times, firing0: EvaluatedRule,
                       enabled0: Table)
    returns (pending: Times, firing: EvaluatedRule, enabled: Table, isUpdate: bool)
    requires Disjoint(pending0, firing0)
    requires TableFollows(render, r, enabled0, enabled0, firing0.triggerTime.Keys)
    ensures Disjoint(pending, firing)
    ensures forall k :: TrackIn(pending, firing, k) == Observe(TrackIn(pending0, firing0, k), SeenAs(r, a, k))
    ensures TableFollows(render, r, enabled0, enabled, firing.triggerTime.Keys)
    ensures isUpdate <==> firing.triggerTime.Keys != firing0.triggerTime.Keys
  {
    var pending1, firing1, enabled1, pendings, firings, fired :=
      ProcessSamples(render, r, a, pending0, firing0, enabled0);
    var dropped;
    pending := pending1 - pendings;
    firing, enabled, dropped := ResolveAbsent(render, r, a, firings, firing1, enabled0, enabled1);
    isUpdate := fired || dropped;
    RuleEvaluated(r, a, pending0, firing0, pending1, firing1, pending, firing);
  }

  // ---- the whole state -------------------------------------------------------------------------

  type PendingRules = map<string, Times>
  type FiringRules = map<string, EvaluatedRule>

  /** Where a series stands under the rules of a name. */
  function TrackAt(pending: PendingRules, firing: FiringRules, name: string, k: Labels): Track {
    if name in pending && name in firing then TrackIn(pending[name], firing[name], k) else Idle
  }

  ghost predicate TimesAndTableAgree(pending: PendingRules, firing: FiringRules, enabled: Table) {
    && pending.Keys == firing.Keys
    && (forall name | name in pending :: Disjoint(pending[name], firing[name]))
    && (forall key: Key :: key in enabled <==> IsOn(TrackAt(pending, firing, key.rule, key.labels)))
  }

  lemma KeyAgreesAfterRule(render: Render, r: CollectRule, pending: PendingRules, firing: FiringRules, enabled: Table,
                           p: Times, f: EvaluatedRule, enabled': Table, key: Key)
    requires TimesAndTableAgree(pending, firing, enabled) && r.name in pending
    requires TableFollows(render, r, enabled, enabled', f.triggerTime.Keys)
    ensures key in enabled' <==> IsOn(TrackAt(pending[r.name := p], firing[r.name := f], key.rule, key.labels))
  {
    if key.rule == r.name {
      assert key == Key(r.name, key.labels);
    } else {
      assert key in enabled' <==> key in enabled;
    }
  }

  lemma AgreeAfterRule(render: Render, r: CollectRule, pending: PendingRules, firing: FiringRules, enabled: Table,
                       p: Times, f: EvaluatedRule, enabled': Table)
    requires TimesAndTableAgree(pending, firing, enabled) && r.name in pending
    requires Disjoint(p, f)
    requires TableFollows(render, r, enabled, enabled', f.triggerTime.Keys)
    ensures TimesAndTableAgree(pending[r.name := p], firing[r.name := f], enabled')
  {
    var pending', firing' := pending[r.name := p], firing[r.name := f];
    assert pending'.Keys == pending.Keys && firing'.Keys == firing.Keys;
    assert forall name | name in pending' :: Disjoint(pending'[name], firing'[name]);
    forall key: Key
      ensures key in enabled' <==> IsOn(TrackAt(pending', firing', key.rule, key.labels))
    {
      KeyAgreesAfterRule(render, r, pending, firing, enabled, p, f, enabled', key);
    }
  }

  lemma KeysChangeWithFirings(render: Render, r: CollectRule, enabled: Table, on: set<Labels>, enabled': Table,
                              on': set<Labels>)
    requires TableFollows(render, r, enabled, enabled, on)
    requires TableFollows(render, r, enabled, enabled', on')
    ensures enabled'.Keys == enabled.Keys <==> on == on'
    ensures on == on' ==> enabled' == enabled
  {
    if enabled'.Keys == enabled.Keys {
      forall k ensures k in on' <==> k in on {
        assert Key(r.name, k) in enabled'.Keys <==> Key(r.name, k) in enabled.Keys;
      }
    }
    if on == on' {
      forall key: Key ensures key in enabled' <==> key in enabled {
        assert key.rule == r.name ==> key == Key(r.name, key.labels);
      }
    }
  }

  lemma TableOfRule(render: Render, r: CollectRule, pending: PendingRules, firing: FiringRules, enabled: Table)
    requires TimesAndTableAgree(pending, firing, enabled) && r.name in pending
    ensures TableFollows(render, r, enabled, enabled, firing[r.name].triggerTime.Keys)
  {
  }

  lemma RegisterName(pending: PendingRules, firing: FiringRules, enabled: Table, name: string)
    requires TimesAndTableAgree(pending, firing, enabled) && name !in pending
    ensures TimesAndTableAgree(pending[name := map[]], firing[name := EvaluatedRule(map[], map[])], enabled)
    ensures forall n, k :: TrackAt(pending[name := map[]], firing[name := EvaluatedRule(map[], map[])], n, k)
                        == TrackAt(pending, firing, n, k)
  {
    var pending', firing' := pending[name := map[]], firing[name := EvaluatedRule(map[], map[])];
    forall n, k ensures TrackAt(pending', firing', n, k) == TrackAt(pending, firing, n, k) {}
  }

  /** What a series saw in one round: the rules of the given name whose query succeeded, in order. */
  ghost function SeenIn(rules: seq<CollectRule>, answers: seq<Option<Answer>>, name: string, k: Labels): seq<Seen>
    requires |answers| == |rules|
  {
    if rules == [] then []
    else
      var before := SeenIn(Init(rules), Init(answers), name, k);
      if Last(rules).name == name && Last(answers).Some? then before + [SeenAs(Last(rules), Last(answers).value, k)]
      else before
  }

  lemma RoundContinues(rules: seq<CollectRule>, answers: seq<Option<Answer>>, i: nat)
    requires |answers| == |rules| && i < |rules|
    ensures forall name, k :: SeenIn(rules[..i + 1], answers[..i + 1], name, k)
              == if rules[i].name == name && answers[i].Some?
                 then SeenIn(rules[..i], answers[..i], name, k) + [SeenAs(rules[i], answers[i].value, k)]
                 else SeenIn(rules[..i], answers[..i], name, k)
  {
    assert Init(rules[..i + 1]) == rules[..i] && Init(answers[..i + 1]) == answers[..i];
  }

  lemma RunContinuesInRound(rules: seq<CollectRule>, answers: seq<Option<Answer>>, i: nat, name: string, k: Labels,
                            t: Track)
    requires |answers| == |rules| && i < |rules| && answers[i].Some?
    ensures var before := RunFrom(t, SeenIn(rules[..i], answers[..i], name, k));
            RunFrom(t, SeenIn(rules[..i + 1], answers[..i + 1], name, k))
            == if name == rules[i].name then Observe(before, SeenAs(rules[i], answers[i].value, k)) else before
  {
    RoundContinues(rules, answers, i);
    RunFromAppend(t, SeenIn(rules[..i], answers[..i], name, k), SeenAs(rules[i], answers[i].value, k));
  }

  ghost predicate WorkerForwards(enabled: Table, worker: Option<seq<string>>) {
    && (worker.Some? <==> Bag(enabled) != multiset{})
    && (worker.Some? ==> multiset(worker.value) == Bag(enabled))
  }

  // ---- runs --------------------------------------------------------------------------------------

  datatype State = State(pending: PendingRules, firing: FiringRules, enabled: Table, worker: Option<seq<string>>)

  datatype Event =
    | Registration
    | Round(rules: seq<CollectRule>, answers: seq<Option<Answer>>, startSucceeds: bool)

  ghost predicate Consistent(s: State) {
    TimesAndTableAgree(s.pending, s.firing, s.enabled)
  }

  ghost function StandingIn(s: State, name: string, k: Labels): Track {
    TrackAt(s.pending, s.firing, name, k)
  }

  /** The tables of two states that differ in one rule name only. */
  lemma KeysTell(s: State, s': State, name: string)
    requires Consistent(s) && Consistent(s')
    requires forall n, k | n != name :: StandingIn(s', n, k) == StandingIn(s, n, k)
    ensures s.enabled.Keys != s'.enabled.Keys <==>
              exists k :: IsOn(StandingIn(s, name, k)) != IsOn(StandingIn(s', name, k))
  {
    forall key: Key ensures key in s.enabled <==> IsOn(StandingIn(s, key.rule, key.labels)) {}
    forall key: Key ensures key in s'.enabled <==> IsOn(StandingIn(s', key.rule, key.labels)) {}
    if s.enabled.Keys != s'.enabled.Keys {
      var key :| key in s.enabled.Keys + s'.enabled.Keys && (key in s.enabled) != (key in s'.enabled);
      assert key.rule == name;
    }
    if k :| IsOn(StandingIn(s, name, k)) != IsOn(StandingIn(s', name, k)) {
      assert Key(name, k) in s.enabled <==> Key(name, k) !in s'.enabled;
    }
  }

  ghost predicate SeriesToggles(s: State, rules: seq<CollectRule>, answers: seq<Option<Answer>>, i: nat, k: Labels)
    requires |answers| == |rules| && i < |rules|
  {
    var name := rules[i].name;
    IsOn(RunFrom(StandingIn(s, name, k), SeenIn(rules[..i], answers[..i], name, k)))
    != IsOn(RunFrom(StandingIn(s, name, k), SeenIn(rules[..i + 1], answers[..i + 1], name, k)))
  }

  ghost predicate SameStandings(s: State, now: State) {
    forall name, k :: StandingIn(now, name, k) == StandingIn(s, name, k)
  }

  /** Every series moves by one observation under the rule's name and nowhere else. */
  ghost predicate Observed(s: State, r: CollectRule, a: Answer, now: State) {
    forall name, k :: StandingIn(now, name, k) ==
      if name == r.name then Observe(StandingIn(s, name, k), SeenAs(r, a, k)) else StandingIn(s, name, k)
  }

  lemma RuleIsStored(s: State, r: CollectRule, a: Answer, pending: Times, firing: EvaluatedRule, enabled: Table)
    requires Consistent(s) && r.name in s.pending
    requires forall k ::
             TrackIn(pending, firing, k) == Observe(TrackIn(s.pending[r.name], s.firing[r.name], k), SeenAs(r, a, k))
    ensures Observed(s, r, a, State(s.pending[r.name := pending], s.firing[r.name := firing], enabled, s.worker))
  {
  }

  ghost predicate RuleToggles(s: State, rules: seq<CollectRule>, answers: seq<Option<Answer>>, i: nat)
    requires |answers| == |rules| && i < |rules|
  {
    exists k :: SeriesToggles(s, rules, answers, i, k)
  }

  ghost predicate ChangesTableBy(s: State, rules: seq<CollectRule>, answers: seq<Option<Answer>>, n: nat)
    requires |answers| == |rules| && n <= |rules|
  {
    exists i | 0 <= i < n :: RuleToggles(s, rules, answers, i)
  }

  /** Some rule of the round makes a series start or stop firing, so that the table changes. */
  ghost predicate ChangesTable(s: State, rules: seq<CollectRule>, answers: seq<Option<Answer>>)
    requires |answers| == |rules|
  {
    ChangesTableBy(s, rules, answers, |rules|)
  }

  /** The standings once the first `i` rules of the round are evaluated. */
  ghost predicate StandsAfter(s: State, rules: seq<CollectRule>, answers: seq<Option<Answer>>, i: nat, now: State)
    requires |answers| == |rules| && i <= |rules|
  {
    forall name, k :: SeriesStandsAfter(s, rules, answers, i, now, name, k)
  }

  /** A table that no rule changed is the same. */
  ghost predicate TableAfter(s: State, rules: seq<CollectRule>, answers: seq<Option<Answer>>, i: nat, now: State)
    requires |answers| == |rules| && i <= |rules|
  {
    !ChangesTableBy(s, rules, answers, i) ==> now.enabled == s.enabled
  }

  ghost predicate SeriesStandsAfter(s: State, rules: seq<CollectRule>, answers: seq<Option<Answer>>, i: nat, now: State,
                                    name: string, k: Labels)
    requires |answers| == |rules| && i <= |rules|
  {
    StandingIn(now, name, k) == RunFrom(StandingIn(s, name, k), SeenIn(rules[..i], answers[..i], name, k))
  }

  lemma StandsAlike(s: State, rules: seq<CollectRule>, answers: seq<Option<Answer>>, i: nat, now: State, now': State)
    requires |answers| == |rules| && i <= |rules| && StandsAfter(s, rules, answers, i, now)
    requires now'.pending == now.pending && now'.firing == now.firing
    ensures StandsAfter(s, rules, answers, i, now')
  {
    forall name, k ensures SeriesStandsAfter(s, rules, answers, i, now', name, k) {
      assert SeriesStandsAfter(s, rules, answers, i, now, name, k);
    }
  }

  lemma RoundBegins(s: State, rules: seq<CollectRule>, answers: seq<Option<Answer>>)
    requires |answers| == |rules|
    ensures StandsAfter(s, rules, answers, 0, s) && !ChangesTableBy(s, rules, answers, 0)
  {
  }

  lemma FailedQueryIsSkipped(s: State, rules: seq<CollectRule>, answers: seq<Option<Answer>>, i: nat, now: State)
    requires |answers| == |rules| && i < |rules| && answers[i].None? && StandsAfter(s, rules, answers, i, now)
    ensures StandsAfter(s, rules, answers, i + 1, now)
    ensures ChangesTableBy(s, rules, answers, i + 1) <==> ChangesTableBy(s, rules, answers, i)
  {
    RoundContinues(rules, answers, i);
    var n := i + 1;
    forall name, k ensures SeriesStandsAfter(s, rules, answers, n, now, name, k) {
      assert SeriesStandsAfter(s, rules, answers, i, now, name, k);
    }
  }

  lemma RuleIsEvaluated(s: State, rules: seq<CollectRule>, answers: seq<Option<Answer>>, i: nat, before: State,
                        now: State)
    requires |answers| == |rules| && i < |rules| && answers[i].Some? && StandsAfter(s, rules, answers, i, before)
    requires Consistent(before) && Consistent(now)
    requires Observed(before, rules[i], answers[i].value, now)
    ensures StandsAfter(s, rules, answers, i + 1, now)
    ensures ChangesTableBy(s, rules, answers, i + 1) <==>
              ChangesTableBy(s, rules, answers, i) || before.enabled.Keys != now.enabled.Keys
  {
    var n := i + 1;
    forall name, k
      ensures SeriesStandsAfter(s, rules, answers, i, before, name, k)
      ensures SeriesStandsAfter(s, rules, answers, n, now, name, k)
    {
      assert SeriesStandsAfter(s, rules, answers, i, before, name, k);
      RunContinuesInRound(rules, answers, i, name, k, StandingIn(s, name, k));
    }
    KeysTell(before, now, rules[i].name);
    forall k
      ensures SeriesToggles(s, rules, answers, i, k)
         <==> IsOn(StandingIn(before, rules[i].name, k)) != IsOn(StandingIn(now, rules[i].name, k))
    {
      assert SeriesStandsAfter(s, rules, answers, i, before, rules[i].name, k);
      assert SeriesStandsAfter(s, rules, answers, n, now, rules[i].name, k);
    }
    assert RuleToggles(s, rules, answers, i) <==> before.enabled.Keys != now.enabled.Keys;
  }

  /** The worker takes over the table of a round that changed it, unless there is something to start and it fails. */
  ghost predicate HandsOver(s: State, e: Event, s': State) {
    && e.Round? && |e.answers| == |e.rules| && ChangesTable(s, e.rules, e.answers)
    && (e.startSucceeds || Bag(s'.enabled) == multiset{})
  }

  /** What the methods of the evaluator do to its state. */
  ghost predicate Step(s: State, e: Event, s': State) {
    && Consistent(s')
    && match e
       case Registration =>
         s'.enabled == s.enabled && s'.worker == s.worker && SameStandings(s, s')
       case Round(rules, answers, startSucceeds) =>
         && |answers| == |rules|
         && StandsAfter(s, rules, answers, |rules|, s')
         && (!ChangesTable(s, rules, answers) ==> s'.enabled == s.enabled)
         && if HandsOver(s, e, s') then WorkerForwards(s'.enabled, s'.worker) else s'.worker == s.worker
  }

  ghost predicate IsRun(states: seq<State>, events: seq<Event>) {
    && |states| == |events| + 1
    && states[0] == State(map[], map[], map[], None)
    && forall i | 0 <= i < |events| :: Step(states[i], events[i], states[i + 1])
  }

  /** Everything the rules of a name have seen of a series. */
  ghost function History(events: seq<Event>, name: string, k: Labels): seq<Seen> {
    if events == [] then []
    else
      var before := History(Init(events), name, k);
      match Last(events)
      case Registration => before
      case Round(rules, answers, _) => if |answers| == |rules| then before + SeenIn(rules, answers, name, k) else before
  }

  ghost predicate StartsSucceed(events: seq<Event>) {
    forall i | 0 <= i < |events| :: events[i].Round? ==> events[i].startSucceeds
  }

  /** In every reachable state: a series stands where its own history puts it, no series is both pending and firing,
      resolve times belong to firing series, the table holds exactly the firing series of all the rules
      ever registered, and if every start succeeded a worker runs exactly when there is something to
      forward, with the table's matches. */
  lemma {:induction false} ReachableStates(states: seq<State>, events: seq<Event>)
    requires IsRun(states, events)
    ensures Consistent(Last(states))
    ensures forall name, k :: StandingIn(Last(states), name, k) == Run(History(events, name, k))
    ensures StartsSucceed(events) ==> WorkerForwards(Last(states).enabled, Last(states).worker)
  {
    if events != [] {
      var s, e, s' := states[|events| - 1], Last(events), Last(states);
      assert IsRun(Init(states), Init(events)) by {
        assert forall i | 0 <= i < |Init(events)| :: Step(Init(states)[i], Init(events)[i], Init(states)[i + 1]);
      }
      ReachableStates(Init(states), Init(events));
      assert Step(s, e, s');
      forall name, k
        ensures StandingIn(s', name, k) == Run(History(events, name, k))
      {
        assert StandingIn(s, name, k) == Run(History(Init(events), name, k));
        if e.Round? {
          assert e.rules[..|e.rules|] == e.rules && e.answers[..|e.rules|] == e.answers;
          assert SeriesStandsAfter(s, e.rules, e.answers, |e.rules|, s', name, k);
          RunContinues(History(Init(events), name, k), SeenIn(e.rules, e.answers, name, k));
        }
      }
      assert StartsSucceed(events) ==> StartsSucceed(Init(events));
    }
  }

  /** A key is enabled exactly when the history of its series under its rule name has it firing. */
  lemma EnabledMeansFiring(states: seq<State>, events: seq<Event>, key: Key)
    requires IsRun(states, events)
    ensures key in Last(states).enabled <==> IsOn(Run(History(events, key.rule, key.labels)))
  {
    ReachableStates(states, events);
    assert StandingIn(Last(states), key.rule, key.labels) == Run(History(events, key.rule, key.labels));
  }

  /** The table of the last round that handed it over; the empty one before any did. */
  ghost function HandedTable(states: seq<State>, events: seq<Event>): Table
    requires |states| == |events| + 1
  {
    if events == [] then map[]
    else if HandsOver(states[|events| - 1], Last(events), Last(states)) then Last(states).enabled
    else HandedTable(Init(states), Init(events))
  }

  /** In every run, failed starts or not, the worker forwards the last table that was handed over.  So it forwards the
      current table exactly if that has the same matches. */
  lemma {:induction false} WorkerLagsExactly(states: seq<State>, events: seq<Event>)
    requires IsRun(states, events)
    ensures WorkerForwards(HandedTable(states, events), Last(states).worker)
    ensures WorkerForwards(Last(states).enabled, Last(states).worker)
       <==> Bag(Last(states).enabled) == Bag(HandedTable(states, events))
  {
    if events != [] {
      assert IsRun(Init(states), Init(events)) by {
        assert forall i | 0 <= i < |Init(events)| :: Step(Init(states)[i], Init(events)[i], Init(states)[i + 1]);
      }
      WorkerLagsExactly(Init(states), Init(events));
      assert Step(states[|events| - 1], Last(events), Last(states));
    }
  }

  class Evaluator {
    const render: Render
    var rules: seq<CollectRule>
    var pendingRules: map<string, Times>
    var firingRules: map<string, EvaluatedRule>
    var enabledMatches: Table
    /** The matchers last handed to the worker (`config.Matchers`). */
    var matchers: seq<string>
    /** The matchers the running worker forwards, if one runs. */
    var forwardWorker: Option<seq<string>>

    ghost predicate Valid()
      reads this
    {
      && TimesAndTableAgree(pendingRules, firingRules, enabledMatches)
      && (forall i | 0 <= i < |rules| :: rules[i].name in pendingRules)
    }

    ghost function View(): State
      reads this
    {
      State(pendingRules, firingRules, enabledMatches, forwardWorker)
    }

    constructor (render: Render)
      ensures Valid() && this.render == render
      ensures rules == [] && forwardWorker == None && enabledMatches == map[]
      ensures forall name, k :: StandingIn(View(), name, k) == Idle
    {
      this.render := render;
      rules, pendingRules, firingRules, enabledMatches := [], map[], map[], map[];
      matchers, forwardWorker := [], None;
    }

    /** `unmarshalCollectorRules`: a malformed rule stops the registration; names once registered keep their times. */
    method Register(texts: seq<Option<CollectRule>>) returns (ok: bool)
      requires Valid()
      modifies this`rules, this`pendingRules, this`firingRules
      ensures Valid()
      ensures ok <==> None !in texts
      ensures ok ==> |rules| == |texts| && forall i | 0 <= i < |texts| :: texts[i] == Some(rules[i])
      ensures old(pendingRules.Keys) <= pendingRules.Keys
      ensures SameStandings(old(View()), View())
    {
      rules := [];
      for i := 0 to |texts|
        invariant Valid()
        invariant None !in texts[..i]
        invariant |rules| == i && forall j | 0 <= j < i :: texts[j] == Some(rules[j])
        invariant old(pendingRules.Keys) <= pendingRules.Keys
        invariant SameStandings(old(View()), View())
      {
        if texts[i].None? {
          return false;
        }
        var rule := texts[i].value;
        rules := rules + [rule];
        if rule.name !in pendingRules {
          RegisterName(pendingRules, firingRules, enabledMatches, rule.name);
          pendingRules := pendingRules[rule.name := map[]];
          firingRules := firingRules[rule.name := EvaluatedRule(map[], map[])];
        }
      }
      return true;
    }

    /** `evaluateRule`: every series moves by one observation under the rule's name and nowhere else, and the
        update flag says exactly whether the set of enabled keys changed. */
    method EvaluateRule(r: CollectRule, a: Answer) returns (isUpdate: bool)
      requires Valid() && r.name in pendingRules
      modifies this`pendingRules, this`firingRules, this`enabledMatches
      ensures Valid() && pendingRules.Keys == old(pendingRules.Keys)
      ensures Observed(old(View()), r, a, View())
      ensures isUpdate <==> enabledMatches.Keys != old(enabledMatches.Keys)
      ensures !isUpdate ==> enabledMatches == old(enabledMatches)
      ensures forall key | key in enabledMatches :: enabledMatches[key] ==
                if key in old(enabledMatches) then old(enabledMatches)[key] else render(r, key.labels)
    {
      TableOfRule(render, r, pendingRules, firingRules, enabledMatches);
      var pending, firing, enabled;
      pending, firing, enabled, isUpdate :=
        EvaluateTimes(render, r, a, pendingRules[r.name], firingRules[r.name], enabledMatches);
      AgreeAfterRule(render, r, pendingRules, firingRules, enabledMatches, pending, firing, enabled);
      KeysChangeWithFirings(render, r, enabledMatches, firingRules[r.name].triggerTime.Keys, enabled,
                            firing.triggerTime.Keys);
      RuleIsStored(View(), r, a, pending, firing, enabled);
      pendingRules := pendingRules[r.name := pending];
      firingRules := firingRules[r.name := firing];
      enabledMatches := enabled;
    }
  
    /** `getMatches`: the entries of the table, in whatever order it is iterated. */
    method GetMatches() returns (r: seq<string>)
      ensures multiset(r) == Bag(enabledMatches)
    {
      r := [];
      var left := enabledMatches;
      while left != map[]
        invariant multiset(r) + Bag(left) == Bag(enabledMatches)
        decreases left.Keys
      {
        var k :| k in left;
        BagWithout(left, k);
        r := r + left[k];
        left := left - {k};
      }
    }

    /** `startWorker`: start a worker with the current matchers, or hand them to the running one. */
    method StartWorker(succeeds: bool)
      modifies this`forwardWorker
      ensures forwardWorker == if succeeds then Some(matchers) else old(forwardWorker)
    {
      if forwardWorker == None {
        if succeeds {
          forwardWorker := Some(matchers);
        }
      } else {
        if succeeds {
          forwardWorker := Some(matchers);
        }
      }
    }

    /** The body of the loop of `evaluate` over the rules, in a round that began in state `was`. */
    method EvaluateNext(i: nat, answers: seq<Option<Answer>>, ghost was: State) returns (isUpdate: bool)
      requires Valid() && |answers| == |rules| && i < |rules|
      requires StandsAfter(was, rules, answers, i, View()) && TableAfter(was, rules, answers, i, View())
      modifies this`pendingRules, this`firingRules, this`enabledMatches
      ensures Valid() && pendingRules.Keys == old(pendingRules.Keys)
      ensures StandsAfter(was, rules, answers, i + 1, View()) && TableAfter(was, rules, answers, i + 1, View())
      ensures ChangesTableBy(was, rules, answers, i + 1) <==> ChangesTableBy(was, rules, answers, i) || isUpdate
    {
      ghost var before := View();
      if answers[i].None? {
        FailedQueryIsSkipped(was, rules, answers, i, before);
        return false;
      }
      isUpdate := EvaluateRule(rules[i], answers[i].value);
      RuleIsEvaluated(was, rules, answers, i, before, View());
    }

    /** The loop of `evaluate` over the rules; a failed query is skipped. */
    method EvaluateRules(answers: seq<Option<Answer>>) returns (isUpdate: bool)
      requires Valid() && |answers| == |rules|
      modifies this`pendingRules, this`firingRules, this`enabledMatches
      ensures Valid()
      ensures StandsAfter(old(View()), rules, answers, |rules|, View())
      ensures isUpdate <==> ChangesTable(old(View()), rules, answers)
      ensures TableAfter(old(View()), rules, answers, |rules|, View())
    {
      isUpdate := false;
      ghost var was := View();
      RoundBegins(was, rules, answers);
      for i := 0 to |rules|
        invariant Valid()
        invariant StandsAfter(was, rules, answers, i, View())
        invariant isUpdate <==> ChangesTableBy(was, rules, answers, i)
        invariant TableAfter(was, rules, answers, i, View())
      {
        var updated := EvaluateNext(i, answers, was);
        if updated {
          isUpdate := true;
        }
      }
    }

    /** The end of `evaluate`: after an update the worker is stopped, or restarted with the new matchers. */
    method UpdateWorker(startSucceeds: bool)
      modifies this`matchers, this`forwardWorker
      ensures startSucceeds || Bag(enabledMatches) == multiset{} ==> WorkerForwards(enabledMatches, forwardWorker)
      ensures !startSucceeds && Bag(enabledMatches) != multiset{} ==> forwardWorker == old(forwardWorker)
    {
      matchers := GetMatches();
      if |matchers| == 0 {
        assert matchers == [];
        if forwardWorker != None {
          forwardWorker := None;
        }
      } else {
        assert matchers[0] in multiset(matchers);
        StartWorker(startSucceeds);
      }
    }

    /** `evaluate`: one round. */
    method Evaluate(answers: seq<Option<Answer>>, startSucceeds: bool) returns (isUpdate: bool)
      requires Valid() && |answers| == |rules|
      modifies this`pendingRules, this`firingRules, this`enabledMatches, this`matchers, this`forwardWorker
      ensures Valid()
      ensures Step(old(View()), Round(rules, answers, startSucceeds), View())
      ensures isUpdate <==> ChangesTable(old(View()), rules, answers)
    {
      isUpdate := EvaluateRules(answers);
      ghost var evaluated := View();
      if isUpdate {
        UpdateWorker(startSucceeds);
      }
      assert Consistent(View());
      StandsAlike(old(View()), rules, answers, |rules|, evaluated, View());
    }
  }
}
