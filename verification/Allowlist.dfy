/** The managed-cluster label allowlist: every proxy merges the labels it sees into one shared, versioned
    ConfigMap, with optimistic concurrency. */
module Allowlist {
  import opened Wrappers
  import opened Sorted

  /** `labels` and `ignore_labels`. */
  datatype Lists = Lists(labels: seq<string>, ignored: seq<string>)

  const REQUIRED_LABEL_LIST := ["name", "cluster.open-cluster-management.io/clusterset"]

  ghost function Tracked(l: Lists): set<string> {
    Elements(l.labels) + Elements(l.ignored)
  }

  /** Sorted, duplicate-free and disjoint: the shape every written pair has. */
  ghost predicate Canonical(l: Lists) {
    StrictlySorted(l.labels) && StrictlySorted(l.ignored) && Elements(l.labels) !! Elements(l.ignored)
  }

  /** The labels of the clusters a proxy sees, and the required ones. */
  ghost function Needed(clusters: map<string, set<string>>): set<string> {
    LabelsOf(clusters, clusters.Keys) + Elements(REQUIRED_LABEL_LIST)
  }

  ghost function LabelsOf(clusters: map<string, set<string>>, names: set<string>): set<string>
    requires names <= clusters.Keys
  {
    set c, l | c in names && l in clusters[c] :: l
  }

  /** Needed labels that are in neither list but were last known to be ignored. */
  ghost function BackToIgnored(cur: Lists, last: Lists, needed: set<string>): set<string> {
    set l | l in needed && l !in Tracked(cur) && l !in last.labels && l in last.ignored
  }

  ghost function Generated(cur: Lists, last: Lists, needed: set<string>): Lists {
    var ignored := Elements(cur.ignored) + BackToIgnored(cur, last, needed);
    Lists(SortedList(Tracked(cur) + needed - ignored), SortedList(ignored))
  }

  // ---- the code --------------------------------------------------------------------------------

  lemma LabelsOfOneMore(clusters: map<string, set<string>>, names: set<string>, c: string)
    requires names <= clusters.Keys && c in clusters
    ensures LabelsOf(clusters, names + {c}) == LabelsOf(clusters, names) + clusters[c]
  {
    forall l | l in LabelsOf(clusters, names) + clusters[c] ensures l in LabelsOf(clusters, names + {c}) {
      if l in clusters[c] { assert c in names + {c}; }
      else { var d :| d in names && l in clusters[d]; assert d in names + {c}; }
    }
  }

  method ClusterLabels(clusters: map<string, set<string>>) returns (labels: set<string>)
    ensures labels == LabelsOf(clusters, clusters.Keys)
  {
    labels := {};
    var todo := clusters.Keys;
    ghost var done: set<string> := {};
    while todo != {}
      invariant done + todo == clusters.Keys
      invariant labels == LabelsOf(clusters, done)
      decreases |todo|
    {
      var c :| c in todo;
      LabelsOfOneMore(clusters, done, c);
      todo, done := todo - {c}, done + {c};
      labels := labels + clusters[c];
    }
    assert done == clusters.Keys;
  }

  method NeededLabels(clusters: map<string, set<string>>) returns (needed: set<string>)
    ensures needed == Needed(clusters)
  {
    needed := ClusterLabels(clusters);
    ghost var base := needed;
    for i := 0 to |REQUIRED_LABEL_LIST|
      invariant needed == base + Elements(REQUIRED_LABEL_LIST[..i])
    {
      assert Elements(REQUIRED_LABEL_LIST[..i + 1]) == Elements(REQUIRED_LABEL_LIST[..i]) + {REQUIRED_LABEL_LIST[i]};
      needed := needed + {REQUIRED_LABEL_LIST[i]};
    }
    assert REQUIRED_LABEL_LIST[..|REQUIRED_LABEL_LIST|] == REQUIRED_LABEL_LIST;
  }

  /** Where the self-healing loop puts one needed label. */
  lemma HealOne(cur: Lists, last: Lists, needed: set<string>, todo: set<string>, l: string)
    requires todo <= needed && l in todo
    ensures var back := BackToIgnored(cur, last, needed);
            && back - (todo - {l}) == (if l in back then back - todo + {l} else back - todo)
            && needed - (todo - {l}) - Tracked(cur) - back
               == if l in Tracked(cur) || l in back then needed - todo - Tracked(cur) - back
                  else needed - todo - Tracked(cur) - back + {l}
  {
  }

  /** The self-healing loop: needed labels in neither list go where they were last known, or to the labels. */
  method SelfHeal(cur: Lists, last: Lists, needed: set<string>) returns (allowed: set<string>, ignored: set<string>)
    ensures ignored == Elements(cur.ignored) + BackToIgnored(cur, last, needed)
    ensures allowed == Elements(cur.labels) + (needed - Tracked(cur) - BackToIgnored(cur, last, needed))
  {
    allowed, ignored := Elements(cur.labels), Elements(cur.ignored);
    ghost var back := BackToIgnored(cur, last, needed);
    var todo := needed;
    while todo != {}
      invariant todo <= needed
      invariant ignored == Elements(cur.ignored) + (back - todo)
      invariant allowed == Elements(cur.labels) + (needed - todo - Tracked(cur) - back)
      decreases |todo|
    {
      var l :| l in todo;
      HealOne(cur, last, needed, todo, l);
      todo := todo - {l};
      if l !in allowed && l !in ignored {
        if l in last.labels {
          allowed := allowed + {l};
        } else if l in last.ignored {
          ignored := ignored + {l};
        } else {
          allowed := allowed + {l};
        }
      }
    }
    assert back - {} == back && needed - {} == needed;
  }

  /** `generateAllowList`. */
  method GenerateAllowList(cur: Lists, last: Lists, clusters: map<string, set<string>>) returns (r: Lists)
    ensures r == Generated(cur, last, Needed(clusters))
  {
    var needed := NeededLabels(clusters);
    var allowed, ignored := SelfHeal(cur, last, needed);
    assert allowed - ignored == Tracked(cur) + needed - ignored;
    var labels := SortedKeys(allowed - ignored);
    var ignoredLabels := SortedKeys(ignored);
    r := Lists(labels, ignoredLabels);
  }

  // ---- what one merge does ---------------------------------------------------------------------

  /** A merge loses no label, adds exactly the needed ones, and leaves the lists canonical. */
  lemma GeneratedIsCanonicalUnion(cur: Lists, last: Lists, needed: set<string>)
    ensures Canonical(Generated(cur, last, needed))
    ensures Tracked(Generated(cur, last, needed)) == Tracked(cur) + needed
  {
  }

  /** A stored label stays where it is, and being ignored wins over being listed. */
  ghost predicate KeepsLists(before: Lists, after: Lists) {
    && (forall l | l in before.ignored :: l in after.ignored && l !in after.labels)
    && (forall l | l in before.labels && l !in before.ignored :: l in after.labels && l !in after.ignored)
  }

  lemma StoredLabelsStay(cur: Lists, last: Lists, needed: set<string>)
    ensures KeepsLists(cur, Generated(cur, last, needed))
  {
    var r := Generated(cur, last, needed);
    forall l | l in cur.ignored ensures l in r.ignored && l !in r.labels {
      assert l in Elements(cur.ignored) && l in Elements(r.ignored);
    }
    forall l | l in cur.labels && l !in cur.ignored ensures l in r.labels && l !in r.ignored {
      assert l in Elements(cur.labels) && l in Elements(r.labels);
    }
  }

  /** A merge changes nothing exactly when the lists are canonical and nothing needed is missing. */
  lemma FixpointExactly(cur: Lists, last: Lists, needed: set<string>)
    ensures Generated(cur, last, needed) == cur <==> Canonical(cur) && needed <= Tracked(cur)
  {
    GeneratedIsCanonicalUnion(cur, last, needed);
    if Canonical(cur) && needed <= Tracked(cur) {
      assert BackToIgnored(cur, last, needed) == {};
      SortedListIs(cur.ignored, Elements(cur.ignored) + {});
      assert Tracked(cur) + needed - Elements(cur.ignored) == Elements(cur.labels);
      SortedListIs(cur.labels, Elements(cur.labels));
      assert Elements(cur.ignored) + {} == Elements(cur.ignored);
    }
    if Generated(cur, last, needed) == cur {
      assert Tracked(cur) == Tracked(cur) + needed;
    }
  }

  /** A needed label that vanished from both lists returns to the list it was last known in. */
  lemma SelfHeals(cur: Lists, last: Lists, needed: set<string>, l: string)
    requires Canonical(last) && l in needed && l !in Tracked(cur)
    ensures l in Elements(Generated(cur, last, needed).ignored) <==> l in last.ignored
    ensures l in Elements(Generated(cur, last, needed).labels) <==> l !in last.ignored
  {
    assert l in last.labels ==> l in Elements(last.labels);
    assert l in last.ignored ==> l in Elements(last.ignored);
  }

  // ---- the shared ConfigMap --------------------------------------------------------------------

  /** The stored pair of lists, or none when the stored text does not parse. */
  datatype ConfigMap = ConfigMap(version: nat, data: Option<Lists>)

  /** Where a proxy is in its retry loop.  `leftover` is the list generated by an earlier attempt. */
  datatype Phase =
    | Resting
    | Reading(needed: set<string>, leftover: Option<Lists>)
    | Writing(needed: set<string>, version: nat, seen: Lists, generated: Lists)

  /** What a proxy needs for the clusters it sees, its in-memory allowlist, and its phase.  Syncs of one process may
      overlap; each then counts as a proxy of its own, whose memory and view others can change at any time. */
  datatype Proxy = Proxy(view: set<string>, memory: Lists, phase: Phase)

  datatype System = System(cm: ConfigMap, proxies: seq<Proxy>, writes: nat)

  datatype Event =
    | Start(p: nat)
    | Get(p: nat)
    /** The API server's answer may be lost although the update was applied. */
    | Update(p: nat, answered: bool)
    | GiveUp(p: nat)
    | ViewChange(p: nat, view: set<string>)
    | MemoryChange(p: nat, memory: Lists)
    | OutsideEdit(data: Option<Lists>)

  ghost function Next(s: System, e: Event): System {
    if !e.OutsideEdit? && e.p >= |s.proxies| then s
    else
      match e
      case Start(p) =>
        var x := s.proxies[p];
        if x.phase.Resting? then s.(proxies := s.proxies[p := x.(phase := Reading(x.view, None))]) else s
      case Get(p) => s.(proxies := s.proxies[p := AfterGet(s.cm, s.proxies[p])])
      case Update(p, answered) =>
        var x := s.proxies[p];
        if !x.phase.Writing? then s
        else if x.phase.version != s.cm.version then
          s.(proxies := s.proxies[p := x.(phase := Reading(x.phase.needed, Some(x.phase.generated)))])
        else
          System(ConfigMap(s.cm.version + 1, Some(x.phase.generated)),
                 s.proxies[p := x.(phase := Resting, memory := if answered then x.phase.generated else x.memory)],
                 s.writes + 1)
      case GiveUp(p) => s.(proxies := s.proxies[p := s.proxies[p].(phase := Resting)])
      case ViewChange(p, view) =>
        s.(proxies := s.proxies[p := s.proxies[p].(view := view)])
      case MemoryChange(p, memory) =>
        s.(proxies := s.proxies[p := s.proxies[p].(memory := memory)])
      case OutsideEdit(data) => s.(cm := ConfigMap(s.cm.version + 1, data))
  }

  /** Reading, merging and deciding, as one retry attempt does it. */
  ghost function AfterGet(cm: ConfigMap, x: Proxy): Proxy {
    if !x.phase.Reading? then x
    else if cm.data.None? then
      x.(phase := Resting, memory := if x.phase.leftover.Some? then x.phase.leftover.value else x.memory)
    else
      var cur := cm.data.value;
      var merged := Generated(cur, x.memory, x.phase.needed);
      if merged == cur then x.(phase := Resting, memory := cur)
      else x.(phase := Writing(x.phase.needed, cm.version, cur, merged))
  }

  ghost function RunOf(s: System, events: seq<Event>): System {
    if events == [] then s else Next(RunOf(s, events[..|events| - 1]), events[|events| - 1])
  }

  ghost predicate Initial(s: System) {
    s.writes == 0 && forall i | 0 <= i < |s.proxies| :: s.proxies[i].phase.Resting?
  }

  /** A pending write was generated from what it read, and it read the current lists unless the version moved on. */
  ghost predicate HonestProxy(cm: ConfigMap, x: Proxy) {
    x.phase.Writing? ==>
      && x.phase.version <= cm.version
      && (x.phase.version == cm.version ==> cm.data == Some(x.phase.seen))
      && Canonical(x.phase.generated)
      && (Canonical(x.phase.seen) ==> !(x.phase.needed <= Tracked(x.phase.seen)))
      && Tracked(x.phase.generated) == Tracked(x.phase.seen) + x.phase.needed
      && KeepsLists(x.phase.seen, x.phase.generated)
  }

  ghost predicate Honest(s: System) {
    forall i | 0 <= i < |s.proxies| :: HonestProxy(s.cm, s.proxies[i])
  }

  lemma NextIsHonest(s: System, e: Event)
    requires Honest(s)
    ensures Honest(Next(s, e))
  {
    if e.Get? && e.p < |s.proxies| {
      var x := s.proxies[e.p];
      if x.phase.Reading? && s.cm.data.Some? {
        GeneratedIsCanonicalUnion(s.cm.data.value, x.memory, x.phase.needed);
        StoredLabelsStay(s.cm.data.value, x.memory, x.phase.needed);
        FixpointExactly(s.cm.data.value, x.memory, x.phase.needed);
      }
    }
  }

  lemma {:induction false} RunIsHonest(s: System, events: seq<Event>)
    requires Initial(s)
    ensures Honest(RunOf(s, events))
  {
    if events != [] {
      RunIsHonest(s, events[..|events| - 1]);
      NextIsHonest(RunOf(s, events[..|events| - 1]), events[|events| - 1]);
    }
  }

  /** In every run and for every interleaving: no step of a proxy takes a label away or moves it to the other list, and
      whatever it writes is canonical and covers what that proxy needed when its sync began. */
  lemma NoProxyStepShrinks(s: System, events: seq<Event>, e: Event)
    requires Initial(s) && !e.OutsideEdit?
    ensures var now, next := RunOf(s, events), RunOf(s, events + [e]);
            next.cm != now.cm ==>
              && e.Update? && e.p < |now.proxies| && now.proxies[e.p].phase.Writing?
              && now.cm.data.Some? && next.cm.data.Some?
              && Canonical(next.cm.data.value)
              && Tracked(next.cm.data.value) == Tracked(now.cm.data.value) + now.proxies[e.p].phase.needed
              && KeepsLists(now.cm.data.value, next.cm.data.value)
  {
    assert (events + [e])[..|events|] == events;
    RunIsHonest(s, events);
  }

  /** What is needed: the labels of some visible cluster, and the two required ones. */
  lemma NeededExactly(clusters: map<string, set<string>>, l: string)
    ensures l in Needed(clusters) <==>
              || l == "name" || l == "cluster.open-cluster-management.io/clusterset"
              || exists c :: c in clusters && l in clusters[c]
  {
    assert REQUIRED_LABEL_LIST[0] in REQUIRED_LABEL_LIST && REQUIRED_LABEL_LIST[1] in REQUIRED_LABEL_LIST;
  }

  /** A sync that ends, other than by giving up or on a lost answer, leaves the proxy with the stored lists in memory:
      those it found in order, or those it wrote. */
  lemma MemoryFollows(s: System, events: seq<Event>, e: Event)
    requires Initial(s) && (e.Get? || (e.Update? && e.answered))
    requires var now, next := RunOf(s, events), RunOf(s, events + [e]);
             && e.p < |now.proxies| && !now.proxies[e.p].phase.Resting? && next.proxies[e.p].phase.Resting?
             && now.cm.data.Some?
    ensures var next := RunOf(s, events + [e]); next.cm.data == Some(next.proxies[e.p].memory)
  {
    assert (events + [e])[..|events|] == events;
  }

  /** When a write meets a newer version and the text found on the next attempt does not parse, the memory takes what
      that write would have stored. */
  lemma UnreadableAfterConflict(s: System, p: nat, answered: bool)
    requires p < |s.proxies| && s.proxies[p].phase.Writing? && s.proxies[p].phase.version != s.cm.version
    requires s.cm.data.None?
    ensures var next := Next(Next(s, Update(p, answered)), Get(p));
            next.proxies[p].phase.Resting? && next.proxies[p].memory == s.proxies[p].phase.generated && next.cm == s.cm
  {
  }

  // ---- the number of writes --------------------------------------------------------------------

  ghost predicate Quiet(events: seq<Event>) {
    forall i | 0 <= i < |events| :: !events[i].ViewChange? && !events[i].OutsideEdit?
  }

  /** All that the proxies together ever ask for. */
  ghost function AllNeeded(proxies: seq<Proxy>): set<string> {
    set i, l | 0 <= i < |proxies| && l in proxies[i].view :: l
  }

  ghost function MissingLabels(all: set<string>, l: Lists): set<string> {
    all - Tracked(l)
  }

  ghost predicate AsksFor(all: set<string>, x: Proxy) {
    && x.view <= all
    && (x.phase.Reading? || x.phase.Writing? ==> x.phase.needed <= all)
  }

  /** Every write either adds a missing label, or is the one that makes the lists canonical. */
  ghost predicate WithinBudget(all: set<string>, start: Lists, s: System) {
    && s.cm.data.Some?
    && (forall i | 0 <= i < |s.proxies| :: AsksFor(all, s.proxies[i]))
    && (Canonical(start) ==> Canonical(s.cm.data.value))
    && s.writes + |MissingLabels(all, s.cm.data.value)|
       <= |MissingLabels(all, start)| + if Canonical(s.cm.data.value) && !Canonical(start) then 1 else 0
  }

  /** A write never adds to what is missing, and takes something away if the lists were canonical. */
  lemma WriteReducesMissing(all: set<string>, cm: ConfigMap, x: Proxy)
    requires HonestProxy(cm, x) && AsksFor(all, x) && x.phase.Writing? && x.phase.version == cm.version
    ensures var before, after := x.phase.seen, x.phase.generated;
            |MissingLabels(all, after)| + (if Canonical(before) then 1 else 0) <= |MissingLabels(all, before)|
  {
    var before, after := x.phase.seen, x.phase.generated;
    SubsetSize(MissingLabels(all, after), MissingLabels(all, before));
    if Canonical(before) {
      var l :| l in x.phase.needed && l !in Tracked(before);
      assert l in MissingLabels(all, before) && l !in MissingLabels(all, after);
    }
  }

  lemma NextAsksForNoMore(all: set<string>, s: System, e: Event)
    requires forall i | 0 <= i < |s.proxies| :: AsksFor(all, s.proxies[i])
    requires !e.ViewChange? && !e.OutsideEdit?
    ensures forall i | 0 <= i < |Next(s, e).proxies| :: AsksFor(all, Next(s, e).proxies[i])
  {
    if e.p < |s.proxies| { assert AsksFor(all, s.proxies[e.p]); }
  }

  lemma NextStaysWithinBudget(all: set<string>, start: Lists, s: System, e: Event)
    requires Honest(s) && WithinBudget(all, start, s)
    requires !e.ViewChange? && !e.OutsideEdit?
    ensures WithinBudget(all, start, Next(s, e))
  {
    var s' := Next(s, e);
    NextAsksForNoMore(all, s, e);
    if e.p < |s.proxies| && e.Update? && s.proxies[e.p].phase.Writing? && s.proxies[e.p].phase.version == s.cm.version {
      var x := s.proxies[e.p];
      assert AsksFor(all, x) && HonestProxy(s.cm, x);
      WriteReducesMissing(all, s.cm, x);
      assert s'.cm.data == Some(x.phase.generated) && s.cm.data == Some(x.phase.seen) && s'.writes == s.writes + 1;
    } else {
      assert s'.cm == s.cm && s'.writes == s.writes;
    }
  }

  /** With fixed cluster views and no outside edits, at most one write for each label initially missing ever
      happens, and one more if the lists were not canonical to begin with. */
  lemma WritesAreBounded(s: System, events: seq<Event>)
    requires Initial(s) && Quiet(events) && s.cm.data.Some?
    ensures var start := s.cm.data.value;
            RunOf(s, events).writes
            <= |MissingLabels(AllNeeded(s.proxies), start)| + if Canonical(start) then 0 else 1
  {
    RunStaysWithinBudget(s, events);
  }

  lemma {:induction false} RunStaysWithinBudget(s: System, events: seq<Event>)
    requires Initial(s) && Quiet(events) && s.cm.data.Some?
    ensures WithinBudget(AllNeeded(s.proxies), s.cm.data.value, RunOf(s, events))
  {
    var all, start := AllNeeded(s.proxies), s.cm.data.value;
    if events == [] {
      forall i | 0 <= i < |s.proxies| ensures AsksFor(all, s.proxies[i]) {
        assert s.proxies[i].phase.Resting?;
        forall l | l in s.proxies[i].view ensures l in all {}
      }
    } else {
      var before := events[..|events| - 1];
      RunStaysWithinBudget(s, before);
      RunIsHonest(s, before);
      NextStaysWithinBudget(all, start, RunOf(s, before), events[|events| - 1]);
    }
  }

  // ---- the informer object ---------------------------------------------------------------------

  predicate WordChar(c: char) {
    '0' <= c <= '9' || 'A' <= c <= 'Z' || 'a' <= c <= 'z' || c == '_'
  }

  /** `promLabelRegex.ReplaceAllString(label, "_")`: each run of other characters becomes one underscore. */
  function Sanitized(s: string): string
    decreases |s|
  {
    if s == "" then ""
    else if WordChar(s[0]) then [s[0]] + Sanitized(s[1..])
    else "_" + Sanitized(SkipOthers(s))
  }

  function SkipOthers(s: string): (r: string)
    ensures |r| <= |s| && (s != "" && !WordChar(s[0]) ==> |r| < |s|)
  {
    if s != "" && !WordChar(s[0]) then SkipOthers(s[1..]) else s
  }

  /** A sanitized label consists of word characters only, and sanitizing it again changes nothing. */
  lemma {:induction false} SanitizedIsClean(s: string)
    ensures forall i | 0 <= i < |Sanitized(s)| :: WordChar(Sanitized(s)[i])
    ensures Sanitized(Sanitized(s)) == Sanitized(s)
    decreases |s|
  {
    if s != "" {
      var rest := if WordChar(s[0]) then s[1..] else SkipOthers(s);
      SanitizedIsClean(rest);
      assert Sanitized(s)[1..] == Sanitized(rest);
    }
  }

  predicate AllWordChars(s: string) {
    forall i | 0 <= i < |s| :: WordChar(s[i])
  }

  lemma SanitizedRun(others: string, rest: string)
    requires others != "" && forall i | 0 <= i < |others| :: !WordChar(others[i])
    requires rest != "" ==> WordChar(rest[0])
    ensures Sanitized(others + rest) == "_" + Sanitized(rest)
  {
    SkipsRun(others, rest);
  }

  /** Word characters stay as they are, and a whole run of others makes one underscore. */
  lemma {:induction false} SanitizedExactly(word: string, others: string, rest: string)
    requires AllWordChars(word) && (forall i | 0 <= i < |others| :: !WordChar(others[i]))
    requires rest != "" ==> WordChar(rest[0])
    ensures Sanitized(word + (others + rest)) == word + ((if others == "" then "" else "_") + Sanitized(rest))
    decreases |word|
  {
    if word != "" {
      SanitizedExactly(word[1..], others, rest);
      assert (word + (others + rest))[1..] == word[1..] + (others + rest);
    } else {
      assert word + (others + rest) == others + rest;
      if others != "" { SanitizedRun(others, rest); } else { assert others + rest == rest; }
    }
  }

  lemma {:induction false} SkipsRun(others: string, rest: string)
    requires forall i | 0 <= i < |others| :: !WordChar(others[i])
    requires rest != "" ==> WordChar(rest[0])
    ensures SkipOthers(others + rest) == rest
  {
    if others != "" {
      SkipsRun(others[1..], rest);
      assert (others + rest)[1..] == others[1..] + rest;
    } else {
      assert others + rest == rest;
    }
  }

  class ManagedClusterInformer {
    var inMemoryAllowlist: Lists
    var regexLabelList: seq<string>

    ghost predicate Valid()
      reads this
    {
      && |regexLabelList| == |inMemoryAllowlist.labels|
      && forall i | 0 <= i < |regexLabelList| :: regexLabelList[i] == Sanitized(inMemoryAllowlist.labels[i])
    }

    constructor ()
      ensures Valid() && inMemoryAllowlist == Lists([], [])
    {
      inMemoryAllowlist, regexLabelList := Lists([], []), [];
    }

    /** `setInMemoryAllowlist`. */
    method SetInMemoryAllowlist(list: Lists)
      modifies this
      ensures Valid() && inMemoryAllowlist == list
    {
      regexLabelList := [];
      for i := 0 to |list.labels|
        invariant |regexLabelList| == i
        invariant forall k | 0 <= k < i :: regexLabelList[k] == Sanitized(list.labels[k])
      {
        regexLabelList := regexLabelList + [Sanitized(list.labels[i])];
      }
      inMemoryAllowlist := list;
    }

    /** The decision of one attempt of `syncAllowlistConfigMap`, after the ConfigMap was read: nothing to write
        (and the memory follows the cluster), or a new pair of lists to write. */
    method Attempt(cur: Lists, clusters: map<string, set<string>>) returns (newList: Option<Lists>)
      requires Valid()
      modifies this
      ensures Valid()
      ensures var x := Proxy({}, old(inMemoryAllowlist), Reading(Needed(clusters), None));
              var after := AfterGet(ConfigMap(0, Some(cur)), x);
              && inMemoryAllowlist == after.memory
              && (newList.None? <==> after.phase.Resting?)
              && (newList.Some? ==> after.phase.Writing? && after.phase.generated == newList.value)
    {
      var generated := GenerateAllowList(cur, inMemoryAllowlist, clusters);
      if generated.labels == cur.labels && generated.ignored == cur.ignored {
        SetInMemoryAllowlist(cur);
        return None;
      }
      newList := Some(generated);
    }

    /** The end of `syncAllowlistConfigMap`: the memory follows what the sync decided, unless it failed. */
    method Conclude(newList: Option<Lists>, failed: bool)
      requires Valid()
      modifies this
      ensures Valid()
      ensures inMemoryAllowlist == if !failed && newList.Some? then newList.value else old(inMemoryAllowlist)
      ensures forall cm: ConfigMap, x: Proxy |
                x.memory == old(inMemoryAllowlist) && x.phase.Writing? && x.phase.version == cm.version
                && newList == Some(x.phase.generated) ::
                inMemoryAllowlist == Next(System(cm, [x], 0), Update(0, !failed)).proxies[0].memory
    {
      if failed { return; }
      if newList.Some? { SetInMemoryAllowlist(newList.value); }
    }
  }
}
