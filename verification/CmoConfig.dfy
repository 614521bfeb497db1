/** The cluster-monitoring ConfigMap: inserting and reverting this hub's alertmanager stanza and external
    labels amid everybody else's. */
module CmoConfig {
  import opened Wrappers
  import opened Compaction

  const ROUTER_CA := "hub-alertmanager-router-ca"
  const MTLS_CA := "obs-alertmanager-mtls-ca"
  const CLUSTER_LABEL := "managed_cluster"
  const CLUSTER_NAME_LABEL := "managed_cluster_name"

  // ---- ownership by name -----------------------------------------------------------------------

  function AppendHubClusterID(secretName: string, hubClusterID: string): string {
    if hubClusterID == "" then secretName else secretName + "-" + hubClusterID
  }

  predicate HasPrefix(s: string, p: string) {
    p <= s
  }

  predicate HasSuffix(s: string, p: string) {
    |p| <= |s| && s[|s| - |p|..] == p
  }

  function TrimPrefix(s: string, p: string): string {
    if HasPrefix(s, p) then s[|p|..] else s
  }

  /** An additional alertmanager config: the name of its CA secret, if any, and the rest. */
  datatype Stanza = Stanza(ca: Option<string>, rest: string)

  predicate HasOurBase(name: string) {
    HasPrefix(name, ROUTER_CA + "-") || HasPrefix(name, MTLS_CA + "-")
  }

  predicate IsManaged(amc: Stanza, caSecret: string) {
    if amc.ca.None? then false
    else if caSecret == "" then false
    else if amc.ca.value == caSecret then true
    else
      var suffix :=
        if HasPrefix(caSecret, MTLS_CA + "-") then TrimPrefix(caSecret, MTLS_CA)
        else if HasPrefix(caSecret, ROUTER_CA + "-") then TrimPrefix(caSecret, ROUTER_CA)
        else "";
      |suffix| > 1 && HasOurBase(amc.ca.value) && HasSuffix(amc.ca.value, suffix)
  }

  ghost predicate IsBase(base: string) {
    base == ROUTER_CA || base == MTLS_CA
  }

  /** What a hub's secret of either base claims: the names of either base that end in its ID. */
  predicate OwnedBy(st: Stanza, hub: string) {
    st.ca.Some? && HasOurBase(st.ca.value) && HasSuffix(st.ca.value, "-" + hub)
  }

  /** Either of a hub's two secret names claims exactly the same stanzas. */
  lemma ManagedIsOwned(st: Stanza, base: string, hub: string)
    requires IsBase(base) && hub != ""
    ensures IsManaged(st, AppendHubClusterID(base, hub)) <==> OwnedBy(st, hub)
  {
    var ca := AppendHubClusterID(base, hub);
    assert ca == base + "-" + hub;
    assert HasPrefix(ca, base + "-");
    assert ca[|base|..] == "-" + hub;
    assert ca[0] == base[0];
    assert ROUTER_CA[0] == 'h' && MTLS_CA[0] == 'o';
    assert HasSuffix(ca, "-" + hub) && HasOurBase(ca);
  }

  lemma OwnedByName(base: string, hub: string, owner: string, rest: string)
    requires IsBase(base) && |hub| == |owner|
    ensures OwnedBy(Stanza(Some(base + "-" + owner), rest), hub) <==> hub == owner
  {
    var name := base + "-" + owner;
    assert name == base + ("-" + owner) && name[|base|..] == "-" + owner;
    assert HasPrefix(name, base + "-");
    assert ("-" + hub)[1..] == hub && ("-" + owner)[1..] == owner;
  }

  /** Names built from the two bases are told apart exactly by the hub IDs, as long as those have one length. */
  lemma ManagedTellsHubsApart(base: string, hub: string, otherBase: string, otherHub: string, rest: string)
    requires IsBase(base) && IsBase(otherBase) && hub != "" && |hub| == |otherHub|
    ensures IsManaged(Stanza(Some(AppendHubClusterID(otherBase, otherHub)), rest), AppendHubClusterID(base, hub))
       <==> hub == otherHub
  {
    ManagedIsOwned(Stanza(Some(AppendHubClusterID(otherBase, otherHub)), rest), base, hub);
    OwnedByName(otherBase, hub, otherHub, rest);
  }

  /** In general a hub claims a name exactly if the name ends in a dash and the hub's ID. */
  lemma ClaimsExactly(base: string, hub: string, otherBase: string, otherHub: string, rest: string)
    requires IsBase(base) && IsBase(otherBase) && hub != ""
    ensures IsManaged(Stanza(Some(AppendHubClusterID(otherBase, otherHub)), rest), AppendHubClusterID(base, hub))
       <==> otherHub != "" && HasSuffix(otherBase + "-" + otherHub, "-" + hub)
  {
    ManagedIsOwned(Stanza(Some(AppendHubClusterID(otherBase, otherHub)), rest), base, hub);
    assert otherHub != "" ==> HasPrefix(otherBase + "-" + otherHub, otherBase + "-");
    assert !HasOurBase(otherBase) by {
      assert ROUTER_CA[0] == 'h' && MTLS_CA[0] == 'o';
      assert (ROUTER_CA + "-")[0] == 'h' && (MTLS_CA + "-")[0] == 'o';
    }
  }

  /** So a hub claims the stanza of another one whose ID ends in a dash and its own. */
  lemma SuffixHubsShare(base: string, otherBase: string, hub: string, front: string, rest: string)
    requires IsBase(base) && IsBase(otherBase) && hub != ""
    ensures IsManaged(Stanza(Some(AppendHubClusterID(otherBase, front + "-" + hub)), rest),
                      AppendHubClusterID(base, hub))
  {
    var owner := front + "-" + hub;
    ClaimsExactly(base, hub, otherBase, owner, rest);
    EndsInHub(otherBase + "-", front, hub);
  }

  lemma EndsInHub(start: string, front: string, hub: string)
    ensures HasSuffix(start + (front + "-" + hub), "-" + hub)
  {
    EndsIn(start + front, "-" + hub);
    assert start + (front + "-" + hub) == (start + front) + ("-" + hub);
  }

  lemma EndsIn(front: string, end: string)
    ensures HasSuffix(front + end, end)
  {
  }

  /** With IDs of one length no stanza whatever, of any name, belongs to two hubs. */
  lemma OneOwner(st: Stanza, hub: string, otherHub: string)
    requires |hub| == |otherHub| && OwnedBy(st, hub) && OwnedBy(st, otherHub)
    ensures hub == otherHub
  {
    assert ("-" + hub)[1..] == hub && ("-" + otherHub)[1..] == otherHub;
  }

  function Unclaimed(caSecret: string): Stanza -> bool {
    (st: Stanza) => !IsManaged(st, caSecret)
  }

  /** The stanzas the secret does not claim, in order. */
  function Unmanaged(s: seq<Stanza>, caSecret: string): seq<Stanza> {
    Kept(s, Unclaimed(caSecret))
  }

  lemma {:induction false} UnmanagedTwice(s: seq<Stanza>, caSecret: string)
    ensures Unmanaged(Unmanaged(s, caSecret), caSecret) == Unmanaged(s, caSecret)
    ensures forall st | st in Unmanaged(s, caSecret) :: !IsManaged(st, caSecret)
  {
    if s != [] { UnmanagedTwice(s[..|s| - 1], caSecret); }
  }

  lemma {:induction false} NothingManaged(s: seq<Stanza>, caSecret: string)
    requires forall i | 0 <= i < |s| :: !IsManaged(s[i], caSecret)
    ensures Unmanaged(s, caSecret) == s
  {
    if s != [] {
      NothingManaged(s[..|s| - 1], caSecret);
      assert s == s[..|s| - 1] + [s[|s| - 1]];
    }
  }

  lemma OneMoreStanza(s: seq<Stanza>, st: Stanza, caSecret: string)
    ensures Unmanaged(s + [st], caSecret)
         == if IsManaged(st, caSecret) then Unmanaged(s, caSecret) else Unmanaged(s, caSecret) + [st]
  {
    assert (s + [st])[..|s|] == s;
  }

  // ---- the configuration -----------------------------------------------------------------------

  type LabelMap = map<string, string>

  /** `prometheusK8s`; what the operator does not touch is in `rest`, empty if there is nothing. */
  datatype Prometheus = Prometheus(externalLabels: Option<LabelMap>, alertmanagerConfigs: Option<seq<Stanza>>,
                                   rest: string)

  datatype Config = Config(prometheusK8s: Option<Prometheus>, rest: string)

  /** The parsed `config.yaml`, if the key is there, and the other keys. */
  datatype ConfigMap = ConfigMap(config: Option<Config>, otherData: LabelMap)

  const EMPTY_PROMETHEUS := Prometheus(None, None, "")
  const EMPTY_CONFIG := Config(None, "")

  /** Marshalling leaves empty maps and lists out. */
  function MarshalledPrometheus(p: Prometheus): Prometheus {
    Prometheus(
      if p.externalLabels == Some(map[]) then None else p.externalLabels,
      if p.alertmanagerConfigs == Some([]) then None else p.alertmanagerConfigs,
      p.rest)
  }

  function Marshalled(c: Config): Config {
    Config(if c.prometheusK8s.Some? then Some(MarshalledPrometheus(c.prometheusK8s.value)) else None, c.rest)
  }

  /** `equality.Semantic.DeepEqual`: nil and empty are the same. */
  predicate SemanticallyEqual(a: Config, b: Config) {
    Marshalled(a) == Marshalled(b)
  }

  /** The arguments of `CreateOrUpdateCMOConfig`; `details` is what endpoint, certificate and token
      make of the stanza. */
  datatype Args = Args(clusterID: string, clusterName: string, caSecret: string, details: string)

  function NewStanza(args: Args): Stanza {
    Stanza(Some(args.caSecret), args.details)
  }

  function NewLabels(args: Args): LabelMap {
    if args.clusterName != "" then map[CLUSTER_LABEL := args.clusterID, CLUSTER_NAME_LABEL := args.clusterName]
    else map[CLUSTER_LABEL := args.clusterID]
  }

  function NewPrometheus(args: Args): Prometheus {
    Prometheus(Some(NewLabels(args)), Some([NewStanza(args)]), "")
  }

  /** The labels afterwards: the cluster's ID, its name only if one is given, and the others as they were. */
  function UpdatedLabels(labels: Option<LabelMap>, args: Args): LabelMap {
    match labels
    case None => NewLabels(args)
    case Some(m) =>
      if args.clusterName != "" then m[CLUSTER_LABEL := args.clusterID][CLUSTER_NAME_LABEL := args.clusterName]
      else m[CLUSTER_LABEL := args.clusterID] - {CLUSTER_NAME_LABEL}
  }

  function StanzasOf(configs: Option<seq<Stanza>>): seq<Stanza> {
    if configs.Some? then configs.value else []
  }

  function UpdatedConfig(c: Config, args: Args): Config {
    match c.prometheusK8s
    case None => c.(prometheusK8s := Some(NewPrometheus(args)))
    case Some(p) =>
      c.(prometheusK8s := Some(p.(
        externalLabels := Some(UpdatedLabels(p.externalLabels, args)),
        alertmanagerConfigs := Some(Unmanaged(StanzasOf(p.alertmanagerConfigs), args.caSecret) + [NewStanza(args)]))))
  }

  /** The ConfigMap is there, but has no data at all; its data is then a nil map. */
  predicate NilData(cm: Option<ConfigMap>) {
    cm.Some? && cm.value.config.None? && cm.value.otherData == map[]
  }

  /** How a create ends; writing into a nil map ends the process. */
  datatype Creation = Written(cm: ConfigMap) | Unchanged | Crashed

  function Created(cm: Option<ConfigMap>, args: Args): Creation {
    match cm
    case None => Written(ConfigMap(Some(Config(Some(NewPrometheus(args)), "")), map[]))
    case Some(m) =>
      match m.config
      case None =>
        if NilData(cm) then Crashed else Written(m.(config := Some(Config(Some(NewPrometheus(args)), ""))))
      case Some(c) =>
        var updated := UpdatedConfig(c, args);
        if SemanticallyEqual(c, updated) then Unchanged else Written(m.(config := Some(Marshalled(updated))))
  }

  /** The ConfigMap after a create. */
  function After(cm: Option<ConfigMap>, args: Args): Option<ConfigMap> {
    match Created(cm, args)
    case Written(m) => Some(m)
    case _ => cm
  }

  function RevertedLabels(labels: Option<LabelMap>, clusterName: string): Option<LabelMap> {
    match labels
    case None => None
    case Some(m) =>
      var left := if clusterName != "" then m - {CLUSTER_LABEL} - {CLUSTER_NAME_LABEL} else m - {CLUSTER_LABEL};
      if left == map[] then None else Some(left)
  }

  function RevertedPrometheus(p: Prometheus, caSecret: string, clusterName: string): Option<Prometheus> {
    var labels := RevertedLabels(p.externalLabels, clusterName);
    match p.alertmanagerConfigs
    case None => Some(p.(externalLabels := labels))
    case Some(s) =>
      var left := Unmanaged(s, caSecret);
      var p' := p.(externalLabels := labels, alertmanagerConfigs := if left == [] then None else Some(left));
      if left == [] && p' == EMPTY_PROMETHEUS then None else Some(p')
  }

  function Reverted(cm: Option<ConfigMap>, caSecret: string, clusterName: string): Option<ConfigMap> {
    if cm.None? || cm.value.config.None? || cm.value.config.value.prometheusK8s.None? then cm
    else
      var c := cm.value.config.value;
      var c' := c.(prometheusK8s := RevertedPrometheus(c.prometheusK8s.value, caSecret, clusterName));
      if c' == EMPTY_CONFIG then None else Some(cm.value.(config := Some(Marshalled(c'))))
  }

  // ---- the code --------------------------------------------------------------------------------

  method KeepUnmanaged(s: seq<Stanza>, caSecret: string) returns (clean: seq<Stanza>)
    ensures clean == Unmanaged(s, caSecret)
  {
    clean := [];
    for i := 0 to |s|
      invariant clean == Unmanaged(s[..i], caSecret)
    {
      KeptOneMore(s, i, Unclaimed(caSecret));
      if !IsManaged(s[i], caSecret) {
        clean := clean + [s[i]];
      }
    }
    assert s[..|s|] == s;
  }

  class MonitoringConfig {
    var found: Option<ConfigMap>

    /** `CreateOrUpdateCMOConfig`, with its nil map. */
    method CreateOrUpdate(args: Args) returns (c: Creation)
      modifies this
      ensures c == Created(old(found), args) && found == After(old(found), args)
    {
      var newLabels := map[CLUSTER_LABEL := args.clusterID];
      if args.clusterName != "" {
        newLabels := newLabels[CLUSTER_NAME_LABEL := args.clusterName];
      }
      var newPm := Prometheus(Some(newLabels), Some([NewStanza(args)]), "");
      if found == None {
        found := Some(ConfigMap(Some(Config(Some(newPm), "")), map[]));
        return Written(found.value);
      }
      var cm := found.value;
      if cm.config == None {
        if cm.otherData == map[] { return Crashed; }
        found := Some(cm.(config := Some(Config(Some(newPm), ""))));
        return Written(found.value);
      }
      var existing := cm.config.value;
      var cfg := existing;
      if cfg.prometheusK8s != None {
        var p := cfg.prometheusK8s.value;
        if p.externalLabels != None {
          var m := p.externalLabels.value[CLUSTER_LABEL := args.clusterID];
          if args.clusterName != "" {
            m := m[CLUSTER_NAME_LABEL := args.clusterName];
          } else {
            m := m - {CLUSTER_NAME_LABEL};
          }
          p := p.(externalLabels := Some(m));
        } else {
          p := p.(externalLabels := Some(newLabels));
        }
        var clean := KeepUnmanaged(StanzasOf(p.alertmanagerConfigs), args.caSecret);
        clean := clean + [NewStanza(args)];
        p := p.(alertmanagerConfigs := Some(clean));
        cfg := cfg.(prometheusK8s := Some(p));
      } else {
        cfg := cfg.(prometheusK8s := Some(newPm));
      }
      if SemanticallyEqual(existing, cfg) {
        return Unchanged;
      }
      found := Some(cm.(config := Some(Marshalled(cfg))));
      return Written(found.value);
    }

    /** `RevertClusterMonitoringConfig`; an emptied configuration takes its ConfigMap with it. */
    method Revert(caSecret: string, clusterName: string)
      modifies this
      ensures found == Reverted(old(found), caSecret, clusterName)
    {
      if found == None || found.value.config == None {
        return;
      }
      var c := found.value.config.value;
      if c.prometheusK8s == None {
        return;
      }
      var pm := RevertPrometheus(c.prometheusK8s.value, caSecret, clusterName);
      c := c.(prometheusK8s := pm);
      if c == EMPTY_CONFIG {
        found := None;
        return;
      }
      found := Some(found.value.(config := Some(Marshalled(c))));
    }
  }

  method RevertLabels(labels: LabelMap, clusterName: string) returns (r: Option<LabelMap>)
    ensures r == RevertedLabels(Some(labels), clusterName)
  {
    var m := labels - {CLUSTER_LABEL};
    if clusterName != "" {
      m := m - {CLUSTER_NAME_LABEL};
    }
    assert |m| == 0 <==> m == map[];
    r := if |m| == 0 then None else Some(m);
  }

  /** The `prometheusK8s` part of the revert; none if nothing is left of it. */
  method RevertPrometheus(p0: Prometheus, caSecret: string, clusterName: string) returns (r: Option<Prometheus>)
    ensures r == RevertedPrometheus(p0, caSecret, clusterName)
  {
    var p := p0;
    if p.externalLabels != None {
      var labels := RevertLabels(p.externalLabels.value, clusterName);
      p := p.(externalLabels := labels);
    }
    r := Some(p);
    if p.alertmanagerConfigs != None {
      var kept := KeepUnmanaged(p.alertmanagerConfigs.value, caSecret);
      p := p.(alertmanagerConfigs := Some(kept));
      r := Some(p);
      if |kept| == 0 {
        p := p.(alertmanagerConfigs := None);
        r := if p == EMPTY_PROMETHEUS then None else Some(p);
      }
    }
  }

  // ---- insert, repeat, revert ------------------------------------------------------------------

  function StanzasIn(cm: Option<ConfigMap>): seq<Stanza> {
    if cm.Some? && cm.value.config.Some? && cm.value.config.value.prometheusK8s.Some?
    then StanzasOf(cm.value.config.value.prometheusK8s.value.alertmanagerConfigs) else []
  }

  /** A create crashes if and only if the ConfigMap is there without any data; nothing is changed then. */
  lemma CreateCrashesExactly(cm: Option<ConfigMap>, args: Args)
    ensures Created(cm, args) == Crashed <==> cm == Some(ConfigMap(None, map[]))
    ensures Created(cm, args) == Crashed ==> After(cm, args) == cm
  {
  }

  /** Unless it crashes: afterwards the stanzas are the unmanaged ones in their order and, last,
      the one managed stanza. */
  lemma CreateLeavesOneManagedStanza(cm: Option<ConfigMap>, args: Args)
    requires args.caSecret != ""
    ensures var after := StanzasIn(After(cm, args));
            if NilData(cm) then after == []
            else
              && after == Unmanaged(StanzasIn(cm), args.caSecret) + [NewStanza(args)]
              && IsManaged(NewStanza(args), args.caSecret)
              && forall i | 0 <= i < |after| - 1 :: !IsManaged(after[i], args.caSecret)
  {
    var left := Unmanaged(StanzasIn(cm), args.caSecret);
    UnmanagedTwice(StanzasIn(cm), args.caSecret);
    assert forall i | 0 <= i < |left| :: left[i] in left;
  }

  ghost predicate LabelsSet(labels: Option<LabelMap>, args: Args) {
    && labels.Some? && CLUSTER_LABEL in labels.value && labels.value[CLUSTER_LABEL] == args.clusterID
    && (args.clusterName == "" ==> CLUSTER_NAME_LABEL !in labels.value)
    && (args.clusterName != "" ==>
          CLUSTER_NAME_LABEL in labels.value && labels.value[CLUSTER_NAME_LABEL] == args.clusterName)
  }

  lemma UpdatedLabelsAreSet(labels: Option<LabelMap>, args: Args)
    ensures LabelsSet(Some(UpdatedLabels(labels, args)), args)
  {
    assert CLUSTER_LABEL in NewLabels(args);
    assert CLUSTER_LABEL != CLUSTER_NAME_LABEL by { assert |CLUSTER_LABEL| != |CLUSTER_NAME_LABEL|; }
  }

  /** A write sets the cluster's labels. */
  lemma CreateSetsClusterLabel(cm: Option<ConfigMap>, args: Args)
    requires Created(cm, args).Written?
    ensures LabelsSet(Created(cm, args).cm.config.value.prometheusK8s.value.externalLabels, args)
  {
    UpdatedLabelsAreSet(None, args);
    if cm.Some? && cm.value.config.Some? && cm.value.config.value.prometheusK8s.Some? {
      UpdatedLabelsAreSet(cm.value.config.value.prometheusK8s.value.externalLabels, args);
    }
  }

  lemma UpdateTwice(s: seq<Stanza>, args: Args)
    requires args.caSecret != ""
    ensures var t := Unmanaged(s, args.caSecret) + [NewStanza(args)];
            Unmanaged(t, args.caSecret) + [NewStanza(args)] == t
  {
    UnmanagedTwice(s, args.caSecret);
    OneMoreStanza(Unmanaged(s, args.caSecret), NewStanza(args), args.caSecret);
  }

  /** An updated configuration needs no further update, and there is nothing empty in it to leave out. */
  lemma UpdatedIsSettled(c: Config, args: Args)
    requires args.caSecret != ""
    ensures var u := UpdatedConfig(c, args); Marshalled(u) == u && UpdatedConfig(u, args) == u
  {
    var labels := if c.prometheusK8s.Some? then c.prometheusK8s.value.externalLabels else None;
    var s := if c.prometheusK8s.Some? then StanzasOf(c.prometheusK8s.value.alertmanagerConfigs) else [];
    UpdateTwice(s, args);
    UpdateTwice([], args);
    UpdatedLabelsAreSet(labels, args);
    UpdatedLabelsAreSet(None, args);
    SetLabelsStay(UpdatedLabels(labels, args), args);
    SetLabelsStay(NewLabels(args), args);
    assert Unmanaged([], args.caSecret) + [NewStanza(args)] == [NewStanza(args)];
  }

  lemma SetLabelsStay(labels: LabelMap, args: Args)
    requires LabelsSet(Some(labels), args)
    ensures UpdatedLabels(Some(labels), args) == labels && labels != map[]
  {
  }

  // ---- what a create and a revert leave alone --------------------------------------------------

  function PrometheusIn(cm: Option<ConfigMap>): Prometheus {
    if cm.Some? && cm.value.config.Some? && cm.value.config.value.prometheusK8s.Some?
    then cm.value.config.value.prometheusK8s.value else EMPTY_PROMETHEUS
  }

  function LabelAt(labels: Option<LabelMap>, key: string): Option<string> {
    if labels.Some? && key in labels.value then Some(labels.value[key]) else None
  }

  function LabelIn(cm: Option<ConfigMap>, key: string): Option<string> {
    LabelAt(PrometheusIn(cm).externalLabels, key)
  }

  lemma UpdatedLabel(labels: Option<LabelMap>, args: Args, key: string)
    ensures LabelAt(Some(UpdatedLabels(labels, args)), key) ==
              if key == CLUSTER_LABEL then Some(args.clusterID)
              else if key != CLUSTER_NAME_LABEL then LabelAt(labels, key)
              else if args.clusterName != "" then Some(args.clusterName) else None
  {
    assert |CLUSTER_LABEL| != |CLUSTER_NAME_LABEL|;
  }

  lemma RevertedLabel(labels: Option<LabelMap>, clusterName: string, key: string)
    ensures LabelAt(RevertedLabels(labels, clusterName), key) ==
              if key == CLUSTER_LABEL || (key == CLUSTER_NAME_LABEL && clusterName != "") then None
              else LabelAt(labels, key)
  {
    if labels.Some? {
      var m := labels.value;
      var left := if clusterName != "" then m - {CLUSTER_LABEL} - {CLUSTER_NAME_LABEL} else m - {CLUSTER_LABEL};
      assert LabelAt(RevertedLabels(labels, clusterName), key) == LabelAt(Some(left), key);
    }
  }

  function RestIn(cm: Option<ConfigMap>): string {
    if cm.Some? && cm.value.config.Some? then cm.value.config.value.rest else ""
  }

  lemma UpdatedIsMarshalled(p: Prometheus, args: Args)
    ensures MarshalledPrometheus(UpdatedPrometheus(p, args)) == UpdatedPrometheus(p, args)
    ensures UpdatedPrometheus(EMPTY_PROMETHEUS, args) == NewPrometheus(args)
  {
    UpdatedLabelsAreSet(p.externalLabels, args);
    assert Unmanaged([], args.caSecret) + [NewStanza(args)] == [NewStanza(args)];
  }

  /** Unless it crashes, a create leaves the updated part, up to taking empty as absent, and all the rest. */
  lemma AfterParts(cm: Option<ConfigMap>, args: Args)
    requires !NilData(cm)
    ensures var after := After(cm, args);
            && after.Some? && after.value.config.Some? && after.value.config.value.prometheusK8s.Some?
            && MarshalledPrometheus(PrometheusIn(after)) == UpdatedPrometheus(PrometheusIn(cm), args)
            && RestIn(after) == RestIn(cm) && OtherData(after) == OtherData(cm)
  {
    UpdatedIsMarshalled(PrometheusIn(cm), args);
  }

  /** Unless it crashes, a create sets the cluster's labels, leaves its stanza behind the others', and touches nothing
      else. */
  lemma CreateMeans(cm: Option<ConfigMap>, args: Args, key: string)
    requires !NilData(cm)
    ensures var after := After(cm, args);
            && LabelIn(after, key) == (if key == CLUSTER_LABEL then Some(args.clusterID)
                                         else if key != CLUSTER_NAME_LABEL then LabelIn(cm, key)
                                         else if args.clusterName != "" then Some(args.clusterName) else None)
            && StanzasIn(after) == Unmanaged(StanzasIn(cm), args.caSecret) + [NewStanza(args)]
            && PrometheusIn(after).rest == PrometheusIn(cm).rest
            && RestIn(after) == RestIn(cm) && OtherData(after) == OtherData(cm)
  {
    AfterParts(cm, args);
    UpdatedLabel(PrometheusIn(cm).externalLabels, args, key);
    assert LabelIn(After(cm, args), key)
        == LabelAt(MarshalledPrometheus(PrometheusIn(After(cm, args))).externalLabels, key);
  }

  /** A revert takes the cluster's labels away, the name only if one is given, and every stanza the secret claims; it
      touches nothing else, except that a configuration left empty goes with its ConfigMap. */
  lemma RevertMeans(cm: Option<ConfigMap>, caSecret: string, clusterName: string, key: string)
    ensures var after := Reverted(cm, caSecret, clusterName);
            && LabelIn(after, key) == (if key == CLUSTER_LABEL || (key == CLUSTER_NAME_LABEL && clusterName != "")
                                         then None else LabelIn(cm, key))
            && StanzasIn(after) == Unmanaged(StanzasIn(cm), caSecret)
            && PrometheusIn(after).rest == PrometheusIn(cm).rest && RestIn(after) == RestIn(cm)
            && (after.Some? ==> OtherData(after) == OtherData(cm))
  {
    RevertedLabel(PrometheusIn(cm).externalLabels, clusterName, key);
    assert Unmanaged([], caSecret) == [];
  }

  /** It goes exactly if nothing but claimed stanzas and the cluster's labels was in it, and a list of stanzas was. */
  lemma RevertDeletesExactly(cm: Option<ConfigMap>, caSecret: string, clusterName: string)
    requires cm.Some?
    ensures Reverted(cm, caSecret, clusterName) == None <==>
              && PrometheusIn(cm).alertmanagerConfigs.Some? && Unmanaged(StanzasIn(cm), caSecret) == []
              && PrometheusIn(cm).rest == "" && RestIn(cm) == ""
              && forall key | LabelIn(cm, key).Some? ::
                   key == CLUSTER_LABEL || (key == CLUSTER_NAME_LABEL && clusterName != "")
  {
    var p := PrometheusIn(cm);
    if p.externalLabels.Some? {
      LeftLabels(p.externalLabels.value, clusterName);
      forall key ensures LabelIn(cm, key).Some? <==> key in p.externalLabels.value {}
    }
  }

  lemma LeftLabels(labels: LabelMap, clusterName: string)
    ensures RevertedLabels(Some(labels), clusterName) == None <==>
              forall key | key in labels :: key == CLUSTER_LABEL || (key == CLUSTER_NAME_LABEL && clusterName != "")
  {
    forall key ensures LabelAt(RevertedLabels(Some(labels), clusterName), key).Some? <==>
                         key in labels && key != CLUSTER_LABEL && (key != CLUSTER_NAME_LABEL || clusterName == "")
    {
      RevertedLabel(Some(labels), clusterName, key);
    }
    var left := RevertedLabels(Some(labels), clusterName);
    if left.Some? { var key :| key in left.value; assert LabelAt(left, key).Some?; }
  }

  /** An immediate second call reports that nothing was updated, or crashes again. */
  lemma SecondCreateChangesNothing(cm: Option<ConfigMap>, args: Args)
    requires args.caSecret != ""
    ensures Created(After(cm, args), args) == if NilData(cm) then Crashed else Unchanged
  {
    UpdatedIsSettled(if cm.Some? && cm.value.config.Some? then cm.value.config.value else EMPTY_CONFIG, args);
  }

  /** No label and no stanza of this cluster and hub. */
  ghost predicate FreeOfAcm(cm: Option<ConfigMap>, args: Args) {
    cm.Some? && cm.value.config.Some? && cm.value.config.value.prometheusK8s.Some? ==>
      var p := cm.value.config.value.prometheusK8s.value;
      && (p.externalLabels.Some? ==>
            CLUSTER_LABEL !in p.externalLabels.value && CLUSTER_NAME_LABEL !in p.externalLabels.value)
      && forall i | 0 <= i < |StanzasIn(cm)| :: !IsManaged(StanzasIn(cm)[i], args.caSecret)
  }

  /** The configuration with everything empty taken as absent. */
  function Essence(cm: Option<ConfigMap>): Config {
    if cm.None? || cm.value.config.None? then EMPTY_CONFIG
    else
      var c := Marshalled(cm.value.config.value);
      if c.prometheusK8s == Some(EMPTY_PROMETHEUS) then c.(prometheusK8s := None) else c
  }

  function OtherData(cm: Option<ConfigMap>): LabelMap {
    if cm.Some? then cm.value.otherData else map[]
  }

  function UpdatedPrometheus(p: Prometheus, args: Args): Prometheus {
    p.(externalLabels := Some(UpdatedLabels(p.externalLabels, args)),
       alertmanagerConfigs := Some(Unmanaged(StanzasOf(p.alertmanagerConfigs), args.caSecret) + [NewStanza(args)]))
  }

  lemma LabelsUndone(labels: Option<LabelMap>, args: Args)
    requires labels.Some? ==> CLUSTER_LABEL !in labels.value && CLUSTER_NAME_LABEL !in labels.value
    ensures UpdatedLabels(labels, args) != map[]
    ensures RevertedLabels(Some(UpdatedLabels(labels, args)), args.clusterName)
            == if labels == Some(map[]) then None else labels
  {
    assert CLUSTER_LABEL in UpdatedLabels(labels, args);
    var m := UpdatedLabels(labels, args);
    var left := if args.clusterName != "" then m - {CLUSTER_LABEL} - {CLUSTER_NAME_LABEL} else m - {CLUSTER_LABEL};
    assert left == if labels.Some? then labels.value else map[];
  }

  lemma PrometheusUndone(p: Prometheus, args: Args)
    requires args.caSecret != ""
    requires p.externalLabels.Some? ==>
             CLUSTER_LABEL !in p.externalLabels.value && CLUSTER_NAME_LABEL !in p.externalLabels.value
    requires forall i | 0 <= i < |StanzasOf(p.alertmanagerConfigs)| ::
             !IsManaged(StanzasOf(p.alertmanagerConfigs)[i], args.caSecret)
    ensures var u := UpdatedPrometheus(p, args);
            && MarshalledPrometheus(u) == u
            && RevertedPrometheus(u, args.caSecret, args.clusterName)
               == if MarshalledPrometheus(p) == EMPTY_PROMETHEUS then None else Some(MarshalledPrometheus(p))
  {
    var s := StanzasOf(p.alertmanagerConfigs);
    LabelsUndone(p.externalLabels, args);
    NothingManaged(s, args.caSecret);
    OneMoreStanza(s, NewStanza(args), args.caSecret);
    RevertedParts(UpdatedLabels(p.externalLabels, args), s + [NewStanza(args)], p.rest, args.caSecret,
                  args.clusterName);
  }

  /** The parts of a revert where there are labels and stanzas. */
  lemma RevertedParts(labels: LabelMap, s: seq<Stanza>, rest: string, caSecret: string, clusterName: string)
    ensures var left, kept := RevertedLabels(Some(labels), clusterName), Unmanaged(s, caSecret);
            RevertedPrometheus(Prometheus(Some(labels), Some(s), rest), caSecret, clusterName)
            == if left == None && kept == [] && rest == "" then None
               else Some(Prometheus(left, if kept == [] then None else Some(kept), rest))
  {
  }

  /** Reverting after creating restores any configuration that was free of ACM's labels and stanzas, up to taking
      empty as absent.  The other keys of the ConfigMap survive exactly when there were none or the
      configuration was not empty: an emptied configuration is removed together with its ConfigMap. */
  lemma RevertUndoesCreate(cm: Option<ConfigMap>, args: Args)
    requires args.caSecret != "" && FreeOfAcm(cm, args)
    ensures var back := Reverted(After(cm, args), args.caSecret, args.clusterName);
            && Essence(back) == Essence(cm)
            && (OtherData(back) == OtherData(cm) <==> OtherData(cm) == map[] || Essence(cm) != EMPTY_CONFIG)
  {
    if !NilData(cm) {
      var p := PrometheusIn(cm);
      assert StanzasOf(p.alertmanagerConfigs) == StanzasIn(cm);
      FreshlyWritten(cm, args);
      PrometheusUndone(p, args);
    }
  }

  /** A configuration free of ACM's labels is written. */
  lemma FreshlyWritten(cm: Option<ConfigMap>, args: Args)
    requires !NilData(cm) && FreeOfAcm(cm, args)
    ensures After(cm, args)
         == Some(ConfigMap(Some(Config(Some(UpdatedPrometheus(PrometheusIn(cm), args)), RestIn(cm))), OtherData(cm)))
  {
    var p := PrometheusIn(cm);
    UpdatedIsMarshalled(p, args);
    if cm.Some? && cm.value.config.Some? {
      assert CLUSTER_LABEL in UpdatedLabels(p.externalLabels, args);
      assert MarshalledPrometheus(p) != UpdatedPrometheus(p, args);
    }
  }

  /** A ConfigMap that only held other keys is gone after a create and a revert. */
  lemma OtherKeysAreLost(args: Args, key: string, value: string)
    requires args.caSecret != ""
    ensures var cm := Some(ConfigMap(None, map[key := value]));
            FreeOfAcm(cm, args)
                && OtherData(Reverted(After(cm, args), args.caSecret, args.clusterName)) != OtherData(cm)
  {
    var cm := Some(ConfigMap(None, map[key := value]));
    assert key in OtherData(cm);
    RevertUndoesCreate(cm, args);
  }
}
