/** The user-workload-monitoring ConfigMap, where the same stanza is inserted and reverted; a write is saved when the
    text would not change. */
module UserWorkloadConfig {
  import opened Wrappers
  import opened CmoConfig
  import opened Compaction

  /** `prometheus`; what the operator does not touch is in `rest`, empty if there is nothing. */
  datatype Restricted = Restricted(alertmanagerConfigs: Option<seq<Stanza>>, rest: string)

  datatype UserWorkload = UserWorkload(prometheus: Option<Restricted>, rest: string)

  /** The text of `config.yaml`: what it parses to, and whether marshalling that gives the very same text. */
  datatype Text = Text(parsed: UserWorkload, canonical: bool)

  datatype UwConfigMap = UwConfigMap(text: Option<Text>, otherData: LabelMap)

  const EMPTY_RESTRICTED := Restricted(None, "")
  const EMPTY_USER_WORKLOAD := UserWorkload(None, "")

  /** Marshalling leaves empty lists out. */
  function MarshalledRestricted(p: Restricted): Restricted {
    if p.alertmanagerConfigs == Some([]) then p.(alertmanagerConfigs := None) else p
  }

  function MarshalledUw(c: UserWorkload): Text {
    Text(if c.prometheus.Some? then c.(prometheus := Some(MarshalledRestricted(c.prometheus.value))) else c, true)
  }

  ghost predicate GoodText(t: Text) {
    t.canonical ==> MarshalledUw(t.parsed) == t
  }

  ghost predicate Good(cm: Option<UwConfigMap>) {
    cm.Some? && cm.value.text.Some? ==> GoodText(cm.value.text.value)
  }

  function WithStanza(c: UserWorkload, st: Stanza, caSecret: string): UserWorkload {
    c.(prometheus := Some(match c.prometheus
                          case None => Restricted(Some([st]), "")
                          case Some(p) => p.(alertmanagerConfigs :=
                            Some(Unmanaged(StanzasOf(p.alertmanagerConfigs), caSecret) + [st]))))
  }

  function UwCreated(cm: Option<UwConfigMap>, st: Stanza, caSecret: string): Option<UwConfigMap> {
    var created := Some(MarshalledUw(WithStanza(EMPTY_USER_WORKLOAD, st, caSecret)));
    match cm
    case None => Some(UwConfigMap(created, map[]))
    case Some(m) =>
      if m.text.None? then Some(m.(text := created))
      else Some(m.(text := Some(MarshalledUw(WithStanza(m.text.value.parsed, st, caSecret)))))
  }

  function RevertedRestricted(p: Restricted, caSecret: string): Option<Restricted> {
    match p.alertmanagerConfigs
    case None => Some(p)
    case Some(s) =>
      var left := Unmanaged(s, caSecret);
      if left != [] then Some(p.(alertmanagerConfigs := Some(left)))
      else if p.rest == "" then None
      else Some(p.(alertmanagerConfigs := None))
  }

  /** `equality.Semantic.DeepEqual` with the zero value: nothing in it, nil and empty being the same. */
  function UwReverted(cm: Option<UwConfigMap>, caSecret: string): Option<UwConfigMap> {
    if cm.None? || cm.value.text.None? || cm.value.text.value.parsed.prometheus.None? then cm
    else
      var c := cm.value.text.value.parsed;
      var c' := c.(prometheus := RevertedRestricted(c.prometheus.value, caSecret));
      if c' == EMPTY_USER_WORKLOAD then None else Some(cm.value.(text := Some(MarshalledUw(c'))))
  }

  class UserWorkloadMonitoring {
    var existing: Option<UwConfigMap>

    /** `CreateOrUpdateUserWorkloadMonitoringConfig`; the flag tells whether the API server was asked to write. */
    method CreateOrUpdate(endpoint: string, alertingDisabled: bool, caSecret: string, details: string)
      returns (wrote: bool)
      requires Good(existing)
      modifies this
      ensures Good(existing)
      ensures endpoint == "" || alertingDisabled ==> existing == UwReverted(old(existing), caSecret)
      ensures endpoint != "" && !alertingDisabled ==>
                && existing == UwCreated(old(existing), Stanza(Some(caSecret), details), caSecret)
                && (wrote <==> existing != old(existing))
    {
      if endpoint == "" || alertingDisabled {
        wrote := Revert(caSecret);
        return;
      }
      var stanza := Stanza(Some(caSecret), details);
      var newCfg := UserWorkload(Some(Restricted(Some([stanza]), "")), "");
      if existing == None {
        existing := Some(UwConfigMap(Some(MarshalledUw(newCfg)), map[]));
        return true;
      }
      var cm := existing.value;
      if cm.text == None {
        existing := Some(cm.(text := Some(MarshalledUw(newCfg))));
        return true;
      }
      var parsed := cm.text.value.parsed;
      if parsed.prometheus != None {
        var clean := KeepUnmanaged(StanzasOf(parsed.prometheus.value.alertmanagerConfigs), caSecret);
        clean := clean + [stanza];
        parsed := parsed.(prometheus := Some(parsed.prometheus.value.(alertmanagerConfigs := Some(clean))));
      } else {
        parsed := parsed.(prometheus := newCfg.prometheus);
      }
      var updated := MarshalledUw(parsed);
      if updated == cm.text.value { return false; }
      existing := Some(cm.(text := Some(updated)));
      return true;
    }

    /** `RevertUserWorkloadMonitoringConfig`. */
    method Revert(caSecret: string) returns (wrote: bool)
      requires Good(existing)
      modifies this
      ensures Good(existing) && existing == UwReverted(old(existing), caSecret)
    {
      if existing == None || existing.value.text == None { return false; }
      var parsed := existing.value.text.value.parsed;
      if parsed.prometheus == None { return false; }
      var p := parsed.prometheus.value;
      if p.alertmanagerConfigs != None {
        var copied := KeepUnmanaged(p.alertmanagerConfigs.value, caSecret);
        p := p.(alertmanagerConfigs := Some(copied));
        parsed := parsed.(prometheus := Some(p));
        if |copied| == 0 {
          p := p.(alertmanagerConfigs := None);
          parsed := parsed.(prometheus := if p == EMPTY_RESTRICTED then None else Some(p));
        }
      }
      if parsed == EMPTY_USER_WORKLOAD {
        existing := None;
        return true;
      }
      existing := Some(existing.value.(text := Some(MarshalledUw(parsed))));
      return true;
    }
  }

  // ---- insert, repeat, revert ------------------------------------------------------------------

  function UwStanzasOf(c: UserWorkload): seq<Stanza> {
    if c.prometheus.Some? then StanzasOf(c.prometheus.value.alertmanagerConfigs) else []
  }

  function UwStanzas(cm: Option<UwConfigMap>): seq<Stanza> {
    if cm.Some? && cm.value.text.Some? then UwStanzasOf(cm.value.text.value.parsed) else []
  }

  /** One managed stanza, the last one, behind the unmanaged ones in their order; nothing else changes. */
  lemma UwLeavesOneManagedStanza(cm: Option<UwConfigMap>, st: Stanza, caSecret: string)
    requires IsManaged(st, caSecret)
    ensures var after := UwStanzas(UwCreated(cm, st, caSecret));
            && after == Unmanaged(UwStanzas(cm), caSecret) + [st]
            && forall i | 0 <= i < |after| - 1 :: !IsManaged(after[i], caSecret)
  {
    var left := Unmanaged(UwStanzas(cm), caSecret);
    UnmanagedTwice(UwStanzas(cm), caSecret);
    assert forall i | 0 <= i < |left| :: left[i] in left;
  }

  lemma StanzaIsMarshalled(c: UserWorkload, st: Stanza, caSecret: string)
    ensures MarshalledUw(WithStanza(c, st, caSecret)).parsed == WithStanza(c, st, caSecret)
    ensures UwStanzasOf(WithStanza(c, st, caSecret)) == Unmanaged(UwStanzasOf(c), caSecret) + [st]
  {
    assert Unmanaged([], caSecret) + [st] == [st];
  }

  lemma SecondStanzaChangesNothing(c: UserWorkload, st: Stanza, caSecret: string)
    requires IsManaged(st, caSecret)
    ensures WithStanza(WithStanza(c, st, caSecret), st, caSecret) == WithStanza(c, st, caSecret)
  {
    StanzaIsMarshalled(c, st, caSecret);
    var s := Unmanaged(UwStanzasOf(c), caSecret);
    UnmanagedTwice(UwStanzasOf(c), caSecret);
    OneMoreStanza(s, st, caSecret);
  }

  /** A second call finds the text unchanged, so that it does not write. */
  lemma UwSecondCreateChangesNothing(cm: Option<UwConfigMap>, st: Stanza, caSecret: string)
    requires IsManaged(st, caSecret)
    ensures UwCreated(UwCreated(cm, st, caSecret), st, caSecret) == UwCreated(cm, st, caSecret)
  {
    var c := if cm.None? || cm.value.text.None? then EMPTY_USER_WORKLOAD else cm.value.text.value.parsed;
    StanzaIsMarshalled(c, st, caSecret);
    SecondStanzaChangesNothing(c, st, caSecret);
  }

  /** The configuration with everything empty taken as absent. */
  function EssenceOf(c: UserWorkload): UserWorkload {
    var m := MarshalledUw(c).parsed;
    if m.prometheus == Some(EMPTY_RESTRICTED) then m.(prometheus := None) else m
  }

  function UwEssence(cm: Option<UwConfigMap>): UserWorkload {
    if cm.None? || cm.value.text.None? then EMPTY_USER_WORKLOAD else EssenceOf(cm.value.text.value.parsed)
  }

  lemma StanzaUndone(c: UserWorkload, st: Stanza, caSecret: string)
    requires IsManaged(st, caSecret)
    requires forall i | 0 <= i < |UwStanzasOf(c)| :: !IsManaged(UwStanzasOf(c)[i], caSecret)
    ensures Unmanaged(UwStanzasOf(WithStanza(c, st, caSecret)), caSecret) == UwStanzasOf(c)
  {
    var s := UwStanzasOf(c);
    NothingManaged(s, caSecret);
    OneMoreStanza(s, st, caSecret);
    StanzaIsMarshalled(c, st, caSecret);
  }

  lemma RestrictedUndone(c: UserWorkload, st: Stanza, caSecret: string)
    requires IsManaged(st, caSecret)
    requires forall i | 0 <= i < |UwStanzasOf(c)| :: !IsManaged(UwStanzasOf(c)[i], caSecret)
    ensures var w := WithStanza(c, st, caSecret);
            w.(prometheus := RevertedRestricted(w.prometheus.value, caSecret)) == EssenceOf(c)
  {
    StanzaIsMarshalled(c, st, caSecret);
    StanzaUndone(c, st, caSecret);
  }

  lemma EssenceIsMarshalled(c: UserWorkload)
    ensures EssenceOf(MarshalledUw(EssenceOf(c)).parsed) == EssenceOf(c)
  {
  }

  /** What a revert leaves of a configuration the stanza was put into. */
  lemma TextUndone(m: UwConfigMap, c: UserWorkload, st: Stanza, caSecret: string)
    requires m.text == Some(MarshalledUw(WithStanza(c, st, caSecret))) && IsManaged(st, caSecret)
    requires forall i | 0 <= i < |UwStanzasOf(c)| :: !IsManaged(UwStanzasOf(c)[i], caSecret)
    ensures var back := UwReverted(Some(m), caSecret);
            && UwEssence(back) == EssenceOf(c)
            && back == if EssenceOf(c) == EMPTY_USER_WORKLOAD then None
                       else Some(UwConfigMap(Some(MarshalledUw(EssenceOf(c))), m.otherData))
  {
    StanzaIsMarshalled(c, st, caSecret);
    RestrictedUndone(c, st, caSecret);
    EssenceIsMarshalled(c);
  }

  function UwOtherData(cm: Option<UwConfigMap>): LabelMap {
    if cm.Some? then cm.value.otherData else map[]
  }

  /** Reverting after creating restores any configuration that had no managed stanza, up to taking empty as absent.  The
      other keys of the ConfigMap survive exactly when there were none or the configuration was not empty. */
  lemma UwRevertUndoesCreate(cm: Option<UwConfigMap>, st: Stanza, caSecret: string)
    requires IsManaged(st, caSecret)
    requires forall i | 0 <= i < |UwStanzas(cm)| :: !IsManaged(UwStanzas(cm)[i], caSecret)
    ensures var back := UwReverted(UwCreated(cm, st, caSecret), caSecret);
            && UwEssence(back) == UwEssence(cm)
            && (UwOtherData(back) == UwOtherData(cm) <==>
                UwOtherData(cm) == map[] || UwEssence(cm) != EMPTY_USER_WORKLOAD)
  {
    var c := if cm.None? || cm.value.text.None? then EMPTY_USER_WORKLOAD else cm.value.text.value.parsed;
    assert UwStanzasOf(c) == UwStanzas(cm);
    TextUndone(UwCreated(cm, st, caSecret).value, c, st, caSecret);
  }

  function RestrictedIn(cm: Option<UwConfigMap>): Restricted {
    if cm.Some? && cm.value.text.Some? && cm.value.text.value.parsed.prometheus.Some?
    then cm.value.text.value.parsed.prometheus.value else EMPTY_RESTRICTED
  }

  function UwRest(cm: Option<UwConfigMap>): string {
    if cm.Some? && cm.value.text.Some? then cm.value.text.value.parsed.rest else ""
  }

  /** Besides the stanzas an insertion touches nothing. */
  lemma UwCreateMeans(cm: Option<UwConfigMap>, st: Stanza, caSecret: string)
    ensures var after := UwCreated(cm, st, caSecret);
            && after.Some? && UwStanzas(after) == Unmanaged(UwStanzas(cm), caSecret) + [st]
            && RestrictedIn(after).rest == RestrictedIn(cm).rest && UwRest(after) == UwRest(cm)
            && UwOtherData(after) == UwOtherData(cm)
  {
    StanzaIsMarshalled(if cm.Some? && cm.value.text.Some? then cm.value.text.value.parsed else EMPTY_USER_WORKLOAD, st,
                       caSecret);
    assert Unmanaged([], caSecret) + [st] == [st];
  }

  /** A revert takes exactly the managed stanzas away; the ConfigMap goes exactly if nothing else was in it and a list
      of stanzas was. */
  lemma UwRevertMeans(cm: Option<UwConfigMap>, caSecret: string)
    ensures var after := UwReverted(cm, caSecret);
            && UwStanzas(after) == Unmanaged(UwStanzas(cm), caSecret)
            && RestrictedIn(after).rest == RestrictedIn(cm).rest && UwRest(after) == UwRest(cm)
            && (after.Some? ==> UwOtherData(after) == UwOtherData(cm))
            && (cm.Some? ==>
                  (after.None? <==> && RestrictedIn(cm).alertmanagerConfigs.Some?
                                    && Unmanaged(UwStanzas(cm), caSecret) == []
                                    && RestrictedIn(cm).rest == "" && UwRest(cm) == ""))
  {
    assert Unmanaged([], caSecret) == [];
  }

  /** Where the cluster-monitoring twin crashes, on a ConfigMap without any data, this one writes its stanza. */
  lemma UwHandlesNilData(st: Stanza, caSecret: string, args: Args)
    requires IsManaged(st, caSecret)
    ensures Created(Some(ConfigMap(None, map[])), args) == Crashed
    ensures UwStanzas(UwCreated(Some(UwConfigMap(None, map[])), st, caSecret)) == [st]
  {
    UwLeavesOneManagedStanza(Some(UwConfigMap(None, map[])), st, caSecret);
  }

  /** A ConfigMap that only held other keys is gone after a create and a revert. */
  lemma UwOtherKeysAreLost(st: Stanza, caSecret: string, key: string, value: string)
    requires IsManaged(st, caSecret)
    ensures var cm := Some(UwConfigMap(None, map[key := value]));
            UwOtherData(UwReverted(UwCreated(cm, st, caSecret), caSecret)) != UwOtherData(cm)
  {
    var cm := Some(UwConfigMap(None, map[key := value]));
    assert key in UwOtherData(cm);
    UwRevertUndoesCreate(cm, st, caSecret);
  }
}
