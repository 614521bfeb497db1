/** Several hubs edit one cluster-monitoring ConfigMap: in any interleaving of creates and reverts each hub owns at
    most one stanza, and nobody touches anybody else's. */
module HubOwnership {
  import opened Wrappers
  import opened CmoConfig
  import opened Compaction

  datatype Event =
    | Create(hub: string, base: string, clusterID: string, clusterName: string, details: string)
    | Revert(hub: string, base: string, clusterName: string)

  function Apply(cm: Option<ConfigMap>, e: Event): Option<ConfigMap> {
    var ca := AppendHubClusterID(e.base, e.hub);
    match e
    case Create(_, _, clusterID, clusterName, details) => After(cm, Args(clusterID, clusterName, ca, details))
    case Revert(_, _, clusterName) => Reverted(cm, ca, clusterName)
  }

  function RunOf(cm: Option<ConfigMap>, events: seq<Event>): Option<ConfigMap> {
    if events == [] then cm else Apply(RunOf(cm, events[..|events| - 1]), events[|events| - 1])
  }

  ghost predicate Unowned(st: Stanza, hubs: set<string>) {
    forall h | h in hubs :: !OwnedBy(st, h)
  }

  ghost function OwnedTest(hub: string): Stanza -> bool {
    (st: Stanza) => OwnedBy(st, hub)
  }

  ghost function UnownedTest(hubs: set<string>): Stanza -> bool {
    (st: Stanza) => Unowned(st, hubs)
  }

  /** A hub's stanzas, in order. */
  ghost function Owned(s: seq<Stanza>, hub: string): seq<Stanza> {
    Kept(s, OwnedTest(hub))
  }

  /** The stanzas of no hub, such as the users', in order. */
  ghost function Foreign(s: seq<Stanza>, hubs: set<string>): seq<Stanza> {
    Kept(s, UnownedTest(hubs))
  }

  /** The secret claims exactly the hub's stanzas. */
  ghost predicate SecretOf(caSecret: string, hub: string) {
    caSecret != "" && forall st :: IsManaged(st, caSecret) <==> OwnedBy(st, hub)
  }

  lemma BothNamesAreTheHubs(base: string, hub: string)
    requires IsBase(base) && hub != ""
    ensures SecretOf(AppendHubClusterID(base, hub), hub)
  {
    forall st ensures IsManaged(st, AppendHubClusterID(base, hub)) <==> OwnedBy(st, hub) {
      ManagedIsOwned(st, base, hub);
    }
  }

  /** The hubs taking part: none has an empty ID, and no name built for one ends in a dash and the ID of another. */
  ghost predicate HubSet(hubs: set<string>) {
    && "" !in hubs
    && forall h, other, base | h in hubs && other in hubs && h != other && IsBase(base) ::
         !HasSuffix(base + "-" + h, "-" + other)
  }

  /** IDs of one length, as those generated by the platform, make such a set. */
  lemma OneWidthIsHubSet(hubs: set<string>, width: nat)
    requires width > 0 && forall h | h in hubs :: |h| == width
    ensures HubSet(hubs)
  {
    forall h, other, base | h in hubs && other in hubs && h != other && IsBase(base)
      ensures !HasSuffix(base + "-" + h, "-" + other)
    {
      OwnedByName(base, other, h, "");
      assert HasPrefix(base + "-" + h, base + "-");
    }
  }

  lemma SuffixOfSuffix(s: string, p: string, q: string, front: string)
    requires HasSuffix(s, p) && HasSuffix(s, q) && |p| <= |q|
    ensures HasSuffix(front + q, p)
  {
    assert q[|q| - |p|..] == s[|s| - |q|..][|q| - |p|..] == s[|s| - |p|..] == p;
    assert (front + q)[|front + q| - |p|..] == q[|q| - |p|..];
  }

  /** Of two owners of a stanza, a name built for the one with the longer ID ends in the ID of the other. */
  lemma LongerOwner(st: Stanza, hub: string, other: string)
    requires OwnedBy(st, hub) && OwnedBy(st, other)
    ensures |hub| <= |other| ==> HasSuffix(ROUTER_CA + "-" + other, "-" + hub)
    ensures |other| <= |hub| ==> HasSuffix(ROUTER_CA + "-" + hub, "-" + other)
  {
    var p, q := "-" + hub, "-" + other;
    assert ROUTER_CA + q == ROUTER_CA + "-" + other && ROUTER_CA + p == ROUTER_CA + "-" + hub;
    if |p| <= |q| { SuffixOfSuffix(st.ca.value, p, q, ROUTER_CA); }
    if |q| <= |p| { SuffixOfSuffix(st.ca.value, q, p, ROUTER_CA); }
  }

  lemma OneOwnerOf(st: Stanza, hubs: set<string>, hub: string, other: string)
    requires HubSet(hubs) && hub in hubs && other in hubs && OwnedBy(st, hub) && OwnedBy(st, other)
    ensures hub == other
  {
    LongerOwner(st, hub, other);
  }

  ghost predicate WellFormed(e: Event, hubs: set<string>) {
    e.hub in hubs && IsBase(e.base)
  }

  lemma OneStanza(st: Stanza, keep: Stanza -> bool)
    ensures Kept([st], keep) == if keep(st) then [st] else []
  {
    assert [st][..0] == [];
  }

  /** Taking out what a hub's secret claims empties the hub's share and leaves every other share alone. */
  lemma UnmanagedShares(s: seq<Stanza>, ca: string, hub: string, hubs: set<string>, other: string)
    requires HubSet(hubs) && hub in hubs && other in hubs && SecretOf(ca, hub)
    ensures Owned(Unmanaged(s, ca), other) == if other == hub then [] else Owned(s, other)
    ensures Foreign(Unmanaged(s, ca), hubs) == Foreign(s, hubs)
  {
    var p, q, u := Unclaimed(ca), OwnedTest(other), UnownedTest(hubs);
    KeptOfKept(s, p, q);
    KeptOfKept(s, p, u);
    forall st | q(st) ensures p(st) <==> other != hub {
      if OwnedBy(st, hub) { OneOwnerOf(st, hubs, hub, other); }
    }
    forall st | u(st) ensures p(st) {
      assert !OwnedBy(st, hub);
    }
  }

  lemma NewStanzaShares(st: Stanza, ca: string, hub: string, hubs: set<string>, other: string)
    requires HubSet(hubs) && hub in hubs && other in hubs && SecretOf(ca, hub) && IsManaged(st, ca)
    ensures Owned([st], other) == if other == hub then [st] else []
    ensures Foreign([st], hubs) == []
  {
    assert OwnedBy(st, hub);
    if OwnedBy(st, other) { OneOwnerOf(st, hubs, hub, other); }
    OneStanza(st, OwnedTest(other));
    OneStanza(st, UnownedTest(hubs));
  }

  lemma RevertedStanzas(cm: Option<ConfigMap>, caSecret: string, clusterName: string)
    ensures StanzasIn(Reverted(cm, caSecret, clusterName)) == Unmanaged(StanzasIn(cm), caSecret)
  {
  }

  /** What the acting hub is left with: its new stanza after a create that does not crash, else none. */
  function ShareAfter(crashes: bool, e: Event): seq<Stanza> {
    if e.Create? && !crashes then [Stanza(Some(AppendHubClusterID(e.base, e.hub)), e.details)] else []
  }

  /** A ConfigMap without data is never left behind, and never changed either. */
  lemma {:induction false} NilDataStays(cm: Option<ConfigMap>, events: seq<Event>)
    ensures NilData(RunOf(cm, events)) <==> NilData(cm)
    ensures NilData(cm) ==> RunOf(cm, events) == cm
  {
    if events != [] { NilDataStays(cm, events[..|events| - 1]); }
  }

  lemma StanzasAfterStep(cm: Option<ConfigMap>, e: Event)
    requires IsBase(e.base) && e.hub != ""
    ensures StanzasIn(Apply(cm, e))
            == Unmanaged(StanzasIn(cm), AppendHubClusterID(e.base, e.hub)) + ShareAfter(NilData(cm), e)
    ensures forall i | 0 <= i < |ShareAfter(NilData(cm), e)| ::
            IsManaged(ShareAfter(NilData(cm), e)[i], AppendHubClusterID(e.base, e.hub))
  {
    var ca := AppendHubClusterID(e.base, e.hub);
    match e
    case Create(_, _, clusterID, clusterName, details) =>
      CreateLeavesOneManagedStanza(cm, Args(clusterID, clusterName, ca, details));
    case Revert(_, _, clusterName) =>
      RevertedStanzas(cm, ca, clusterName);
  }

  /** One step: the acting hub is left with its new stanza or with none; every other hub's share and the
      stanzas of no hub are what they were. */
  lemma StepKeepsShares(cm: Option<ConfigMap>, e: Event, hubs: set<string>, other: string)
    requires HubSet(hubs) && WellFormed(e, hubs) && other in hubs
    ensures Foreign(StanzasIn(Apply(cm, e)), hubs) == Foreign(StanzasIn(cm), hubs)
    ensures Owned(StanzasIn(Apply(cm, e)), other)
            == if other == e.hub then ShareAfter(NilData(cm), e) else Owned(StanzasIn(cm), other)
  {
    var ca, s := AppendHubClusterID(e.base, e.hub), StanzasIn(cm);
    BothNamesAreTheHubs(e.base, e.hub);
    StanzasAfterStep(cm, e);
    UnmanagedShares(s, ca, e.hub, hubs, other);
    KeptAppends(Unmanaged(s, ca), ShareAfter(NilData(cm), e), OwnedTest(other));
    KeptAppends(Unmanaged(s, ca), ShareAfter(NilData(cm), e), UnownedTest(hubs));
    if e.Create? && !NilData(cm) {
      NewStanzaShares(ShareAfter(NilData(cm), e)[0], ca, e.hub, hubs, other);
    }
  }

  /** The hub's share as its own last step left it. */
  function ShareAfterLast(crashes: bool, events: seq<Event>, hub: string, initially: seq<Stanza>): seq<Stanza> {
    if events == [] then initially
    else if events[|events| - 1].hub == hub then ShareAfter(crashes, events[|events| - 1])
    else ShareAfterLast(crashes, events[..|events| - 1], hub, initially)
  }

  /** In any interleaving a hub's share is decided by its own last step alone, so it never exceeds one stanza if it
      did not at the start, and the stanzas of no hub are never touched. */
  lemma {:induction false} SharesAfterRun(cm: Option<ConfigMap>, events: seq<Event>, hubs: set<string>, hub: string)
    requires HubSet(hubs) && hub in hubs && forall i | 0 <= i < |events| :: WellFormed(events[i], hubs)
    ensures Foreign(StanzasIn(RunOf(cm, events)), hubs) == Foreign(StanzasIn(cm), hubs)
    ensures Owned(StanzasIn(RunOf(cm, events)), hub)
            == ShareAfterLast(NilData(cm), events, hub, Owned(StanzasIn(cm), hub))
    ensures |Owned(StanzasIn(cm), hub)| <= 1 ==> |Owned(StanzasIn(RunOf(cm, events)), hub)| <= 1
  {
    if events != [] {
      var before, e := events[..|events| - 1], events[|events| - 1];
      SharesAfterRun(cm, before, hubs, hub);
      NilDataStays(cm, before);
      StepKeepsShares(RunOf(cm, before), e, hubs, hub);
    }
  }
}
