/** Telling the addon who manages right-sizing: three variables of its deployment config. */
module RightSizingSync {
  import opened Wrappers
  import opened Compaction

  const DELEGATED := "rightSizingDelegated"
  const NAMESPACE := "platformNamespaceRightSizing"
  const VIRTUALIZATION := "platformVirtualizationRightSizing"

  datatype Variable = Variable(name: string, value: string)

  /** The right-sizing flags of the platform capabilities. */
  datatype Analytics = Analytics(namespaceEnabled: bool, virtualizationEnabled: bool)

  function Flag(on: bool): string {
    if on then "enabled" else "disabled"
  }

  /** The value each of the three variables should have; nothing for any other variable. */
  function Wanted(name: string, platform: Option<Analytics>, delegating: bool): Option<string> {
    if name == DELEGATED then Some(if delegating then "true" else "false")
    else if name == NAMESPACE then Some(Flag(delegating && platform.Some? && platform.value.namespaceEnabled))
    else if name == VIRTUALIZATION then Some(Flag(delegating && platform.Some? && platform.value.virtualizationEnabled))
    else None
  }

  /** The three values, by variable name. */
  type Want = string -> Option<string>

  ghost predicate Covers(want: Want) {
    forall n :: want(n).Some? <==> n in {DELEGATED, NAMESPACE, VIRTUALIZATION}
  }

  function Overwrite(v: Variable, want: Want): Variable {
    if want(v.name).Some? then Variable(v.name, want(v.name).value) else v
  }

  function OverwriteAll(vars: seq<Variable>, want: Want): (r: seq<Variable>)
    ensures |r| == |vars| && forall i | 0 <= i < |r| :: r[i] == Overwrite(vars[i], want)
  {
    if vars == [] then [] else OverwriteAll(vars[..|vars| - 1], want) + [Overwrite(vars[|vars| - 1], want)]
  }

  predicate Named(vars: seq<Variable>, name: string) {
    vars != [] && (vars[|vars| - 1].name == name || Named(vars[..|vars| - 1], name))
  }

  lemma NamedPush(vars: seq<Variable>, v: Variable)
    ensures forall n :: Named(vars + [v], n) <==> Named(vars, n) || n == v.name
  {
    assert (vars + [v])[..|vars|] == vars;
  }

  function AppendIfMissing(vars: seq<Variable>, name: string, want: Want): seq<Variable>
    requires want(name).Some?
  {
    if Named(vars, name) then vars else vars + [Variable(name, want(name).value)]
  }

  ghost function Synced(vars: seq<Variable>, want: Want): seq<Variable>
    requires Covers(want)
  {
    AppendIfMissing(AppendIfMissing(AppendIfMissing(OverwriteAll(vars, want),
      DELEGATED, want), NAMESPACE, want), VIRTUALIZATION, want)
  }

  /** The variables that are not about right-sizing. */
  predicate Foreign(v: Variable) {
    v.name !in [DELEGATED, NAMESPACE, VIRTUALIZATION]
  }

  /** Each of the three variables is there, and every occurrence has the wanted value. */
  ghost predicate UpToDate(vars: seq<Variable>, want: Want) {
    && Named(vars, DELEGATED) && Named(vars, NAMESPACE) && Named(vars, VIRTUALIZATION)
    && forall i | 0 <= i < |vars| :: Overwrite(vars[i], want) == vars[i]
  }

  lemma {:induction false} OverwriteKeepsForeign(vars: seq<Variable>, want: Want)
    requires Covers(want)
    ensures Kept(OverwriteAll(vars, want), Foreign) == Kept(vars, Foreign)
  {
    if vars != [] {
      OverwriteKeepsForeign(vars[..|vars| - 1], want);
      var r := OverwriteAll(vars, want);
      assert r[..|r| - 1] == OverwriteAll(vars[..|vars| - 1], want);
    }
  }

  lemma AppendSyncs(vars: seq<Variable>, name: string, want: Want)
    requires Covers(want) && want(name).Some?
    requires forall i | 0 <= i < |vars| :: Overwrite(vars[i], want) == vars[i]
    ensures var r := AppendIfMissing(vars, name, want);
      && (forall n :: Named(r, n) <==> Named(vars, n) || n == name)
      && (forall i | 0 <= i < |r| :: Overwrite(r[i], want) == r[i])
      && Kept(r, Foreign) == Kept(vars, Foreign)
  {
    if !Named(vars, name) {
      NamedPush(vars, Variable(name, want(name).value));
      assert (vars + [Variable(name, want(name).value)])[..|vars|] == vars;
    }
  }

  /** After a sync the three variables have their values, and everything else is as it was, in its old order. */
  lemma SyncedMeans(vars: seq<Variable>, want: Want)
    requires Covers(want)
    ensures UpToDate(Synced(vars, want), want)
    ensures Kept(Synced(vars, want), Foreign) == Kept(vars, Foreign)
  {
    OverwriteKeepsForeign(vars, want);
    var v0 := OverwriteAll(vars, want);
    AppendSyncs(v0, DELEGATED, want);
    var v1 := AppendIfMissing(v0, DELEGATED, want);
    AppendSyncs(v1, NAMESPACE, want);
    AppendSyncs(AppendIfMissing(v1, NAMESPACE, want), VIRTUALIZATION, want);
  }

  /** A config needs no update exactly when it is up to date already; in particular a second sync never writes. */
  lemma SyncedExactly(vars: seq<Variable>, want: Want)
    requires Covers(want)
    ensures Synced(vars, want) == vars <==> UpToDate(vars, want)
  {
    SyncedMeans(vars, want);
    if UpToDate(vars, want) {
      assert OverwriteAll(vars, want) == vars;
    }
  }

  lemma {:induction false} OverwriteNames(vars: seq<Variable>, want: Want)
    ensures forall n :: Named(OverwriteAll(vars, want), n) <==> Named(vars, n)
  {
    if vars != [] {
      OverwriteNames(vars[..|vars| - 1], want);
      NamedPush(OverwriteAll(vars[..|vars| - 1], want), Overwrite(vars[|vars| - 1], want));
    }
  }

  lemma OverwriteAppended(vars: seq<Variable>, name: string, first: Want, second: Want)
    requires Covers(first) && Covers(second) && first(name).Some?
    ensures OverwriteAll(AppendIfMissing(vars, name, first), second)
         == AppendIfMissing(OverwriteAll(vars, second), name, second)
  {
    OverwriteNames(vars, second);
    var l := OverwriteAll(AppendIfMissing(vars, name, first), second);
    var r := AppendIfMissing(OverwriteAll(vars, second), name, second);
    assert |l| == |r|;
    assert forall i | 0 <= i < |l| :: l[i] == r[i];
  }

  lemma OverwriteSynced(vars: seq<Variable>, first: Want, second: Want)
    requires Covers(first) && Covers(second)
    ensures OverwriteAll(Synced(vars, first), second) == Synced(vars, second)
  {
    var v0 := OverwriteAll(vars, first);
    assert OverwriteAll(v0, second) == OverwriteAll(vars, second);
    OverwriteAppended(v0, DELEGATED, first, second);
    var v1 := AppendIfMissing(v0, DELEGATED, first);
    OverwriteAppended(v1, NAMESPACE, first, second);
    OverwriteAppended(AppendIfMissing(v1, NAMESPACE, first), VIRTUALIZATION, first, second);
  }

  lemma NothingToAppend(vars: seq<Variable>, want: Want)
    requires Covers(want) && Named(vars, DELEGATED) && Named(vars, NAMESPACE) && Named(vars, VIRTUALIZATION)
    ensures Synced(vars, want) == OverwriteAll(vars, want)
  {
    OverwriteNames(vars, want);
  }

  /** Switching between delegation and taking over leaves no trace: only the last sync counts. */
  lemma LastSyncWins(vars: seq<Variable>, first: Want, second: Want)
    requires Covers(first) && Covers(second)
    ensures Synced(Synced(vars, first), second) == Synced(vars, second)
  {
    SyncedMeans(vars, first);
    NothingToAppend(Synced(vars, first), second);
    OverwriteSynced(vars, first, second);
  }

  function WantedFor(platform: Option<Analytics>, delegating: bool): (want: Want)
    ensures Covers(want)
  {
    name => Wanted(name, platform, delegating)
  }

  /** Which flag goes where: after a sync the addon is told whether it is in charge, and each recommendation is enabled
      exactly if it is in charge and the platform asks for that one. */
  lemma SyncedValues(vars: seq<Variable>, platform: Option<Analytics>, delegating: bool)
    ensures var synced := Synced(vars, WantedFor(platform, delegating));
            && (forall n | n in {"rightSizingDelegated", "platformNamespaceRightSizing",
                                 "platformVirtualizationRightSizing"} :: Named(synced, n))
            && forall i | 0 <= i < |synced| ::
                 && (synced[i].name == "rightSizingDelegated" ==>
                       synced[i].value == if delegating then "true" else "false")
                 && (synced[i].name == "platformNamespaceRightSizing" ==>
                       synced[i].value == if delegating && platform.Some? && platform.value.namespaceEnabled
                                          then "enabled" else "disabled")
                 && (synced[i].name == "platformVirtualizationRightSizing" ==>
                       synced[i].value == if delegating && platform.Some? && platform.value.virtualizationEnabled
                                          then "enabled" else "disabled")
  {
    var want := WantedFor(platform, delegating);
    SyncedMeans(vars, want);
    assert NAMESPACE != DELEGATED && VIRTUALIZATION != DELEGATED && NAMESPACE != VIRTUALIZATION by {
      assert |NAMESPACE| != |VIRTUALIZATION| && NAMESPACE[0] != DELEGATED[0] && VIRTUALIZATION[0] != DELEGATED[0];
    }
    var synced := Synced(vars, want);
    forall i | 0 <= i < |synced| && want(synced[i].name).Some? ensures synced[i].value == want(synced[i].name).value {
      assert Overwrite(synced[i], want) == synced[i];
    }
  }

  /** The index says whether the name has been seen. */
  ghost predicate Seen(vars: seq<Variable>, name: string, idx: int) {
    idx == -1 <==> !Named(vars, name)
  }

  lemma SeenNext(vars: seq<Variable>, i: nat, name: string, idx: int)
    requires i < |vars| && Seen(vars[..i], name, idx)
    ensures Seen(vars[..i + 1], name, if vars[i].name == name then i else idx)
  {
    assert vars[..i + 1] == vars[..i] + [vars[i]];
    NamedPush(vars[..i], vars[i]);
  }

  /** Everything before `i` has been overwritten; `changed` says whether that made a difference. */
  ghost predicate Passed(vars: seq<Variable>, was: seq<Variable>, i: nat, want: Want, changed: bool) {
    && i <= |was|
    && vars == OverwriteAll(was[..i], want) + was[i..]
    && (changed <==> OverwriteAll(was[..i], want) != was[..i])
  }

  lemma PassedNext(vars: seq<Variable>, was: seq<Variable>, i: nat, want: Want, changed: bool)
    requires Passed(vars, was, i, want, changed) && i < |was|
    ensures |vars| == |was| && vars[i] == was[i]
    ensures var v := Overwrite(was[i], want); Passed(vars[i := v], was, i + 1, want, changed || v != was[i])
  {
    assert was[..i + 1][..i] == was[..i];
    var v := Overwrite(was[i], want);
    assert OverwriteAll(was[..i + 1], want) == OverwriteAll(was[..i], want) + [v];
    assert was[..i + 1] == was[..i] + [was[i]];
    assert vars[i := v] == OverwriteAll(was[..i], want) + [v] + was[i + 1..];
  }

  /** The pass over the variables. */
  method OverwriteFound(was: seq<Variable>, want: Want)
    returns (vars: seq<Variable>, delegatedIdx: int, nsIdx: int, virtIdx: int, needsUpdate: bool)
    requires Covers(want)
    ensures vars == OverwriteAll(was, want) && (needsUpdate <==> vars != was)
    ensures Seen(was, DELEGATED, delegatedIdx) && Seen(was, NAMESPACE, nsIdx) && Seen(was, VIRTUALIZATION, virtIdx)
  {
    vars, delegatedIdx, nsIdx, virtIdx, needsUpdate := was, -1, -1, -1, false;
    for i := 0 to |was|
      invariant Passed(vars, was, i, want, needsUpdate)
      invariant Seen(was[..i], DELEGATED, delegatedIdx)
      invariant Seen(was[..i], NAMESPACE, nsIdx)
      invariant Seen(was[..i], VIRTUALIZATION, virtIdx)
    {
      PassedNext(vars, was, i, want, needsUpdate);
      var cv := vars[i];
      assert vars[i := cv] == vars;
      SeenNext(was, i, DELEGATED, delegatedIdx);
      SeenNext(was, i, NAMESPACE, nsIdx);
      SeenNext(was, i, VIRTUALIZATION, virtIdx);
      if cv.name == DELEGATED { delegatedIdx := i; }
      if cv.name == NAMESPACE { nsIdx := i; }
      if cv.name == VIRTUALIZATION { virtIdx := i; }
      if want(cv.name).Some? && cv.value != want(cv.name).value {
        vars := vars[i := Variable(cv.name, want(cv.name).value)];
        needsUpdate := true;
      }
    }
    assert was[..|was|] == was;
  }

  /** The names that were not found are appended. */
  method AppendNotFound(found: seq<Variable>, delegatedIdx: int, nsIdx: int, virtIdx: int, want: Want)
    returns (vars: seq<Variable>)
    requires Covers(want) && forall i | 0 <= i < |found| :: Overwrite(found[i], want) == found[i]
    requires Seen(found, DELEGATED, delegatedIdx) && Seen(found, NAMESPACE, nsIdx)
             && Seen(found, VIRTUALIZATION, virtIdx)
    ensures vars == AppendIfMissing(AppendIfMissing(AppendIfMissing(found, DELEGATED, want), NAMESPACE, want),
                                    VIRTUALIZATION, want)
    ensures vars == found <==> delegatedIdx != -1 && nsIdx != -1 && virtIdx != -1
    ensures |vars| >= |found|
  {
    vars := found;
    AppendSyncs(found, DELEGATED, want);
    if delegatedIdx == -1 { vars := vars + [Variable(DELEGATED, want(DELEGATED).value)]; }
    AppendSyncs(vars, NAMESPACE, want);
    if nsIdx == -1 { vars := vars + [Variable(NAMESPACE, want(NAMESPACE).value)]; }
    if virtIdx == -1 { vars := vars + [Variable(VIRTUALIZATION, want(VIRTUALIZATION).value)]; }
  }

  /** The hub's copy of the deployment config, if there is one. */
  class AddOnDeploymentConfig {
    var stored: Option<seq<Variable>>

    constructor (stored: Option<seq<Variable>>)
      ensures this.stored == stored
    {
      this.stored := stored;
    }

    /** `syncRightSizingStateToADC`: one pass over the variables, then the missing ones are appended; the config
        is written back only when something differs. */
    method SyncRightSizingState(platform: Option<Analytics>, delegating: bool, found: bool, update: Response)
      returns (ok: bool)
      modifies this
      ensures old(stored).None? ==> stored.None? && (ok <==> found)
      ensures old(stored).Some? ==>
        var synced := Synced(old(stored.value), WantedFor(platform, delegating));
        && stored == (if !found || update.FailedUnchanged? then old(stored) else Some(synced))
        && (ok <==> found && (update.Done? || UpToDate(old(stored.value), WantedFor(platform, delegating))))
    {
      var want := WantedFor(platform, delegating);
      if !found { return false; }
      if stored.None? { return true; }
      var vars, delegatedIdx, nsIdx, virtIdx, needsUpdate := OverwriteFound(stored.value, want);
      OverwriteNames(stored.value, want);
      vars := AppendNotFound(vars, delegatedIdx, nsIdx, virtIdx, want);
      needsUpdate := needsUpdate || delegatedIdx == -1 || nsIdx == -1 || virtIdx == -1;
      SyncedExactly(stored.value, want);
      if !needsUpdate { return true; }
      if update != FailedUnchanged { stored := Some(vars); }
      return update.Done?;
    }
  }
}
