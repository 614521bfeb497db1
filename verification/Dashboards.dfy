/** The dashboard loader: which Grafana dashboards it keeps track of, under failing API calls. */
module Dashboards {
  import opened Wrappers
  import opened Sorted

  // ---- Grafana ---------------------------------------------------------------------------------

  /** Dashboards by UID with the folder they are in (empty for the general one). */
  type Stored = map<string, string>

  function WithoutFolder(ds: Stored, folder: string): Stored {
    map u | u in ds && ds[u] != folder :: ds[u]
  }

  class Grafana {
    /** The response to the n-th call, whatever it may be. */
    const answer: nat -> Response
    var calls: nat
    var dashboards: Stored
    var homeDashboard: string

    constructor (answer: nat -> Response, dashboards: Stored)
      ensures this.answer == answer && this.dashboards == dashboards && calls == 0 && homeDashboard == ""
    {
      this.answer, this.dashboards, calls, homeDashboard := answer, dashboards, 0, "";
    }

    method CreateOrUpdateDashboard(uid: string, folder: string) returns (ok: bool)
      modifies this`calls, this`dashboards
      ensures dashboards
              == if answer(old(calls)) == FailedUnchanged then old(dashboards) else old(dashboards)[uid := folder]
      ensures ok <==> answer(old(calls)) == Done
      ensures calls == old(calls) + 1
    {
      var r := answer(calls);
      calls := calls + 1;
      if r != FailedUnchanged {
        dashboards := dashboards[uid := folder];
      }
      ok := r == Done;
    }

    /** A dashboard that is not there counts as deleted. */
    method DeleteDashboard(uid: string) returns (ok: bool)
      modifies this`calls, this`dashboards
      ensures dashboards == if answer(old(calls)) == FailedUnchanged then old(dashboards) else old(dashboards) - {uid}
      ensures ok <==> answer(old(calls)) == Done
      ensures calls == old(calls) + 1
    {
      var r := answer(calls);
      calls := calls + 1;
      if r != FailedUnchanged {
        dashboards := dashboards - {uid};
      }
      ok := r == Done;
    }

    method SetHomeDashboard(uid: string) returns (ok: bool)
      modifies this`calls, this`homeDashboard
      ensures homeDashboard == if answer(old(calls)) == FailedUnchanged then old(homeDashboard) else uid
      ensures ok <==> answer(old(calls)) == Done
      ensures calls == old(calls) + 1
    {
      var r := answer(calls);
      calls := calls + 1;
      if r != FailedUnchanged {
        homeDashboard := uid;
      }
      ok := r == Done;
    }

    /** The calls made since then, by their number, all succeeded. */
    ghost predicate AllDoneSince(n: nat)
      reads this
    {
      AllDoneBetween(answer, n, calls)
    }

    /** Deleting a folder deletes what is in it. */
    method DeleteFolder(folder: string) returns (ok: bool)
      modifies this`calls, this`dashboards
      ensures dashboards == if answer(old(calls)) == FailedUnchanged then old(dashboards)
                            else WithoutFolder(old(dashboards), folder)
      ensures ok <==> answer(old(calls)) == Done
      ensures calls == old(calls) + 1
    {
      var r := answer(calls);
      calls := calls + 1;
      if r != FailedUnchanged {
        dashboards := WithoutFolder(dashboards, folder);
      }
      ok := r == Done;
    }
  }

  // ---- ConfigMaps ------------------------------------------------------------------------------

  /** A data entry: whether it parses, the UID in its JSON (empty if none), and the UID generated from its name. */
  datatype Entry = Entry(parses: bool, jsonUid: string, fallback: Option<string>)

  datatype ConfigMap = ConfigMap(key: string, folderTitle: string, data: seq<Entry>)

  /** `resolveDashboardUID`. */
  function ResolveUid(parsed: bool, e: Entry): Option<string> {
    if parsed && e.jsonUid != "" then Some(e.jsonUid) else e.fallback
  }

  /** What an update creates: unparsable entries are skipped. */
  function CurrentUids(data: seq<Entry>): seq<string> {
    if data == [] then []
    else
      var e := data[|data| - 1];
      var before := CurrentUids(data[..|data| - 1]);
      if e.parses && ResolveUid(true, e).Some? then before + [ResolveUid(true, e).value] else before
  }

  /** What a sweep expects: unparsable entries fall back to their generated UID. */
  function ExpectedUids(data: seq<Entry>): seq<string> {
    if data == [] then []
    else
      var e := data[|data| - 1];
      var before := ExpectedUids(data[..|data| - 1]);
      if ResolveUid(e.parses, e).Some? then before + [ResolveUid(e.parses, e).value] else before
  }

  /** Everything an update creates is expected by the sweep. */
  lemma {:induction false} CurrentIsExpected(data: seq<Entry>)
    ensures forall u | u in CurrentUids(data) :: u in ExpectedUids(data)
  {
    if data != [] { CurrentIsExpected(data[..|data| - 1]); }
  }

  /** Which UID an entry gets: the one in its JSON if it parses and has one, the generated one otherwise.  An update
      sends the entries that parse. */
  lemma {:induction false} CurrentExactly(data: seq<Entry>, u: string)
    ensures u in CurrentUids(data) <==>
              exists e | e in data :: e.parses && if e.jsonUid != "" then u == e.jsonUid else e.fallback == Some(u)
  {
    if data != [] {
      CurrentExactly(data[..|data| - 1], u);
      assert forall e :: e in data <==> e in data[..|data| - 1] || e == data[|data| - 1];
    }
  }

  /** A sweep expects those of all entries. */
  lemma {:induction false} ExpectedExactly(data: seq<Entry>, u: string)
    ensures u in ExpectedUids(data) <==>
              exists e | e in data :: if e.parses && e.jsonUid != "" then u == e.jsonUid else e.fallback == Some(u)
  {
    if data != [] {
      ExpectedExactly(data[..|data| - 1], u);
      assert forall e :: e in data <==> e in data[..|data| - 1] || e == data[|data| - 1];
    }
  }

  // ---- what is tracked -------------------------------------------------------------------------

  datatype TrackedState = TrackedState(uids: seq<string>, folder: string)

  type UidMap = map<string, TrackedState>

  ghost predicate Tracks(m: UidMap, key: string, uid: string) {
    key in m && uid in m[key].uids
  }

  ghost predicate Tracked(m: UidMap, uid: string) {
    exists key :: Tracks(m, key, uid)
  }

  /** `uidsMatch`. */
  predicate UidsMatch(oldUids: seq<string>, newUids: seq<string>) {
    |newUids| <= |oldUids| && forall i | 0 <= i < |newUids| :: newUids[i] in oldUids
  }

  /** The surgical update of a sweep: fresh states, but known ones that still cover them stay. */
  function Refreshed(m: UidMap, scan: UidMap): UidMap {
    map key | key in scan ::
      if key in m && m[key].folder == scan[key].folder && UidsMatch(m[key].uids, scan[key].uids) then m[key]
      else scan[key]
  }

  datatype Listed = Listed(uid: string, folder: string)

  ghost function ScanOf(cms: seq<ConfigMap>): UidMap {
    if cms == [] then map[]
    else
      var cm := cms[|cms| - 1];
      ScanOf(cms[..|cms| - 1])[cm.key := TrackedState(ExpectedUids(cm.data), cm.folderTitle)]
  }

  ghost function ExpectedOf(cms: seq<ConfigMap>): set<string> {
    if cms == [] then {} else ExpectedOf(cms[..|cms| - 1]) + Elements(ExpectedUids(cms[|cms| - 1].data))
  }

  ghost predicate DistinctKeys(cms: seq<ConfigMap>) {
    forall i, j | 0 <= i < j < |cms| :: cms[i].key != cms[j].key
  }

  // ---- what a sweep leaves in Grafana ----------------------------------------------------------

  type Answers = nat -> Response

  /** The unexpected dashboards of the listing are deleted, one call each; `n` calls were made before. */
  function OrphansDeleted(ds: Stored, listing: seq<Listed>, expected: set<string>, answer: Answers, n: nat)
    : (Stored, nat)
  {
    if listing == [] then (ds, n)
    else if listing[0].uid in expected then OrphansDeleted(ds, listing[1..], expected, answer, n)
    else
      var left := if answer(n) == FailedUnchanged then ds else ds - {listing[0].uid};
      OrphansDeleted(left, listing[1..], expected, answer, n + 1)
  }

  /** The dashboards whose deletion is called for and not answered by success. */
  function FailedOrphans(listing: seq<Listed>, expected: set<string>, answer: Answers, n: nat): set<string> {
    if listing == [] then {}
    else if listing[0].uid in expected then FailedOrphans(listing[1..], expected, answer, n)
    else
      (if answer(n) == Done then {} else {listing[0].uid}) + FailedOrphans(listing[1..], expected, answer, n + 1)
  }

  /** The folders in which the listing shows an expected dashboard. */
  ghost function UsedFolders(listing: seq<Listed>, expected: set<string>): set<string> {
    set d | d in listing && d.uid in expected && d.folder != "" :: d.folder
  }

  /** The unused folders are deleted, one call each. */
  function FoldersDeleted(ds: Stored, folders: seq<string>, used: set<string>, answer: Answers, n: nat): Stored {
    if folders == [] then ds
    else if folders[0] == "" || folders[0] in used then FoldersDeleted(ds, folders[1..], used, answer, n)
    else
      var left := if answer(n) == FailedUnchanged then ds else WithoutFolder(ds, folders[0]);
      FoldersDeleted(left, folders[1..], used, answer, n + 1)
  }

  ghost function Swept(ds: Stored, listing: seq<Listed>, expected: set<string>, folders: seq<string>, answer: Answers,
                       n: nat): Stored
  {
    var (left, m) := OrphansDeleted(ds, listing, expected, answer, n);
    FoldersDeleted(left, folders, UsedFolders(listing, expected), answer, m)
  }

  /** No expected dashboard is called for, and every other one in the listing is gone or its delete failed. */
  lemma {:induction false} OrphansGone(ds: Stored, listing: seq<Listed>, expected: set<string>, answer: Answers, n: nat)
    ensures var (left, m) := OrphansDeleted(ds, listing, expected, answer, n);
            && left.Keys <= ds.Keys
            && (forall d | d in listing && d.uid !in expected ::
                  d.uid !in left || d.uid in FailedOrphans(listing, expected, answer, n))
    ensures FailedOrphans(listing, expected, answer, n) !! expected
  {
    if listing != [] {
      if listing[0].uid in expected {
        OrphansGone(ds, listing[1..], expected, answer, n);
      } else {
        var left := if answer(n) == FailedUnchanged then ds else ds - {listing[0].uid};
        OrphansGone(left, listing[1..], expected, answer, n + 1);
      }
      assert forall d | d in listing :: d == listing[0] || d in listing[1..];
    }
  }

  lemma {:induction false} OrphansKeepExpected(ds: Stored, listing: seq<Listed>, expected: set<string>, answer: Answers,
                                               n: nat, u: string)
    requires u in ds && u in expected
    ensures var left := OrphansDeleted(ds, listing, expected, answer, n).0; u in left && left[u] == ds[u]
  {
    if listing != [] {
      if listing[0].uid in expected {
        OrphansKeepExpected(ds, listing[1..], expected, answer, n, u);
      } else {
        var left := if answer(n) == FailedUnchanged then ds else ds - {listing[0].uid};
        OrphansKeepExpected(left, listing[1..], expected, answer, n + 1, u);
      }
    }
  }

  /** The folder of a dashboard is never deleted, for lack of a call that does it. */
  lemma {:induction false} FoldersKeep(ds: Stored, folders: seq<string>, used: set<string>, answer: Answers, n: nat,
                                       u: string)
    requires u in ds && (ds[u] == "" || ds[u] in used || ds[u] !in folders)
    ensures var left := FoldersDeleted(ds, folders, used, answer, n); u in left && left[u] == ds[u]
  {
    if folders != [] {
      if folders[0] == "" || folders[0] in used {
        FoldersKeep(ds, folders[1..], used, answer, n, u);
      } else {
        var left := if answer(n) == FailedUnchanged then ds else WithoutFolder(ds, folders[0]);
        FoldersKeep(left, folders[1..], used, answer, n + 1, u);
      }
    }
  }

  lemma {:induction false} FoldersOnlyShrink(ds: Stored, folders: seq<string>, used: set<string>, answer: Answers,
                                             n: nat, u: string)
    requires u !in ds
    ensures u !in FoldersDeleted(ds, folders, used, answer, n)
  {
    if folders != [] {
      if folders[0] == "" || folders[0] in used {
        FoldersOnlyShrink(ds, folders[1..], used, answer, n, u);
      } else {
        var left := if answer(n) == FailedUnchanged then ds else WithoutFolder(ds, folders[0]);
        FoldersOnlyShrink(left, folders[1..], used, answer, n + 1, u);
      }
    }
  }

  /** When every call succeeds, what lies in an unused listed folder goes. */
  lemma {:induction false} FoldersDelete(ds: Stored, folders: seq<string>, used: set<string>, n: nat, u: string)
    requires u in ds && ds[u] != "" && ds[u] !in used && ds[u] in folders
    ensures u !in FoldersDeleted(ds, folders, used, AllDone, n)
  {
    if folders[0] == ds[u] {
      FoldersOnlyShrink(WithoutFolder(ds, folders[0]), folders[1..], used, AllDone, n + 1, u);
    } else if folders[0] == "" || folders[0] in used {
      FoldersDelete(ds, folders[1..], used, n, u);
    } else {
      FoldersDelete(WithoutFolder(ds, folders[0]), folders[1..], used, n + 1, u);
    }
  }

  function AllDone(n: nat): Response {
    Done
  }

  /** An expected dashboard survives a sweep, whatever the API answers, if and only if it is in no folder, or Grafana
      does not list its folder, or the listing shows some expected dashboard in that folder. */
  lemma SurvivesSweepExactly(ds: Stored, listing: seq<Listed>, expected: set<string>, folders: seq<string>, n: nat,
                             u: string)
    requires u in ds && u in expected
    ensures (forall answer: Answers :: u in Swept(ds, listing, expected, folders, answer, n))
            <==> ds[u] == "" || ds[u] !in folders || exists d | d in listing :: d.uid in expected && d.folder == ds[u]
  {
    var used := UsedFolders(listing, expected);
    assert ds[u] != "" ==> (ds[u] in used <==> exists d | d in listing :: d.uid in expected && d.folder == ds[u]);
    forall answer: Answers
      ensures ds[u] == "" || ds[u] !in folders || ds[u] in used ==>
              u in Swept(ds, listing, expected, folders, answer, n)
    {
      OrphansKeepExpected(ds, listing, expected, answer, n, u);
      if ds[u] == "" || ds[u] !in folders || ds[u] in used {
        var (left, m) := OrphansDeleted(ds, listing, expected, answer, n);
        FoldersKeep(left, folders, used, answer, m, u);
      }
    }
    if !(ds[u] == "" || ds[u] !in folders || ds[u] in used) {
      OrphansKeepExpected(ds, listing, expected, AllDone, n, u);
      var (left, m) := OrphansDeleted(ds, listing, expected, AllDone, n);
      FoldersDelete(left, folders, used, m, u);
      assert u !in Swept(ds, listing, expected, folders, AllDone, n);
    }
  }

  /** A search that leaves an expected dashboard out, as one with a capped number of results may,
      costs that dashboard. */
  lemma UnlistedDashboardIsLost(n: nat)
    ensures var ds: Stored := map["shown" := "general", "left-out" := "team"];
            "left-out" !in Swept(ds, [Listed("shown", "general")], {"shown", "left-out"}, ["general", "team"], AllDone,
                                 n)
  {
    var ds: Stored := map["shown" := "general", "left-out" := "team"];
    var listing, expected, folders := [Listed("shown", "general")], {"shown", "left-out"}, ["general", "team"];
    assert listing[0] in listing;
    assert UsedFolders(listing, expected) == {"general"};
    OrphansKeepExpected(ds, listing, expected, AllDone, n, "left-out");
    assert listing[1..] == [];
    assert OrphansDeleted(ds, listing, expected, AllDone, n) == (ds, n);
    FoldersDelete(ds, folders, {"general"}, n, "left-out");
  }

  /** What the lookup of a folder title and the check of its emptiness in the search index come to. */
  datatype FolderCheck = NoFolder | CheckFailed | NotEmptyYet | Empty(uid: string)

  predicate CheckOk(title: string, lookup: string -> FolderCheck) {
    title == "" || lookup(title).NoFolder? || lookup(title).Empty?
  }

  // ---- what an update or a delete leaves in Grafana --------------------------------------------

  /** The UID under which an entry is sent, if it can be resolved. */
  function SentUid(e: Entry): Option<string> {
    if e.parses then ResolveUid(true, e) else None
  }

  /** The number of the call after those of sending: one for each dashboard, and one for the home dashboard after its
      own. */
  function CallsAfter(data: seq<Entry>, home: string, answer: Answers, n: nat): nat {
    if data == [] then n
    else
      var m, uid := CallsAfter(data[..|data| - 1], home, answer, n), SentUid(data[|data| - 1]);
      if uid.None? then m else if answer(m) == Done && home != "" && uid.value == home then m + 2 else m + 1
  }

  function Sent(ds: Stored, data: seq<Entry>, folder: string, home: string, answer: Answers, n: nat): Stored {
    if data == [] then ds
    else
      var before := Sent(ds, data[..|data| - 1], folder, home, answer, n);
      var uid := SentUid(data[|data| - 1]);
      if uid.None? || answer(CallsAfter(data[..|data| - 1], home, answer, n)) == FailedUnchanged then before
      else before[uid.value := folder]
  }

  /** The home dashboard once everything is sent. */
  function HomeAfter(before: string, data: seq<Entry>, home: string, answer: Answers, n: nat): string {
    if data == [] then before
    else
      var init, uid := data[..|data| - 1], SentUid(data[|data| - 1]);
      var m := CallsAfter(init, home, answer, n);
      if uid == Some(home) && home != "" && answer(m) == Done && answer(m + 1) != FailedUnchanged then home
      else HomeAfter(before, init, home, answer, n)
  }

  lemma OneMoreEntry(ds: Stored, before: string, data: seq<Entry>, i: nat, folder: string, home: string,
                     answer: Answers, n: nat)
    requires i < |data|
    ensures var m, uid := CallsAfter(data[..i], home, answer, n), SentUid(data[i]);
            var asked := uid == Some(home) && home != "" && answer(m) == Done;
            && CurrentUids(data[..i + 1]) == CurrentUids(data[..i]) + (if uid.Some? then [uid.value] else [])
            && CallsAfter(data[..i + 1], home, answer, n) == (if uid.None? then m else if asked then m + 2 else m + 1)
            && Sent(ds, data[..i + 1], folder, home, answer, n)
               == (if uid.None? || answer(m) == FailedUnchanged then Sent(ds, data[..i], folder, home, answer, n)
                   else Sent(ds, data[..i], folder, home, answer, n)[uid.value := folder])
            && HomeAfter(before, data[..i + 1], home, answer, n)
               == (if asked && answer(m + 1) != FailedUnchanged then home
                   else HomeAfter(before, data[..i], home, answer, n))
  {
    assert data[..i + 1][..i] == data[..i];
  }

  function NotCurrent(before: seq<string>, current: seq<string>): (r: seq<string>)
    ensures forall u :: u in r <==> u in before && u !in current
  {
    if before == [] then []
    else
      var u := before[|before| - 1];
      var r := NotCurrent(before[..|before| - 1], current);
      if u in current then r else r + [u]
  }

  function UidsDeleted(ds: Stored, uids: seq<string>, answer: Answers, n: nat): Stored {
    if uids == [] then ds
    else
      var left := UidsDeleted(ds, uids[..|uids| - 1], answer, n);
      if answer(n + |uids| - 1) == FailedUnchanged then left else left - {uids[|uids| - 1]}
  }

  /** The UIDs whose delete call is not answered by success, in order. */
  function FailedOf(uids: seq<string>, answer: Answers, n: nat): seq<string> {
    if uids == [] then []
    else
      var failed := FailedOf(uids[..|uids| - 1], answer, n);
      if answer(n + |uids| - 1) == Done then failed else failed + [uids[|uids| - 1]]
  }

  ghost predicate AllDoneBetween(answer: Answers, from: nat, to: nat) {
    forall k | from <= k < to :: answer(k) == Done
  }

  lemma DoneInTwoParts(answer: Answers, from: nat, mid: nat, to: nat)
    requires from <= mid <= to
    ensures AllDoneBetween(answer, from, to) <==> AllDoneBetween(answer, from, mid) && AllDoneBetween(answer, mid, to)
  {
  }

  lemma {:induction false} DeletedAre(ds: Stored, uids: seq<string>, answer: Answers, n: nat)
    ensures var left := UidsDeleted(ds, uids, answer, n);
            && left.Keys <= ds.Keys && (forall u | u in left :: left[u] == ds[u])
            && (forall u | u in ds && u !in uids :: u in left)
            && (forall u | u in uids && u !in FailedOf(uids, answer, n) :: u !in left)
    ensures forall u | u in FailedOf(uids, answer, n) :: u in uids
    ensures FailedOf(uids, answer, n) == [] <==> AllDoneBetween(answer, n, n + |uids|)
  {
    if uids != [] {
      DeletedAre(ds, uids[..|uids| - 1], answer, n);
      assert AllDoneBetween(answer, n, n + |uids|) <==>
        AllDoneBetween(answer, n, n + |uids| - 1) && answer(n + |uids| - 1) == Done;
    }
  }

  lemma {:induction false} SentKeeps(ds: Stored, data: seq<Entry>, folder: string, home: string, answer: Answers,
                                     n: nat)
    ensures var sent, m := Sent(ds, data, folder, home, answer, n), CallsAfter(data, home, answer, n);
            && n <= m && ds.Keys <= sent.Keys <= ds.Keys + Elements(CurrentUids(data))
            && (forall u | u in ds && u !in CurrentUids(data) :: sent[u] == ds[u])
            && (forall u | u in ds :: sent[u] in {ds[u], folder})
            && (AllDoneBetween(answer, n, m) ==> forall u | u in CurrentUids(data) :: u in sent && sent[u] == folder)
  {
    if data != [] {
      SentKeeps(ds, data[..|data| - 1], folder, home, answer, n);
    }
  }

  /** The folder that the cleanup for the title deletes. */
  function EmptiedFolder(title: string, lookup: string -> FolderCheck): Option<string> {
    if title != "" && lookup(title).Empty? then Some(lookup(title).uid) else None
  }

  function FolderCleaned(ds: Stored, title: string, lookup: string -> FolderCheck, answer: Answers, n: nat): Stored {
    var folder := EmptiedFolder(title, lookup);
    if folder.Some? && answer(n) != FailedUnchanged then WithoutFolder(ds, folder.value) else ds
  }

  function CleaningCalls(title: string, lookup: string -> FolderCheck): nat {
    if EmptiedFolder(title, lookup).Some? then 1 else 0
  }

  function StateOf(m: UidMap, key: string): TrackedState {
    if key in m then m[key] else TrackedState([], "")
  }

  /** The first part of an update of a key that tracks `uids`: send what there is, delete what no longer is. */
  function Replaced(ds: Stored, uids: seq<string>, data: seq<Entry>, folder: string, home: string, answer: Answers,
                    n: nat)
    : Stored
  {
    UidsDeleted(Sent(ds, data, folder, home, answer, n), NotCurrent(uids, CurrentUids(data)), answer,
                CallsAfter(data, home, answer, n))
  }

  function CallsAfterReplacing(uids: seq<string>, data: seq<Entry>, home: string, answer: Answers, n: nat): nat {
    CallsAfter(data, home, answer, n) + |NotCurrent(uids, CurrentUids(data))|
  }

  /** What the key tracks then: what was sent, and what could not be deleted. */
  function TrackedAfter(uids: seq<string>, data: seq<Entry>, home: string, answer: Answers, n: nat): seq<string> {
    CurrentUids(data) + FailedOf(NotCurrent(uids, CurrentUids(data)), answer, CallsAfter(data, home, answer, n))
  }

  /** The two folders an update may clean up: its own if nothing is sent, and the former one. */
  function CleanedUp(ds: Stored, empty: bool, title: string, before: string, lookup: string -> FolderCheck,
                     answer: Answers, n: nat): Stored
  {
    var left := if empty then FolderCleaned(ds, title, lookup, answer, n) else ds;
    var k := if empty then n + CleaningCalls(title, lookup) else n;
    if before != title then FolderCleaned(left, before, lookup, answer, k) else left
  }

  /** The dashboards after an update of a key in state `st`. */
  function Updated(ds: Stored, st: TrackedState, data: seq<Entry>, title: string, folder: string, home: string,
                   lookup: string -> FolderCheck, answer: Answers, n: nat): Stored
  {
    CleanedUp(Replaced(ds, st.uids, data, folder, home, answer, n), CurrentUids(data) == [], title, st.folder,
              lookup, answer, CallsAfterReplacing(st.uids, data, home, answer, n))
  }

  /** The dashboards after the delete of a key in state `st`; the folder waits until every dashboard is deleted. */
  function Deleted(ds: Stored, st: TrackedState, lookup: string -> FolderCheck, answer: Answers, n: nat): Stored {
    var left := UidsDeleted(ds, st.uids, answer, n);
    if FailedOf(st.uids, answer, n) != [] || st.folder == "" then left
    else FolderCleaned(left, st.folder, lookup, answer, n + |st.uids|)
  }

  // ---- which dashboards an update or a delete can cost ------------------------------------------

  /** A dashboard in Grafana survives the delete of a key, whatever the API answers, if and only if the key does not
      track it and it is not in the folder that goes with the key.  Whether other keys track it makes no difference. */
  lemma DeleteSparesExactly(ds: Stored, st: TrackedState, lookup: string -> FolderCheck, n: nat, u: string)
    requires u in ds
    ensures (forall answer: Answers :: u in Deleted(ds, st, lookup, answer, n))
       <==> u !in st.uids && EmptiedFolder(st.folder, lookup) != Some(ds[u])
  {
    forall answer: Answers
      ensures u !in st.uids && EmptiedFolder(st.folder, lookup) != Some(ds[u]) ==>
              u in Deleted(ds, st, lookup, answer, n)
    {
      DeletedAre(ds, st.uids, answer, n);
    }
    if !(u !in st.uids && EmptiedFolder(st.folder, lookup) != Some(ds[u])) {
      DeletedAre(ds, st.uids, AllDone, n);
      assert u !in Deleted(ds, st, lookup, AllDone, n);
    }
  }

  /** The folder of a key waits for all its dashboards: while the delete of one fails, the others' stay. */
  lemma FolderWaits(ds: Stored, st: TrackedState, lookup: string -> FolderCheck, answer: Answers, n: nat, k: nat,
                    u: string)
    requires u in ds && u !in st.uids && k < |st.uids| && answer(n + k) != Done
    ensures u in Deleted(ds, st, lookup, answer, n)
  {
    DeletedAre(ds, st.uids, answer, n);
    assert !AllDoneBetween(answer, n, n + |st.uids|);
  }

  /** The dashboard is neither deleted by the update of the key in state `st` nor in a folder that may go. */
  predicate UpdateSpares(ds: Stored, st: TrackedState, data: seq<Entry>, title: string, folder: string,
                         lookup: string -> FolderCheck, u: string)
    requires u in ds
  {
    var current := CurrentUids(data);
    && (u in current || u !in st.uids)
    && (current == [] ==> EmptiedFolder(title, lookup) != Some(ds[u]))
    && (st.folder != title ==> EmptiedFolder(st.folder, lookup) != Some(ds[u]))
    && (st.folder != title && u in current ==> EmptiedFolder(st.folder, lookup) != Some(folder))
  }

  lemma SparedSurvives(ds: Stored, st: TrackedState, data: seq<Entry>, title: string, folder: string, home: string,
                       lookup: string -> FolderCheck, answer: Answers, n: nat, u: string)
    requires u in ds && UpdateSpares(ds, st, data, title, folder, lookup, u)
    ensures u in Updated(ds, st, data, title, folder, home, lookup, answer, n)
  {
    var sent, m := Sent(ds, data, folder, home, answer, n), CallsAfter(data, home, answer, n);
    SentKeeps(ds, data, folder, home, answer, n);
    DeletedAre(sent, NotCurrent(st.uids, CurrentUids(data)), answer, m);
  }

  function UnchangedUntil(k: nat): Answers {
    n => if n < k then FailedUnchanged else Done
  }

  lemma {:induction false} NothingSent(ds: Stored, data: seq<Entry>, folder: string, home: string, answer: Answers,
                                       n: nat)
    requires forall k | n <= k < n + |CurrentUids(data)| :: answer(k) == FailedUnchanged
    ensures Sent(ds, data, folder, home, answer, n) == ds
    ensures CallsAfter(data, home, answer, n) == n + |CurrentUids(data)|
  {
    if data != [] { NothingSent(ds, data[..|data| - 1], folder, home, answer, n); }
  }

  /** With successful calls only, the update deletes what it may, or moves the dashboard to a folder that goes. */
  lemma DoneUpdateCosts(ds: Stored, st: TrackedState, data: seq<Entry>, title: string, folder: string, home: string,
                        lookup: string -> FolderCheck, n: nat, u: string)
    requires u in ds && !UpdateSpares(ds, st, data, title, folder, lookup, u)
    requires u !in CurrentUids(data) || EmptiedFolder(st.folder, lookup) == Some(folder)
    ensures u !in Updated(ds, st, data, title, folder, home, lookup, AllDone, n)
  {
    var sent, m := Sent(ds, data, folder, home, AllDone, n), CallsAfter(data, home, AllDone, n);
    SentKeeps(ds, data, folder, home, AllDone, n);
    DeletedAre(sent, NotCurrent(st.uids, CurrentUids(data)), AllDone, m);
  }

  lemma {:induction false} DeletingKeeps(ds: Stored, uids: seq<string>, answer: Answers, n: nat, u: string)
    requires u in ds && u !in uids
    ensures u in UidsDeleted(ds, uids, answer, n) && UidsDeleted(ds, uids, answer, n)[u] == ds[u]
  {
    if uids != [] { DeletingKeeps(ds, uids[..|uids| - 1], answer, n, u); }
  }

  lemma StaysInFolder(ds: Stored, uids: seq<string>, data: seq<Entry>, folder: string, home: string, answer: Answers,
                      n: nat, u: string)
    requires forall k | n <= k < n + |CurrentUids(data)| :: answer(k) == FailedUnchanged
    requires u in ds && u in CurrentUids(data)
    ensures var left := Replaced(ds, uids, data, folder, home, answer, n); u in left && left[u] == ds[u]
    ensures CallsAfterReplacing(uids, data, home, answer, n) >= n + |CurrentUids(data)|
  {
    NothingSent(ds, data, folder, home, answer, n);
    DeletingKeeps(Sent(ds, data, folder, home, answer, n), NotCurrent(uids, CurrentUids(data)), answer,
                  CallsAfter(data, home, answer, n), u);
  }

  lemma OldFolderCosts(ds: Stored, title: string, before: string, lookup: string -> FolderCheck, answer: Answers,
                       n: nat, u: string)
    requires u in ds && before != title && EmptiedFolder(before, lookup) == Some(ds[u]) && answer(n) == Done
    ensures u !in CleanedUp(ds, false, title, before, lookup, answer, n)
  {
  }

  /** With sends that fail the dashboard stays in its old folder, which then goes. */
  lemma FailedSendsCost(ds: Stored, st: TrackedState, data: seq<Entry>, title: string, folder: string, home: string,
                        lookup: string -> FolderCheck, answer: Answers, n: nat, u: string)
    requires u in ds && u in CurrentUids(data) && st.folder != title && EmptiedFolder(st.folder, lookup) == Some(ds[u])
    requires forall k | n <= k < n + |CurrentUids(data)| :: answer(k) == FailedUnchanged
    requires forall k | k >= n + |CurrentUids(data)| :: answer(k) == Done
    ensures u !in Updated(ds, st, data, title, folder, home, lookup, answer, n)
  {
    StaysInFolder(ds, st.uids, data, folder, home, answer, n, u);
    OldFolderCosts(Replaced(ds, st.uids, data, folder, home, answer, n), title, st.folder, lookup, answer,
                   CallsAfterReplacing(st.uids, data, home, answer, n), u);
  }

  /** A dashboard in Grafana survives an update, whatever the API answers, if and only if it is still sent or was never
      tracked by the key, and is in no folder that goes.  Whether other keys track it makes no difference. */
  lemma UpdateSparesExactly(ds: Stored, st: TrackedState, data: seq<Entry>, title: string, folder: string, home: string,
                            lookup: string -> FolderCheck, n: nat, u: string)
    requires u in ds
    ensures (forall answer: Answers :: u in Updated(ds, st, data, title, folder, home, lookup, answer, n))
       <==> UpdateSpares(ds, st, data, title, folder, lookup, u)
  {
    if UpdateSpares(ds, st, data, title, folder, lookup, u) {
      forall answer: Answers ensures u in Updated(ds, st, data, title, folder, home, lookup, answer, n) {
        SparedSurvives(ds, st, data, title, folder, home, lookup, answer, n, u);
      }
    } else {
      var answer: Answers := AllDone;
      if u in CurrentUids(data) && EmptiedFolder(st.folder, lookup) != Some(folder) {
        answer := UnchangedUntil(n + |CurrentUids(data)|);
        FailedSendsCost(ds, st, data, title, folder, home, lookup, answer, n, u);
      } else {
        DoneUpdateCosts(ds, st, data, title, folder, home, lookup, n, u);
      }
      assert u !in Updated(ds, st, data, title, folder, home, lookup, answer, n);
    }
  }

  // ---- runs ------------------------------------------------------------------------------------

  /** What the controller tracks and what Grafana holds. */
  datatype Loader = Loader(uidMap: UidMap, dashboards: Stored)

  /** Each event comes with the answers to its calls and the number of its first call. */
  datatype Event =
    | Update(cm: ConfigMap, folder: Option<string>, home: string, lookup: string -> FolderCheck, answer: Answers,
             n: nat)
    | Delete(key: string, lookup: string -> FolderCheck, answer: Answers, n: nat)
    | Sweep(listing: seq<Listed>, cms: seq<ConfigMap>, folders: seq<string>, answer: Answers, n: nat)

  function AtFolder(folder: Option<string>): string {
    if folder.Some? then folder.value else ""
  }

  /** `updateDashboard`; without the folder it wants nothing happens. */
  function UpdateLoader(s: Loader, cm: ConfigMap, folder: Option<string>, home: string, lookup: string -> FolderCheck,
                        answer: Answers, n: nat): Loader
  {
    if cm.folderTitle != "" && folder.None? then s
    else
      var st, at := StateOf(s.uidMap, cm.key), AtFolder(folder);
      var uids := TrackedAfter(st.uids, cm.data, home, answer, n);
      Loader(s.uidMap[cm.key := TrackedState(uids, cm.folderTitle)],
             Updated(s.dashboards, st, cm.data, cm.folderTitle, at, home, lookup, answer, n))
  }

  /** `deleteTrackedUIDs`. */
  function DeleteLoader(s: Loader, key: string, lookup: string -> FolderCheck, answer: Answers, n: nat): Loader {
    if key !in s.uidMap then s
    else
      var failed := FailedOf(s.uidMap[key].uids, answer, n);
      Loader(if failed == [] then s.uidMap - {key} else s.uidMap[key := TrackedState(failed, s.uidMap[key].folder)],
             Deleted(s.dashboards, s.uidMap[key], lookup, answer, n))
  }

  /** `cleanupOrphanDashboards`. */
  ghost function SweepLoader(s: Loader, listing: seq<Listed>, cms: seq<ConfigMap>, folders: seq<string>,
                             answer: Answers, n: nat): Loader
  {
    Loader(Refreshed(s.uidMap, ScanOf(cms)), Swept(s.dashboards, listing, ExpectedOf(cms), folders, answer, n))
  }

  ghost function Next(s: Loader, e: Event): Loader {
    match e
    case Update(cm, folder, home, lookup, answer, n) => UpdateLoader(s, cm, folder, home, lookup, answer, n)
    case Delete(key, lookup, answer, n) => DeleteLoader(s, key, lookup, answer, n)
    case Sweep(listing, cms, folders, answer, n) => SweepLoader(s, listing, cms, folders, answer, n)
  }

  ghost function RunOf(s: Loader, events: seq<Event>): Loader {
    if events == [] then s else Next(RunOf(s, events[..|events| - 1]), events[|events| - 1])
  }

  /** The dashboards no key answers for: those that were there before, until a sweep; from then on those that the last
      sweep left without being shown them, or for which its delete call failed. */
  ghost function Strays(s: Loader, events: seq<Event>): set<string> {
    if events == [] then s.dashboards.Keys
    else
      match events[|events| - 1]
      case Sweep(listing, cms, _, answer, n) =>
        (set u | u in RunOf(s, events).dashboards && !Shows(listing, u))
            + FailedOrphans(listing, ExpectedOf(cms), answer, n)
      case _ => Strays(s, events[..|events| - 1])
  }

  ghost predicate Shows(listing: seq<Listed>, uid: string) {
    exists d | d in listing :: d.uid == uid
  }

  ghost predicate Accounted(s: Loader, strays: set<string>) {
    forall u | u in s.dashboards :: Tracked(s.uidMap, u) || u in strays
  }

  ghost predicate WellFormed(e: Event) {
    e.Sweep? ==> DistinctKeys(e.cms)
  }

  /** In every run of a new controller, whatever the API answers, every dashboard in Grafana is tracked or a known
      stray. */
  lemma {:induction false} RunIsAccounted(s: Loader, events: seq<Event>)
    requires s.uidMap == map[] && forall i | 0 <= i < |events| :: WellFormed(events[i])
    ensures Accounted(RunOf(s, events), Strays(s, events))
  {
    if events != [] {
      var before, e := events[..|events| - 1], events[|events| - 1];
      RunIsAccounted(s, before);
      match e
      case Update(_, _, _, _, _, _) => UpdateAccounts(RunOf(s, before), e, Strays(s, before));
      case Delete(_, _, _, _) => DeleteAccounts(RunOf(s, before), e, Strays(s, before));
      case Sweep(_, _, _, _, _) => SweepAccounts(RunOf(s, before), e);
    }
  }

  /** An update or a delete stops tracking a dashboard only for its own key, and only when the dashboard is gone. */
  lemma ForgetsOnlyWhatIsGone(s: Loader, e: Event, key: string, u: string)
    requires !e.Sweep? && Tracks(s.uidMap, key, u) && !Tracks(Next(s, e).uidMap, key, u)
    ensures key == (if e.Update? then e.cm.key else e.key) && u !in Next(s, e).dashboards
  {
    match e
    case Update(cm, folder, home, lookup, answer, n) =>
      var at := AtFolder(folder);
      UpdatedAre(s.dashboards, StateOf(s.uidMap, cm.key), cm.data, cm.folderTitle, at, home, lookup, answer, n);
    case Delete(k, lookup, answer, n) =>
      if k == key { DeletedAre(s.dashboards, s.uidMap[key].uids, answer, n); }
  }

  /** What an update sends is tracked, and nothing else is added. */
  lemma UpdatedAre(ds: Stored, st: TrackedState, data: seq<Entry>, title: string, folder: string, home: string,
                   lookup: string -> FolderCheck, answer: Answers, n: nat)
    ensures var ds' := Updated(ds, st, data, title, folder, home, lookup, answer, n);
            var uids := TrackedAfter(st.uids, data, home, answer, n);
            && ds'.Keys <= ds.Keys + Elements(CurrentUids(data))
            && (forall u | u in CurrentUids(data) :: u in uids)
            && (forall u | u in st.uids && u !in uids :: u !in ds')
  {
    var sent, m := Sent(ds, data, folder, home, answer, n), CallsAfter(data, home, answer, n);
    SentKeeps(ds, data, folder, home, answer, n);
    DeletedAre(sent, NotCurrent(st.uids, CurrentUids(data)), answer, m);
    var ds' := Updated(ds, st, data, title, folder, home, lookup, answer, n);
    assert ds'.Keys <= UidsDeleted(sent, NotCurrent(st.uids, CurrentUids(data)), answer, m).Keys;
  }

  /** Other keys keep their states. */
  lemma OthersTrack(m: UidMap, m': UidMap, key: string, u: string)
    requires m - {key} == m' - {key} && Tracked(m, u)
    requires Tracks(m, key, u) ==> Tracks(m', key, u)
    ensures Tracked(m', u)
  {
    var k :| Tracks(m, k, u);
    if k != key {
      assert k in m - {key} && (m - {key})[k] == m[k];
      assert k in m' - {key} && (m' - {key})[k] == m'[k];
    }
    assert Tracks(m', k, u);
  }

  lemma UpdateAccounts(s: Loader, e: Event, strays: set<string>)
    requires e.Update? && Accounted(s, strays)
    ensures Accounted(Next(s, e), strays)
  {
    if e.cm.folderTitle == "" || e.folder.Some? {
      var s' := Next(s, e);
      UpdatedAre(s.dashboards, StateOf(s.uidMap, e.cm.key), e.cm.data, e.cm.folderTitle, AtFolder(e.folder), e.home,
                 e.lookup, e.answer, e.n);
      assert s.uidMap - {e.cm.key} == s'.uidMap - {e.cm.key};
      forall u | u in s'.dashboards ensures Tracked(s'.uidMap, u) || u in strays {
        if u in CurrentUids(e.cm.data) {
          assert Tracks(s'.uidMap, e.cm.key, u);
        } else if u !in strays {
          OthersTrack(s.uidMap, s'.uidMap, e.cm.key, u);
        }
      }
    }
  }

  lemma DeleteAccounts(s: Loader, e: Event, strays: set<string>)
    requires e.Delete? && Accounted(s, strays)
    ensures Accounted(Next(s, e), strays)
  {
    if e.key in s.uidMap {
      var s' := Next(s, e);
      DeletedAre(s.dashboards, s.uidMap[e.key].uids, e.answer, e.n);
      assert s.uidMap - {e.key} == s'.uidMap - {e.key};
      forall u | u in s'.dashboards && u !in strays ensures Tracked(s'.uidMap, u) {
        OthersTrack(s.uidMap, s'.uidMap, e.key, u);
      }
    }
  }

  lemma {:induction false} FoldersDeletedShrink(ds: Stored, folders: seq<string>, used: set<string>, answer: Answers,
                                                n: nat)
    ensures FoldersDeleted(ds, folders, used, answer, n).Keys <= ds.Keys
  {
    forall u | u !in ds ensures u !in FoldersDeleted(ds, folders, used, answer, n) {
      FoldersOnlyShrink(ds, folders, used, answer, n, u);
    }
  }

  /** After the surgical update every expected dashboard is tracked under its ConfigMap. */
  lemma RefreshedTracks(m: UidMap, scan: UidMap, key: string, uid: string)
    requires Tracks(scan, key, uid)
    ensures Tracks(Refreshed(m, scan), key, uid)
  {
    var i :| 0 <= i < |scan[key].uids| && scan[key].uids[i] == uid;
  }

  lemma {:induction false} ExpectedAreScanned(cms: seq<ConfigMap>, uid: string) returns (key: string)
    requires DistinctKeys(cms) && uid in ExpectedOf(cms)
    ensures Tracks(ScanOf(cms), key, uid)
    ensures exists i | 0 <= i < |cms| :: cms[i].key == key
  {
    var init, cm := cms[..|cms| - 1], cms[|cms| - 1];
    if uid in ExpectedUids(cm.data) {
      key := cm.key;
    } else {
      key := ExpectedAreScanned(init, uid);
      var i :| 0 <= i < |init| && init[i].key == key;
      assert cms[i].key == key && key != cm.key;
    }
  }

  /** After a sweep every dashboard it was shown is tracked or could not be deleted. */
  lemma SweepAccounts(s: Loader, e: Event)
    requires e.Sweep? && DistinctKeys(e.cms)
    ensures var s', failed := Next(s, e), FailedOrphans(e.listing, ExpectedOf(e.cms), e.answer, e.n);
            forall u | u in s'.dashboards && Shows(e.listing, u) :: Tracked(s'.uidMap, u) || u in failed
  {
    var s', expected := Next(s, e), ExpectedOf(e.cms);
    var (left, m) := OrphansDeleted(s.dashboards, e.listing, expected, e.answer, e.n);
    OrphansGone(s.dashboards, e.listing, expected, e.answer, e.n);
    FoldersDeletedShrink(left, e.folders, UsedFolders(e.listing, expected), e.answer, m);
    forall u | u in s'.dashboards && Shows(e.listing, u)
      ensures Tracked(s'.uidMap, u) || u in FailedOrphans(e.listing, expected, e.answer, e.n)
    {
      if u in expected {
        var key := ExpectedAreScanned(e.cms, u);
        RefreshedTracks(s.uidMap, ScanOf(e.cms), key, u);
      } else {
        var d :| d in e.listing && d.uid == u;
      }
    }
  }

  /** A state that still covers what the sweep expects of its ConfigMap, in the same folder, stays as it is, with the
      UIDs whose delete failed; nothing is tracked that was not tracked before or is expected now. */
  lemma RefreshKeepsFailed(m: UidMap, scan: UidMap, key: string)
    requires key in m && key in scan && m[key].folder == scan[key].folder && NoDuplicates(scan[key].uids)
    ensures (forall u | u in scan[key].uids :: u in m[key].uids) ==> Refreshed(m, scan)[key] == m[key]
    ensures forall u | Tracks(Refreshed(m, scan), key, u) :: Tracks(m, key, u) || Tracks(scan, key, u)
  {
    var before, expected := m[key].uids, scan[key].uids;
    if forall u | u in expected :: u in before {
      DistinctAreFewer(expected, before);
    }
  }

  lemma DistinctAreFewer(s: seq<string>, t: seq<string>)
    requires NoDuplicates(s) && forall u | u in s :: u in t
    ensures |s| <= |t|
  {
    DistinctSize(s);
    assert Elements(s) <= Elements(t);
    SubsetSize(Elements(s), Elements(t));
    ElementsAreFewer(t);
  }

  lemma {:induction false} DistinctSize(s: seq<string>)
    requires NoDuplicates(s)
    ensures |Elements(s)| == |s|
  {
    if s != [] {
      var init, u := s[..|s| - 1], s[|s| - 1];
      DistinctSize(init);
      assert Elements(s) == Elements(init) + {u};
    }
  }

  lemma {:induction false} ElementsAreFewer(s: seq<string>)
    ensures |Elements(s)| <= |s|
  {
    if s != [] {
      ElementsAreFewer(s[..|s| - 1]);
      assert Elements(s) == Elements(s[..|s| - 1]) + {s[|s| - 1]};
    }
  }

  /** The scan has the expected UIDs and the folder title of each desired ConfigMap, and nothing else. */
  lemma {:induction false} ScanExactly(cms: seq<ConfigMap>, i: nat)
    requires DistinctKeys(cms) && i < |cms|
    ensures cms[i].key in ScanOf(cms)
    ensures ScanOf(cms)[cms[i].key] == TrackedState(ExpectedUids(cms[i].data), cms[i].folderTitle)
    ensures forall key | key in ScanOf(cms) :: exists j | 0 <= j < |cms| :: cms[j].key == key
  {
    var init := cms[..|cms| - 1];
    if i < |init| { ScanExactly(init, i); }
    else if init != [] { ScanExactly(init, 0); }
    forall key | key in ScanOf(cms) ensures exists j | 0 <= j < |cms| :: cms[j].key == key {
      if key != cms[|cms| - 1].key {
        var j :| 0 <= j < |init| && init[j].key == key;
        assert cms[j].key == key;
      }
    }
  }

  /** When every call succeeds, the delete of a key ends its tracking, and none of its dashboards is left. */
  lemma DoneDeleteForgets(s: Loader, key: string, lookup: string -> FolderCheck, n: nat)
    ensures var after := Next(s, Delete(key, lookup, AllDone, n));
            key !in after.uidMap && forall u | Tracks(s.uidMap, key, u) :: u !in after.dashboards
  {
    if key in s.uidMap { DeletedAre(s.dashboards, s.uidMap[key].uids, AllDone, n); }
  }

  /** A ConfigMap that moves to another folder leaves none of its former folder behind: an update that worked, followed
      by one with another title in which every call succeeds, takes all that is in the former folder, if that looks
      empty. */
  lemma FormerFolderGoes(s: Loader, first: Event, second: Event, u: string)
    requires first.Update? && second.Update? && first.cm.key == second.cm.key
    requires first.cm.folderTitle == "" || first.folder.Some?
    requires second.cm.folderTitle == "" || second.folder.Some?
    requires first.cm.folderTitle != second.cm.folderTitle && second.answer == AllDone
    requires first.cm.folderTitle != "" && second.lookup(first.cm.folderTitle).Empty?
    requires u in Next(Next(s, first), second).dashboards
    ensures Next(Next(s, first), second).dashboards[u] != second.lookup(first.cm.folderTitle).uid
  {
  }

  /** The error of a folder cleanup: the lookup failed, or the folder does not look empty yet. */
  lemma CheckOkExactly(title: string, lookup: string -> FolderCheck)
    ensures !CheckOk(title, lookup) <==> title != "" && (lookup(title).CheckFailed? || lookup(title).NotEmptyYet?)
  {
  }

  /** Only the dashboard asked for becomes the home dashboard, and when every call succeeds it does if it is sent. */
  lemma {:induction false} HomeExactly(before: string, data: seq<Entry>, home: string, answer: Answers, n: nat)
    ensures HomeAfter(before, data, home, answer, n) == before
            || (HomeAfter(before, data, home, answer, n) == home && home != "" && home in CurrentUids(data))
    ensures home != "" && home in CurrentUids(data) ==> HomeAfter(before, data, home, AllDone, n) == home
  {
    if data != [] { HomeExactly(before, data[..|data| - 1], home, answer, n); }
  }

  /** When every call succeeds, an update leaves the key with exactly what it sent, each dashboard in the folder asked
      for, unless that is the former folder and goes. */
  lemma DoneUpdateDelivers(ds: Stored, st: TrackedState, data: seq<Entry>, title: string, folder: string, home: string,
                           lookup: string -> FolderCheck, n: nat, u: string)
    requires st.folder == title || EmptiedFolder(st.folder, lookup) != Some(folder)
    requires u in CurrentUids(data)
    ensures TrackedAfter(st.uids, data, home, AllDone, n) == CurrentUids(data)
    ensures var after := Updated(ds, st, data, title, folder, home, lookup, AllDone, n);
            u in after && after[u] == folder
  {
    var sent, m := Sent(ds, data, folder, home, AllDone, n), CallsAfter(data, home, AllDone, n);
    SentKeeps(ds, data, folder, home, AllDone, n);
    DeletedAre(sent, NotCurrent(st.uids, CurrentUids(data)), AllDone, m);
  }

  /** Two ConfigMaps with one UID: the delete of one takes the dashboard away from the other, which still tracks it. */
  lemma SharedDashboardIsLost(lookup: string -> FolderCheck, n: nat)
    ensures var s := Loader(map["a" := TrackedState(["shared"], ""), "b" := TrackedState(["shared"], "")],
                            map["shared" := ""]);
            var s' := Next(s, Delete("a", lookup, AllDone, n));
            Tracks(s'.uidMap, "b", "shared") && "shared" !in s'.dashboards
  {
    var ds: Stored := map["shared" := ""];
    DeletedAre(ds, ["shared"], AllDone, n);
  }

  // ---- the controller --------------------------------------------------------------------------

  class GrafanaDashboardController {
    const grafana: Grafana
    var uidMap: UidMap

    function View(): Loader
      reads this, grafana
    {
      Loader(uidMap, grafana.dashboards)
    }

    constructor (grafana: Grafana)
      ensures this.grafana == grafana && uidMap == map[]
    {
      this.grafana, uidMap := grafana, map[];
    }

    /** `cleanupFolderIfEmpty`; a folder that does not look empty yet is an error, to be retried. */
    method CleanupFolderIfEmpty(title: string, lookup: string -> FolderCheck) returns (ok: bool)
      modifies grafana`calls, grafana`dashboards
      ensures grafana.dashboards
              == FolderCleaned(old(grafana.dashboards), title, lookup, grafana.answer, old(grafana.calls))
      ensures grafana.calls == old(grafana.calls) + CleaningCalls(title, lookup)
      ensures ok <==> CheckOk(title, lookup) && grafana.AllDoneSince(old(grafana.calls))
    {
      if title == "" { return true; }
      match lookup(title)
      case NoFolder => ok := true;
      case CheckFailed => ok := false;
      case NotEmptyYet => ok := false;
      case Empty(uid) => ok := grafana.DeleteFolder(uid);
    }

    /** The delete loops: the UIDs whose deletion failed, in order. */
    method DeleteAll(uids: seq<string>) returns (failed: seq<string>)
      modifies grafana`calls, grafana`dashboards
      ensures failed == FailedOf(uids, grafana.answer, old(grafana.calls))
      ensures failed == [] <==> grafana.AllDoneSince(old(grafana.calls))
      ensures grafana.calls == old(grafana.calls) + |uids|
      ensures grafana.dashboards == UidsDeleted(old(grafana.dashboards), uids, grafana.answer, old(grafana.calls))
    {
      DeletedAre(grafana.dashboards, uids, grafana.answer, grafana.calls);
      failed := [];
      for i := 0 to |uids|
        invariant failed == FailedOf(uids[..i], grafana.answer, old(grafana.calls))
        invariant grafana.calls == old(grafana.calls) + i
        invariant grafana.dashboards
                  == UidsDeleted(old(grafana.dashboards), uids[..i], grafana.answer, old(grafana.calls))
      {
        assert uids[..i + 1][..i] == uids[..i];
        var ok := grafana.DeleteDashboard(uids[i]);
        if !ok {
          failed := failed + [uids[i]];
        }
      }
      assert uids[..|uids|] == uids;
    }

    /** `deleteTrackedUIDs`. */
    method DeleteTrackedUIDs(key: string, lookup: string -> FolderCheck) returns (ok: bool)
      modifies this`uidMap, grafana`calls, grafana`dashboards
      ensures View() == DeleteLoader(old(View()), key, lookup, grafana.answer, old(grafana.calls))
      ensures ok <==> key !in uidMap && CheckOk(StateOf(old(uidMap), key).folder, lookup)
                      && grafana.AllDoneSince(old(grafana.calls))
    {
      if key !in uidMap {
        return true;
      }
      var state := uidMap[key];
      ghost var ds, n := grafana.dashboards, grafana.calls;
      var failed := DeleteAll(state.uids);
      if |failed| > 0 {
        uidMap := uidMap[key := TrackedState(failed, state.folder)];
        return false;
      }
      uidMap := uidMap - {key};
      ok := true;
      if state.folder != "" {
        ok := CleanupFolderIfEmpty(state.folder, lookup);
      }
      assert grafana.dashboards == Deleted(ds, state, lookup, grafana.answer, n);
    }

    /** Sends the dashboard of an entry, if it can be resolved, and makes it the home dashboard if it is the one asked
        for. */
    method CreateOne(e: Entry, folder: string, home: string) returns (uid: Option<string>, ok: bool)
      modifies grafana
      ensures uid == SentUid(e)
      ensures var n, answer := old(grafana.calls), grafana.answer;
              var asked := uid == Some(home) && home != "" && answer(n) == Done;
              && grafana.dashboards == (if uid.None? || answer(n) == FailedUnchanged then old(grafana.dashboards)
                                        else old(grafana.dashboards)[uid.value := folder])
              && grafana.calls == (if uid.None? then n else if asked then n + 2 else n + 1)
              && grafana.homeDashboard == (if asked && answer(n + 1) != FailedUnchanged then home
                                           else old(grafana.homeDashboard))
      ensures ok <==> grafana.AllDoneSince(old(grafana.calls))
    {
      if !e.parses {
        return None, true;
      }
      uid := ResolveUid(true, e);
      if uid == None {
        return None, true;
      }
      ok := grafana.CreateOrUpdateDashboard(uid.value, folder);
      if ok && home != "" && uid.value == home {
        ok := grafana.SetHomeDashboard(uid.value);
      }
    }

    /** The create loop of an update: every resolvable entry is recorded before it is sent; `home` is the UID to be
        made the home dashboard, if not empty. */
    method CreateAll(data: seq<Entry>, folder: string, home: string) returns (current: seq<string>, ok: bool)
      modifies grafana
      ensures current == CurrentUids(data)
      ensures grafana.dashboards
              == Sent(old(grafana.dashboards), data, folder, home, grafana.answer, old(grafana.calls))
      ensures grafana.calls == CallsAfter(data, home, grafana.answer, old(grafana.calls))
      ensures grafana.homeDashboard
           == HomeAfter(old(grafana.homeDashboard), data, home, grafana.answer, old(grafana.calls))
      ensures old(grafana.calls) <= grafana.calls
      ensures ok <==> grafana.AllDoneSince(old(grafana.calls))
    {
      current, ok := [], true;
      for i := 0 to |data|
        invariant current == CurrentUids(data[..i])
        invariant grafana.dashboards
                  == Sent(old(grafana.dashboards), data[..i], folder, home, grafana.answer, old(grafana.calls))
        invariant grafana.calls == CallsAfter(data[..i], home, grafana.answer, old(grafana.calls))
        invariant grafana.homeDashboard
               == HomeAfter(old(grafana.homeDashboard), data[..i], home, grafana.answer, old(grafana.calls))
        invariant old(grafana.calls) <= grafana.calls
        invariant ok <==> grafana.AllDoneSince(old(grafana.calls))
      {
        OneMoreEntry(old(grafana.dashboards), old(grafana.homeDashboard), data, i, folder, home, grafana.answer,
                     old(grafana.calls));
        var uid, done := CreateOne(data[i], folder, home);
        if uid.Some? { current := current + [uid.value]; }
        if !done { ok := false; }
      }
      assert data[..|data|] == data;
    }

    /** The tracked UIDs that are no longer sent. */
    method UidsToRemove(before: seq<string>, current: seq<string>) returns (r: seq<string>)
      ensures r == NotCurrent(before, current)
    {
      r := [];
      for i := 0 to |before|
        invariant r == NotCurrent(before[..i], current)
      {
        assert before[..i + 1][..i] == before[..i];
        if before[i] !in current {
          r := r + [before[i]];
        }
      }
      assert before[..|before|] == before;
    }

    /** The part of `updateDashboard` between finding the folder and cleaning folders up. */
    method ReplaceDashboards(cm: ConfigMap, folder: string, home: string) returns (current: seq<string>, ok: bool)
      modifies this`uidMap, grafana
      ensures current == CurrentUids(cm.data)
      ensures uidMap == old(uidMap)[cm.key := TrackedState(
                TrackedAfter(StateOf(old(uidMap), cm.key).uids, cm.data, home, grafana.answer, old(grafana.calls)),
                cm.folderTitle)]
      ensures grafana.dashboards
              == Replaced(old(grafana.dashboards), StateOf(old(uidMap), cm.key).uids, cm.data, folder, home,
                                             grafana.answer, old(grafana.calls))
      ensures grafana.calls
           == CallsAfterReplacing(StateOf(old(uidMap), cm.key).uids, cm.data, home, grafana.answer, old(grafana.calls))
      ensures grafana.homeDashboard
           == HomeAfter(old(grafana.homeDashboard), cm.data, home, grafana.answer, old(grafana.calls))
      ensures old(grafana.calls) <= grafana.calls
      ensures ok <==> grafana.AllDoneSince(old(grafana.calls))
    {
      ghost var n := grafana.calls;
      current, ok := CreateAll(cm.data, folder, home);
      ghost var m := grafana.calls;
      var oldUids := if cm.key in uidMap then uidMap[cm.key].uids else [];
      assert oldUids == StateOf(uidMap, cm.key).uids;
      var removed := UidsToRemove(oldUids, current);
      var failed := DeleteAll(removed);
      uidMap := uidMap[cm.key := TrackedState(current + failed, cm.folderTitle)];
      ok := ok && |failed| == 0;
      DoneInTwoParts(grafana.answer, n, m, grafana.calls);
    }

    /** `updateDashboard`; `folder` is the custom folder found or created for the title, if that succeeded. */
    method UpdateDashboard(cm: ConfigMap, folder: Option<string>, home: string, lookup: string -> FolderCheck)
      returns (ok: bool)
      modifies this`uidMap, grafana
      ensures View() == UpdateLoader(old(View()), cm, folder, home, lookup, grafana.answer, old(grafana.calls))
      ensures grafana.homeDashboard
           == if cm.folderTitle != "" && folder.None? then old(grafana.homeDashboard)
              else HomeAfter(old(grafana.homeDashboard), cm.data, home, grafana.answer, old(grafana.calls))
      // The error of the update: a missing folder, any call that failed, or a folder whose cleanup is to be retried.
      ensures var oldFolder := StateOf(old(uidMap), cm.key).folder;
              ok <==> && (cm.folderTitle == "" || folder.Some?)
                      && grafana.AllDoneSince(old(grafana.calls))
                      && (CurrentUids(cm.data) == [] ==> CheckOk(cm.folderTitle, lookup))
                      && (oldFolder != cm.folderTitle ==> CheckOk(oldFolder, lookup))
    {
      if cm.folderTitle != "" && folder.None? {
        return false;
      }
      var oldFolder := if cm.key in uidMap then uidMap[cm.key].folder else "";
      var current;
      current, ok := ReplaceDashboards(cm, AtFolder(folder), home);
      var cleaned := CleanupFolders(|current| == 0, cm.folderTitle, oldFolder, lookup);
      ok := ok && cleaned;
    }

    /** The end of `updateDashboard`; `empty` tells that nothing was sent. */
    method CleanupFolders(empty: bool, title: string, before: string, lookup: string -> FolderCheck) returns (ok: bool)
      modifies grafana`calls, grafana`dashboards
      ensures grafana.dashboards
           == CleanedUp(old(grafana.dashboards), empty, title, before, lookup, grafana.answer, old(grafana.calls))
      ensures ok <==> grafana.AllDoneSince(old(grafana.calls)) && (empty ==> CheckOk(title, lookup))
                      && (before != title ==> CheckOk(before, lookup))
      ensures old(grafana.calls) <= grafana.calls
    {
      ok := true;
      if empty {
        ok := CleanupFolderIfEmpty(title, lookup);
      }
      if before != title {
        var cleaned := CleanupFolderIfEmpty(before, lookup);
        ok := ok && cleaned;
      }
    }

    /** The scan of a sweep over the desired ConfigMaps. */
    method Scan(cms: seq<ConfigMap>) returns (scan: UidMap, expected: set<string>)
      ensures scan == ScanOf(cms) && expected == ExpectedOf(cms)
    {
      scan, expected := map[], {};
      for i := 0 to |cms|
        invariant scan == ScanOf(cms[..i]) && expected == ExpectedOf(cms[..i])
      {
        assert cms[..i + 1][..i] == cms[..i];
        var uids := ScanEntries(cms[i].data);
        scan := scan[cms[i].key := TrackedState(uids, cms[i].folderTitle)];
        expected := expected + Elements(uids);
      }
      assert cms[..|cms|] == cms;
    }

    method ScanEntries(data: seq<Entry>) returns (uids: seq<string>)
      ensures uids == ExpectedUids(data)
    {
      uids := [];
      for i := 0 to |data|
        invariant uids == ExpectedUids(data[..i])
      {
        assert data[..i + 1][..i] == data[..i];
        var uid := ResolveUid(data[i].parses, data[i]);
        if uid.Some? {
          uids := uids + [uid.value];
        }
      }
      assert data[..|data|] == data;
    }

    /** Keys that are no longer desired go. */
    static method DropGone(before: UidMap, scan: UidMap) returns (m: UidMap)
      ensures m == map k | k in before && k in scan :: before[k]
    {
      m := before;
      var todo := before.Keys;
      while todo != {}
        invariant todo <= before.Keys
        invariant m == map k | k in before && (k in todo || k in scan) :: before[k]
        decreases |todo|
      {
        var k :| k in todo;
        todo := todo - {k};
        if k !in scan {
          m := m - {k};
        }
      }
    }

    /** Fresh states replace those that changed. */
    static method TakeOver(before: UidMap, scan: UidMap) returns (m: UidMap)
      requires before.Keys <= scan.Keys
      ensures m == Refreshed(before, scan)
    {
      m := before;
      var todo := scan.Keys;
      while todo != {}
        invariant todo <= scan.Keys
        invariant m.Keys == before.Keys + (scan.Keys - todo)
        invariant forall k | k in m :: m[k] == if k in todo then before[k] else Refreshed(before, scan)[k]
        decreases |todo|
      {
        var k :| k in todo;
        todo := todo - {k};
        if k !in m || m[k].folder != scan[k].folder || !UidsMatch(m[k].uids, scan[k].uids) {
          m := m[k := scan[k]];
        }
      }
    }

    /** The surgical update of the UID map. */
    method Refresh(scan: UidMap)
      modifies this`uidMap
      ensures uidMap == Refreshed(old(uidMap), scan)
    {
      var m := DropGone(uidMap, scan);
      uidMap := TakeOver(m, scan);
      assert uidMap == Refreshed(old(uidMap), scan);
    }

    /** The loop over the listing: what is not expected is deleted, and the folders of the rest are noted. */
    method DeleteOrphans(listing: seq<Listed>, expected: set<string>) returns (folders: set<string>)
      modifies grafana`calls, grafana`dashboards
      ensures folders == UsedFolders(listing, expected)
      ensures (grafana.dashboards, grafana.calls)
           == OrphansDeleted(old(grafana.dashboards), listing, expected, grafana.answer, old(grafana.calls))
    {
      folders := {};
      for i := 0 to |listing|
        invariant folders == UsedFolders(listing[..i], expected)
        invariant OrphansDeleted(grafana.dashboards, listing[i..], expected, grafana.answer, grafana.calls)
               == OrphansDeleted(old(grafana.dashboards), listing, expected, grafana.answer, old(grafana.calls))
      {
        assert listing[..i + 1] == listing[..i] + [listing[i]];
        assert listing[i..][1..] == listing[i + 1..];
        var d := listing[i];
        if d.uid !in expected {
          var ok := grafana.DeleteDashboard(d.uid);
        } else if d.folder != "" {
          folders := folders + {d.folder};
        }
      }
      assert listing[..|listing|] == listing;
    }

    /** `cleanupAllEmptyFolders`, over the folders Grafana lists. */
    method CleanupAllEmptyFolders(listed: seq<string>, used: set<string>)
      modifies grafana`calls, grafana`dashboards
      ensures grafana.dashboards
           == FoldersDeleted(old(grafana.dashboards), listed, used, grafana.answer, old(grafana.calls))
    {
      for i := 0 to |listed|
        invariant FoldersDeleted(grafana.dashboards, listed[i..], used, grafana.answer, grafana.calls)
               == FoldersDeleted(old(grafana.dashboards), listed, used, grafana.answer, old(grafana.calls))
      {
        assert listed[i..][1..] == listed[i + 1..];
        if listed[i] != "" && listed[i] !in used {
          var ok := grafana.DeleteFolder(listed[i]);
        }
      }
    }

    /** `cleanupOrphanDashboards`: `listing` is what the search returned, `cms` the desired ConfigMaps, `folders` the
        folders Grafana lists. */
    method CleanupOrphanDashboards(listing: seq<Listed>, cms: seq<ConfigMap>, folders: seq<string>)
      modifies this`uidMap, grafana`calls, grafana`dashboards
      ensures View() == SweepLoader(old(View()), listing, cms, folders, grafana.answer, old(grafana.calls))
    {
      var scan, expected := Scan(cms);
      Refresh(scan);
      var used := DeleteOrphans(listing, expected);
      CleanupAllEmptyFolders(folders, used);
    }
  }
}
