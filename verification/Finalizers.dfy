/** Deletion of the MultiClusterObservability resource: two controllers, each holding a finalizer of its own,
    clean up before the resource may disappear. */
module Finalizers {
  import opened Wrappers
  import opened Compaction

  const ANALYTICS_FINALIZER := "observability.open-cluster-management.io/analytics-cleanup"
  const RES_FINALIZER := "observability.open-cluster-management.io/res-cleanup"
  const CERT_FINALIZER := "observability.open-cluster-management.io/cert-cleanup"

  const STABILIZATION_WINDOW := 10_000_000_000  // nanoseconds

  /** The custom resource; re-created ones have a fresh id. */
  datatype Cr = Cr(id: nat, finalizers: seq<string>, deleting: bool)

  /** What happened to the resource with an id. */
  datatype Entry =
    | FinalizerAdded(id: nat, finalizer: string)
    | DeletionStarted(id: nat)
    | PhaseOneDone(id: nat, at: int)           // phase 1 of the analytics controller
    | RightSizingCleaned(id: nat, at: int)       // phase 2 of the analytics controller
    | ClusterCleaned(id: nat, works: nat)        // and the number of ManifestWorks there were
    | Gone(id: nat)

  /** The hub as both controllers see it, the memory of the analytics controller, and what happened so far. */
  datatype World = World(
    cr: Option<Cr>, works: nat, now: int, created: nat, cleanupAt: Option<int>, log: seq<Entry>)

  predicate Initial(w: World) {
    w.cr.None? && w.cleanupAt.None? && w.log == []
  }

  // ---- the API server --------------------------------------------------------------------------

  /** A resource under deletion disappears with its last finalizer. */
  function Settled(w: World): World {
    if w.cr.Some? && w.cr.value.deleting && w.cr.value.finalizers == []
    then w.(cr := None, log := w.log + [Gone(w.cr.value.id)])
    else w
  }

  function Patched(w: World, finalizers: seq<string>): World
    requires w.cr.Some?
  {
    Settled(w.(cr := Some(w.cr.value.(finalizers := finalizers))))
  }

  function Noted(w: World, e: Entry): World {
    w.(log := w.log + [e])
  }

  function OtherThan(f: string): string -> bool {
    x => x != f
  }

  /** The list without every occurrence. */
  function Without(list: seq<string>, f: string): seq<string> {
    Kept(list, OtherThan(f))
  }

  // ---- one reconcile of each controller --------------------------------------------------------

  function AddsFinalizer(w: World, finalizers: seq<string>, f: string, patch: Response): World
    requires w.cr.Some?
  {
    if patch.FailedUnchanged? then w
    else Patched(Noted(w, FinalizerAdded(w.cr.value.id, f)), finalizers + [f])
  }

  function DropsFinalizer(w: World, f: string, patch: Response): World
    requires w.cr.Some?
  {
    if patch.FailedUnchanged? then w else Patched(w, Without(w.cr.value.finalizers, f))
  }

  function AnalyticsStep(w: World, cleanupOk: bool, patch: Response): World {
    if w.cr.None? then w
    else
      var cr := w.cr.value;
      if cr.deleting then
        if ANALYTICS_FINALIZER !in cr.finalizers then w
        else if w.cleanupAt.None? then Noted(w, PhaseOneDone(cr.id, w.now)).(cleanupAt := Some(w.now))
        else if w.now - w.cleanupAt.value < STABILIZATION_WINDOW || !cleanupOk then w
        else DropsFinalizer(Noted(w, RightSizingCleaned(cr.id, w.now)), ANALYTICS_FINALIZER, patch)
      else
        var w1 := w.(cleanupAt := None);
        if ANALYTICS_FINALIZER in cr.finalizers then w1
        else AddsFinalizer(w1, cr.finalizers, ANALYTICS_FINALIZER, patch)
  }

  function McoStep(w: World, cmaDeleted: bool, listed: bool, cleanupOk: bool, patch: Response): World {
    if w.cr.None? then w
    else
      var cr := w.cr.value;
      if cr.deleting then
        if RES_FINALIZER !in cr.finalizers || !cmaDeleted || !listed || w.works > 0 || !cleanupOk then w
        else DropsFinalizer(Noted(w, ClusterCleaned(cr.id, w.works)), RES_FINALIZER, patch)
      else if RES_FINALIZER in cr.finalizers then w
      else AddsFinalizer(w, Without(cr.finalizers, CERT_FINALIZER), RES_FINALIZER, patch)
  }

  // ---- runs ------------------------------------------------------------------------------------

  datatype Event =
    | Create(finalizers: seq<string>)
    | Delete
    | OtherFinalizers(finalizers: seq<string>)   // everybody else's finalizers come and go
    | AnalyticsReconcile(cleanupOk: bool, patch: Response)
    | McoReconcile(cmaDeleted: bool, listed: bool, cleanupOk: bool, patch: Response)
    | Tick(elapsed: nat)
    | WorksChange(works: nat)
    | OperatorRestart

  function Next(w: World, e: Event): World {
    match e
    case Create(fs) =>
      if w.cr.None? && ANALYTICS_FINALIZER !in fs && RES_FINALIZER !in fs
      then w.(cr := Some(Cr(w.created, fs, false)), created := w.created + 1)
      else w
    case Delete =>
      if w.cr.Some? && !w.cr.value.deleting
      then Settled(Noted(w.(cr := Some(w.cr.value.(deleting := true))), DeletionStarted(w.cr.value.id)))
      else w
    case OtherFinalizers(fs) =>
      if w.cr.Some? && SameOwn(fs, w.cr.value.finalizers) then Patched(w, fs) else w
    case AnalyticsReconcile(cleanupOk, patch) => AnalyticsStep(w, cleanupOk, patch)
    case McoReconcile(cmaDeleted, listed, cleanupOk, patch) => McoStep(w, cmaDeleted, listed, cleanupOk, patch)
    case Tick(elapsed) => w.(now := w.now + elapsed)
    case WorksChange(works) => w.(works := works)
    case OperatorRestart => w.(cleanupAt := None)
  }

  predicate SameOwn(fs: seq<string>, gs: seq<string>) {
    && (ANALYTICS_FINALIZER in fs <==> ANALYTICS_FINALIZER in gs)
    && (RES_FINALIZER in fs <==> RES_FINALIZER in gs)
  }

  function RunOf(w: World, events: seq<Event>): World {
    if events == [] then w else Next(RunOf(w, events[..|events| - 1]), events[|events| - 1])
  }

  // ---- what the log of a run looks like --------------------------------------------------------

  /** The right-sizing resources were cleaned up for this resource. */
  ghost predicate CleanedUp(log: seq<Entry>, id: nat) {
    exists t :: RightSizingCleaned(id, t) in log
  }

  /** Phase 1 of this deletion was at least the window before the moment. */
  ghost predicate Stabilized(log: seq<Entry>, id: nat, at: int) {
    exists t :: PhaseOneDone(id, t) in log && t + STABILIZATION_WINDOW <= at
  }

  /** What must have happened before an entry may be written. */
  ghost predicate Justified(before: seq<Entry>, e: Entry) {
    match e
    case FinalizerAdded(id, f) => DeletionStarted(id) !in before
    case DeletionStarted(id) => DeletionStarted(id) !in before
    case PhaseOneDone(id, at) => DeletionStarted(id) in before
    case RightSizingCleaned(id, at) => Stabilized(before, id, at)
    case ClusterCleaned(id, works) => works == 0 && DeletionStarted(id) in before
    case Gone(id) =>
      && DeletionStarted(id) in before
      && (FinalizerAdded(id, RES_FINALIZER) in before ==> ClusterCleaned(id, 0) in before)
      && (FinalizerAdded(id, ANALYTICS_FINALIZER) in before ==> CleanedUp(before, id))
  }

  ghost predicate Orderly(log: seq<Entry>) {
    forall k | 0 <= k < |log| :: Justified(log[..k], log[k])
  }

  lemma OrderlyAppend(log: seq<Entry>, e: Entry)
    requires Orderly(log) && Justified(log, e)
    ensures Orderly(log + [e])
  {
    forall k | 0 <= k <= |log| ensures Justified((log + [e])[..k], (log + [e])[k]) {
      assert (log + [e])[..k] == log[..k];
      assert log[..|log|] == log;
    }
  }

  ghost predicate CrInv(cr: Cr, cleanupAt: Option<int>, log: seq<Entry>) {
    && Gone(cr.id) !in log
    && (cr.deleting <==> DeletionStarted(cr.id) in log)
    && (FinalizerAdded(cr.id, RES_FINALIZER) in log ==>
          RES_FINALIZER in cr.finalizers || ClusterCleaned(cr.id, 0) in log)
    && (FinalizerAdded(cr.id, ANALYTICS_FINALIZER) in log ==>
          ANALYTICS_FINALIZER in cr.finalizers || CleanedUp(log, cr.id))
    // a remembered phase 1 belongs to this very deletion
    && (ANALYTICS_FINALIZER in cr.finalizers && cleanupAt.Some? ==>
          cr.deleting && PhaseOneDone(cr.id, cleanupAt.value) in log)
  }

  ghost predicate Sound(w: World) {
    && Orderly(w.log)
    && (forall e | e in w.log :: e.id < w.created)
    && (w.cleanupAt.Some? ==> w.cleanupAt.value <= w.now)
    && (w.cr.Some? ==> w.cr.value.id < w.created && CrInv(w.cr.value, w.cleanupAt, w.log))
  }

  ghost predicate Inv(w: World) {
    Sound(w) && Settled(w) == w
  }

  lemma WithoutHas(list: seq<string>, f: string)
    ensures forall x :: x in Without(list, f) <==> x in list && x != f
  {
    KeptMeans(list, OtherThan(f));
    forall x | x in list && x != f ensures x in Without(list, f) {
      assert OtherThan(f)(x) && x in multiset(list);
    }
  }

  lemma Grows(log: seq<Entry>, e: Entry)
    ensures forall id | CleanedUp(log, id) :: CleanedUp(log + [e], id)
  {
    forall id | CleanedUp(log, id) ensures CleanedUp(log + [e], id) {
      var t :| RightSizingCleaned(id, t) in log;
      assert RightSizingCleaned(id, t) in log + [e];
    }
  }

  lemma SettledKeeps(w: World)
    requires Sound(w)
    ensures Inv(Settled(w))
  {
    if w.cr.Some? && w.cr.value.deleting && w.cr.value.finalizers == [] {
      OrderlyAppend(w.log, Gone(w.cr.value.id));
    }
  }

  /** Progress of the cleanup may be recorded. */
  lemma NotedKeeps(w: World, e: Entry)
    requires Inv(w) && w.cr.Some? && e.id == w.cr.value.id && Justified(w.log, e)
    requires e.PhaseOneDone? || e.RightSizingCleaned? || e.ClusterCleaned?
    ensures Inv(Noted(w, e))
  {
    OrderlyAppend(w.log, e);
    Grows(w.log, e);
  }

  lemma AddsKeeps(w: World, finalizers: seq<string>, f: string, patch: Response)
    requires Inv(w) && w.cr.Some? && !w.cr.value.deleting
    requires SameOwn(finalizers, w.cr.value.finalizers)
    requires f == ANALYTICS_FINALIZER ==> w.cleanupAt.None?
    ensures Inv(AddsFinalizer(w, finalizers, f, patch))
  {
    var cr, e := w.cr.value, FinalizerAdded(w.cr.value.id, f);
    OrderlyAppend(w.log, e);
    Grows(w.log, e);
    SettledKeeps(Noted(w, e).(cr := Some(cr.(finalizers := finalizers + [f]))));
  }

  lemma DropsKeeps(w: World, f: string, patch: Response)
    requires Inv(w) && w.cr.Some?
    requires f == RES_FINALIZER ==> ClusterCleaned(w.cr.value.id, 0) in w.log
    requires f == ANALYTICS_FINALIZER ==> CleanedUp(w.log, w.cr.value.id)
    ensures Inv(DropsFinalizer(w, f, patch))
  {
    var cr := w.cr.value;
    WithoutHas(cr.finalizers, f);
    SettledKeeps(w.(cr := Some(cr.(finalizers := Without(cr.finalizers, f)))));
  }

  lemma AnalyticsKeeps(w: World, cleanupOk: bool, patch: Response)
    requires Inv(w)
    ensures Inv(AnalyticsStep(w, cleanupOk, patch))
  {
    if w.cr.Some? {
      var cr := w.cr.value;
      if !cr.deleting {
        if ANALYTICS_FINALIZER !in cr.finalizers {
          AddsKeeps(w.(cleanupAt := None), cr.finalizers, ANALYTICS_FINALIZER, patch);
        }
      } else if ANALYTICS_FINALIZER in cr.finalizers {
        if w.cleanupAt.None? {
          NotedKeeps(w, PhaseOneDone(cr.id, w.now));
        } else if w.now - w.cleanupAt.value >= STABILIZATION_WINDOW {
          var e := RightSizingCleaned(cr.id, w.now);
          assert Stabilized(w.log, cr.id, w.now);
          NotedKeeps(w, e);
          assert e in Noted(w, e).log;
          DropsKeeps(Noted(w, e), ANALYTICS_FINALIZER, patch);
        }
      }
    }
  }

  lemma McoKeeps(w: World, cmaDeleted: bool, listed: bool, cleanupOk: bool, patch: Response)
    requires Inv(w)
    ensures Inv(McoStep(w, cmaDeleted, listed, cleanupOk, patch))
  {
    if w.cr.Some? {
      var cr := w.cr.value;
      if !cr.deleting {
        WithoutHas(cr.finalizers, CERT_FINALIZER);
        AddsKeeps(w, Without(cr.finalizers, CERT_FINALIZER), RES_FINALIZER, patch);
      } else if w.works == 0 {
        NotedKeeps(w, ClusterCleaned(cr.id, 0));
        DropsKeeps(Noted(w, ClusterCleaned(cr.id, 0)), RES_FINALIZER, patch);
      }
    }
  }

  lemma DeleteKeeps(w: World)
    requires Inv(w)
    ensures Inv(Next(w, Delete))
  {
    if w.cr.Some? && !w.cr.value.deleting {
      var started := DeletionStarted(w.cr.value.id);
      OrderlyAppend(w.log, started);
      Grows(w.log, started);
      SettledKeeps(Noted(w.(cr := Some(w.cr.value.(deleting := true))), started));
    }
  }

  lemma OthersKeep(w: World, fs: seq<string>)
    requires Inv(w)
    ensures Inv(Next(w, OtherFinalizers(fs)))
  {
    if w.cr.Some? && SameOwn(fs, w.cr.value.finalizers) {
      SettledKeeps(w.(cr := Some(w.cr.value.(finalizers := fs))));
    }
  }

  /** A new resource starts with a clean record, whatever phase 1 is still remembered. */
  lemma CreateKeeps(w: World, fs: seq<string>)
    requires Inv(w)
    ensures Inv(Next(w, Create(fs)))
  {
    assert forall e | e in w.log :: e.id != w.created;
  }

  lemma NextKeeps(w: World, e: Event)
    requires Inv(w)
    ensures Inv(Next(w, e))
  {
    match e
    case Create(fs) => CreateKeeps(w, fs);
    case Delete => DeleteKeeps(w);
    case OtherFinalizers(fs) => OthersKeep(w, fs);
    case AnalyticsReconcile(cleanupOk, patch) => AnalyticsKeeps(w, cleanupOk, patch);
    case McoReconcile(cmaDeleted, listed, cleanupOk, patch) => McoKeeps(w, cmaDeleted, listed, cleanupOk, patch);
    case Tick(elapsed) =>
    case WorksChange(works) =>
    case OperatorRestart =>
  }

  /** In every run, every entry was earned by the ones before it. */
  lemma {:induction false} RunIsOrderly(w: World, events: seq<Event>)
    requires Initial(w)
    ensures Inv(RunOf(w, events))
  {
    if events != [] {
      RunIsOrderly(w, events[..|events| - 1]);
      NextKeeps(RunOf(w, events[..|events| - 1]), events[|events| - 1]);
    }
  }

  /** In every run, over any delete and re-create cycles: while the analytics finalizer is there, a remembered phase 1
      is one of this very deletion. */
  lemma RememberedPhaseIsOwn(w: World, events: seq<Event>)
    requires Initial(w)
    ensures var r := RunOf(w, events);
            r.cr.Some? && ANALYTICS_FINALIZER in r.cr.value.finalizers && r.cleanupAt.Some? ==>
              r.cr.value.deleting && PhaseOneDone(r.cr.value.id, r.cleanupAt.value) in r.log
  {
    RunIsOrderly(w, events);
  }

  /** No finalizer is added, again or for the first time, once deletion has started. */
  lemma NoFinalizerAddedLate(w: World, events: seq<Event>, i: nat, j: nat)
    requires Initial(w)
    requires i < j < |RunOf(w, events).log| && RunOf(w, events).log[i].DeletionStarted?
    ensures var log := RunOf(w, events).log; log[j].FinalizerAdded? ==> log[j].id != log[i].id
  {
    RunIsOrderly(w, events);
    var log := RunOf(w, events).log;
    assert Justified(log[..j], log[j]) && log[..j][i] == log[i];
  }

  // ---- who writes the log and who takes the finalizers away ------------------------------------

  predicate Holds(w: World, f: string) {
    w.cr.Some? && f in w.cr.value.finalizers
  }

  /** A reconcile of the analytics controller whose cleanup of the right-sizing resources succeeds. */
  predicate CleansRightSizing(e: Event) {
    e.AnalyticsReconcile? && e.cleanupOk
  }

  /** A reconcile of the main controller in which every cleanup call succeeds. */
  predicate CleansCluster(e: Event) {
    e.McoReconcile? && e.cmaDeleted && e.listed && e.cleanupOk
  }

  predicate MayWrite(w: World, e: Event, entry: Entry) {
    match entry
    case FinalizerAdded(_, f) =>
      if f == ANALYTICS_FINALIZER then e.AnalyticsReconcile? else f == RES_FINALIZER && e.McoReconcile?
    case DeletionStarted(_) => e.Delete?
    case PhaseOneDone(_, at) => e.AnalyticsReconcile? && at == w.now
    case RightSizingCleaned(_, at) => CleansRightSizing(e) && at == w.now
    case ClusterCleaned(_, works) => CleansCluster(e) && works == w.works
    case Gone(_) => true
  }

  /** A step only appends, and only what its kind of event may write, about the resource that is there. */
  lemma StepWrites(w: World, e: Event)
    ensures w.log <= Next(w, e).log
    ensures forall k | |w.log| <= k < |Next(w, e).log| ::
              w.cr.Some? && Next(w, e).log[k].id == w.cr.value.id && MayWrite(w, e, Next(w, e).log[k])
  {
  }

  /** The entry at position `c` of the log was written by event `i`. */
  ghost predicate Wrote(w: World, events: seq<Event>, i: nat, c: nat) {
    i < |events| && |RunOf(w, events[..i]).log| <= c < |RunOf(w, events[..i + 1]).log|
  }

  lemma {:induction false} WrittenWhen(w: World, events: seq<Event>, c: nat) returns (i: nat)
    requires |w.log| <= c < |RunOf(w, events).log|
    ensures Wrote(w, events, i, c)
    ensures MayWrite(RunOf(w, events[..i]), events[i], RunOf(w, events).log[c])
  {
    var init := events[..|events| - 1];
    assert events[..|events|] == events;
    StepWrites(RunOf(w, init), events[|events| - 1]);
    if c < |RunOf(w, init).log| {
      i := WrittenWhen(w, init, c);
      assert events[..i] == init[..i] && events[..i + 1] == init[..i + 1];
    } else {
      i := |init|;
    }
  }

  /** In a resource under deletion the analytics finalizer goes exactly by a reconcile whose right-sizing cleanup
      succeeds, the window after the remembered phase 1, and whose patch arrives. */
  lemma AnalyticsFinalizerGoesExactly(w: World, e: Event)
    requires Holds(w, ANALYTICS_FINALIZER) && w.cr.value.deleting
    ensures !Holds(Next(w, e), ANALYTICS_FINALIZER) <==>
              && CleansRightSizing(e) && e.patch != FailedUnchanged
              && w.cleanupAt.Some? && w.now - w.cleanupAt.value >= STABILIZATION_WINDOW
  {
    WithoutHas(w.cr.value.finalizers, ANALYTICS_FINALIZER);
    WithoutHas(w.cr.value.finalizers, RES_FINALIZER);
  }

  /** And the other one exactly by a reconcile in which every cleanup call succeeds, with no ManifestWork left. */
  lemma ResFinalizerGoesExactly(w: World, e: Event)
    requires Holds(w, RES_FINALIZER) && w.cr.value.deleting
    ensures !Holds(Next(w, e), RES_FINALIZER) <==> CleansCluster(e) && w.works == 0 && e.patch != FailedUnchanged
  {
    WithoutHas(w.cr.value.finalizers, ANALYTICS_FINALIZER);
    WithoutHas(w.cr.value.finalizers, RES_FINALIZER);
  }

  /** A failed cleanup leaves the resource and its finalizers as they are. */
  lemma FailedCleanupKeepsResource(w: World, e: Event)
    requires w.cr.Some? && w.cr.value.deleting
    requires e.AnalyticsReconcile? || e.McoReconcile?
    requires !CleansRightSizing(e) && !CleansCluster(e)
    ensures Next(w, e).cr == w.cr
  {
  }

  /** A reconcile of a live resource whose patch arrives leaves the controller's finalizer there; the main controller
      also takes the outdated one away when it adds its own.  Everybody else's finalizers stay. */
  lemma LiveResourceGetsFinalizers(w: World, e: Event)
    requires w.cr.Some? && !w.cr.value.deleting && (e.AnalyticsReconcile? || e.McoReconcile?)
    ensures var after := Next(w, e);
            && after.cr.Some? && after.cr.value.id == w.cr.value.id && !after.cr.value.deleting
            && (forall f | f in w.cr.value.finalizers && f != CERT_FINALIZER :: Holds(after, f))
            && (Holds(after, CERT_FINALIZER) <==>
                  Holds(w, CERT_FINALIZER)
                  && (e.AnalyticsReconcile? || Holds(w, RES_FINALIZER) || e.patch == FailedUnchanged))
            && (e.patch != FailedUnchanged ==>
                  Holds(after, if e.AnalyticsReconcile? then ANALYTICS_FINALIZER else RES_FINALIZER))
  {
    DifferentFinalizers();
    WithoutHas(w.cr.value.finalizers, CERT_FINALIZER);
  }

  lemma DifferentFinalizers()
    ensures ANALYTICS_FINALIZER != RES_FINALIZER && RES_FINALIZER != CERT_FINALIZER
            && ANALYTICS_FINALIZER != CERT_FINALIZER
  {
    assert |ANALYTICS_FINALIZER| == 58 && |RES_FINALIZER| == 52 && |CERT_FINALIZER| == 53;
  }

  // ---- gone only after cleanup -----------------------------------------------------------------

  /** Before moment `k`, deletion started, then phase 1 ran, and at least the window later an event whose cleanup of the
      right-sizing resources succeeded recorded it. */
  ghost predicate CleanedAfterWindow(w: World, events: seq<Event>, k: nat, id: nat) {
    var log := RunOf(w, events).log;
    k <= |log| && exists s: nat, p: nat, c: nat, i: nat | s < p < c < k ::
      && log[s] == DeletionStarted(id)
      && CleanedAfterPhaseOne(log[p], log[c], id)
      && Wrote(w, events, i, c) && CleansRightSizing(events[i])
  }

  ghost predicate CleanedAfterPhaseOne(synced: Entry, cleaned: Entry, id: nat) {
    && synced.PhaseOneDone? && synced.id == id
    && cleaned.RightSizingCleaned? && cleaned.id == id && synced.at + 10 * 1_000_000_000 <= cleaned.at
  }

  /** Before moment `k`, deletion started, and later an event all of whose cleanup calls succeeded, with no ManifestWork
      left, recorded that. */
  ghost predicate CleanedAfterWorks(w: World, events: seq<Event>, k: nat, id: nat) {
    var log := RunOf(w, events).log;
    k <= |log| && exists s: nat, c: nat, i: nat | s < c < k ::
      && log[s] == DeletionStarted(id) && log[c] == ClusterCleaned(id, 0)
      && Wrote(w, events, i, c) && CleansCluster(events[i]) && RunOf(w, events[..i]).works == 0
  }

  lemma IndexOf(log: seq<Entry>, k: nat, e: Entry) returns (c: nat)
    requires k <= |log| && e in log[..k]
    ensures c < k && log[c] == e
  {
    c :| 0 <= c < |log[..k]| && log[..k][c] == e;
  }

  lemma ClusterCleanedWhen(w: World, events: seq<Event>, k: nat, id: nat)
    requires Initial(w) && k <= |RunOf(w, events).log| && ClusterCleaned(id, 0) in RunOf(w, events).log[..k]
    ensures CleanedAfterWorks(w, events, k, id)
  {
    RunIsOrderly(w, events);
    var log := RunOf(w, events).log;
    var c := IndexOf(log, k, ClusterCleaned(id, 0));
    assert Justified(log[..c], log[c]);
    var s := IndexOf(log, c, DeletionStarted(id));
    var i := WrittenWhen(w, events, c);
  }

  lemma PhaseOneWhen(log: seq<Entry>, c: nat, id: nat) returns (s: nat, p: nat)
    requires Orderly(log) && c < |log| && log[c].RightSizingCleaned? && log[c].id == id
    ensures s < p < c && log[s] == DeletionStarted(id) && CleanedAfterPhaseOne(log[p], log[c], id)
  {
    assert Justified(log[..c], log[c]);
    var t :| PhaseOneDone(id, t) in log[..c] && t + STABILIZATION_WINDOW <= log[c].at;
    p := IndexOf(log, c, PhaseOneDone(id, t));
    assert Justified(log[..p], log[p]);
    s := IndexOf(log, p, DeletionStarted(id));
  }

  lemma RightSizingCleanedWhen(w: World, events: seq<Event>, k: nat, id: nat)
    requires Initial(w) && k <= |RunOf(w, events).log| && CleanedUp(RunOf(w, events).log[..k], id)
    ensures CleanedAfterWindow(w, events, k, id)
  {
    RunIsOrderly(w, events);
    var log := RunOf(w, events).log;
    var t :| RightSizingCleaned(id, t) in log[..k];
    var c := IndexOf(log, k, RightSizingCleaned(id, t));
    var s, p := PhaseOneWhen(log, c, id);
    var i := WrittenWhen(w, events, c);
    assert 0 <= s < p < c < k && CleanedAfterPhaseOne(log[p], log[c], id);
  }

  /** Whoever's finalizer was added had its cleanup done, successfully and in this very deletion, before the resource
      was gone. */
  lemma GoneOnlyAfterCleanup(w: World, events: seq<Event>, k: nat)
    requires Initial(w) && k < |RunOf(w, events).log| && RunOf(w, events).log[k].Gone?
    ensures var log := RunOf(w, events).log; var id := log[k].id;
      && (FinalizerAdded(id, RES_FINALIZER) in log[..k] ==> CleanedAfterWorks(w, events, k, id))
      && (FinalizerAdded(id, ANALYTICS_FINALIZER) in log[..k] ==> CleanedAfterWindow(w, events, k, id))
  {
    RunIsOrderly(w, events);
    var log := RunOf(w, events).log;
    var id := log[k].id;
    assert Justified(log[..k], log[k]);
    if FinalizerAdded(id, RES_FINALIZER) in log[..k] { ClusterCleanedWhen(w, events, k, id); }
    if FinalizerAdded(id, ANALYTICS_FINALIZER) in log[..k] { RightSizingCleanedWhen(w, events, k, id); }
  }

  lemma {:induction false} NoneLeft(list: seq<string>, f: string)
    requires forall i | 0 <= i < |list| :: list[i] == f
    ensures Without(list, f) == []
  {
    if list != [] { NoneLeft(list[..|list| - 1], f); }
  }

  lemma AnalyticsCompletes(w: World)
    requires Inv(w)
    requires w.cr.Some? ==>
      w.cr.value.deleting && forall f | f in w.cr.value.finalizers :: f == ANALYTICS_FINALIZER
    ensures var r := Next(w, AnalyticsReconcile(true, Done));
      Next(Next(r, Tick(STABILIZATION_WINDOW)), AnalyticsReconcile(true, Done)).cr.None?
  {
    if w.cr.Some? {
      var left := w.cr.value.finalizers;
      assert forall i | 0 <= i < |left| :: left[i] in left;
      NoneLeft(left, ANALYTICS_FINALIZER);
    }
  }

  /** And it does go: with nobody else's finalizer and no ManifestWork left, working API calls suffice. */
  lemma DeletionCompletes(w: World, events: seq<Event>)
    requires Initial(w)
    requires var r := RunOf(w, events);
      r.cr.Some? && r.cr.value.deleting && r.works == 0
      && (forall f | f in r.cr.value.finalizers :: f == ANALYTICS_FINALIZER || f == RES_FINALIZER)
    ensures var r := Next(Next(RunOf(w, events), McoReconcile(true, true, true, Done)), AnalyticsReconcile(true, Done));
      Next(Next(r, Tick(STABILIZATION_WINDOW)), AnalyticsReconcile(true, Done)).cr.None?
  {
    RunIsOrderly(w, events);
    var r := RunOf(w, events);
    WithoutHas(r.cr.value.finalizers, RES_FINALIZER);
    NextKeeps(r, McoReconcile(true, true, true, Done));
    AnalyticsCompletes(Next(r, McoReconcile(true, true, true, Done)));
  }

  // ---- the controllers -------------------------------------------------------------------------

  ghost function AfterPatch(w: World, finalizers: seq<string>, added: Option<string>, response: Response): World
    requires w.cr.Some?
  {
    if response.FailedUnchanged? then w
    else if added.Some? then Patched(Noted(w, FinalizerAdded(w.cr.value.id, added.value)), finalizers)
    else Patched(w, finalizers)
  }

  /** The hub cluster: its API server and its clock. */
  class Hub {
    var cr: Option<Cr>
    var works: nat
    var now: int
    var created: nat
    ghost var log: seq<Entry>

    constructor (works: nat, now: int)
      ensures Initial(View(None))
    {
      cr, this.works, this.now, created, log := None, works, now, 0, [];
    }

    ghost function View(cleanupAt: Option<int>): World
      reads this
    {
      World(cr, works, now, created, cleanupAt, log)
    }

    /** A patch of the finalizers; `added` is the one it brings in, if any. */
    method Patch(finalizers: seq<string>, ghost added: Option<string>, response: Response) returns (ok: bool)
      requires cr.Some?
      modifies this
      ensures ok <==> response.Done?
      ensures forall c :: View(c) == AfterPatch(old(View(c)), finalizers, added, response)
    {
      if response != FailedUnchanged {
        var patched := cr.value.(finalizers := finalizers);
        if added.Some? { log := log + [FinalizerAdded(patched.id, added.value)]; }
        cr := Some(patched);
        if patched.deleting && finalizers == [] {
          cr := None;
          log := log + [Gone(patched.id)];
        }
      }
      return response.Done?;
    }
  }

  method Remove(list: seq<string>, s: string) returns (result: seq<string>)
    ensures result == Without(list, s)
  {
    result := [];
    for i := 0 to |list|
      invariant result == Without(list[..i], s)
    {
      KeptOneMore(list, i, OtherThan(s));
      if list[i] != s { result := result + [list[i]]; }
    }
    assert list[..|list|] == list;
  }

  datatype Outcome = Finished | Requeue | RequeueAfter(delay: int) | Failed

  class AnalyticsReconciler {
    var cleanupAt: Option<int>

    constructor ()
      ensures cleanupAt.None?
    {
      cleanupAt := None;
    }

    /** The finalizer phases of `Reconcile`.  A requeue delay ends exactly when the window does. */
    method Reconcile(hub: Hub, cleanupOk: bool, patch: Response) returns (r: Outcome)
      modifies this, hub
      ensures hub.View(cleanupAt) == AnalyticsStep(old(hub.View(cleanupAt)), cleanupOk, patch)
      ensures r.RequeueAfter? ==> cleanupAt.Some? && hub.now + r.delay == cleanupAt.value + STABILIZATION_WINDOW
      // It is not done before the finalizer is where it should be, and fails only if a call does.
      ensures r.Finished? && hub.cr.Some? ==>
              (hub.cr.value.deleting <==> ANALYTICS_FINALIZER !in hub.cr.value.finalizers)
      ensures r.Failed? ==> patch != Done || (!cleanupOk && hub.cr == old(hub.cr))
    {
      if hub.cr.None? { return Finished; }
      var instance := hub.cr.value;
      if instance.deleting {
        if ANALYTICS_FINALIZER !in instance.finalizers { return Finished; }
        if cleanupAt.None? {
          cleanupAt := Some(hub.now);
          hub.log := hub.log + [PhaseOneDone(instance.id, hub.now)];
          return RequeueAfter(STABILIZATION_WINDOW);
        }
        var elapsed := hub.now - cleanupAt.value;
        if elapsed < STABILIZATION_WINDOW { return RequeueAfter(STABILIZATION_WINDOW - elapsed); }
        if !cleanupOk { return Failed; }
        hub.log := hub.log + [RightSizingCleaned(instance.id, hub.now)];
        var finalizers := Remove(instance.finalizers, ANALYTICS_FINALIZER);
        WithoutHas(instance.finalizers, ANALYTICS_FINALIZER);
        var ok := hub.Patch(finalizers, None, patch);
        return if ok then Finished else Failed;
      }
      cleanupAt := None;
      if ANALYTICS_FINALIZER !in instance.finalizers {
        var ok := hub.Patch(instance.finalizers + [ANALYTICS_FINALIZER], Some(ANALYTICS_FINALIZER), patch);
        return if ok then Requeue else Failed;
      }
      return Finished;
    }
  }

  /** `cleanupMCOAManifestWorks`. */
  method CleanupMcoaManifestWorks(hub: Hub, cmaDeleted: bool, listed: bool) returns (requeue: bool, ok: bool)
    ensures ok <==> cmaDeleted && listed
    ensures ok ==> (requeue <==> hub.works > 0)
  {
    if !cmaDeleted || !listed { return false, false; }
    return hub.works > 0, true;
  }

  /** `initFinalization`. */
  method InitFinalization(hub: Hub, cmaDeleted: bool, listed: bool, cleanupOk: bool, patch: Response)
    returns (r: Outcome)
    modifies hub
    ensures forall c :: hub.View(c) == McoStep(old(hub.View(c)), cmaDeleted, listed, cleanupOk, patch)
    // It goes on only with the finalizer where it should be, and fails only if a call does.
    ensures r.Finished? && hub.cr.Some? ==> (hub.cr.value.deleting <==> RES_FINALIZER !in hub.cr.value.finalizers)
    ensures r.Requeue? ==> hub.works > 0 && hub.cr == old(hub.cr)
    ensures r.Failed? ==> patch != Done || !cmaDeleted || !listed || !cleanupOk
  {
    if hub.cr.None? { return Finished; }
    var mco := hub.cr.value;
    if mco.deleting && RES_FINALIZER in mco.finalizers {
      var requeue, cleaned := CleanupMcoaManifestWorks(hub, cmaDeleted, listed);
      if !cleaned { return Failed; }
      if requeue { return Requeue; }
      if !cleanupOk { return Failed; }
      hub.log := hub.log + [ClusterCleaned(mco.id, hub.works)];
      var finalizers := Remove(mco.finalizers, RES_FINALIZER);
      WithoutHas(mco.finalizers, RES_FINALIZER);
      var ok := hub.Patch(finalizers, None, patch);
      assert hub.View(None).cr == hub.cr;
      return if ok then Finished else Failed;
    }
    if mco.deleting { return Finished; }
    if RES_FINALIZER !in mco.finalizers {
      var finalizers := Remove(mco.finalizers, CERT_FINALIZER);
      var ok := hub.Patch(finalizers + [RES_FINALIZER], Some(RES_FINALIZER), patch);
      return if ok then Finished else Failed;
    }
    return Finished;
  }
}
