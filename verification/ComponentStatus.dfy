/** Status conditions of the addon, and the restricted transitions between the reasons of a component. */
module ComponentStatus {
  import opened Wrappers

  datatype Reason =
    | UpdateSuccessful
    | UpdateFailed
    | ForwardSuccessful
    | ForwardFailed
    | CmoReconcileLoopDetected
    | CmoReconcileLoopStopped
    | Disabled
    | NotSupported
    | Unknown(text: string)

  /** A condition; `isTrue` is its status, `time` its last transition time. */
  datatype Condition = Condition(typ: string, reason: Reason, message: string, isTrue: bool, time: int)

  const METRICS_COLLECTOR := "MetricsCollector"
  const UWL_METRICS_COLLECTOR := "UwlMetricsCollector"

  /** `componentTransitions`. */
  function AllowedFrom(r: Reason): set<Reason> {
    match r
    case UpdateSuccessful =>
      {UpdateFailed, CmoReconcileLoopDetected, ForwardSuccessful, ForwardFailed, Disabled, NotSupported}
    case UpdateFailed => {UpdateSuccessful, Disabled, NotSupported}
    case ForwardSuccessful =>
      {ForwardFailed, UpdateSuccessful, CmoReconcileLoopDetected, UpdateFailed, Disabled, NotSupported}
    case ForwardFailed =>
      {ForwardSuccessful, UpdateSuccessful, CmoReconcileLoopDetected, UpdateFailed, Disabled, NotSupported}
    case CmoReconcileLoopDetected => {CmoReconcileLoopStopped, Disabled, NotSupported}
    case CmoReconcileLoopStopped =>
      {UpdateSuccessful, UpdateFailed, ForwardSuccessful, ForwardFailed, CmoReconcileLoopDetected, Disabled,
       NotSupported}
    case Disabled => {UpdateSuccessful, UpdateFailed, NotSupported}
    case NotSupported => {UpdateSuccessful, UpdateFailed, Disabled}
    case Unknown(_) => {}
  }

  /** The first condition of a type (`getConditionByType`). */
  function ByType(cs: seq<Condition>, typ: string): Option<Condition> {
    if cs == [] then None else if cs[0].typ == typ then Some(cs[0]) else ByType(cs[1..], typ)
  }

  predicate UniqueTypes(cs: seq<Condition>) {
    forall i, j | 0 <= i < j < |cs| :: cs[i].typ != cs[j].typ
  }

  /** `mutateOrAppend`: the first condition of the type is replaced where it stands, or a new one goes last. */
  function MutateOrAppend(cs: seq<Condition>, c: Condition): (r: seq<Condition>)
    ensures |cs| <= |r| <= |cs| + 1
  {
    if cs == [] then [c] else if cs[0].typ == c.typ then [c] + cs[1..] else [cs[0]] + MutateOrAppend(cs[1..], c)
  }

  lemma {:induction false} MutateOrAppendFinds(cs: seq<Condition>, c: Condition, t: string)
    ensures ByType(MutateOrAppend(cs, c), t) == if t == c.typ then Some(c) else ByType(cs, t)
  {
    if cs != [] && cs[0].typ != c.typ {
      MutateOrAppendFinds(cs[1..], c, t);
      assert MutateOrAppend(cs, c)[1..] == MutateOrAppend(cs[1..], c);
    } else if cs != [] {
      assert MutateOrAppend(cs, c)[1..] == cs[1..];
    } else {
      assert [c][1..] == [];
    }
  }

  /** Positions: every condition stays where it is, except the one of the type. */
  lemma {:induction false} MutateOrAppendAt(cs: seq<Condition>, c: Condition, i: nat)
    requires i < |MutateOrAppend(cs, c)|
    ensures i < |cs| ==> MutateOrAppend(cs, c)[i].typ == cs[i].typ
    ensures i < |cs| && cs[i].typ != c.typ ==> MutateOrAppend(cs, c)[i] == cs[i]
    ensures MutateOrAppend(cs, c)[i] == c || (i < |cs| && MutateOrAppend(cs, c)[i] == cs[i])
    ensures i >= |cs| ==> MutateOrAppend(cs, c)[i] == c && forall j | 0 <= j < |cs| :: cs[j].typ != c.typ
  {
    if cs != [] && cs[0].typ != c.typ && i > 0 {
      MutateOrAppendAt(cs[1..], c, i - 1);
      assert forall j | 0 < j < |cs| :: cs[j] == cs[1..][j - 1];
    }
  }

  lemma MutateOrAppendKeepsTypesUnique(cs: seq<Condition>, c: Condition)
    requires UniqueTypes(cs)
    ensures UniqueTypes(MutateOrAppend(cs, c))
  {
    var r := MutateOrAppend(cs, c);
    forall i, j | 0 <= i < j < |r|
      ensures r[i].typ != r[j].typ
    {
      MutateOrAppendAt(cs, c, i);
      MutateOrAppendAt(cs, c, j);
    }
  }

  datatype UpdateError = NoError | InvalidTransition | NotPersisted

  /** The addon, as the API server stores its status. */
  class Addon {
    var Conditions: seq<Condition>

    /** The in-place loop of `mutateOrAppend`. */
    method Put(c: Condition)
      modifies this
      ensures Conditions == MutateOrAppend(old(Conditions), c)
    {
      if |Conditions| == 0 {
        Conditions := [c];
        return;
      }
      for i := 0 to |Conditions|
        invariant Conditions == old(Conditions)
        invariant MutateOrAppend(Conditions, c) == Conditions[..i] + MutateOrAppend(Conditions[i..], c)
      {
        assert Conditions[i..][1..] == Conditions[i + 1..];
        if Conditions[i].typ == c.typ {
          Conditions := Conditions[i := c];
          return;
        }
      }
      Conditions := Conditions + [c];
    }

    method Find(typ: string) returns (r: Option<Condition>)
      ensures r == ByType(Conditions, typ)
    {
      for i := 0 to |Conditions|
        invariant ByType(Conditions, typ) == ByType(Conditions[i..], typ)
      {
        assert Conditions[i..][1..] == Conditions[i + 1..];
        if Conditions[i].typ == typ {
          return Some(Conditions[i]);
        }
      }
      r := None;
    }

    /** `UpdateComponentCondition`; `persists` tells whether the API server accepts the write. */
    method UpdateComponentCondition(component: string, newReason: Reason, message: string, now: int, persists: bool)
      returns (wasUpdated: bool, err: UpdateError)
      modifies this
      ensures Conditions == if Reported(old(Conditions), component, newReason, message) && persists
                            then MutateOrAppend(old(Conditions), Condition(component, newReason, message, true, now))
                            else old(Conditions)
      ensures ReasonOf(Conditions, component) == ReasonAfter(ReasonOf(old(Conditions), component), newReason, persists)
      ensures wasUpdated == Reported(old(Conditions), component, newReason, message)
      // Without an error the condition of the component says what was reported.
      ensures err == NoError ==>
                var c := ByType(Conditions, component);
                c.Some? && c.value.reason == newReason && c.value.message == message && c.value.isTrue
      ensures err == if wasUpdated then (if persists then NoError else NotPersisted)
                     else if SameCondition(old(Conditions), component, newReason, message) then NoError
                     else InvalidTransition
    {
      ReportMovesReason(Conditions, component, newReason, message, now, persists);
      MutateOrAppendFinds(Conditions, Condition(component, newReason, message, true, now), component);
      var current := Find(component);
      if current != None && current.value.reason == newReason && current.value.message == message
          && current.value.isTrue {
        return false, NoError;
      }
      if current != None {
        if newReason !in AllowedFrom(current.value.reason) {
          return false, InvalidTransition;
        }
      }
      if !persists {
        return true, NotPersisted;
      }
      Put(Condition(component, newReason, message, true, now));
      return true, NoError;
    }
  }

  predicate SameCondition(cs: seq<Condition>, component: string, newReason: Reason, message: string) {
    var c := ByType(cs, component);
    c.Some? && c.value.reason == newReason && c.value.message == message && c.value.isTrue
  }

  /** The report leads to a write: it says something new and the table allows it. */
  predicate Reported(cs: seq<Condition>, component: string, newReason: Reason, message: string) {
    var c := ByType(cs, component);
    !SameCondition(cs, component, newReason, message) && (c.Some? ==> newReason in AllowedFrom(c.value.reason))
  }

  function ReasonOf(cs: seq<Condition>, component: string): Option<Reason> {
    var c := ByType(cs, component);
    if c.Some? then Some(c.value.reason) else None
  }

  /** What a report does to the reason of a component. */
  function ReasonAfter(r: Option<Reason>, newReason: Reason, persists: bool): Option<Reason> {
    if persists && (r.None? || newReason in AllowedFrom(r.value)) then Some(newReason) else r
  }

  lemma ReportMovesReason(cs: seq<Condition>, component: string, newReason: Reason, message: string, now: int,
                          persists: bool)
    ensures var after := if Reported(cs, component, newReason, message) && persists
                         then MutateOrAppend(cs, Condition(component, newReason, message, true, now)) else cs;
            && ReasonOf(after, component) == ReasonAfter(ReasonOf(cs, component), newReason, persists)
            && (UniqueTypes(cs) ==> UniqueTypes(after))
            && forall t | t != component :: ByType(after, t) == ByType(cs, t)
  {
    var c := Condition(component, newReason, message, true, now);
    forall t { MutateOrAppendFinds(cs, c, t); }
    if UniqueTypes(cs) { MutateOrAppendKeepsTypesUnique(cs, c); }
  }

  /** Read by target: from which reasons a stored report leads to each reason. */
  lemma EnteredFrom(r: Reason, t: Reason)
    ensures r != t && ReasonAfter(Some(r), t, true) == Some(t) <==>
              match t
              case UpdateSuccessful =>
                r in {UpdateFailed, ForwardSuccessful, ForwardFailed, CmoReconcileLoopStopped, Disabled, NotSupported}
              case UpdateFailed =>
                r in {UpdateSuccessful, ForwardSuccessful, ForwardFailed, CmoReconcileLoopStopped, Disabled,
                      NotSupported}
              case ForwardSuccessful => r in {UpdateSuccessful, ForwardFailed, CmoReconcileLoopStopped}
              case ForwardFailed => r in {UpdateSuccessful, ForwardSuccessful, CmoReconcileLoopStopped}
              case CmoReconcileLoopDetected =>
                r in {UpdateSuccessful, ForwardSuccessful, ForwardFailed, CmoReconcileLoopStopped}
              case CmoReconcileLoopStopped => r == CmoReconcileLoopDetected
              case Disabled => r != Disabled && !r.Unknown?
              case NotSupported => r != NotSupported && !r.Unknown?
              case Unknown(_) => false
  {
  }

  datatype ReasonReport = ReasonReport(reason: Reason, persists: bool)

  function ReasonAfterAll(r: Option<Reason>, reports: seq<ReasonReport>): Option<Reason> {
    if reports == [] then r
    else
      var last := reports[|reports| - 1];
      ReasonAfter(ReasonAfterAll(r, reports[..|reports| - 1]), last.reason, last.persists)
  }

  predicate Forwards(r: Reason) {
    r.ForwardSuccessful? || r.ForwardFailed? || r.CmoReconcileLoopDetected? || r.CmoReconcileLoopStopped?
  }

  /** In every run of reports, a collector that was off or whose update failed is never said to forward, or to be caught
      in a loop, unless a successful update was reported in between. */
  lemma {:induction false} ForwardingNeedsUpdate(r: Reason, reports: seq<ReasonReport>) returns (at: nat)
    requires r.Disabled? || r.NotSupported? || r.UpdateFailed?
    requires var end := ReasonAfterAll(Some(r), reports); end.Some? && Forwards(end.value)
    ensures at <= |reports| && ReasonAfterAll(Some(r), reports[..at]) == Some(UpdateSuccessful)
  {
    var init := reports[..|reports| - 1];
    var before := ReasonAfterAll(Some(r), init);
    if before.Some? && Forwards(before.value) {
      at := ForwardingNeedsUpdate(r, init);
      assert reports[..at] == init[..at];
    } else {
      at := |init|;
      StaysOff(r, init);
    }
  }

  lemma {:induction false} StaysOff(r: Reason, reports: seq<ReasonReport>)
    requires !r.Unknown?
    ensures var end := ReasonAfterAll(Some(r), reports); end.Some? && !end.value.Unknown?
  {
    if reports != [] { StaysOff(r, reports[..|reports| - 1]); }
  }

  function Stored(r: Reason): ReasonReport {
    ReasonReport(r, true)
  }

  /** And no reason is a dead end: from each known one, these stored reports lead to any other. */
  function PathTo(t: Reason): seq<ReasonReport> {
    match t
    case Disabled => [Stored(t)]
    case NotSupported => [Stored(t)]
    case UpdateSuccessful => [Stored(Disabled), Stored(t)]
    case UpdateFailed => [Stored(Disabled), Stored(t)]
    case CmoReconcileLoopStopped =>
      [Stored(Disabled), Stored(UpdateSuccessful), Stored(CmoReconcileLoopDetected), Stored(t)]
    case _ => [Stored(Disabled), Stored(UpdateSuccessful), Stored(t)]
  }

  lemma OneMoreReport(r: Option<Reason>, reports: seq<ReasonReport>, reason: Reason)
    ensures ReasonAfterAll(r, reports + [Stored(reason)]) == ReasonAfter(ReasonAfterAll(r, reports), reason, true)
  {
    assert (reports + [Stored(reason)])[..|reports|] == reports;
  }

  lemma OneReport(r: Option<Reason>, a: Reason)
    ensures ReasonAfterAll(r, [Stored(a)]) == ReasonAfter(r, a, true)
  {
    OneMoreReport(r, [], a);
    assert [] + [Stored(a)] == [Stored(a)];
  }

  lemma TwoReports(r: Option<Reason>, a: Reason, b: Reason)
    ensures ReasonAfterAll(r, [Stored(a), Stored(b)]) == ReasonAfter(ReasonAfter(r, a, true), b, true)
  {
    OneReport(r, a);
    OneMoreReport(r, [Stored(a)], b);
    assert [Stored(a)] + [Stored(b)] == [Stored(a), Stored(b)];
  }

  lemma ThreeReports(r: Option<Reason>, a: Reason, b: Reason, c: Reason)
    ensures ReasonAfterAll(r, [Stored(a), Stored(b), Stored(c)])
         == ReasonAfter(ReasonAfter(ReasonAfter(r, a, true), b, true), c, true)
  {
    TwoReports(r, a, b);
    OneMoreReport(r, [Stored(a), Stored(b)], c);
    assert [Stored(a), Stored(b)] + [Stored(c)] == [Stored(a), Stored(b), Stored(c)];
  }

  lemma TurnsOff(r: Reason)
    requires !r.Unknown?
    ensures ReasonAfter(Some(r), Disabled, true) == Some(Disabled)
  {
    EnteredFrom(r, Disabled);
  }

  lemma TurnsOn(t: Reason)
    requires t.ForwardSuccessful? || t.ForwardFailed? || t.CmoReconcileLoopDetected?
    ensures ReasonAfter(Some(Disabled), UpdateSuccessful, true) == Some(UpdateSuccessful)
    ensures ReasonAfter(Some(UpdateSuccessful), t, true) == Some(t)
  {
    EnteredFrom(Disabled, UpdateSuccessful);
    EnteredFrom(UpdateSuccessful, t);
  }

  lemma EveryReasonIsReachable(r: Reason, t: Reason)
    requires !r.Unknown? && !t.Unknown?
    ensures ReasonAfterAll(Some(r), PathTo(t)) == Some(t)
  {
    TurnsOff(r);
    if t.Disabled? {
      OneReport(Some(r), t);
    } else if t.NotSupported? {
      OneReport(Some(r), t);
      EnteredFrom(r, t);
    } else if t.UpdateSuccessful? || t.UpdateFailed? {
      TwoReports(Some(r), Disabled, t);
      EnteredFrom(Disabled, t);
    } else if t.CmoReconcileLoopStopped? {
      var path := [Stored(Disabled), Stored(UpdateSuccessful), Stored(CmoReconcileLoopDetected)];
      ThreeReports(Some(r), Disabled, UpdateSuccessful, CmoReconcileLoopDetected);
      TurnsOn(CmoReconcileLoopDetected);
      OneMoreReport(Some(r), path, t);
      EnteredFrom(CmoReconcileLoopDetected, t);
      assert PathTo(t) == path + [Stored(t)];
    } else {
      ThreeReports(Some(r), Disabled, UpdateSuccessful, t);
      TurnsOn(t);
    }
  }
}
