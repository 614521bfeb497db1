/** Label injection: a visitor walks the parsed expression and appends a matcher to every selector
    object in place.  A matrix selector and the vector selector inside it are both visited, so a
    matrix selector receives the matcher twice. */
module Rewrite {
  import opened PromQL

  const ACM_MANAGED_CLUSTER_LABELS := "acm_managed_cluster_labels"

  // ---- what is injected -----------------------------------------------------------------------

  datatype Injector =
    | LabelInjector(matcher: Matcher)
    | ClusterLabelInjector(clusterValues: seq<string>)

  /** A matcher on `name` for the given values: equality for one value, an alternation otherwise. */
  function ValuesMatcher(name: string, values: seq<string>): Matcher {
    Matcher(name, if |values| == 1 then MatchEqual else MatchRegexp, JoinBar(values))
  }

  /** The label by which series of a metric carry their cluster. */
  function ClusterLabelOf(selectorName: string): string {
    if selectorName == ACM_MANAGED_CLUSTER_LABELS then "name" else "cluster"
  }

  function MatcherFor(li: Injector, selectorName: string): Matcher {
    match li
    case LabelInjector(m) => m
    case ClusterLabelInjector(values) => ValuesMatcher(ClusterLabelOf(selectorName), values)
  }

  /** No value at all means: match only series without the label. */
  function OrNothing(values: seq<string>): seq<string> {
    if values == [] then [""] else values
  }

  function InjectTree(li: Injector, t: Tree): Tree
    decreases t, 0
  {
    match t
    case Vector(name, ms, mods) => Vector(name, ms + [MatcherFor(li, name)], mods)
    case Matrix(name, ms, mods, range) =>
      Matrix(name, ms + [MatcherFor(li, name)] + [MatcherFor(li, name)], mods, range)
    case Node(op, kids) => Node(op, InjectAll(li, kids))
  }

  function InjectAll(li: Injector, ts: seq<Tree>): (r: seq<Tree>)
    ensures |r| == |ts|
    decreases ts, 1
  {
    if ts == [] then [] else [InjectTree(li, ts[0])] + InjectAll(li, ts[1..])
  }

  // ---- what injection means -------------------------------------------------------------------

  lemma AcceptsAppended(e: RegexEngine, ms: seq<Matcher>, m: Matcher, s: Series)
    ensures Accepts(e, ms + [m], s) <==> Accepts(e, ms, s) && Matches(e, m, Label(s, m.name))
  {
    var ext := ms + [m];
    assert ext[|ms|] == m;
    if Accepts(e, ext, s) {
      forall i | 0 <= i < |ms| ensures Matches(e, ms[i], Label(s, ms[i].name)) { assert ext[i] == ms[i]; }
    }
  }

  ghost predicate InjectorAdmits(e: RegexEngine, li: Injector, name: string, s: Series) {
    var m := MatcherFor(li, name);
    Matches(e, m, Label(s, m.name))
  }

  /** The tree after injection evaluates to what the original tree evaluates to when each selector
      only sees the series its injected matcher accepts; that a matrix selector receives the
      matcher twice makes no difference. */
  lemma {:induction false} InjectionRestrictsSelectors<V>(e: RegexEngine, sem: Semantics<V>, li: Injector, t: Tree,
                                                          store: set<Series>)
    ensures Eval(e, sem, InjectTree(li, t), store)
         == EvalGuarded(e, sem, t, store, (name, s) => InjectorAdmits(e, li, name, s))
    decreases t, 0
  {
    var admits := (name, s) => InjectorAdmits(e, li, name, s);
    match t
    case Vector(name, ms, _) =>
      var m := MatcherFor(li, name);
      forall s
        ensures Accepts(e, ms + [m], s) <==> Accepts(e, ms, s) && admits(name, s)
      {
        AcceptsAppended(e, ms, m, s);
      }
      assert Select(e, ms + [m], store) == Select(e, ms, set s | s in store && admits(name, s));
    case Matrix(name, ms, _, _) =>
      var m := MatcherFor(li, name);
      forall s
        ensures Accepts(e, ms + [m] + [m], s) <==> Accepts(e, ms, s) && admits(name, s)
      {
        AcceptsAppended(e, ms, m, s);
        AcceptsAppended(e, ms + [m], m, s);
      }
      assert Select(e, ms + [m] + [m], store) == Select(e, ms, set s | s in store && admits(name, s));
    case Node(_, kids) =>
      InjectionRestrictsAll(e, sem, li, kids, store);
  }

  lemma {:induction false} InjectionRestrictsAll<V>(e: RegexEngine, sem: Semantics<V>, li: Injector, ts: seq<Tree>,
                                                    store: set<Series>)
    ensures EvalAll(e, sem, InjectAll(li, ts), store)
         == EvalAllGuarded(e, sem, ts, store, (name, s) => InjectorAdmits(e, li, name, s))
    decreases ts, 1
  {
    if ts != [] {
      InjectionRestrictsSelectors(e, sem, li, ts[0], store);
      InjectionRestrictsAll(e, sem, li, ts[1..], store);
    }
  }

  /** A guard that turns away nothing a selector reads from the store changes nothing. */
  lemma {:induction false} OpenGuard<V>(e: RegexEngine, sem: Semantics<V>, t: Tree, store: set<Series>,
                                        p: (string, Series) -> bool)
    requires forall sel, s | sel in Selectors(t) && s in store && Accepts(e, sel.matchers, s) :: p(sel.name, s)
    ensures EvalGuarded(e, sem, t, store, p) == Eval(e, sem, t, store)
    decreases t, 0
  {
    match t
    case Vector(name, ms, _) =>
      assert Selector(name, ms) in Selectors(t);
      assert Select(e, ms, set s | s in store && p(name, s)) == Select(e, ms, store);
    case Matrix(name, ms, _, _) =>
      assert Selector(name, ms) in Selectors(t);
      assert Select(e, ms, set s | s in store && p(name, s)) == Select(e, ms, store);
    case Node(_, kids) => OpenGuardAll(e, sem, kids, store, p);
  }

  lemma {:induction false} OpenGuardAll<V>(e: RegexEngine, sem: Semantics<V>, ts: seq<Tree>, store: set<Series>,
                                           p: (string, Series) -> bool)
    requires forall sel, s | sel in SelectorsOfAll(ts) && s in store && Accepts(e, sel.matchers, s) :: p(sel.name, s)
    ensures EvalAllGuarded(e, sem, ts, store, p) == EvalAll(e, sem, ts, store)
    decreases ts, 1
  {
    if ts != [] {
      OpenGuard(e, sem, ts[0], store, p);
      OpenGuardAll(e, sem, ts[1..], store, p);
    }
  }

  /** For plain values the injected matcher accepts exactly the listed values. */
  lemma ValuesMatcherMeansMembership(e: RegexEngine, name: string, values: seq<string>, v: string)
    requires values != [] && AllPlain(values)
    ensures Matches(e, ValuesMatcher(name, values), v) <==> v in values
  {
    SplitJoin(values);
  }

  ghost predicate ClusterAdmits(values: seq<string>, name: string, s: Series) {
    Label(s, ClusterLabelOf(name)) in OrNothing(values)
  }

  lemma {:induction false} SameGuard<V>(e: RegexEngine, sem: Semantics<V>, t: Tree, store: set<Series>,
                                        p: (string, Series) -> bool, q: (string, Series) -> bool)
    requires forall sel, s | sel in Selectors(t) && s in store :: p(sel.name, s) == q(sel.name, s)
    ensures EvalGuarded(e, sem, t, store, p) == EvalGuarded(e, sem, t, store, q)
    decreases t, 0
  {
    match t
    case Vector(name, ms, _) =>
      assert Selector(name, ms) in Selectors(t);
      assert (set s | s in store && p(name, s)) == (set s | s in store && q(name, s));
    case Matrix(name, ms, _, _) =>
      assert Selector(name, ms) in Selectors(t);
      assert (set s | s in store && p(name, s)) == (set s | s in store && q(name, s));
    case Node(_, kids) => SameGuardAll(e, sem, kids, store, p, q);
  }

  lemma {:induction false} SameGuardAll<V>(e: RegexEngine, sem: Semantics<V>, ts: seq<Tree>, store: set<Series>,
                                           p: (string, Series) -> bool, q: (string, Series) -> bool)
    requires forall sel, s | sel in SelectorsOfAll(ts) && s in store :: p(sel.name, s) == q(sel.name, s)
    ensures EvalAllGuarded(e, sem, ts, store, p) == EvalAllGuarded(e, sem, ts, store, q)
    decreases ts, 1
  {
    if ts != [] {
      SameGuard(e, sem, ts[0], store, p, q);
      SameGuardAll(e, sem, ts[1..], store, p, q);
    }
  }

  /** Cluster injection, in terms of the cluster names alone: each selector is left with the series
      whose cluster label is one of the given names (no names: those without the label). */
  lemma ClusterInjectionConfinesEvaluation<V>(e: RegexEngine, sem: Semantics<V>, values: seq<string>, t: Tree,
                                              store: set<Series>)
    requires AllPlain(values)
    ensures Eval(e, sem, InjectTree(ClusterLabelInjector(OrNothing(values)), t), store)
         == EvalGuarded(e, sem, t, store, (name, s) => ClusterAdmits(values, name, s))
  {
    var li := ClusterLabelInjector(OrNothing(values));
    InjectionRestrictsSelectors(e, sem, li, t, store);
    forall name, s
      ensures InjectorAdmits(e, li, name, s) == ClusterAdmits(values, name, s)
    {
      ValuesMatcherMeansMembership(e, ClusterLabelOf(name), OrNothing(values), Label(s, ClusterLabelOf(name)));
    }
    SameGuard(e, sem, t, store, (name, s) => InjectorAdmits(e, li, name, s),
              (name, s) => ClusterAdmits(values, name, s));
  }

  /** Injection keeps the selectors in place and only adds the injected matcher to them. */
  lemma {:induction false} InjectedSelectors(li: Injector, t: Tree)
    ensures |Selectors(InjectTree(li, t))| == |Selectors(t)|
    ensures forall i | 0 <= i < |Selectors(t)| ::
              SelectorInjected(li, Selectors(t)[i], Selectors(InjectTree(li, t))[i])
    decreases t, 0
  {
    match t
    case Vector(_, _, _) =>
    case Matrix(_, _, _, _) =>
    case Node(_, kids) => InjectedSelectorsOfAll(li, kids);
  }

  lemma {:induction false} InjectedSelectorsOfAll(li: Injector, ts: seq<Tree>)
    ensures |SelectorsOfAll(InjectAll(li, ts))| == |SelectorsOfAll(ts)|
    ensures forall i | 0 <= i < |SelectorsOfAll(ts)| ::
              SelectorInjected(li, SelectorsOfAll(ts)[i], SelectorsOfAll(InjectAll(li, ts))[i])
    decreases ts, 1
  {
    if ts != [] {
      InjectedSelectors(li, ts[0]);
      InjectedSelectorsOfAll(li, ts[1..]);
    }
  }

  ghost predicate SelectorInjected(li: Injector, before: Selector, after: Selector) {
    && after.name == before.name
    && (|| after.matchers == before.matchers + [MatcherFor(li, before.name)]
        || after.matchers == before.matchers + [MatcherFor(li, before.name)] + [MatcherFor(li, before.name)])
  }

  lemma SelectorInjectedMeans(e: RegexEngine, li: Injector, before: Selector, after: Selector, s: Series)
    requires SelectorInjected(li, before, after)
    ensures Accepts(e, after.matchers, s)
       <==> Accepts(e, before.matchers, s) && InjectorAdmits(e, li, before.name, s)
  {
    var m := MatcherFor(li, before.name);
    AcceptsAppended(e, before.matchers, m, s);
    AcceptsAppended(e, before.matchers + [m], m, s);
  }

  // ---- the parsed expression as objects --------------------------------------------------------

  class VectorSelector {
    const Name: string
    const Modifiers: string
    var LabelMatchers: seq<Matcher>

    constructor (name: string, matchers: seq<Matcher>, modifiers: string)
      ensures Name == name && Modifiers == modifiers && LabelMatchers == matchers
    {
      Name, Modifiers, LabelMatchers := name, modifiers, matchers;
    }
  }

  datatype Expr =
    | VectorNode(selector: VectorSelector)
    | MatrixNode(inner: VectorSelector, range: string)
    | OpNode(op: Op, kids: seq<Expr>)

  /** The selector objects of an expression. */
  ghost function Objects(x: Expr): set<VectorSelector>
    decreases x, 0
  {
    match x
    case VectorNode(sel) => {sel}
    case MatrixNode(sel, _) => {sel}
    case OpNode(_, kids) => ObjectsOfAll(kids)
  }

  ghost function ObjectsOfAll(xs: seq<Expr>): set<VectorSelector>
    decreases xs, 1
  {
    if xs == [] then {} else Objects(xs[0]) + ObjectsOfAll(xs[1..])
  }

  /** No selector object occurs twice. */
  ghost predicate Unshared(x: Expr)
    decreases x, 0
  {
    x.OpNode? ==> UnsharedAll(x.kids)
  }

  ghost predicate UnsharedAll(xs: seq<Expr>)
    decreases xs, 1
  {
    xs == [] || (Unshared(xs[0]) && Objects(xs[0]) !! ObjectsOfAll(xs[1..]) && UnsharedAll(xs[1..]))
  }

  /** The text of an expression (`expr.String()`), represented by its tree. */
  function Print(x: Expr): Tree
    reads Objects(x)
    decreases x, 0
  {
    match x
    case VectorNode(sel) => Vector(sel.Name, sel.LabelMatchers, sel.Modifiers)
    case MatrixNode(sel, range) => Matrix(sel.Name, sel.LabelMatchers, sel.Modifiers, range)
    case OpNode(op, kids) => Node(op, PrintAll(kids))
  }

  function PrintAll(xs: seq<Expr>): seq<Tree>
    reads ObjectsOfAll(xs)
    decreases xs, 1
  {
    if xs == [] then [] else [Print(xs[0])] + PrintAll(xs[1..])
  }

  lemma OneAllocated(x: Expr)
    ensures forall o | o in Objects(x) :: allocated(o)
    decreases x, 0
  {
    match x
    case VectorNode(_) =>
    case MatrixNode(_, _) =>
    case OpNode(_, kids) => AllAllocated(kids);
  }

  lemma AllAllocated(xs: seq<Expr>)
    ensures forall o | o in ObjectsOfAll(xs) :: allocated(o)
    decreases xs, 1
  {
    if xs != [] {
      OneAllocated(xs[0]);
      AllAllocated(xs[1..]);
    }
  }

  method Parse(t: Tree) returns (x: Expr)
    ensures Unshared(x) && fresh(Objects(x)) && Print(x) == t
    decreases t, 0
  {
    match t
    case Vector(name, ms, mods) =>
      var sel := new VectorSelector(name, ms, mods);
      x := VectorNode(sel);
    case Matrix(name, ms, mods, range) =>
      var sel := new VectorSelector(name, ms, mods);
      x := MatrixNode(sel, range);
    case Node(op, kids) =>
      var xs := ParseAll(kids);
      x := OpNode(op, xs);
  }

  method ParseAll(ts: seq<Tree>) returns (xs: seq<Expr>)
    ensures UnsharedAll(xs) && fresh(ObjectsOfAll(xs)) && PrintAll(xs) == ts
    decreases ts, 1
  {
    if ts == [] {
      xs := [];
    } else {
      var rest := ParseAll(ts[1..]);
      label parsed:
      AllAllocated(rest);
      var first := Parse(ts[0]);
      assert forall o | o in ObjectsOfAll(rest) :: old@parsed(allocated(o));
      xs := [first] + rest;
      assert xs[0] == first && xs[1..] == rest;
    }
  }

  // ---- the walk -------------------------------------------------------------------------------

  /** `Visit` of either injector: only selectors are touched. */
  method Visit(li: Injector, x: Expr)
    modifies if x.OpNode? then {} else Objects(x)
    ensures !x.OpNode? ==>
              forall o | o in Objects(x) :: o.LabelMatchers == old(o.LabelMatchers) + [MatcherFor(li, o.Name)]
  {
    match x
    case VectorNode(sel) => sel.LabelMatchers := sel.LabelMatchers + [MatcherFor(li, sel.Name)];
    case MatrixNode(sel, _) => sel.LabelMatchers := sel.LabelMatchers + [MatcherFor(li, sel.Name)];
    case OpNode(_, _) =>
  }

  ghost function Height(x: Expr): nat
    decreases x, 0
  {
    match x
    case VectorNode(_) => 1
    case MatrixNode(_, _) => 2
    case OpNode(_, kids) => 1 + HeightOfAll(kids)
  }

  ghost function HeightOfAll(xs: seq<Expr>): (h: nat)
    decreases xs, 1
  {
    if xs == [] then 0
    else if Height(xs[0]) < HeightOfAll(xs[1..]) then HeightOfAll(xs[1..]) else Height(xs[0])
  }

  /** Depth-first: visit the node, then walk its children. */
  method Walk(li: Injector, x: Expr)
    requires Unshared(x)
    modifies Objects(x)
    ensures Print(x) == InjectTree(li, old(Print(x)))
    decreases Height(x), 1
  {
    OneAllocated(x);
    ghost var before := if x.OpNode? then PrintAll(x.kids) else [];
    Visit(li, x);
    match x
    case VectorNode(_) =>
    case MatrixNode(sel, _) => Walk(li, VectorNode(sel));
    case OpNode(_, kids) =>
      assert PrintAll(kids) == before;
      WalkAll(li, kids);
      assert PrintAll(kids) == InjectAll(li, before);
  }

  method WalkAll(li: Injector, xs: seq<Expr>)
    requires UnsharedAll(xs)
    modifies ObjectsOfAll(xs)
    ensures PrintAll(xs) == InjectAll(li, old(PrintAll(xs)))
    decreases HeightOfAll(xs), 2, |xs|
  {
    if xs != [] {
      ghost var first, rest := Print(xs[0]), PrintAll(xs[1..]);
      assert PrintAll(xs) == [first] + rest;
      OneAllocated(xs[0]);
      AllAllocated(xs[1..]);
      Walk(li, xs[0]);
      assert PrintAll(xs[1..]) == rest;
      WalkAll(li, xs[1..]);
      assert Print(xs[0]) == InjectTree(li, first);
    }
  }

  /** `InjectLabels(query, label, values)`. */
  method InjectLabels(query: Tree, labelName: string, values: seq<string>) returns (r: Tree)
    ensures r == InjectTree(LabelInjector(ValuesMatcher(labelName, OrNothing(values))), query)
  {
    var vs := values;
    if |vs| == 0 {
      vs := [""];
    }
    var expr := Parse(query);
    Walk(LabelInjector(ValuesMatcher(labelName, vs)), expr);
    r := Print(expr);
  }

  /** `InjectClusterLabels(query, clusterValues)`. */
  method InjectClusterLabels(query: Tree, clusterValues: seq<string>) returns (r: Tree)
    ensures r == InjectTree(ClusterLabelInjector(OrNothing(clusterValues)), query)
  {
    var vs := clusterValues;
    if |vs| == 0 {
      vs := [""];
    }
    var expr := Parse(query);
    Walk(ClusterLabelInjector(vs), expr);
    r := Print(expr);
  }
}
