/** Which namespaces a query may be restricted to: the clusters it targets and the namespaces the
    user can see in every one of them. */
module NamespaceFilter {
  import opened Sorted
  import opened Bags
  import opened PromQL
  import opened Rewrite

  /** Cluster name to the namespaces the user may read there. */
  type Access = map<string, seq<string>>

  /** An empty list, or one with `*`, stands for every namespace. */
  predicate Universal(namespaces: seq<string>) {
    namespaces == [] || "*" in namespaces
  }

  predicate Grants(namespaces: seq<string>, ns: string) {
    Universal(namespaces) || ns in namespaces
  }

  predicate DuplicateFree(access: Access) {
    forall c | c in access :: NoDuplicates(access[c])
  }

  /** The entries of the requested clusters; a cluster without an entry reads as an empty list. */
  function Requested(access: Access, clusters: set<string>): Access {
    if clusters == {} then access
    else map c | c in clusters :: if c in access then access[c] else []
  }

  predicate AllUniversal(req: Access) {
    forall c | c in req :: Universal(req[c])
  }

  function Restricted(req: Access): Access {
    map c | c in req && !Universal(req[c]) :: req[c]
  }

  ghost function Universals(req: Access): set<string> {
    set c | c in req && Universal(req[c])
  }

  /** The namespaces whose occurrences, with the universal clusters, add up to the number of clusters. */
  ghost function CountedNamespaces(req: Access): set<string> {
    set ns | ns in Bag(Restricted(req)) && Bag(Restricted(req))[ns] + |Universals(req)| == |req|
  }

  ghost function CommonNamespaces(req: Access): seq<string> {
    if AllUniversal(req) then ["*"] else SortedList(CountedNamespaces(req))
  }

  ghost predicate CountsBag(counts: map<string, int>, bag: multiset<string>) {
    && (forall ns :: ns in counts <==> ns in bag)
    && (forall ns | ns in counts :: counts[ns] == bag[ns])
  }

  method RequestedAccess(access: Access, clusters: seq<string>) returns (req: Access)
    ensures req == Requested(access, Elements(clusters))
  {
    if |clusters| == 0 {
      return access;
    }
    req := map[];
    for i := 0 to |clusters|
      invariant req == map c | c in Elements(clusters[..i]) :: if c in access then access[c] else []
    {
      assert Elements(clusters[..i + 1]) == Elements(clusters[..i]) + {clusters[i]};
      req := req[clusters[i] := if clusters[i] in access then access[clusters[i]] else []];
    }
    assert clusters[0] in Elements(clusters) && clusters[..|clusters|] == clusters;
  }

  method AddOccurrences(before: map<string, int>, namespaces: seq<string>, ghost bag: multiset<string>)
    returns (counts: map<string, int>)
    requires CountsBag(before, bag)
    ensures CountsBag(counts, bag + multiset(namespaces))
  {
    counts := before;
    for i := 0 to |namespaces|
      invariant CountsBag(counts, bag + multiset(namespaces[..i]))
    {
      var ns := namespaces[i];
      assert namespaces[..i + 1] == namespaces[..i] + [ns];
      if ns in counts {
        counts := counts[ns := counts[ns] + 1];
      } else {
        counts := counts[ns := 1];
      }
    }
    assert namespaces[..|namespaces|] == namespaces;
  }

  ghost function RestrictedBut(req: Access, todo: set<string>): Access {
    map c | c in req && c !in todo && !Universal(req[c]) :: req[c]
  }

  lemma TakeCluster(req: Access, todo: set<string>, c: string)
    requires c in todo && todo <= req.Keys
    ensures |Universals(req) - (todo - {c})| == |Universals(req) - todo| + if Universal(req[c]) then 1 else 0
    ensures Bag(RestrictedBut(req, todo - {c}))
         == Bag(RestrictedBut(req, todo)) + if Universal(req[c]) then multiset{} else multiset(req[c])
  {
    var rest := todo - {c};
    if Universal(req[c]) {
      assert Universals(req) - rest == Universals(req) - todo + {c};
      assert RestrictedBut(req, rest) == RestrictedBut(req, todo);
    } else {
      assert Universals(req) - rest == Universals(req) - todo;
      BagWith(RestrictedBut(req, todo), c, req[c]);
      assert RestrictedBut(req, rest) == RestrictedBut(req, todo)[c := req[c]];
    }
  }

  /** First pass: count every namespace of the restricted clusters, and the universal clusters. */
  method CountOccurrences(req: Access) returns (counts: map<string, int>, allAccessCount: int)
    ensures CountsBag(counts, Bag(Restricted(req)))
    ensures allAccessCount == |Universals(req)|
  {
    counts, allAccessCount := map[], 0;
    var todo := req.Keys;
    while todo != {}
      invariant todo <= req.Keys
      invariant allAccessCount == |Universals(req) - todo|
      invariant CountsBag(counts, Bag(RestrictedBut(req, todo)))
      decreases |todo|
    {
      var c :| c in todo;
      TakeCluster(req, todo, c);
      if |req[c]| == 0 || "*" in req[c] {
        allAccessCount := allAccessCount + 1;
      } else {
        counts := AddOccurrences(counts, req[c], Bag(RestrictedBut(req, todo)));
      }
      todo := todo - {c};
    }
    assert RestrictedBut(req, {}) == Restricted(req);
    assert Universals(req) - {} == Universals(req);
  }

  /** `getCommonNamespacesAcrossClusters`: one pass counts occurrences, a second keeps the full counts. */
  method GetCommonNamespacesAcrossClusters(access: Access, clusters: seq<string>) returns (r: seq<string>)
    ensures r == CommonNamespaces(Requested(access, Elements(clusters)))
  {
    var req := RequestedAccess(access, clusters);
    var counts, allAccessCount := CountOccurrences(req);
    UniversalsFill(req);
    if allAccessCount == |req| {
      return ["*"];
    }
    var commonNamespaces: set<string> := {};
    var left := counts.Keys;
    while left != {}
      invariant left <= counts.Keys
      invariant commonNamespaces == set ns | ns in counts && ns !in left && counts[ns] + allAccessCount == |req|
      decreases |left|
    {
      var ns :| ns in left;
      left := left - {ns};
      if counts[ns] + allAccessCount == |req| {
        commonNamespaces := commonNamespaces + {ns};
      }
    }
    assert commonNamespaces == CountedNamespaces(req);
    r := SortedKeys(commonNamespaces);
  }

  lemma UniversalsFill(req: Access)
    ensures Universals(req) <= req.Keys
    ensures |Universals(req)| == |req| <==> AllUniversal(req)
  {
    assert |req| == |req.Keys|;
    if |Universals(req)| == |req| { SubsetSize(Universals(req), req.Keys); }
    if AllUniversal(req) { assert Universals(req) == req.Keys; }
  }

  // ---- counting is intersecting ----------------------------------------------------------------

  ghost function Holders(m: Access, ns: string): set<string> {
    set c | c in m && ns in m[c]
  }

  lemma {:induction false} OccurrencesCountHolders(m: Access, ns: string)
    requires DuplicateFree(m)
    ensures Bag(m)[ns] == |Holders(m, ns)|
    decreases m.Keys
  {
    if m == map[] {
      assert Holders(m, ns) == {};
    } else {
      var c :| c in m;
      BagWithout(m, c);
      OccurrencesCountHolders(m - {c}, ns);
      OneOccurrence(m[c], ns);
      HoldersWithout(m, c, ns);
    }
  }

  lemma HoldersWithout(m: Access, c: string, ns: string)
    requires c in m
    ensures |Holders(m, ns)| == |Holders(m - {c}, ns)| + (if ns in m[c] then 1 else 0)
  {
    if ns in m[c] {
      assert Holders(m, ns) == Holders(m - {c}, ns) + {c};
    } else {
      assert Holders(m, ns) == Holders(m - {c}, ns);
    }
  }

  lemma {:induction false} OneOccurrence(s: seq<string>, x: string)
    requires NoDuplicates(s)
    ensures multiset(s)[x] == if x in s then 1 else 0
  {
    if s != [] {
      assert s == [s[0]] + s[1..];
      OneOccurrence(s[1..], x);
      if x in s[1..] { assert s[0] != x; }
    }
  }

  /** For duplicate-free lists the counted namespaces are exactly those that every requested cluster
      grants and that some restricted cluster names. */
  lemma CountingIsIntersecting(req: Access, ns: string)
    requires DuplicateFree(req)
    ensures ns in CountedNamespaces(req)
       <==> (exists c | c in req :: !Universal(req[c]) && ns in req[c]) && (forall c | c in req :: Grants(req[c], ns))
  {
    var m := Restricted(req);
    InBag(m, ns);
    assert DuplicateFree(m);
    OccurrencesCountHolders(m, ns);
    UniversalsAndHoldersFill(req, ns);
    if c :| c in m && ns in m[c] { assert c in req && !Universal(req[c]) && ns in req[c]; }
    if c :| c in req && !Universal(req[c]) && ns in req[c] { assert c in m && ns in m[c]; }
  }

  lemma UniversalsAndHoldersFill(req: Access, ns: string)
    ensures |Holders(Restricted(req), ns)| + |Universals(req)| == |req| <==> forall c | c in req :: Grants(req[c], ns)
  {
    var U, H := Universals(req), Holders(Restricted(req), ns);
    assert U !! H;
    assert U + H <= req.Keys;
    assert |U + H| == |U| + |H|;
    assert |req| == |req.Keys|;
    SubsetSize(U + H, req.Keys);
    if U + H == req.Keys {
      forall c | c in req ensures Grants(req[c], ns) { assert c in U + H; }
    }
    if forall c | c in req :: Grants(req[c], ns) {
      assert U + H == req.Keys;
    }
  }

  /** The result is `["*"]` exactly when every requested cluster is universal, duplicates or not. */
  lemma WildcardMeansUniversal(req: Access)
    ensures CommonNamespaces(req) == ["*"] <==> AllUniversal(req)
  {
    if CommonNamespaces(req) == ["*"] && !AllUniversal(req) {
      assert "*" in Elements(CommonNamespaces(req));
      InBag(Restricted(req), "*");
    }
  }

  /** Reading of the whole result: sorted, and holding exactly the namespaces that every requested
      cluster grants. */
  lemma CommonNamespacesIsIntersection(req: Access)
    requires DuplicateFree(req) && !AllUniversal(req)
    ensures StrictlySorted(CommonNamespaces(req))
    ensures forall ns :: ns in CommonNamespaces(req) <==> forall c | c in req :: Grants(req[c], ns)
  {
    var d :| d in req && !Universal(req[d]);
    forall ns
      ensures ns in CommonNamespaces(req) <==> forall c | c in req :: Grants(req[c], ns)
    {
      CountingIsIntersecting(req, ns);
      assert ns in CommonNamespaces(req) <==> ns in Elements(CommonNamespaces(req));
      if forall c | c in req :: Grants(req[c], ns) { assert ns in req[d]; }
    }
  }

  // ---- the clusters a query targets ------------------------------------------------------------

  /** The visitor's reading of a matcher: regular expressions are searched, not anchored, and a
      pattern that does not compile is skipped. */
  predicate Targets(e: RegexEngine, m: Matcher, cluster: string) {
    && m.name == "cluster"
    && match m.kind
       case MatchEqual => cluster == m.value
       case MatchNotEqual => cluster != m.value
       case MatchRegexp => Compiles(e, m.value) && Find(e, m.value, cluster)
       case MatchNotRegexp => Compiles(e, m.value) && !Find(e, m.value, cluster)
  }

  /** An equality or an inequality targets the very clusters it accepts. */
  lemma EqualityTargetsExactly(e: RegexEngine, m: Matcher, cluster: string)
    requires m.name == "cluster" && (m.kind == MatchEqual || m.kind == MatchNotEqual)
    ensures Targets(e, m, cluster) <==> Matches(e, m, cluster)
  {
  }

  /** A pattern of plain names targets the clusters that contain one of them, and its negation
      those that contain none. */
  lemma PatternTargetsExactly(e: RegexEngine, vs: seq<string>, cluster: string)
    requires vs != [] && AllPlain(vs)
    ensures Targets(e, Matcher("cluster", MatchRegexp, JoinBar(vs)), cluster) <==>
              exists v | v in vs :: Contains(cluster, v)
    ensures Targets(e, Matcher("cluster", MatchNotRegexp, JoinBar(vs)), cluster) <==>
              forall v | v in vs :: !Contains(cluster, v)
  {
    SplitJoin(vs);
  }

  /** A pattern that compiles and its negation share the clusters out between them; one that does
      not targets nothing. */
  lemma NegationTargetsTheRest(e: RegexEngine, p: string, cluster: string)
    ensures var positive, negative := Matcher("cluster", MatchRegexp, p), Matcher("cluster", MatchNotRegexp, p);
            if Compiles(e, p) then Targets(e, positive, cluster) <==> !Targets(e, negative, cluster)
            else !Targets(e, positive, cluster) && !Targets(e, negative, cluster)
  {
  }

  /** The search finds more than the anchored match: a pattern targets whatever it accepts, and a negated one accepts
      whatever it targets. */
  lemma SearchIsWider(e: RegexEngine, m: Matcher, cluster: string)
    requires Lawful(e) && Plain(cluster) && m.name == "cluster"
    ensures m.kind == MatchRegexp && Compiles(e, m.value) && Matches(e, m, cluster) ==> Targets(e, m, cluster)
    ensures m.kind == MatchNotRegexp && Targets(e, m, cluster) ==> Matches(e, m, cluster)
  {
    if FullMatch(e, m.value, cluster) { FullMatchFinds(e, m.value, cluster); }
  }

  ghost predicate TargetedBy(e: RegexEngine, ms: seq<Matcher>, cluster: string) {
    exists i | 0 <= i < |ms| :: Targets(e, ms[i], cluster)
  }

  ghost function ClustersOf(e: RegexEngine, access: Access, ms: seq<Matcher>): set<string> {
    set c | c in access && TargetedBy(e, ms, c)
  }

  ghost function ClustersIn(e: RegexEngine, access: Access, t: Tree): set<string> {
    set c | c in access && exists sel | sel in Selectors(t) :: TargetedBy(e, sel.matchers, c)
  }

  ghost function ClustersInAll(e: RegexEngine, access: Access, ts: seq<Tree>): set<string> {
    set c | c in access && exists sel | sel in SelectorsOfAll(ts) :: TargetedBy(e, sel.matchers, c)
  }

  class ClusterVisitor {
    const engine: RegexEngine
    const userMetricsAccess: Access
    var queryClusters: set<string>

    constructor (engine: RegexEngine, access: Access)
      ensures this.engine == engine && userMetricsAccess == access && queryClusters == {}
    {
      this.engine, userMetricsAccess, queryClusters := engine, access, {};
    }

    /** `Visit` on a vector selector. */
    method Visit(selector: VectorSelector)
      modifies this
      ensures queryClusters == old(queryClusters) + ClustersOf(engine, userMetricsAccess, selector.LabelMatchers)
    {
      var ms := selector.LabelMatchers;
      for i := 0 to |ms|
        invariant queryClusters == old(queryClusters) + ClustersOf(engine, userMetricsAccess, ms[..i])
      {
        OneMoreMatcher(engine, userMetricsAccess, ms, i);
        var m := ms[i];
        if m.name == "cluster" {
          var matched: set<string> := {};
          match m.kind {
            case MatchEqual =>
              if m.value in userMetricsAccess { matched := {m.value}; }
            case MatchNotEqual =>
              matched := set c | c in userMetricsAccess && c != m.value;
            case MatchRegexp =>
              if !Compiles(engine, m.value) { continue; }
              matched := set c | c in userMetricsAccess && Find(engine, m.value, c);
            case MatchNotRegexp =>
              if !Compiles(engine, m.value) { continue; }
              matched := set c | c in userMetricsAccess && !Find(engine, m.value, c);
          }
          queryClusters := queryClusters + matched;
        }
      }
      assert ms[..|ms|] == ms;
    }

    method Walk(x: Expr)
      modifies this
      ensures queryClusters == old(queryClusters) + ClustersIn(engine, userMetricsAccess, old(Print(x)))
      decreases x, 0
    {
      match x
      case VectorNode(sel) =>
        Visit(sel);
        SingleSelector(engine, userMetricsAccess, Print(x));
      case MatrixNode(sel, _) =>
        Visit(sel);
        SingleSelector(engine, userMetricsAccess, Print(x));
      case OpNode(_, kids) => WalkAll(kids);
    }

    method WalkAll(xs: seq<Expr>)
      modifies this
      ensures queryClusters == old(queryClusters) + ClustersInAll(engine, userMetricsAccess, old(PrintAll(xs)))
      decreases xs, 1
    {
      if xs != [] {
        ghost var ts := PrintAll(xs);
        FirstAndRest(engine, userMetricsAccess, ts);
        AllAllocated(xs[1..]);
        Walk(xs[0]);
        assert PrintAll(xs[1..]) == ts[1..];
        WalkAll(xs[1..]);
      }
    }
  }

  lemma SingleSelector(e: RegexEngine, access: Access, t: Tree)
    requires !t.Node?
    ensures ClustersIn(e, access, t) == ClustersOf(e, access, t.matchers)
  {
    var sel := Selector(t.name, t.matchers);
    assert Selectors(t) == [sel];
    assert sel in Selectors(t);
  }

  lemma FirstAndRest(e: RegexEngine, access: Access, ts: seq<Tree>)
    requires ts != []
    ensures ClustersInAll(e, access, ts) == ClustersIn(e, access, ts[0]) + ClustersInAll(e, access, ts[1..])
  {
    assert SelectorsOfAll(ts) == Selectors(ts[0]) + SelectorsOfAll(ts[1..]);
  }

  lemma OneMoreMatcher(e: RegexEngine, access: Access, ms: seq<Matcher>, i: nat)
    requires i < |ms|
    ensures ClustersOf(e, access, ms[..i + 1])
         == ClustersOf(e, access, ms[..i]) + set c | c in access && Targets(e, ms[i], c)
  {
    forall c
      ensures TargetedBy(e, ms[..i + 1], c) <==> TargetedBy(e, ms[..i], c) || Targets(e, ms[i], c)
    {
      assert ms[..i + 1][i] == ms[i];
      if TargetedBy(e, ms[..i], c) {
        var j :| 0 <= j < |ms[..i]| && Targets(e, ms[..i][j], c);
        assert ms[..i + 1][j] == ms[..i][j];
      }
      if TargetedBy(e, ms[..i + 1], c) && !Targets(e, ms[i], c) {
        var j :| 0 <= j < |ms[..i + 1]| && Targets(e, ms[..i + 1][j], c);
        assert ms[..i][j] == ms[..i + 1][j];
      }
    }
  }

  /** `getClustersInQuery`. */
  method GetClustersInQuery(e: RegexEngine, access: Access, query: Tree) returns (r: seq<string>)
    ensures Elements(r) == ClustersIn(e, access, query)
  {
    var visitor := new ClusterVisitor(e, access);
    var expr := Parse(query);
    visitor.Walk(expr);
    r := SortedKeys(visitor.queryClusters);
  }

  ghost function WithNamespaces(e: RegexEngine, access: Access, original: Tree, modified: Tree): Tree {
    var common := CommonNamespaces(Requested(access, ClustersIn(e, access, original)));
    if common == ["*"] then modified
    else InjectTree(LabelInjector(ValuesMatcher("namespace", OrNothing(common))), modified)
  }

  /** `AddNamespaceFilters`: the targets come from the original query, the filter goes into the modified one. */
  method AddNamespaceFilters(e: RegexEngine, access: Access, original: Tree, modified: Tree) returns (r: Tree)
    ensures r == WithNamespaces(e, access, original, modified)
  {
    var queryClusters := GetClustersInQuery(e, access, original);
    var common := GetCommonNamespacesAcrossClusters(access, queryClusters);
    if |common| == 1 && common[0] == "*" {
      return modified;
    }
    r := InjectLabels(modified, "namespace", common);
  }
}
