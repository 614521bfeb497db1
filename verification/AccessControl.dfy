/** The access-controlled rewrite of a query: what a rewritten query can read, when the rewrite may be
    skipped, and how the access map is assembled. */
module AccessControl {
  import opened Sorted
  import opened PromQL
  import opened Rewrite
  import opened NamespaceFilter

  /** A query text: the tree it parses to and whether the text contains `acm_managed_cluster_labels`. */
  datatype Query = Query(tree: Tree, mentionsClusterLabels: bool)

  /** A selector on the metric shows in the text. */
  ghost predicate Consistent(q: Query) {
    forall sel | sel in Selectors(q.tree) :: sel.name == ACM_MANAGED_CLUSTER_LABELS ==> q.mentionsClusterLabels
  }

  ghost function ClusterInjector(access: Access): Injector {
    ClusterLabelInjector(OrNothing(SortedList(access.Keys)))
  }

  ghost function Rewritten(e: RegexEngine, q: Query, access: Access): Tree {
    var clustered := InjectTree(ClusterInjector(access), q.tree);
    if q.mentionsClusterLabels then clustered else WithNamespaces(e, access, q.tree, clustered)
  }

  /** `rewriteQuery`. */
  method RewriteQuery(e: RegexEngine, q: Query, access: Access) returns (r: Tree)
    ensures r == Rewritten(e, q, access)
  {
    var clusterList := SortedKeys(access.Keys);
    r := InjectClusterLabels(q.tree, clusterList);
    if !q.mentionsClusterLabels {
      r := AddNamespaceFilters(e, access, q.tree, r);
    }
  }

  // ---- what a rewritten query reads ------------------------------------------------------------

  /** Names the rewrite can put into a pattern without changing its meaning: cluster names, and the
      namespaces of the clusters that are not universal. */
  ghost predicate PlainNames(access: Access) {
    && (forall c | c in access :: Plain(c))
    && (forall c | c in access && !Universal(access[c]) :: AllPlain(access[c]))
  }

  ghost predicate NamespaceAdmits(e: RegexEngine, q: Query, access: Access, s: Series) {
    var common := CommonNamespaces(Requested(access, ClustersIn(e, access, q.tree)));
    q.mentionsClusterLabels || common == ["*"] || Label(s, "namespace") in OrNothing(common)
  }

  lemma PlainClusters(access: Access)
    requires PlainNames(access)
    ensures AllPlain(OrNothing(SortedList(access.Keys)))
  {
    var keys := SortedList(access.Keys);
    forall i | 0 <= i < |keys| ensures Plain(keys[i]) { assert keys[i] in Elements(keys); }
  }

  lemma PlainNamespace(access: Access, req: Access, n: string)
    requires PlainNames(access) && req.Keys <= access.Keys && (forall c | c in req :: req[c] == access[c])
    requires !AllUniversal(req) && n in CommonNamespaces(req)
    ensures Plain(n)
  {
    assert n in Elements(CommonNamespaces(req));
    Bags.InBag(Restricted(req), n);
    var c :| c in Restricted(req) && n in Restricted(req)[c];
    var j :| 0 <= j < |access[c]| && access[c][j] == n;
  }

  lemma PlainLists(e: RegexEngine, q: Query, access: Access)
    requires PlainNames(access)
    ensures AllPlain(OrNothing(SortedList(access.Keys)))
    ensures AllPlain(OrNothing(CommonNamespaces(Requested(access, ClustersIn(e, access, q.tree)))))
         || AllUniversal(Requested(access, ClustersIn(e, access, q.tree)))
  {
    PlainClusters(access);
    var req := Requested(access, ClustersIn(e, access, q.tree));
    if !AllUniversal(req) {
      var common := CommonNamespaces(req);
      forall i | 0 <= i < |common| ensures Plain(common[i]) {
        PlainNamespace(access, req, common[i]);
      }
    }
  }

  ghost predicate ClusterIsUsers(access: Access, sel: Selector, s: Series) {
    Label(s, ClusterLabelOf(sel.name)) in OrNothing(SortedList(access.Keys))
  }

  lemma ClusterInjectedSelector(e: RegexEngine, q: Query, access: Access, s: Series, i: nat)
    requires PlainNames(access) && i < |Selectors(q.tree)|
    ensures var t1 := InjectTree(ClusterInjector(access), q.tree);
            |Selectors(t1)| == |Selectors(q.tree)|
            && (Accepts(e, Selectors(t1)[i].matchers, s)
                <==> Accepts(e, Selectors(q.tree)[i].matchers, s) && ClusterIsUsers(access, Selectors(q.tree)[i], s))
  {
    var ci := ClusterInjector(access);
    var sel := Selectors(q.tree)[i];
    InjectedSelectors(ci, q.tree);
    PlainLists(e, q, access);
    SelectorInjectedMeans(e, ci, sel, Selectors(InjectTree(ci, q.tree))[i], s);
    ValuesMatcherMeansMembership(e, ClusterLabelOf(sel.name), OrNothing(SortedList(access.Keys)),
                                 Label(s, ClusterLabelOf(sel.name)));
  }

  lemma NamespaceInjectedSelector(e: RegexEngine, q: Query, access: Access, t1: Tree, s: Series, i: nat)
    requires PlainNames(access) && !q.mentionsClusterLabels && i < |Selectors(t1)|
    ensures var t2 := WithNamespaces(e, access, q.tree, t1);
            |Selectors(t2)| == |Selectors(t1)|
            && (Accepts(e, Selectors(t2)[i].matchers, s)
                <==> Accepts(e, Selectors(t1)[i].matchers, s) && NamespaceAdmits(e, q, access, s))
  {
    var req := Requested(access, ClustersIn(e, access, q.tree));
    var common := CommonNamespaces(req);
    if common != ["*"] {
      var ni := LabelInjector(ValuesMatcher("namespace", OrNothing(common)));
      PlainLists(e, q, access);
      WildcardMeansUniversal(req);
      InjectedSelectors(ni, t1);
      SelectorInjectedMeans(e, ni, Selectors(t1)[i], Selectors(InjectTree(ni, t1))[i], s);
      ValuesMatcherMeansMembership(e, "namespace", OrNothing(common), Label(s, "namespace"));
    }
  }

  lemma RewrittenSelector(e: RegexEngine, q: Query, access: Access, s: Series, i: nat)
    requires PlainNames(access) && i < |Selectors(q.tree)|
    ensures |Selectors(Rewritten(e, q, access))| == |Selectors(q.tree)|
    ensures Accepts(e, Selectors(Rewritten(e, q, access))[i].matchers, s)
       <==> Accepts(e, Selectors(q.tree)[i].matchers, s) && ClusterIsUsers(access, Selectors(q.tree)[i], s)
            && NamespaceAdmits(e, q, access, s)
  {
    ClusterInjectedSelector(e, q, access, s, i);
    if !q.mentionsClusterLabels {
      NamespaceInjectedSelector(e, q, access, InjectTree(ClusterInjector(access), q.tree), s, i);
    }
  }

  lemma RewrittenKeepsSelectors(e: RegexEngine, q: Query, access: Access)
    ensures |Selectors(Rewritten(e, q, access))| == |Selectors(q.tree)|
    ensures forall i | 0 <= i < |Selectors(q.tree)| ::
              Selectors(Rewritten(e, q, access))[i].name == Selectors(q.tree)[i].name
  {
    var ci := ClusterInjector(access);
    InjectedSelectors(ci, q.tree);
    var common := CommonNamespaces(Requested(access, ClustersIn(e, access, q.tree)));
    InjectedSelectors(LabelInjector(ValuesMatcher("namespace", OrNothing(common))), InjectTree(ci, q.tree));
  }

  /** The whole effect of the rewrite on one series: it stays readable exactly when the original query
      reads it through a selector, its cluster is one of the user's, and its namespace is admitted. */
  lemma RewrittenReads(e: RegexEngine, q: Query, access: Access, s: Series)
    requires PlainNames(access)
    ensures Reads(e, Rewritten(e, q, access), s)
       <==> NamespaceAdmits(e, q, access, s)
            && exists sel | sel in Selectors(q.tree) :: Accepts(e, sel.matchers, s) && ClusterIsUsers(access, sel, s)
  {
    var S0, S2 := Selectors(q.tree), Selectors(Rewritten(e, q, access));
    RewrittenKeepsSelectors(e, q, access);
    if Reads(e, Rewritten(e, q, access), s) {
      var sel :| sel in S2 && Accepts(e, sel.matchers, s);
      var i :| 0 <= i < |S2| && S2[i] == sel;
      RewrittenSelector(e, q, access, s, i);
      assert S0[i] in S0;
    }
    if NamespaceAdmits(e, q, access, s) {
      if sel :| sel in S0 && Accepts(e, sel.matchers, s) && ClusterIsUsers(access, sel, s) {
        var i :| 0 <= i < |S0| && S0[i] == sel;
        RewrittenSelector(e, q, access, s, i);
        assert S2[i] in S2;
      }
    }
  }

  // ---- confinement -----------------------------------------------------------------------------

  /** Cluster confinement needs no condition on the query: every series a rewritten query reads
      belongs to a cluster of the access map (to no cluster at all when the map is empty). */
  lemma RewrittenStaysInUserClusters(e: RegexEngine, q: Query, access: Access, s: Series)
    requires PlainNames(access) && Consistent(q) && !q.mentionsClusterLabels
    requires Reads(e, Rewritten(e, q, access), s)
    ensures access != map[] ==> Label(s, "cluster") in access
    ensures access == map[] ==> Label(s, "cluster") == ""
  {
    RewrittenReads(e, q, access, s);
    var sel :| sel in Selectors(q.tree) && ClusterIsUsers(access, sel, s);
    assert sel.name != ACM_MANAGED_CLUSTER_LABELS;
    var keys := SortedList(access.Keys);
    assert keys == [] <==> access == map[] by {
      if access != map[] { var k :| k in access; assert k in Elements(keys); }
      if keys != [] { assert keys[0] in Elements(keys); }
    }
    if keys != [] { assert Label(s, "cluster") in Elements(keys); }
  }

  /** The matcher makes the selector read only clusters that the visitor also counts as targeted. */
  ghost predicate Pins(e: RegexEngine, access: Access, m: Matcher) {
    && m.name == "cluster"
    && match m.kind
       case MatchEqual => m.value != "" || access != map[]
       case MatchNotEqual => access != map[]
       case MatchRegexp => access != map[] && Compiles(e, m.value)
       case MatchNotRegexp => false
  }

  ghost predicate Pinned(e: RegexEngine, access: Access, sel: Selector) {
    exists i | 0 <= i < |sel.matchers| :: Pins(e, access, sel.matchers[i])
  }

  lemma PinnedSelectorTargetsItsClusters(e: RegexEngine, q: Query, access: Access, sel: Selector, s: Series)
    requires Lawful(e) && PlainNames(access)
    requires sel in Selectors(q.tree) && Pinned(e, access, sel) && Accepts(e, sel.matchers, s)
    requires if access == map[] then Label(s, "cluster") == "" else Label(s, "cluster") in access
    ensures Label(s, "cluster") in ClustersIn(e, access, q.tree)
  {
    var c := Label(s, "cluster");
    var i :| 0 <= i < |sel.matchers| && Pins(e, access, sel.matchers[i]);
    var m := sel.matchers[i];
    assert Matches(e, m, c);
    if m.kind == MatchRegexp { FullMatchFinds(e, m.value, c); }
    assert Targets(e, m, c);
    assert TargetedBy(e, sel.matchers, c);
  }

  /** Among the requested clusters, an admitted namespace is a granted one. */
  lemma AdmittedIsGranted(access: Access, clusters: set<string>, c: string, ns: string)
    requires DuplicateFree(access)
    requires c in access && (clusters == {} || c in clusters)
    requires var common := CommonNamespaces(Requested(access, clusters)); common == ["*"] || ns in OrNothing(common)
    ensures Grants(access[c], ns) || (CommonNamespaces(Requested(access, clusters)) == [] && ns == "")
  {
    var req := Requested(access, clusters);
    assert c in req && req[c] == access[c];
    WildcardMeansUniversal(req);
    if !AllUniversal(req) {
      assert DuplicateFree(req);
      CommonNamespacesIsIntersection(req);
    }
  }

  /** Namespace confinement: when every selector is pinned to clusters, or none of the query's matchers
      singles out a cluster, every series the rewritten query reads lies in one of the user's clusters
      and in a namespace granted there, or has no namespace at all if no namespace is common. */
  lemma RewrittenStaysInUserNamespaces(e: RegexEngine, q: Query, access: Access, s: Series)
    requires Lawful(e) && PlainNames(access) && DuplicateFree(access)
    requires Consistent(q) && !q.mentionsClusterLabels
    requires || (forall sel | sel in Selectors(q.tree) :: Pinned(e, access, sel))
             || (ClustersIn(e, access, q.tree) == {} && access != map[])
    requires Reads(e, Rewritten(e, q, access), s)
    ensures Label(s, "cluster") in access
    ensures || Grants(access[Label(s, "cluster")], Label(s, "namespace"))
            || (CommonNamespaces(Requested(access, ClustersIn(e, access, q.tree))) == [] && Label(s, "namespace") == "")
  {
    RewrittenReads(e, q, access, s);
    RewrittenStaysInUserClusters(e, q, access, s);
    var sel :| sel in Selectors(q.tree) && Accepts(e, sel.matchers, s);
    if Pinned(e, access, sel) {
      PinnedSelectorTargetsItsClusters(e, q, access, sel, s);
    }
    AdmittedIsGranted(access, ClustersIn(e, access, q.tree), Label(s, "cluster"), Label(s, "namespace"));
  }

  /** Nothing the user may see in all the requested clusters is lost: a series the original query reads,
      in a cluster of the user and in a namespace every requested cluster grants, survives. */
  lemma RewrittenKeepsCommonNamespaces(e: RegexEngine, q: Query, access: Access, s: Series)
    requires PlainNames(access) && DuplicateFree(access) && Consistent(q) && !q.mentionsClusterLabels
    requires Reads(e, q.tree, s) && Label(s, "cluster") in access
    requires var req := Requested(access, ClustersIn(e, access, q.tree));
             forall c | c in req :: Grants(req[c], Label(s, "namespace"))
    ensures Reads(e, Rewritten(e, q, access), s)
  {
    RewrittenReads(e, q, access, s);
    var req := Requested(access, ClustersIn(e, access, q.tree));
    WildcardMeansUniversal(req);
    if !AllUniversal(req) { CommonNamespacesIsIntersection(req); }
    var sel :| sel in Selectors(q.tree) && Accepts(e, sel.matchers, s);
    assert Label(s, "cluster") in Elements(SortedList(access.Keys));
    assert sel.name != ACM_MANAGED_CLUSTER_LABELS;
    assert ClusterIsUsers(access, sel, s);
  }

  // ---- the shortcut ----------------------------------------------------------------------------

  ghost predicate CanAccessAll(access: Access, managed: set<string>) {
    !(managed == {} && access == map[]) && forall c | c in managed :: c in access && Universal(access[c])
  }

  /** `canAccessAll`. */
  method ChecksAccessToAll(access: Access, managed: set<string>) returns (all: bool)
    ensures all <==> CanAccessAll(access, managed)
  {
    if |managed| == 0 && |access| == 0 {
      assert access == map[];
      return false;
    }
    var todo := managed;
    while todo != {}
      invariant todo <= managed
      invariant forall c | c in managed - todo :: c in access && Universal(access[c])
      decreases |todo|
    {
      var c :| c in todo;
      todo := todo - {c};
      if c !in access {
        return false;
      }
      if |access[c]| != 0 && "*" !in access[c] {
        return false;
      }
    }
    assert !(managed == {} && access == map[]);
    return true;
  }

  predicate MaySee(access: Access, c: string, ns: string) {
    c in access && Grants(access[c], ns)
  }

  /** The shortcut is for users who may see every namespace of every managed cluster, if there is anything at all. */
  lemma ShortcutIsEarned(access: Access, managed: set<string>)
    ensures CanAccessAll(access, managed) <==>
              (managed != {} || access != map[]) && forall c, ns | c in managed :: MaySee(access, c, ns)
  {
    if forall c, ns | c in managed :: MaySee(access, c, ns) {
      forall c | c in managed ensures c in access && Universal(access[c]) {
        assert MaySee(access, c, "");
        var unseen := FreshName(access[c]);
        assert MaySee(access, c, unseen);
      }
    }
  }

  /** The shortcut answers the query as it is.  Rewriting it would not have changed its value over any store from which
      its selectors read managed clusters only, as long as no requested cluster is restricted: a cluster that is not
      managed does not count for the shortcut, but it does for the filter. */
  lemma ShortcutAgreesWithRewrite<V>(e: RegexEngine, sem: Semantics<V>, q: Query, access: Access, managed: set<string>,
                                     store: set<Series>)
    requires PlainNames(access) && CanAccessAll(access, managed)
    requires q.mentionsClusterLabels || AllUniversal(Requested(access, ClustersIn(e, access, q.tree)))
    requires forall sel, s | sel in Selectors(q.tree) && s in store && Accepts(e, sel.matchers, s) ::
               Label(s, ClusterLabelOf(sel.name)) in managed
    ensures Eval(e, sem, Rewritten(e, q, access), store) == Eval(e, sem, q.tree, store)
  {
    PlainLists(e, q, access);
    var keys := SortedList(access.Keys);
    var k :| k in access;
    assert k in Elements(keys);
    assert OrNothing(keys) == keys;
    ClusterInjectionConfinesEvaluation(e, sem, keys, q.tree, store);
    forall sel, s | sel in Selectors(q.tree) && s in store && Accepts(e, sel.matchers, s)
      ensures ClusterAdmits(keys, sel.name, s)
    {
      assert Label(s, ClusterLabelOf(sel.name)) in Elements(keys);
    }
    OpenGuard(e, sem, q.tree, store, (name, s) => ClusterAdmits(keys, name, s));
  }

  // ---- assembling the access map ---------------------------------------------------------------

  /** Appends the entries of `extra` that are not there yet. */
  function MergeAcls(acls: seq<string>, extra: seq<string>): (r: seq<string>)
    ensures Elements(r) == Elements(acls) + Elements(extra)
    ensures NoDuplicates(acls) ==> NoDuplicates(r)
    ensures acls <= r
    decreases |extra|
  {
    if extra == [] then acls
    else
      assert Elements(acls + [extra[0]]) == Elements(acls) + {extra[0]};
      assert Elements(extra) == {extra[0]} + Elements(extra[1..]) by { assert extra == [extra[0]] + extra[1..]; }
      MergeAcls(if extra[0] in acls then acls else acls + [extra[0]], extra[1..])
  }

  /** Entries under `*` are spread over the managed clusters. */
  function SpreadWildcard(access: Access, managed: set<string>): Access {
    if "*" !in access then access
    else
      (map c | c in access.Keys + managed && c != "*" ::
        if c !in managed then access[c]
        else if c in access then MergeAcls(access[c], access["*"])
        else access["*"])
  }

  /** Projects named after a managed cluster that has no entry yet give all of its namespaces. */
  function AddProjects(access: Access, managed: set<string>, projects: seq<string>): Access {
    map c | c in access.Keys + (Elements(projects) * managed) :: if c in access then access[c] else ["*"]
  }

  /** The loop of the spreading, once the clusters in `done` have been visited. */
  ghost function SpreadOver(access: Access, done: set<string>): Access
    requires "*" in access
  {
    map c | c in access.Keys + done :: SpreadTo(access, done, c)
  }

  function SpreadTo(access: Access, done: set<string>, c: string): seq<string>
    requires "*" in access && c in access.Keys + done
  {
    if c !in done then access[c] else if c in access then MergeAcls(access[c], access["*"]) else access["*"]
  }

  lemma SpreadNext(access: Access, done: set<string>, c: string)
    requires "*" in access && c !in done
    ensures SpreadOver(access, done + {c}) == SpreadOver(access, done)[c := SpreadTo(access, done + {c}, c)]
  {
  }

  method SpreadWildcardEntry(access: Access, managed: set<string>) returns (r: Access)
    requires "*" in access
    ensures r == SpreadWildcard(access, managed)
  {
    r := access;
    var all := access["*"];
    var todo := managed;
    ghost var done: set<string> := {};
    while todo != {}
      invariant done !! todo && done + todo == managed
      invariant r == SpreadOver(access, done)
      decreases |todo|
    {
      var c :| c in todo;
      SpreadNext(access, done, c);
      todo, done := todo - {c}, done + {c};
      if c in r {
        var acls := AppendMissing(r[c], all);
        r := r[c := acls];
      } else {
        r := r[c := all];
      }
    }
    r := r - {"*"};
    assert done == managed;
    assert r == SpreadWildcard(access, managed);
  }

  /** `filterProjectsToManagedClusters`. */
  method FilterProjectsToManagedClusters(projects: seq<string>, managed: set<string>) returns (clusters: seq<string>)
    ensures Elements(clusters) == Elements(projects) * managed
  {
    clusters := [];
    for i := 0 to |projects|
      invariant Elements(clusters) == Elements(projects[..i]) * managed
    {
      assert Elements(projects[..i + 1]) == Elements(projects[..i]) + {projects[i]};
      if projects[i] in managed {
        assert Elements(clusters + [projects[i]]) == Elements(clusters) + {projects[i]};
        clusters := clusters + [projects[i]];
      }
    }
    assert projects[..|projects|] == projects;
  }

  method GrantProjects(access: Access, clusters: seq<string>) returns (r: Access)
    ensures r.Keys == access.Keys + Elements(clusters)
    ensures forall c | c in r :: r[c] == if c in access then access[c] else ["*"]
  {
    r := access;
    for i := 0 to |clusters|
      invariant r.Keys == access.Keys + Elements(clusters[..i])
      invariant forall c | c in r :: r[c] == if c in access then access[c] else ["*"]
    {
      assert Elements(clusters[..i + 1]) == Elements(clusters[..i]) + {clusters[i]};
      if clusters[i] !in r {
        r := r[clusters[i] := ["*"]];
      }
    }
    assert clusters[..|clusters|] == clusters;
  }

  /** The folding in `getUserMetricsACLs`. */
  method FoldAccess(metricsAccess: Access, managed: set<string>, projects: seq<string>) returns (r: Access)
    ensures r == AddProjects(SpreadWildcard(metricsAccess, managed), managed, projects)
  {
    var spread := metricsAccess;
    if "*" in metricsAccess {
      spread := SpreadWildcardEntry(metricsAccess, managed);
    }
    var clusters := FilterProjectsToManagedClusters(projects, managed);
    r := GrantProjects(spread, clusters);
    assert r == AddProjects(spread, managed, projects);
  }

  method AppendMissing(acls: seq<string>, extra: seq<string>) returns (r: seq<string>)
    ensures r == MergeAcls(acls, extra)
  {
    r := acls;
    for i := 0 to |extra|
      invariant MergeAcls(acls, extra) == MergeAcls(r, extra[i..])
    {
      assert extra[i..][1..] == extra[i + 1..];
      if extra[i] !in r {
        r := r + [extra[i]];
      }
    }
  }

  /** The folded map has no `*` entry, and stays duplicate-free, as namespace confinement asks. */
  lemma FoldedAccessIsClean(access: Access, managed: set<string>, projects: seq<string>)
    requires DuplicateFree(access) && "*" !in managed
    ensures var r := AddProjects(SpreadWildcard(access, managed), managed, projects);
            DuplicateFree(r) && "*" !in r
            && forall c | c in r :: c in access || c in managed
  {
  }

  /** Who is in the folded map, and with what: a cluster's own entry and, if it is managed, that of `*`; a managed
      cluster with neither that is one of the user's projects gives everything. */
  lemma FoldedAccessMeans(access: Access, managed: set<string>, projects: seq<string>, c: string)
    requires "*" !in managed
    ensures var r := AddProjects(SpreadWildcard(access, managed), managed, projects);
            var own := if c in access then Elements(access[c]) else {};
            var everywhere := if "*" in access && c in managed then Elements(access["*"]) else {};
            && (c in r <==> c != "*" && (c in access || (c in managed && ("*" in access || c in projects))))
            && (c in r ==> Elements(r[c]) == if c in access || "*" in access then own + everywhere else {"*"})
  {
    assert c in projects <==> c in Elements(projects);
    assert Elements(["*"]) == {"*"} by { assert ["*"][0] == "*"; }
  }

  /** The longest entry plus one character is a namespace no list names. */
  lemma {:induction false} FreshName(s: seq<string>) returns (unseen: string)
    ensures unseen !in s && unseen != "*" && forall x | x in s :: |x| < |unseen|
  {
    if s == [] {
      unseen := "**";
    } else {
      var f := FreshName(s[1..]);
      unseen := f + s[0] + "**";
      assert s == [s[0]] + s[1..];
    }
  }

  /** Spreading the wildcard entry over a cluster grants exactly what either entry grants, if and only if
      no empty (hence universal) list is merged with a restricted one: merging loses the emptiness. */
  lemma MergeGrantsUnionExactly(acls: seq<string>, extra: seq<string>)
    ensures (forall ns :: Grants(MergeAcls(acls, extra), ns) <==> Grants(acls, ns) || Grants(extra, ns))
       <==> (acls == [] ==> Universal(extra)) && (extra == [] ==> Universal(acls))
  {
    var r := MergeAcls(acls, extra);
    assert forall ns :: ns in r <==> ns in acls || ns in extra by {
      forall ns ensures ns in r <==> ns in acls || ns in extra {
        assert ns in r <==> ns in Elements(r);
        assert ns in Elements(acls) + Elements(extra) <==> ns in acls || ns in extra;
      }
    }
    assert r == [] <==> acls == [] && extra == [] by {
      if extra != [] { assert extra[0] in r; }
    }
    if !((acls == [] ==> Universal(extra)) && (extra == [] ==> Universal(acls))) {
      var ns := FreshName(r);
      assert !Grants(r, ns);
      assert Grants(acls, ns) || Grants(extra, ns);
    }
  }

  /** An empty entry, which stands for every namespace, no longer does once another list is merged into it. */
  lemma MergingLosesUniversality(ns: string, other: string)
    requires ns != "*" && ns != other
    ensures Grants([], other) && !Grants(MergeAcls([], [ns]), other)
  {
    assert MergeAcls([], [ns]) == MergeAcls([ns], []);
  }
}
