/** Exactly which queries the rewrite confines to the namespaces of the user. */
module Confinement {
  import opened Sorted
  import opened PromQL
  import opened Rewrite
  import opened NamespaceFilter
  import opened AccessControl

  ghost function Targeted(e: RegexEngine, q: Query, access: Access): set<string> {
    ClustersIn(e, access, q.tree)
  }

  /** The namespaces the rewrite lets through: all of them once the text mentions the metric of cluster labels. */
  ghost function CommonOf(e: RegexEngine, q: Query, access: Access): seq<string> {
    if q.mentionsClusterLabels then ["*"] else CommonNamespaces(Requested(access, Targeted(e, q, access)))
  }

  ghost predicate Admitted(common: seq<string>, ns: string) {
    common == ["*"] || ns in OrNothing(common)
  }

  /** What an admitted namespace should be in a cluster: granted, or no namespace at all if none is common. */
  ghost predicate Proper(granted: seq<string>, common: seq<string>, ns: string) {
    Grants(granted, ns) || (common == [] && ns == "")
  }

  /** A cluster of the user.  Without any, only series without a cluster are meant. */
  ghost predicate IsUsers(access: Access, c: string) {
    if access == map[] then c == "" else c in access
  }

  /** A series that a selector on the metric may read: in a cluster of the user and properly in its namespace.  The
      metric of cluster labels names its cluster by another label and has no namespaces. */
  ghost predicate Confined(access: Access, common: seq<string>, metric: string, s: Series) {
    var c := Label(s, ClusterLabelOf(metric));
    && IsUsers(access, c)
    && (metric != ACM_MANAGED_CLUSTER_LABELS && access != map[] ==> Proper(access[c], common, Label(s, "namespace")))
  }

  ghost predicate AllConfined(e: RegexEngine, q: Query, access: Access) {
    forall sel, s | sel in Selectors(Rewritten(e, q, access)) && Accepts(e, sel.matchers, s) ::
      Confined(access, CommonOf(e, q, access), sel.name, s)
  }

  /** A selector of the query, other than those on the metric of cluster labels, can read the cluster's namespace. */
  ghost predicate Reaches(e: RegexEngine, t: Tree, c: string, ns: string) {
    exists sel, s | sel in Selectors(t) && sel.name != ACM_MANAGED_CLUSTER_LABELS && Accepts(e, sel.matchers, s) ::
      Label(s, "cluster") == c && Label(s, "namespace") == ns
  }

  /** Clusters of the user that the admitted namespaces do not take into account: those outside the targets, if there is
      any target, and all of them where there is no namespace filter. */
  ghost predicate Overlooked(e: RegexEngine, q: Query, access: Access, c: string) {
    && c in access
    && (q.mentionsClusterLabels || (Targeted(e, q, access) != {} && c !in Targeted(e, q, access)))
  }

  ghost predicate OverlookedAreProper(e: RegexEngine, q: Query, access: Access) {
    forall c, ns | Overlooked(e, q, access, c) && Reaches(e, q.tree, c, ns) && Admitted(CommonOf(e, q, access), ns) ::
      Proper(access[c], CommonOf(e, q, access), ns)
  }

  /** What is left of a selector. */
  lemma RewrittenAccepts(e: RegexEngine, q: Query, access: Access, i: nat, s: Series)
    requires PlainNames(access) && i < |Selectors(q.tree)|
    ensures |Selectors(Rewritten(e, q, access))| == |Selectors(q.tree)|
    ensures var sel := Selectors(q.tree)[i];
            && Selectors(Rewritten(e, q, access))[i].name == sel.name
            && (Accepts(e, Selectors(Rewritten(e, q, access))[i].matchers, s) <==>
                && Accepts(e, sel.matchers, s)
                && IsUsers(access, Label(s, ClusterLabelOf(sel.name)))
                && Admitted(CommonOf(e, q, access), Label(s, "namespace")))
  {
    RewrittenKeepsSelectors(e, q, access);
    RewrittenSelector(e, q, access, s, i);
    var keys := SortedList(access.Keys);
    forall c ensures c in OrNothing(keys) <==> IsUsers(access, c) {
      assert c in Elements(keys) <==> c in access;
      if keys != [] { assert keys[0] in Elements(keys); }
    }
  }

  /** A selector on the metric of cluster labels keeps the series whose `name` is a cluster of the user; any other keeps
      those whose `cluster` is, in the admitted namespaces. */
  lemma RewrittenByLabel(e: RegexEngine, q: Query, access: Access, i: nat, s: Series)
    requires PlainNames(access) && Consistent(q) && i < |Selectors(q.tree)| && |Selectors(Rewritten(e, q, access))| > i
    ensures var before, after := Selectors(q.tree)[i], Selectors(Rewritten(e, q, access))[i];
            Accepts(e, after.matchers, s) <==>
              && Accepts(e, before.matchers, s)
              && if before.name == "acm_managed_cluster_labels" then IsUsers(access, Label(s, "name"))
                 else IsUsers(access, Label(s, "cluster")) && Admitted(CommonOf(e, q, access), Label(s, "namespace"))
  {
    RewrittenAccepts(e, q, access, i, s);
    assert Selectors(q.tree)[i] in Selectors(q.tree);
  }

  lemma AdmittedIsProper(e: RegexEngine, q: Query, access: Access, c: string, ns: string)
    requires DuplicateFree(access) && c in access && !Overlooked(e, q, access, c)
    requires Admitted(CommonOf(e, q, access), ns)
    ensures Proper(access[c], CommonOf(e, q, access), ns)
  {
    AdmittedIsGranted(access, Targeted(e, q, access), c, ns);
  }

  lemma ConfinedOverlooks(e: RegexEngine, q: Query, access: Access, c: string, ns: string)
    requires PlainNames(access) && AllConfined(e, q, access)
    requires c in access && Reaches(e, q.tree, c, ns) && Admitted(CommonOf(e, q, access), ns)
    ensures Proper(access[c], CommonOf(e, q, access), ns)
  {
    var sel, s :| sel in Selectors(q.tree) && sel.name != ACM_MANAGED_CLUSTER_LABELS && Accepts(e, sel.matchers, s)
                  && Label(s, "cluster") == c && Label(s, "namespace") == ns;
    var i :| 0 <= i < |Selectors(q.tree)| && Selectors(q.tree)[i] == sel;
    RewrittenAccepts(e, q, access, i, s);
    assert Selectors(Rewritten(e, q, access))[i] in Selectors(Rewritten(e, q, access));
  }

  lemma ProperIsConfined(e: RegexEngine, q: Query, access: Access, i: nat, s: Series)
    requires PlainNames(access) && DuplicateFree(access) && OverlookedAreProper(e, q, access)
    requires |Selectors(Rewritten(e, q, access))| == |Selectors(q.tree)| && i < |Selectors(q.tree)|
    requires Accepts(e, Selectors(Rewritten(e, q, access))[i].matchers, s)
    ensures Confined(access, CommonOf(e, q, access), Selectors(q.tree)[i].name, s)
  {
    RewrittenAccepts(e, q, access, i, s);
    var sel, c, ns := Selectors(q.tree)[i], Label(s, "cluster"), Label(s, "namespace");
    if sel.name != ACM_MANAGED_CLUSTER_LABELS && access != map[] {
      assert sel in Selectors(q.tree);
      assert Reaches(e, q.tree, c, ns);
      if !Overlooked(e, q, access, c) { AdmittedIsProper(e, q, access, c, ns); }
    }
  }

  /** The rewrite confines a query if and only if every cluster of the user that the filter overlooks grants each
      admitted namespace in which the query reaches it. */
  lemma ConfinedExactly(e: RegexEngine, q: Query, access: Access)
    requires PlainNames(access) && DuplicateFree(access)
    ensures AllConfined(e, q, access) <==> OverlookedAreProper(e, q, access)
  {
    var S2, common := Selectors(Rewritten(e, q, access)), CommonOf(e, q, access);
    if AllConfined(e, q, access) {
      forall c, ns | Overlooked(e, q, access, c) && Reaches(e, q.tree, c, ns) && Admitted(common, ns)
        ensures Proper(access[c], common, ns)
      {
        ConfinedOverlooks(e, q, access, c, ns);
      }
    }
    if OverlookedAreProper(e, q, access) {
      RewrittenKeepsSelectors(e, q, access);
      forall sel, s | sel in S2 && Accepts(e, sel.matchers, s) ensures Confined(access, common, sel.name, s) {
        var i :| 0 <= i < |S2| && S2[i] == sel;
        ProperIsConfined(e, q, access, i, s);
      }
    }
  }

  // ---- queries that only speak of clusters -----------------------------------------------------

  /** What the parser adds to the matchers of a selector with a metric name. */
  function NameMatcher(metric: string): Matcher {
    Matcher("__name__", MatchEqual, metric)
  }

  /** As far as other metrics than the one of cluster labels are concerned. */
  ghost predicate OnlyClusterMatchers(t: Tree) {
    forall sel, m | sel in Selectors(t) && sel.name != ACM_MANAGED_CLUSTER_LABELS && m in sel.matchers ::
      m.name == "cluster" || m == NameMatcher(sel.name)
  }

  ghost predicate SelectsCluster(e: RegexEngine, t: Tree, c: string) {
    exists sel | sel in Selectors(t) && sel.name != ACM_MANAGED_CLUSTER_LABELS ::
      forall m | m in sel.matchers && m.name == "cluster" :: Matches(e, m, c)
  }

  lemma ReachedIsSelected(e: RegexEngine, t: Tree, c: string, ns: string)
    requires Reaches(e, t, c, ns)
    ensures SelectsCluster(e, t, c)
  {
    var sel, s :| sel in Selectors(t) && sel.name != ACM_MANAGED_CLUSTER_LABELS && Accepts(e, sel.matchers, s)
                  && Label(s, "cluster") == c && Label(s, "namespace") == ns;
    forall m | m in sel.matchers && m.name == "cluster" ensures Matches(e, m, c) {
      var i :| 0 <= i < |sel.matchers| && sel.matchers[i] == m;
    }
  }

  lemma ReachesEveryNamespace(e: RegexEngine, t: Tree, c: string, ns: string)
    requires OnlyClusterMatchers(t)
    ensures Reaches(e, t, c, ns) <==> SelectsCluster(e, t, c)
  {
    if Reaches(e, t, c, ns) { ReachedIsSelected(e, t, c, ns); }
    if SelectsCluster(e, t, c) {
      var sel :| sel in Selectors(t) && sel.name != ACM_MANAGED_CLUSTER_LABELS
                 && forall m | m in sel.matchers && m.name == "cluster" :: Matches(e, m, c);
      var s: Series := map["__name__" := sel.name, "cluster" := c, "namespace" := ns];
      assert Accepts(e, sel.matchers, s) by {
        forall i | 0 <= i < |sel.matchers| ensures Matches(e, sel.matchers[i], Label(s, sel.matchers[i].name)) {
          assert sel.matchers[i] in sel.matchers;
        }
      }
      assert Label(s, "cluster") == c && Label(s, "namespace") == ns;
    }
  }

  /** The cluster grants whatever the rewrite admits. */
  ghost predicate GrantsAdmitted(granted: seq<string>, common: seq<string>) {
    if common == ["*"] then Universal(granted) else forall ns | ns in common :: Grants(granted, ns)
  }

  lemma AdmittedIsGrantable(granted: seq<string>, common: seq<string>, ns: string)
    requires GrantsAdmitted(granted, common) && Admitted(common, ns)
    ensures Proper(granted, common, ns)
  {
  }

  /** What is not granted shows in some namespace. */
  lemma UngrantedNamespace(granted: seq<string>, common: seq<string>) returns (ns: string)
    requires !GrantsAdmitted(granted, common)
    ensures Admitted(common, ns) && !Proper(granted, common, ns)
  {
    if common == ["*"] {
      ns := FreshName(granted);
    } else {
      ns :| ns in common && !Grants(granted, ns);
    }
  }

  /** Every overlooked cluster that some selector accepts grants every admitted namespace, that is, all namespaces where
      there is no filter. */
  ghost predicate OverlookedGrant(e: RegexEngine, q: Query, access: Access) {
    forall c | Overlooked(e, q, access, c) && SelectsCluster(e, q.tree, c) ::
      GrantsAdmitted(access[c], CommonOf(e, q, access))
  }

  lemma OverlookedGrantExactly(e: RegexEngine, q: Query, access: Access)
    requires OnlyClusterMatchers(q.tree)
    ensures OverlookedAreProper(e, q, access) <==> OverlookedGrant(e, q, access)
  {
    var common := CommonOf(e, q, access);
    if OverlookedAreProper(e, q, access) {
      forall c | Overlooked(e, q, access, c) && SelectsCluster(e, q.tree, c) ensures GrantsAdmitted(access[c], common) {
        if !GrantsAdmitted(access[c], common) {
          var ns := UngrantedNamespace(access[c], common);
          ReachesEveryNamespace(e, q.tree, c, ns);
        }
      }
    }
    if OverlookedGrant(e, q, access) {
      forall c, ns | Overlooked(e, q, access, c) && Reaches(e, q.tree, c, ns) && Admitted(common, ns)
        ensures Proper(access[c], common, ns)
      {
        ReachesEveryNamespace(e, q.tree, c, ns);
        AdmittedIsGrantable(access[c], common, ns);
      }
    }
  }

  /** For a query with `cluster` matchers only, confinement is a matter of the clusters that some selector accepts. */
  lemma ClusterQueriesConfinedExactly(e: RegexEngine, q: Query, access: Access)
    requires PlainNames(access) && DuplicateFree(access) && OnlyClusterMatchers(q.tree)
    ensures AllConfined(e, q, access) <==> OverlookedGrant(e, q, access)
  {
    ConfinedExactly(e, q, access);
    OverlookedGrantExactly(e, q, access);
  }

  /** Without selectors on the metric of cluster labels, confinement is about whatever the rewritten query reads. */
  lemma ConfinedWithoutLabelsMetric(e: RegexEngine, q: Query, access: Access)
    requires forall sel | sel in Selectors(q.tree) :: sel.name != ACM_MANAGED_CLUSTER_LABELS
    ensures AllConfined(e, q, access) <==>
              forall s | Reads(e, Rewritten(e, q, access), s) ::
                && IsUsers(access, Label(s, "cluster"))
                && (access != map[] ==>
                      Proper(access[Label(s, "cluster")], CommonOf(e, q, access), Label(s, "namespace")))
  {
    var S0, S2 := Selectors(q.tree), Selectors(Rewritten(e, q, access));
    RewrittenKeepsSelectors(e, q, access);
    forall sel | sel in S2 ensures ClusterLabelOf(sel.name) == "cluster" && sel.name != ACM_MANAGED_CLUSTER_LABELS {
      var i :| 0 <= i < |S2| && S2[i] == sel;
      assert S0[i] in S0;
    }
    if AllConfined(e, q, access) {
      forall s | Reads(e, Rewritten(e, q, access), s)
        ensures Confined(access, CommonOf(e, q, access), "", s)
      {
        var sel :| sel in S2 && Accepts(e, sel.matchers, s);
      }
    }
  }

  // ---- failing cases ---------------------------------------------------------------------------

  const UP := NameMatcher("up")
  const UP_OF_A := [Matcher("cluster", MatchEqual, "a"), UP]
  const MIXED_QUERY := Query(Node(Binary("or", ""), [Vector("up", UP_OF_A, ""), Vector("up", [UP], "")]), false)
  const TWO_CLUSTERS: Access := map["a" := ["n1"], "b" := ["n2"]]

  lemma SelectorsOfPair(op: Op, a: Tree, b: Tree)
    requires !a.Node? && !b.Node?
    ensures Selectors(Node(op, [a, b])) == [Selector(a.name, a.matchers), Selector(b.name, b.matchers)]
  {
    assert [a, b][1..] == [b] && [b][1..] == [];
    assert SelectorsOfAll([b]) == [Selector(b.name, b.matchers)];
    assert SelectorsOfAll([a, b]) == Selectors(a) + SelectorsOfAll([b]);
  }

  lemma MixedClusters(e: RegexEngine)
    ensures Targeted(e, MIXED_QUERY, TWO_CLUSTERS) == {"a"}
    ensures SelectsCluster(e, MIXED_QUERY.tree, "b") && OnlyClusterMatchers(MIXED_QUERY.tree)
  {
    SelectorsOfPair(Binary("or", ""), Vector("up", UP_OF_A, ""), Vector("up", [UP], ""));
    var first, second := Selector("up", UP_OF_A), Selector("up", [UP]);
    assert first in Selectors(MIXED_QUERY.tree) && second in Selectors(MIXED_QUERY.tree);
    assert Targets(e, first.matchers[0], "a") && TargetedBy(e, first.matchers, "a");
  }

  lemma OneClusterCommon(c: string, ns: string)
    requires ns != "*"
    ensures var common := CommonNamespaces(map[c := [ns]]); ns in common && common != ["*"]
    ensures forall x :: Admitted(CommonNamespaces(map[c := [ns]]), x) <==> x == ns
  {
    var req: Access := map[c := [ns]];
    assert req[c] == [ns] && !Universal(req[c]) && Grants(req[c], ns);
    WildcardMeansUniversal(req);
    CommonNamespacesIsIntersection(req);
    forall x ensures x in CommonNamespaces(req) <==> x == ns {
      assert Grants(req[c], x) <==> x == ns;
    }
  }

  lemma MixedNamespaces()
    ensures !GrantsAdmitted(["n2"], CommonNamespaces(Requested(TWO_CLUSTERS, {"a"})))
  {
    assert Requested(TWO_CLUSTERS, {"a"}) == map["a" := ["n1"]];
    OneClusterCommon("a", "n1");
    assert "n1" != "n2" && !Grants(["n2"], "n1");
  }

  lemma PlainExamples()
    ensures Plain("a") && Plain("b") && Plain("n1") && Plain("n2")
  {
  }

  lemma TwoClustersArePlain()
    ensures PlainNames(TWO_CLUSTERS) && DuplicateFree(TWO_CLUSTERS)
  {
    PlainExamples();
  }

  /** One selector with a cluster and one without: the second reads the other cluster too, whose namespaces are not
      part of the intersection. */
  lemma MixedQueryIsNotConfined(e: RegexEngine)
    ensures !AllConfined(e, MIXED_QUERY, TWO_CLUSTERS)
  {
    TwoClustersArePlain();
    MixedClusters(e);
    MixedNamespaces();
    ClusterQueriesConfinedExactly(e, MIXED_QUERY, TWO_CLUSTERS);
    assert Overlooked(e, MIXED_QUERY, TWO_CLUSTERS, "b");
    assert TWO_CLUSTERS["b"] == ["n2"];
  }

  /** `metric{cluster!~"v1|v2|..."}` for plain names. */
  function NegatedQuery(metric: string, vs: seq<string>): Query {
    Query(Vector(metric, [Matcher("cluster", MatchNotRegexp, JoinBar(vs)), NameMatcher(metric)], ""), false)
  }

  ghost predicate ContainsAny(c: string, vs: seq<string>) {
    exists v | v in vs :: Contains(c, v)
  }

  lemma NegatedClusters(e: RegexEngine, metric: string, vs: seq<string>, access: Access, c: string)
    requires vs != [] && AllPlain(vs) && metric != ACM_MANAGED_CLUSTER_LABELS
    ensures OnlyClusterMatchers(NegatedQuery(metric, vs).tree)
    ensures SelectsCluster(e, NegatedQuery(metric, vs).tree, c) <==> c !in vs
    ensures c in Targeted(e, NegatedQuery(metric, vs), access) <==> c in access && !ContainsAny(c, vs)
  {
    var q := NegatedQuery(metric, vs);
    var m := Matcher("cluster", MatchNotRegexp, JoinBar(vs));
    var sel := Selector(metric, [m, NameMatcher(metric)]);
    assert Selectors(q.tree) == [sel] && sel in Selectors(q.tree);
    SplitJoin(vs);
    PatternTargetsExactly(e, vs, c);
    assert sel.matchers[0] == m && !Targets(e, sel.matchers[1], c);
    assert TargetedBy(e, sel.matchers, c) <==> Targets(e, m, c);
    assert m in sel.matchers;
  }

  /** A negated pattern is searched for where it should be matched: the query is confined if and only if no cluster is
      targeted, or every cluster that contains one of the names without being one grants what the others
      have in common. */
  lemma NegatedQueryConfinedExactly(e: RegexEngine, metric: string, vs: seq<string>, access: Access)
    requires PlainNames(access) && DuplicateFree(access)
    requires vs != [] && AllPlain(vs) && metric != ACM_MANAGED_CLUSTER_LABELS
    ensures var q := NegatedQuery(metric, vs);
            AllConfined(e, q, access) <==>
              || (forall c | c in access :: ContainsAny(c, vs))
              || (forall c | c in access && ContainsAny(c, vs) && c !in vs ::
                    GrantsAdmitted(access[c], CommonOf(e, q, access)))
  {
    var q := NegatedQuery(metric, vs);
    forall c
      ensures SelectsCluster(e, q.tree, c) <==> c !in vs
      ensures c in Targeted(e, q, access) <==> c in access && !ContainsAny(c, vs)
    {
      NegatedClusters(e, metric, vs, access, c);
    }
    NegatedClusters(e, metric, vs, access, "");
    ClusterQueriesConfinedExactly(e, q, access);
    if t :| t in access && !ContainsAny(t, vs) { assert t in Targeted(e, q, access); }
    if t :| t in Targeted(e, q, access) { assert t in access && !ContainsAny(t, vs); }
  }

  lemma ContainsNames()
    ensures !Contains("b", "a") && Contains("a", "a") && Contains("ab", "a")
  {
    assert "b"[1..] == "" && !Contains("", "a");
    assert "a"[0] != "b"[0] && "a" <= "a" && "a" <= "ab";
  }

  /** With clusters a and b, `up{cluster!~"a"}` is about b: it is confined, and reads exactly what is granted there. */
  lemma NegatedQueryIsConfined(e: RegexEngine, ns: string)
    ensures var q := NegatedQuery("up", ["a"]);
            && Targeted(e, q, TWO_CLUSTERS) == {"b"} && AllConfined(e, q, TWO_CLUSTERS)
            && (Reads(e, Rewritten(e, q, TWO_CLUSTERS), OfCluster("b", ns)) <==> ns == "n2")
  {
    var q := NegatedQuery("up", ["a"]);
    TwoClustersArePlain();
    ContainsNames();
    forall c ensures c in Targeted(e, q, TWO_CLUSTERS) <==> c == "b" {
      NegatedClusters(e, "up", ["a"], TWO_CLUSTERS, c);
      assert "a" in ["a"];
    }
    NegatedQueryConfinedExactly(e, "up", ["a"], TWO_CLUSTERS);
    assert Targeted(e, q, TWO_CLUSTERS) == {"b"};
    NegatedReads(e, ns);
  }

  lemma NegatedAccepts(e: RegexEngine, ns: string)
    ensures Selectors(NegatedQuery("up", ["a"]).tree) == [Selector("up", [Matcher("cluster", MatchNotRegexp, "a"), UP])]
    ensures Accepts(e, [Matcher("cluster", MatchNotRegexp, "a"), UP], OfCluster("b", ns))
  {
    SplitJoin(["a"]);
  }

  lemma NegatedAdmits(e: RegexEngine, ns: string)
    requires Targeted(e, NegatedQuery("up", ["a"]), TWO_CLUSTERS) == {"b"}
    ensures Admitted(CommonOf(e, NegatedQuery("up", ["a"]), TWO_CLUSTERS), ns) <==> ns == "n2"
  {
    assert Requested(TWO_CLUSTERS, {"b"}) == map["b" := ["n2"]];
    OneClusterCommon("b", "n2");
  }

  lemma NegatedReads(e: RegexEngine, ns: string)
    requires Targeted(e, NegatedQuery("up", ["a"]), TWO_CLUSTERS) == {"b"}
    ensures Reads(e, Rewritten(e, NegatedQuery("up", ["a"]), TWO_CLUSTERS), OfCluster("b", ns)) <==> ns == "n2"
  {
    var q := NegatedQuery("up", ["a"]);
    TwoClustersArePlain();
    NegatedAccepts(e, ns);
    NegatedAdmits(e, ns);
    RewrittenAccepts(e, q, TWO_CLUSTERS, 0, OfCluster("b", ns));
    assert Selectors(Rewritten(e, q, TWO_CLUSTERS))[0] in Selectors(Rewritten(e, q, TWO_CLUSTERS));
  }

  const PARTLY_NAMED: Access := map["ab" := ["n1"], "b" := ["n2"]]

  /** With clusters ab and b it also reads ab, which it does not target. */
  lemma PartlyNamedIsNotConfined(e: RegexEngine)
    ensures !AllConfined(e, NegatedQuery("up", ["a"]), PARTLY_NAMED)
  {
    var q := NegatedQuery("up", ["a"]);
    PlainExamples();
    ContainsNames();
    forall c ensures c in Targeted(e, q, PARTLY_NAMED) <==> c == "b" {
      NegatedClusters(e, "up", ["a"], PARTLY_NAMED, c);
      assert "a" in ["a"];
    }
    assert Targeted(e, q, PARTLY_NAMED) == {"b"};
    assert Requested(PARTLY_NAMED, {"b"}) == map["b" := ["n2"]];
    OneClusterCommon("b", "n2");
    PartlyNamedEntry();
    NegatedQueryConfinedExactly(e, "up", ["a"], PARTLY_NAMED);
  }

  lemma PartlyNamedEntry()
    ensures PlainNames(PARTLY_NAMED) && DuplicateFree(PARTLY_NAMED)
    ensures PARTLY_NAMED["ab"] == ["n1"] && !Grants(["n1"], "n2") && "ab" !in ["a"] && ContainsAny("ab", ["a"])
  {
    PlainExamples();
    assert "n1" != "n2" && "a" in ["a"] && Contains("ab", "a");
  }

  function OfCluster(c: string, ns: string): Series {
    map["__name__" := "up", "cluster" := c, "namespace" := ns]
  }

  /** A query that mentions the metric of cluster labels is confined to clusters only: there is no namespace filter at
      all, not even for the other metrics of the query. */
  lemma MentioningClusterLabelsSkipsNamespaces(e: RegexEngine, q: Query, access: Access, s: Series)
    requires PlainNames(access) && q.mentionsClusterLabels
    ensures Rewritten(e, q, access) == InjectTree(ClusterInjector(access), q.tree)
    ensures Reads(e, Rewritten(e, q, access), s) <==>
              exists sel | sel in Selectors(q.tree) :: Accepts(e, sel.matchers, s) && ClusterIsUsers(access, sel, s)
  {
    RewrittenReads(e, q, access, s);
  }

  const LABELS_MATCHER := NameMatcher(ACM_MANAGED_CLUSTER_LABELS)
  const JOIN_QUERY :=
    Query(Node(Binary("*", "on (cluster)"),
               [Vector("up", [UP], ""), Vector(ACM_MANAGED_CLUSTER_LABELS, [LABELS_MATCHER], "")]), true)
  const ONE_NAMESPACE: Access := map["a" := ["n1"]]

  /** A metric joined with the cluster labels is read in every namespace, for a user with one namespace. */
  lemma JoinWithClusterLabelsIsNotConfined(e: RegexEngine)
    ensures !AllConfined(e, JOIN_QUERY, ONE_NAMESPACE)
  {
    var up, labels := Vector("up", [UP], ""), Vector(ACM_MANAGED_CLUSTER_LABELS, [LABELS_MATCHER], "");
    SelectorsOfPair(Binary("*", "on (cluster)"), up, labels);
    assert Selector("up", [UP]) in Selectors(JOIN_QUERY.tree);
    PlainExamples();
    assert SelectsCluster(e, JOIN_QUERY.tree, "a");
    ClusterQueriesConfinedExactly(e, JOIN_QUERY, ONE_NAMESPACE);
    assert Overlooked(e, JOIN_QUERY, ONE_NAMESPACE, "a") && !Universal(ONE_NAMESPACE["a"]);
  }

  // ---- the shortcut ----------------------------------------------------------------------------

  /** Over the series of managed clusters, rewriting the query takes nothing away from its selectors. */
  ghost predicate KeepsManaged(e: RegexEngine, q: Query, access: Access, managed: set<string>)
    requires |Selectors(Rewritten(e, q, access))| == |Selectors(q.tree)|
  {
    forall i, s | 0 <= i < |Selectors(q.tree)| && Label(s, ClusterLabelOf(Selectors(q.tree)[i].name)) in managed ::
      Accepts(e, Selectors(Rewritten(e, q, access))[i].matchers, s) <==> Accepts(e, Selectors(q.tree)[i].matchers, s)
  }

  ghost predicate ManagedAreAdmitted(e: RegexEngine, q: Query, access: Access, managed: set<string>) {
    forall c, ns | c in managed && Reaches(e, q.tree, c, ns) :: Admitted(CommonOf(e, q, access), ns)
  }

  lemma AdmittedIsKept(e: RegexEngine, q: Query, access: Access, managed: set<string>, i: nat, s: Series)
    requires PlainNames(access) && Consistent(q) && CanAccessAll(access, managed)
    requires ManagedAreAdmitted(e, q, access, managed)
    requires |Selectors(Rewritten(e, q, access))| == |Selectors(q.tree)| && i < |Selectors(q.tree)|
    requires Label(s, ClusterLabelOf(Selectors(q.tree)[i].name)) in managed
    requires Accepts(e, Selectors(q.tree)[i].matchers, s)
    ensures Accepts(e, Selectors(Rewritten(e, q, access))[i].matchers, s)
  {
    RewrittenAccepts(e, q, access, i, s);
    var sel := Selectors(q.tree)[i];
    assert sel in Selectors(q.tree);
    if sel.name != ACM_MANAGED_CLUSTER_LABELS {
      assert Reaches(e, q.tree, Label(s, "cluster"), Label(s, "namespace"));
    }
  }

  /** Where the shortcut skips the rewrite, doing it would have made no difference if and only if every namespace of a
      managed cluster that the query reaches is admitted. */
  lemma ShortcutAgreesExactly(e: RegexEngine, q: Query, access: Access, managed: set<string>)
    requires PlainNames(access) && Consistent(q) && CanAccessAll(access, managed)
    ensures |Selectors(Rewritten(e, q, access))| == |Selectors(q.tree)|
    ensures KeepsManaged(e, q, access, managed) <==> ManagedAreAdmitted(e, q, access, managed)
  {
    var S0 := Selectors(q.tree);
    RewrittenKeepsSelectors(e, q, access);
    if KeepsManaged(e, q, access, managed) {
      forall c, ns | c in managed && Reaches(e, q.tree, c, ns) ensures Admitted(CommonOf(e, q, access), ns) {
        var sel, s :| sel in S0 && sel.name != ACM_MANAGED_CLUSTER_LABELS && Accepts(e, sel.matchers, s)
                      && Label(s, "cluster") == c && Label(s, "namespace") == ns;
        var i :| 0 <= i < |S0| && S0[i] == sel;
        RewrittenAccepts(e, q, access, i, s);
      }
    }
    if ManagedAreAdmitted(e, q, access, managed) {
      forall i, s | 0 <= i < |S0| && Label(s, ClusterLabelOf(S0[i].name)) in managed
        ensures Accepts(e, Selectors(Rewritten(e, q, access))[i].matchers, s) <==> Accepts(e, S0[i].matchers, s)
      {
        RewrittenAccepts(e, q, access, i, s);
        if Accepts(e, S0[i].matchers, s) { AdmittedIsKept(e, q, access, managed, i, s); }
      }
    }
  }

  lemma ManagedAdmittedExactly(e: RegexEngine, q: Query, access: Access, managed: set<string>)
    requires OnlyClusterMatchers(q.tree)
    ensures ManagedAreAdmitted(e, q, access, managed) <==>
              CommonOf(e, q, access) == ["*"] || forall c | c in managed :: !SelectsCluster(e, q.tree, c)
  {
    var common := CommonOf(e, q, access);
    if ManagedAreAdmitted(e, q, access, managed) && common != ["*"] {
      forall c | c in managed ensures !SelectsCluster(e, q.tree, c) {
        var unseen := FreshName(OrNothing(common));
        ReachesEveryNamespace(e, q.tree, c, unseen);
        assert !Admitted(common, unseen);
      }
    }
    if forall c | c in managed :: !SelectsCluster(e, q.tree, c) {
      forall c, ns | c in managed ensures !Reaches(e, q.tree, c, ns) { ReachesEveryNamespace(e, q.tree, c, ns); }
    }
  }

  /** For a query with `cluster` matchers only: if and only if there is no namespace filter, no requested cluster is
      restricted, or no selector accepts a managed cluster. */
  lemma ClusterQueriesAgreeExactly(e: RegexEngine, q: Query, access: Access, managed: set<string>)
    requires PlainNames(access) && Consistent(q) && CanAccessAll(access, managed) && OnlyClusterMatchers(q.tree)
    ensures |Selectors(Rewritten(e, q, access))| == |Selectors(q.tree)|
    ensures KeepsManaged(e, q, access, managed) <==>
              || q.mentionsClusterLabels
              || AllUniversal(Requested(access, Targeted(e, q, access)))
              || forall c | c in managed :: !SelectsCluster(e, q.tree, c)
  {
    ShortcutAgreesExactly(e, q, access, managed);
    WildcardMeansUniversal(Requested(access, Targeted(e, q, access)));
    ManagedAdmittedExactly(e, q, access, managed);
  }

  const PLAIN_QUERY := Query(Vector("up", [UP], ""), false)
  const EXTRA_CLUSTER: Access := map["a" := ["*"], "b" := ["n1"]]

  lemma ExtraClusterPremises(e: RegexEngine)
    ensures PlainNames(EXTRA_CLUSTER) && CanAccessAll(EXTRA_CLUSTER, {"a"})
    ensures Consistent(PLAIN_QUERY) && OnlyClusterMatchers(PLAIN_QUERY.tree)
    ensures SelectsCluster(e, PLAIN_QUERY.tree, "a") && Targeted(e, PLAIN_QUERY, EXTRA_CLUSTER) == {}
  {
    PlainExamples();
    assert Selectors(PLAIN_QUERY.tree) == [Selector("up", [UP])];
    assert Selector("up", [UP]) in Selectors(PLAIN_QUERY.tree);
  }

  /** The failing case: a restricted entry for a cluster that is not managed narrows the rewritten query, although the
      user may see all of the only managed cluster and the shortcut therefore leaves the query as it is. */
  lemma ExtraClusterDisagrees(e: RegexEngine)
    ensures CanAccessAll(EXTRA_CLUSTER, {"a"})
    ensures |Selectors(Rewritten(e, PLAIN_QUERY, EXTRA_CLUSTER))| == |Selectors(PLAIN_QUERY.tree)|
    ensures !KeepsManaged(e, PLAIN_QUERY, EXTRA_CLUSTER, {"a"})
  {
    ExtraClusterPremises(e);
    ClusterQueriesAgreeExactly(e, PLAIN_QUERY, EXTRA_CLUSTER, {"a"});
    assert EXTRA_CLUSTER["b"] == ["n1"] && !Universal(EXTRA_CLUSTER["b"]);
  }
}
