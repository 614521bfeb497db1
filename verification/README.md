# Multicluster observability operator: verified models

This project models the parts of the multicluster observability operator whose correctness is hardest to see from
one function alone, and proves what they are for.

- **Access control of queries** (`PromQL`, `Rewrite`, `NamespaceFilter`, `AccessControl`, `Confinement`). The RBAC query proxy injects
  cluster and namespace matchers into PromQL. Queries are trees with a semantics over stores of labelled series;
  operators and functions are uninterpreted. The walks run over a heap of selector objects, as in the code. Rewriting is
  proved to restrict exactly what each selector may read, the whole rewrite is characterised series by series, and it is proved
  for which queries it keeps a user within the granted namespaces.
- **Collect rules** (`SeriesTracking`, `CollectRules`). The pending / firing / resolving times of every series, the table
  of enabled matches derived from them, and the worker that follows the table, over whole runs.
- **Metric families** (`Compaction`, `MetricFamilies`, `MetricMerge`, `FederateSamples`, `SeriesLabels`, `RemoteWrite`).
  In-place compaction, validation and sorting, the merge of sorted runs, label overrides, and the conversion of a scrape
  to remote-write series and requests.
- **The label allowlist** (`Allowlist`). Several proxies merge labels into one versioned ConfigMap.
- **Monitoring configuration** (`CmoConfig`, `UserWorkloadConfig`, `HubOwnership`). One managed alertmanager stanza per
  hub amid everybody else's: inserting, repeating, reverting, and any interleaving of several hubs.
- **Status** (`ComponentStatus`, `LoopWatcher`, `StatusAggregation`). The transition table of component reasons, the
  leaky bucket that detects reconcile loops, and the aggregation of component conditions into one standard condition.
- **Ownership and cleanup** (`Dashboards`, `Finalizers`, `RightSizingSync`). Dashboard tracking against a Grafana whose
  calls fail, over whole runs, the two finalizers of the MultiClusterObservability resource, and the right-sizing variables
  of the addon.

`Wrappers`, `Sorted` and `Bags` hold the shared vocabulary: optional values and call outcomes, Go's string order with
sorted listings of sets, and the multiset of all values of a map. `dafny verify dfyconfig.toml` checks everything.

Code that changes objects, slices or maps step by step is modelled by classes, arrays and loops, each proved equal to a
specification function; the lemmas are about those functions. Calls to API servers and to Grafana, clocks and map
iteration orders are parameters or free choices, so that every theorem covers all of them.

Where a promise does not hold of the code on all inputs, the exact condition is proved, and a failing input is shown where
the condition does not name it:

- `Confinement.ConfinedExactly`, `Confinement.ClusterQueriesConfinedExactly`: a rewritten query stays within the granted
  namespaces if and only if every cluster of the user that the filter overlooks grants what the rewrite admits where the
  query reaches it. Overlooked are the clusters outside the targets (`Confinement.MixedQueryIsNotConfined`; for a
  negated pattern `Confinement.NegatedQueryConfinedExactly`, `Confinement.PartlyNamedIsNotConfined`), and all of them when
  the text mentions the metric of cluster labels, which turns the filter off
  (`Confinement.JoinWithClusterLabelsIsNotConfined`).
- `Confinement.ShortcutAgreesExactly`, `Confinement.ClusterQueriesAgreeExactly`: the shortcut for users who may see every
  managed cluster gives what the rewrite would if and only if the rewrite admits every namespace of a managed cluster that
  the query reaches (`Confinement.ExtraClusterDisagrees`).
- `MetricMerge.OneFamilyPerNameExactly`: merging leaves one family per name if and only if families of a name are
  neighbours and every second run of a name is a single family, since after a name change the newcomer is no merge target
  (`MetricMerge.SecondNameStaysSplit`). The documentation of `MergeSortedWithTimestamps` promises it without condition; the
  model follows the code.
- `RemoteWrite.AcceptedConversion`: what the validation accepts converts if and only if its type is supported and every
  sample has its value set, which the validation does not look at (`RemoteWrite.EmptyCounterFails`); and
  `RemoteWrite.SeriesLabelsNotEmpty`: no label is empty if and only if the metric has a name.
- `Dashboards.SurvivesSweepExactly`: an expected dashboard survives every sweep if and only if it is in no folder, its
  folder is not listed, or the search shows an expected dashboard in that folder (`Dashboards.UnlistedDashboardIsLost`).
- `StatusAggregation.TrueConditionSortsLast`: the sort comparator mixing status and time puts the one true condition last
  if and only if no standard condition listed before it is later (`StatusAggregation.OlderTrueCondition`), and
  `StatusAggregation.WritesExactly` says when a redundant write follows.
- `AccessControl.MergeGrantsUnionExactly`: merging access lists grants their union if and only if no empty, hence
  universal, list meets a restricted one (`AccessControl.MergingLosesUniversality`).
- `CmoConfig.CreateCrashesExactly`: creating the cluster-monitoring configuration crashes if and only if its ConfigMap is
  there without any data; the user-workload twin handles that (`UserWorkloadConfig.UwHandlesNilData`).
- `CmoConfig.ClaimsExactly`: a hub claims a stanza name if and only if it ends in a dash and the hub's ID, so hubs are told
  apart when no name built for one ends in the ID of another (`CmoConfig.SuffixHubsShare`).
- `CmoConfig.RevertUndoesCreate`, `UserWorkloadConfig.UwRevertUndoesCreate`: reverting keeps a ConfigMap's other keys if and
  only if there were none or the configuration was not empty (`CmoConfig.OtherKeysAreLost`,
  `UserWorkloadConfig.UwOtherKeysAreLost`).
- `LoopWatcher.CheckRecoversExactly`, `LoopWatcher.NoRequeueExactly`, `LoopWatcher.RequeueRecoversExactly`: when a check ends
  the degraded status, when it returns neither a delay nor an error, and when the requeued request ends it.
- `Dashboards.DeleteSparesExactly`, `Dashboards.UpdateSparesExactly`: which dashboards an update or a delete of one key can
  cost; that another key tracks them does not protect them (`Dashboards.SharedDashboardIsLost`).

## Model

| member | source | states |
|---|---|---|
| Sorted.ListingIsUnique | proxy/pkg/informer/informer.go:451-508 | a set of strings has only one sorted, duplicate-free listing |
| Sorted.SortedKeys | proxy/pkg/metricquery/modifier.go:260 | the sorted keys of a map do not depend on the map's iteration order |
| PromQL.SplitJoin | proxy/pkg/rewrite/rewrite.go:55-62 | joining plain names with a bar gives a pattern whose alternatives are exactly those names |
| Rewrite.Visit | proxy/pkg/rewrite/rewrite.go:22-33 | a visited selector gets exactly one more matcher, at the end; other nodes are not touched |
| Rewrite.Walk | proxy/pkg/rewrite/rewrite_cluster.go:23-58 | walking an expression whose selectors are distinct objects turns its tree into the injected tree, with the matcher twice under a matrix selector |
| Rewrite.WalkAll | proxy/pkg/rewrite/rewrite_cluster.go:23-58 | the same for the children of a node |
| Rewrite.InjectLabels | proxy/pkg/rewrite/rewrite.go:37-71 | the text after injection: equality for one value, alternation for several, absence for none |
| Rewrite.InjectClusterLabels | proxy/pkg/rewrite/rewrite_cluster.go:70-93 | the same with the label chosen per metric (`name` for `acm_managed_cluster_labels`, else `cluster`) |
| Rewrite.InjectionRestrictsSelectors | proxy/pkg/rewrite/rewrite_cluster.go:23-93 | for every tree and store, evaluating the injected query equals evaluating the original with each selector limited to the series its injected matcher accepts |
| Rewrite.ValuesMatcherMeansMembership | proxy/pkg/rewrite/rewrite_cluster.go:28-50 | for plain values the injected matcher accepts a label value exactly when it is listed |
| Rewrite.ClusterInjectionConfinesEvaluation | proxy/pkg/rewrite/rewrite_cluster.go:70-93 | evaluation after cluster injection, in terms of cluster names alone |
| Rewrite.OpenGuard | proxy/pkg/metricquery/modifier.go:70-74 | a restriction that turns away nothing a selector reads from the store does not change the value of any query |
| Rewrite.InjectedSelectors | proxy/pkg/rewrite/rewrite.go:22-33 | injection keeps all selectors in place and only appends to each |
| NamespaceFilter.RequestedAccess | proxy/pkg/metricquery/filter.go:57-65 | the access entries of the targeted clusters, all clusters if none is targeted |
| NamespaceFilter.AddOccurrences | proxy/pkg/metricquery/filter.go:77-83 | the inner counting loop adds the multiset of one cluster's namespaces |
| NamespaceFilter.CountOccurrences | proxy/pkg/metricquery/filter.go:68-84 | the counting pass yields the multiplicity of every namespace and the number of universal clusters, for any map order |
| NamespaceFilter.GetCommonNamespacesAcrossClusters | proxy/pkg/metricquery/filter.go:54-103 | the counting loops compute the common-namespace list of the requested clusters |
| NamespaceFilter.CountingIsIntersecting | proxy/pkg/metricquery/filter.go:70-98 | for duplicate-free lists a namespace's count is full exactly when every requested cluster grants it and some restricted one names it |
| NamespaceFilter.WildcardMeansUniversal | proxy/pkg/metricquery/filter.go:89-91 | the result is `["*"]` exactly when every requested cluster is universal, duplicates or not |
| NamespaceFilter.CommonNamespacesIsIntersection | proxy/pkg/metricquery/filter.go:89-102 | the result is sorted and is exactly the intersection of what the requested clusters grant |
| NamespaceFilter.ClusterVisitor.Visit | proxy/pkg/metricquery/filter.go:112-170 | a visited selector adds exactly the user's clusters that one of its cluster matchers targets, by unanchored search for patterns |
| NamespaceFilter.EqualityTargetsExactly | proxy/pkg/metricquery/filter.go:128-138 | `=` and `!=` target exactly the clusters they accept |
| NamespaceFilter.PatternTargetsExactly | proxy/pkg/metricquery/filter.go:139-160 | `=~` with plain names targets the clusters that contain one of them, `!~` those that contain none |
| NamespaceFilter.NegationTargetsTheRest | proxy/pkg/metricquery/filter.go:139-160 | for a pattern that compiles, `!~` targets exactly the clusters `=~` does not; one that does not compile targets nothing |
| NamespaceFilter.SearchIsWider | proxy/pkg/metricquery/filter.go:139-160 | for any lawful engine, `=~` targets whatever it accepts, and `!~` accepts whatever it targets |
| NamespaceFilter.ClusterVisitor.Walk | proxy/pkg/metricquery/filter.go:175-198 | the walk collects the targets of every selector of the query |
| NamespaceFilter.GetClustersInQuery | proxy/pkg/metricquery/filter.go:175-198 | the targeted clusters of a query text |
| NamespaceFilter.AddNamespaceFilters | proxy/pkg/metricquery/filter.go:31-49 | targets come from the original query, the namespace matcher goes into the modified one, and `["*"]` adds nothing |
| AccessControl.RewriteQuery | proxy/pkg/metricquery/modifier.go:254-277 | the two passes of the rewrite in their order, the second only without the cluster-labels metric |
| AccessControl.RewrittenReads | proxy/pkg/metricquery/modifier.go:254-277 | a series is readable after the rewrite if and only if a selector read it before, its cluster is the user's and its namespace is admitted |
| Confinement.RewrittenByLabel | proxy/pkg/rewrite/rewrite_cluster.go:28-50 | a selector on `acm_managed_cluster_labels` keeps the series whose `name` is a cluster of the user, any other those whose `cluster` is, in the admitted namespaces |
| AccessControl.RewrittenStaysInUserClusters | proxy/pkg/metricquery/modifier.go:254-277 | cluster confinement of every rewritten query whose text does not mention the cluster-labels metric, with no condition on its matchers (the other texts are part of `Confinement.ConfinedExactly`) |
| AccessControl.RewrittenStaysInUserNamespaces | proxy/pkg/metricquery/filter.go:31-198 | confinement series by series, when every selector is pinned to clusters (an equality on a non-empty cluster, for one), or no cluster is targeted |
| Confinement.ConfinedExactly | proxy/pkg/metricquery/modifier.go:254-277 | for every query, text mention of the cluster-labels metric or not: all its selectors read is confined iff every cluster of the user that the filter overlooks (those outside the targets, or all of them where there is no filter) grants each admitted namespace in which the query reaches it; selectors on the cluster-labels metric are confined by their own `name` label |
| Confinement.ClusterQueriesConfinedExactly | proxy/pkg/metricquery/filter.go:31-198 | for queries with cluster matchers only: iff every overlooked cluster some selector accepts grants all that is admitted, hence every namespace where there is no filter |
| Confinement.ConfinedWithoutLabelsMetric | proxy/pkg/metricquery/modifier.go:254-277 | without selectors on the cluster-labels metric, confinement says: whatever series the rewritten query reads is in a cluster of the user and in a proper namespace |
| Confinement.MixedQueryIsNotConfined | proxy/pkg/metricquery/filter.go:175-198 | the failing case: targets are united over the whole query, so that one selector without a cluster beside one with a cluster is not confined |
| Confinement.NegatedQueryConfinedExactly | proxy/pkg/metricquery/filter.go:150-160 | a query `metric{cluster!~p}` for an alternation `p` of plain names is confined iff nothing is targeted or every cluster that contains one of the names without being one grants what is admitted |
| Confinement.NegatedQueryIsConfined | proxy/pkg/metricquery/filter.go:150-160 | `up{cluster!~"a"}` with clusters a and b targets b, is confined, and reads of b exactly the namespace granted there |
| Confinement.PartlyNamedIsNotConfined | proxy/pkg/metricquery/filter.go:150-160 | the failing case: with clusters ab and b it also reads ab, which the unanchored search does not count as targeted |
| Confinement.MentioningClusterLabelsSkipsNamespaces | proxy/pkg/metricquery/modifier.go:268-274 | a query mentioning the cluster-labels metric gets the cluster filter alone, for all its metrics |
| Confinement.JoinWithClusterLabelsIsNotConfined | proxy/pkg/metricquery/modifier.go:268-274 | the failing case: an ordinary join with the cluster-labels metric is not confined for a user of one namespace |
| AccessControl.RewrittenKeepsCommonNamespaces | proxy/pkg/metricquery/filter.go:31-103 | nothing is lost that every requested cluster grants the user |
| AccessControl.ChecksAccessToAll | proxy/pkg/metricquery/modifier.go:280-300 | true exactly if every managed cluster has a universal entry and not both the clusters and the map are empty |
| AccessControl.ShortcutIsEarned | proxy/pkg/metricquery/modifier.go:280-300 | the shortcut is taken iff every namespace of every managed cluster is granted and there is a managed cluster or an entry at all |
| AccessControl.ShortcutAgreesWithRewrite | proxy/pkg/metricquery/modifier.go:70-74 | where the shortcut applies, whatever other clusters the access map has, rewriting would not have changed the value of a query that reads managed clusters, if the text mentions the cluster-labels metric or no requested cluster is restricted |
| Confinement.ShortcutAgreesExactly | proxy/pkg/metricquery/modifier.go:280-300 | for every query: rewriting takes nothing of the managed clusters from its selectors iff every namespace of a managed cluster that the query reaches is admitted |
| Confinement.ClusterQueriesAgreeExactly | proxy/pkg/metricquery/modifier.go:280-300 | for queries with cluster matchers only: iff there is no namespace filter, no requested cluster is restricted, or no selector accepts a managed cluster |
| Confinement.ExtraClusterDisagrees | proxy/pkg/metricquery/modifier.go:284-297 | the failing case: the keys are compared in one direction only, so a restricted entry for a cluster that is not managed does not stop the shortcut |
| AccessControl.MergeAcls | proxy/pkg/metricquery/modifier.go:157-161 | merging keeps the first list as a prefix, has the elements of both and stays duplicate-free |
| AccessControl.AppendMissing | proxy/pkg/metricquery/modifier.go:157-161 | the inner append loop is that merge |
| AccessControl.SpreadWildcardEntry | proxy/pkg/metricquery/modifier.go:152-168 | the `*` entry is spread over the managed clusters and removed, for any iteration order |
| AccessControl.FilterProjectsToManagedClusters | proxy/pkg/metricquery/modifier.go:216-225 | exactly the projects that are managed clusters |
| AccessControl.FoldAccess | proxy/pkg/metricquery/modifier.go:140-213 | the folded access map: the wildcard spread, then all namespaces for projects without an entry |
| AccessControl.FoldedAccessIsClean | proxy/pkg/metricquery/modifier.go:140-213 | the folded map has no `*` entry and stays duplicate-free, as confinement asks |
| AccessControl.FoldedAccessMeans | proxy/pkg/metricquery/modifier.go:140-213 | which clusters are in the folded map and with what: their own entry together with that of `*` for managed clusters, everything for a managed project with neither |
| AccessControl.MergeGrantsUnionExactly | proxy/pkg/metricquery/modifier.go:154-165 | the merge grants the union of both entries if and only if no empty list meets a restricted one |
| AccessControl.MergingLosesUniversality | proxy/pkg/metricquery/modifier.go:154-165 | the failing case: an empty entry stops standing for every namespace once another list is merged into it |
| SeriesTracking.TimesAlwaysAreStarts | collectors/metrics/pkg/collectrule/evaluator.go:251-323 | in every run the recorded times are the starts of the current presence or absence |
| SeriesTracking.StartsFiringExactly | collectors/metrics/pkg/collectrule/evaluator.go:262-307 | a series starts firing exactly when present, and present in every successful evaluation of a span of at least the duration, as read at some sample; a presence that begins here fires at once only without duration |
| SeriesTracking.StopsFiringExactly | collectors/metrics/pkg/collectrule/evaluator.go:311-321 | a firing series is dropped exactly when absent from every successful evaluation since a first absence at least 15 minutes back |
| SeriesTracking.FiringWasEarned | collectors/metrics/pkg/collectrule/evaluator.go:251-323 | in every run whatever fires started after such a span and has fired since |
| SeriesTracking.RunContinues | collectors/metrics/pkg/collectrule/evaluator.go:325-361 | rounds of evaluations compose |
| CollectRules.ProcessSample | collectors/metrics/pkg/collectrule/evaluator.go:263-306 | the body of the sample loop moves one series by one sample, with the clock reading of that sample, and says whether it began to fire |
| CollectRules.ProcessSamples | collectors/metrics/pkg/collectrule/evaluator.go:254-307 | the sample loop: times, enabled matches, the tracked series the answer lacks, and the update flag |
| CollectRules.ResolveAbsent | collectors/metrics/pkg/collectrule/evaluator.go:311-321 | the loop over absent firing series: resolve, or drop after 15 minutes with the enabled matches |
| CollectRules.EvaluateTimes | collectors/metrics/pkg/collectrule/evaluator.go:251-323 | a whole evaluation moves every series of the rule by exactly one observation and keeps pending and firing disjoint |
| CollectRules.Evaluator.constructor | collectors/metrics/pkg/collectrule/evaluator.go:66-110 | nothing tracked, enabled or running |
| CollectRules.Evaluator.Register | collectors/metrics/pkg/collectrule/evaluator.go:156-185 | registration keeps the standing of every series; it succeeds exactly if every rule parses |
| CollectRules.Evaluator.EvaluateRule | collectors/metrics/pkg/collectrule/evaluator.go:251-323 | one observation under this rule and no change elsewhere; the result is true exactly when the set of enabled keys changed |
| CollectRules.Evaluator.GetMatches | collectors/metrics/pkg/collectrule/evaluator.go:187-197 | all enabled matches, in whatever order |
| CollectRules.Evaluator.StartWorker | collectors/metrics/pkg/collectrule/evaluator.go:199-220 | a start that succeeds leaves a worker with the current matchers |
| CollectRules.Evaluator.EvaluateRules | collectors/metrics/pkg/collectrule/evaluator.go:325-342 | the loop over the rules, failed queries skipped: every series sees its observations in order, and the update flag is set iff some rule makes a series start or stop firing |
| CollectRules.Evaluator.UpdateWorker | collectors/metrics/pkg/collectrule/evaluator.go:343-361 | after an update the worker is stopped or restarted so that it forwards the table's matches |
| CollectRules.Evaluator.Evaluate | collectors/metrics/pkg/collectrule/evaluator.go:325-361 | one round is one step of the state machine below |
| CollectRules.ReachableStates | collectors/metrics/pkg/collectrule/evaluator.go:187-361 | in every reachable state each series stands where its own history puts it, the table has exactly the firing keys of all rules ever registered, and if starts succeed the worker runs iff there is something to forward, with a permutation of the table's matches |
| CollectRules.WorkerLagsExactly | collectors/metrics/pkg/collectrule/evaluator.go:325-361 | in every run, failed starts or not: the worker forwards the last table that was handed over (by a round that changed the table, and whose start succeeded unless there was nothing to start), hence the current table iff that has the same matches |
| CollectRules.EnabledMeansFiring | collectors/metrics/pkg/collectrule/evaluator.go:251-323 | a key is enabled exactly when the history of its series has it firing |
| Compaction.Compact | collectors/metrics/pkg/metricfamily/pack.go:9-66 | the two-cursor loop leaves the stable filter of the slice in front, and its forward cursor looks at each cell at most once in total |
| Compaction.KeptMeans | collectors/metrics/pkg/metricfamily/pack.go:38-66 | the filter keeps exactly the entries that pass, none lost or multiplied |
| MetricFamilies.PackLabels | collectors/metrics/pkg/metricfamily/invalid.go:171-197 | the stable filter of the non-nil labels, in linear time |
| MetricFamilies.PackMetricSlice | collectors/metrics/pkg/metricfamily/pack.go:9-36 | the stable filter of the non-nil metrics, in linear time |
| MetricFamilies.Pack | collectors/metrics/pkg/metricfamily/pack.go:41-66 | the stable filter of the families that have metrics, in linear time |
| MetricMerge.MergeSorts | collectors/metrics/pkg/metricfamily/sort.go:76-103 | the merge of two sorted runs is sorted |
| MetricMerge.MergeConservesMetrics | collectors/metrics/pkg/metricfamily/sort.go:76-103 | and has exactly the metrics of both |
| MetricMerge.MergeIsStable | collectors/metrics/pkg/metricfamily/sort.go:76-103 | and is stable: metrics of one timestamp keep their order, the left run first |
| MetricMerge.AppendIsMerge | collectors/metrics/pkg/metricfamily/sort.go:65-69 | appending a block that starts later is the merge |
| MetricMerge.PrependIsMerge | collectors/metrics/pkg/metricfamily/sort.go:70-74 | prepending a block that ends earlier is the merge |
| MetricMerge.ZipMerge | collectors/metrics/pkg/metricfamily/sort.go:76-103 | the zip loop is the stable merge |
| MetricMerge.MergeInto | collectors/metrics/pkg/metricfamily/sort.go:60-104 | all three paths give the same merge |
| MetricMerge.MergeStep | collectors/metrics/pkg/metricfamily/sort.go:48-107 | the loop body on the array, with its merge target, keeps what remains to be computed |
| MetricMerge.MergePass | collectors/metrics/pkg/metricfamily/sort.go:49-105 | the pass over the array leaves the collapsed families with holes between them |
| MetricMerge.MergeSortedWithTimestamps | collectors/metrics/pkg/metricfamily/sort.go:48-107 | the result is the collapse of the input: every family present, non-empty and timestamp-sorted |
| MetricMerge.CollapseConservesPairs | collectors/metrics/pkg/metricfamily/sort.go:48-107 | the multiset of (family name, metric) pairs is conserved |
| MetricMerge.CollapseIsStable | collectors/metrics/pkg/metricfamily/sort.go:48-107 | metrics of one family name and timestamp keep their order through the whole pass |
| MetricMerge.OneFamilyPerNameExactly | collectors/metrics/pkg/metricfamily/sort.go:48-107 | one family per name is left iff the families of a name are neighbours and every 2nd, 4th, ... run of a name is a single family |
| MetricMerge.SecondNameStaysSplit | collectors/metrics/pkg/metricfamily/sort.go:55-58 | the failing case: two families of one name behind one of another stay two |
| MetricMerge.NamesOfCollapse | collectors/metrics/pkg/metricfamily/sort.go:48-107 | which names are left depends on the sequence of names alone |
| FederateSamples.CleanLabels | collectors/metrics/pkg/metricfamily/invalid.go:125-138 | punching holes for invalid labels and packing them is filtering |
| FederateSamples.CleanedExactly | collectors/metrics/pkg/metricfamily/invalid.go:125-138 | cleaning keeps exactly the labels the strict check accepts, with their multiplicities, and all else of the sample |
| FederateSamples.FieldsMatchExactly | collectors/metrics/pkg/metricfamily/invalid.go:143-164 | of the five messages a sample must carry the one of the family type and no other |
| FederateSamples.DropInvalid | collectors/metrics/pkg/metricfamily/invalid.go:100-167 | metrics failing the timestamp or type check become holes, the others lose exactly their invalid labels |
| FederateSamples.ErrorInvalid | collectors/metrics/pkg/metricfamily/invalid.go:25-88 | the strict check returns the verdict of the first offence |
| FederateSamples.VerdictAcceptsExactly | collectors/metrics/pkg/metricfamily/invalid.go:25-88 | it accepts exactly the families whose header and whose every sample and label are valid |
| FederateSamples.VerdictIsTrue | collectors/metrics/pkg/metricfamily/invalid.go:44-86 | the error of a refused family is true of its first sample that is not accepted |
| FederateSamples.SurvivesExactly | collectors/metrics/pkg/metricfamily/invalid.go:100-167 | the samples left by the lenient stages are, in order, those the strict check would accept once cleaned |
| FederateSamples.PackMetrics | collectors/metrics/pkg/metricfamily/pack.go:9-36 | holes go; a family left without metrics is rejected |
| FederateSamples.SortMetrics | collectors/metrics/pkg/metricfamily/sort.go:13-43 | a permutation in timestamp order |
| FederateSamples.MultiTransformer.Transform | collectors/metrics/pkg/metricfamily/multi_transformer.go:26-46 | built stages run before fixed ones, up to the first that does not accept |
| FederateSamples.FederatePipeline | collectors/metrics/pkg/metricfamily/invalid.go:25-167 | a family gets through drop, pack and sort iff its header is valid and some sample passes; it is then nil-free, sorted, exactly the passing samples cleaned, and the strict check accepts it |
| FederateSamples.FederateFamily | collectors/metrics/pkg/metricfamily/multi_transformer.go:16-46 | the same of the stages assembled with `With` and `WithFunc` and run on the object |
| SeriesLabels.InsertLexicographicallyByName | collectors/metrics/pkg/metricfamily/label.go:98-109 | appending and swapping left is stable insertion by name |
| SeriesLabels.InsertSorts | collectors/metrics/pkg/metricfamily/label.go:98-109 | which keeps a list sorted by name |
| SeriesLabels.InsertsCommute | collectors/metrics/pkg/metricfamily/label.go:86-93 | labels of different names can be inserted in either order |
| SeriesLabels.AppendLabels | collectors/metrics/pkg/metricfamily/label.go:58-96 | the three loops compute one list, for every iteration order of the overrides |
| SeriesLabels.AppendedExactly | collectors/metrics/pkg/metricfamily/label.go:58-96 | it is the only list that is sorted by name and has, name by name, the non-empty labels overridden, or the override if there are none |
| SeriesLabels.AppendedMeans | collectors/metrics/pkg/metricfamily/label.go:58-96 | no label without a name or value comes out other than by an empty override; proper labels that are not overridden, and proper overrides, are all there |
| RemoteWrite.CollectLabels | collectors/metrics/pkg/metricsclient/metricsclient.go:395-418 | the metric name, then the first non-empty label of every other name; it fails exactly on a nil label, a nil name, or a nil value under a non-empty name |
| RemoteWrite.SeriesLabelsExactly | collectors/metrics/pkg/metricsclient/metricsclient.go:395-440 | section "Labels" of the Prometheus Remote-Write 1.0 specification: strictly sorted, hence no repeated names, with exactly those labels |
| RemoteWrite.SeriesLabelsNotEmpty | collectors/metrics/pkg/metricsclient/metricsclient.go:395-418 | and no empty name or value, if and only if the metric has a name |
| RemoteWrite.ConvertToTimeseries | collectors/metrics/pkg/metricsclient/metricsclient.go:387-447 | the first sample that does not convert decides between an error and a nil pointer; otherwise all series |
| RemoteWrite.ConvertsExactly | collectors/metrics/pkg/metricsclient/metricsclient.go:391-437 | the conversion succeeds iff every sample of every family has all that is dereferenced, a supported type and a value |
| RemoteWrite.ConvertibleExactly | collectors/metrics/pkg/metricsclient/metricsclient.go:391-437 | spelt out: no nil pointer on the way, one of the three simple types, and a value in the message of that type |
| RemoteWrite.SeriesInOrder | collectors/metrics/pkg/metricsclient/metricsclient.go:387-447 | then there is one series for each sample, in order, with timestamps of the future set to now |
| RemoteWrite.SeriesMeans | collectors/metrics/pkg/metricsclient/metricsclient.go:412-437 | a series has the value of the message of its type at the time of the sample, or now if that lies in the future |
| RemoteWrite.AcceptedConversion | collectors/metrics/pkg/metricsclient/metricsclient.go:391-437 | what the validating pipeline accepts is refused iff its type is unsupported, and otherwise converts iff every sample that passes the checks has its value set; a missing value is a nil pointer |
| RemoteWrite.EmptyCounterFails | collectors/metrics/pkg/metricfamily/invalid.go:143-163 | the failing case: a counter sample with an empty message passes all checks and cannot be converted |
| RemoteWrite.SendChunks | collectors/metrics/pkg/metricsclient/metricsclient.go:495-523 | the accepted requests are full chunks but for the last, and join to a prefix of the series, to all of them exactly on success |
| RemoteWrite.RemoteWrite | collectors/metrics/pkg/metricsclient/metricsclient.go:463-526 | every series is sent once and in order, up to the first request that fails for good; nothing is sent if the conversion fails |
| Allowlist.SelfHeal | proxy/pkg/informer/informer.go:477-497 | needed labels in neither list go where they were last known, or to the allowed ones |
| Allowlist.GenerateAllowList | proxy/pkg/informer/informer.go:451-508 | the merge of the stored lists, the remembered lists and the cluster labels |
| Allowlist.GeneratedIsCanonicalUnion | proxy/pkg/informer/informer.go:451-508 | it is sorted, duplicate-free and disjoint, loses nothing and adds exactly what is needed |
| Allowlist.StoredLabelsStay | proxy/pkg/informer/informer.go:499-502 | a stored label stays in its list, and being ignored wins over being allowed |
| Allowlist.NeededExactly | proxy/pkg/informer/informer.go:455-465 | needed are the labels of the visible clusters and the two required ones |
| Allowlist.FixpointExactly | proxy/pkg/informer/informer.go:355-366 | it equals the stored lists iff these are canonical and nothing needed is missing |
| Allowlist.SelfHeals | proxy/pkg/informer/informer.go:477-502 | a needed label missing from both lists returns to the list it was last known in |
| Allowlist.ManagedClusterInformer.SetInMemoryAllowlist | proxy/pkg/informer/informer.go:393-401 | the memory and the sanitized labels beside it |
| Allowlist.SanitizedIsClean | proxy/pkg/informer/informer.go:393-398 | sanitized labels consist of word characters, and sanitizing is idempotent |
| Allowlist.SanitizedExactly | proxy/pkg/informer/informer.go:393-398 | word characters stay, and each whole run of others becomes one underscore |
| Allowlist.ManagedClusterInformer.Attempt | proxy/pkg/informer/informer.go:334-380 | one attempt decides as the protocol step does |
| Allowlist.ManagedClusterInformer.Conclude | proxy/pkg/informer/informer.go:381-390 | after the last attempt the memory is what the protocol step makes it |
| Allowlist.RunIsHonest | proxy/pkg/informer/informer.go:323-390 | in every run a pending write was generated from what the proxy read at the version it read |
| Allowlist.NoProxyStepShrinks | proxy/pkg/informer/informer.go:323-390 | under any interleaving no step of a proxy loses a label or moves it to the other list; what it writes is canonical, the old labels plus what it needs |
| Allowlist.MemoryFollows | proxy/pkg/informer/informer.go:355-390 | in every run a sync that ends leaves the stored lists in memory, whether found in order or written |
| Allowlist.UnreadableAfterConflict | proxy/pkg/informer/informer.go:334-390 | after a conflict, an attempt that finds unreadable text ends the sync with the earlier list in memory |
| Allowlist.WritesAreBounded | proxy/pkg/informer/informer.go:323-390 | with fixed views and no outside edits there are at most as many writes as labels initially missing, plus one if the lists were not canonical |
| CmoConfig.ManagedIsOwned | operators/endpointmetrics/controllers/observabilityendpoint/ocp_monitoring_config.go:802-834 | a hub's secret of either base claims exactly the stanzas named after either base and ending in its ID |
| CmoConfig.ManagedTellsHubsApart | operators/endpointmetrics/controllers/observabilityendpoint/ocp_monitoring_config.go:802-834 | for non-empty IDs of one length a name is claimed iff the IDs are equal |
| CmoConfig.ClaimsExactly | operators/endpointmetrics/controllers/observabilityendpoint/ocp_monitoring_config.go:802-834 | for any IDs: a name is claimed iff it ends in a dash and the ID of the claiming hub |
| CmoConfig.SuffixHubsShare | operators/endpointmetrics/controllers/observabilityendpoint/ocp_monitoring_config.go:827-833 | the failing case: a hub claims the stanza of every hub whose ID ends in a dash and its own |
| CmoConfig.OneOwner | operators/endpointmetrics/controllers/observabilityendpoint/ocp_monitoring_config.go:802-834 | with IDs of one length no stanza of whatever name belongs to two hubs |
| CmoConfig.MonitoringConfig.CreateOrUpdate | operators/endpointmetrics/controllers/observabilityendpoint/ocp_monitoring_config.go:541-652 | the new ConfigMap, no update, or the crash on a ConfigMap that is there without data |
| CmoConfig.CreateCrashesExactly | operators/endpointmetrics/controllers/observabilityendpoint/ocp_monitoring_config.go:586-590 | a create assigns into a nil map iff the ConfigMap is there without any data |
| CmoConfig.MonitoringConfig.Revert | operators/endpointmetrics/controllers/observabilityendpoint/ocp_monitoring_config.go:460-538 | the reverted ConfigMap, or none if the configuration is left empty |
| CmoConfig.KeepUnmanaged | operators/endpointmetrics/controllers/observabilityendpoint/ocp_monitoring_config.go:622-630 | the filtering loop, in order |
| CmoConfig.CreateLeavesOneManagedStanza | operators/endpointmetrics/controllers/observabilityendpoint/ocp_monitoring_config.go:616-638 | unless it crashes, exactly one managed stanza, last, behind the unmanaged ones in their order |
| CmoConfig.CreateSetsClusterLabel | operators/endpointmetrics/controllers/observabilityendpoint/ocp_monitoring_config.go:608-620 | a write sets the cluster labels, and drops the name label if there is no name |
| CmoConfig.CreateMeans | operators/endpointmetrics/controllers/observabilityendpoint/ocp_monitoring_config.go:541-652 | every label, the stanzas, the rest of the configuration and the other keys after a create |
| CmoConfig.RevertMeans | operators/endpointmetrics/controllers/observabilityendpoint/ocp_monitoring_config.go:460-538 | the same after a revert: only the labels of the cluster and the claimed stanzas go |
| CmoConfig.RevertDeletesExactly | operators/endpointmetrics/controllers/observabilityendpoint/ocp_monitoring_config.go:506-529 | the ConfigMap is deleted iff a list of stanzas was there and nothing but claimed stanzas and labels of the cluster was in it |
| CmoConfig.SecondCreateChangesNothing | operators/endpointmetrics/controllers/observabilityendpoint/ocp_monitoring_config.go:541-652 | an immediate second call reports no update, or crashes again |
| CmoConfig.RevertUndoesCreate | operators/endpointmetrics/controllers/observabilityendpoint/ocp_monitoring_config.go:460-652 | reverting restores any configuration free of ACM's labels and stanzas, up to empty as absent; other keys of the ConfigMap survive iff there were none or the configuration was not empty |
| CmoConfig.OtherKeysAreLost | operators/endpointmetrics/controllers/observabilityendpoint/ocp_monitoring_config.go:521-529 | the failing case: a ConfigMap that only held other keys is gone after create and revert |
| UserWorkloadConfig.UserWorkloadMonitoring.CreateOrUpdate | operators/endpointmetrics/controllers/observabilityendpoint/ocp_monitoring_config.go:655-746 | reverts when alerting is off, else inserts the stanza and writes exactly if the ConfigMap changes |
| UserWorkloadConfig.UserWorkloadMonitoring.Revert | operators/endpointmetrics/controllers/observabilityendpoint/ocp_monitoring_config.go:853-922 | the reverted ConfigMap, or none if the configuration is left empty |
| UserWorkloadConfig.UwLeavesOneManagedStanza | operators/endpointmetrics/controllers/observabilityendpoint/ocp_monitoring_config.go:716-733 | one managed stanza, last, the others in their order |
| UserWorkloadConfig.UwCreateMeans | operators/endpointmetrics/controllers/observabilityendpoint/ocp_monitoring_config.go:655-746 | besides the stanzas an insertion touches nothing |
| UserWorkloadConfig.UwRevertMeans | operators/endpointmetrics/controllers/observabilityendpoint/ocp_monitoring_config.go:853-922 | a revert takes exactly the managed stanzas away; the ConfigMap is deleted iff a list of stanzas was there and nothing else was in it |
| UserWorkloadConfig.UwSecondCreateChangesNothing | operators/endpointmetrics/controllers/observabilityendpoint/ocp_monitoring_config.go:734-745 | a second call leaves the very same text |
| UserWorkloadConfig.UwRevertUndoesCreate | operators/endpointmetrics/controllers/observabilityendpoint/ocp_monitoring_config.go:655-922 | reverting restores any configuration without managed stanza, up to empty as absent; other keys survive iff there were none or the configuration was not empty |
| UserWorkloadConfig.UwOtherKeysAreLost | operators/endpointmetrics/controllers/observabilityendpoint/ocp_monitoring_config.go:905-913 | the failing case: a ConfigMap that only held other keys is gone after create and revert |
| UserWorkloadConfig.UwHandlesNilData | operators/endpointmetrics/controllers/observabilityendpoint/ocp_monitoring_config.go:655-746 | the contrast: where the cluster-monitoring twin crashes, a ConfigMap without data gets its stanza |
| HubOwnership.StepKeepsShares | operators/endpointmetrics/controllers/observabilityendpoint/ocp_monitoring_config.go:460-652 | a step leaves its own hub with one stanza or none and every other hub's and user's stanzas as they were, in order |
| HubOwnership.OneWidthIsHubSet | operators/endpointmetrics/controllers/observabilityendpoint/ocp_monitoring_config.go:802-834 | IDs of one length make a set of hubs in which no ID claims the names of another, which is all the two theorems ask for |
| HubOwnership.SharesAfterRun | operators/endpointmetrics/controllers/observabilityendpoint/ocp_monitoring_config.go:460-652 | in any interleaving a hub's share is decided by its own last step, never more than one stanza, and nobody else's stanzas change |
| ComponentStatus.Addon.Put | operators/pkg/status/status.go:208-222 | the in-place loop replaces the first condition of the type or appends |
| ComponentStatus.MutateOrAppendFinds | operators/pkg/status/status.go:196-222 | afterwards the type is found with the new condition and every other type as before |
| ComponentStatus.MutateOrAppendKeepsTypesUnique | operators/pkg/status/status.go:208-222 | condition types stay unique |
| ComponentStatus.Addon.UpdateComponentCondition | operators/pkg/status/status.go:128-171 | writes exactly when the report is new and the transition table allows it; the error says which of the two failed, and without one the condition says what was reported |
| ComponentStatus.ReportMovesReason | operators/pkg/status/status.go:49-171 | the reason of the component moves along the table and no other type changes |
| ComponentStatus.EnteredFrom | operators/pkg/status/status.go:49-103 | the transition table read by target: from which reasons a report enters each |
| ComponentStatus.ForwardingNeedsUpdate | operators/pkg/status/status.go:49-171 | in every run of reports, a collector that was off or whose update failed is said to forward or to loop only after a successful update |
| ComponentStatus.EveryReasonIsReachable | operators/pkg/status/status.go:49-103 | no reason is a dead end: stored reports lead from each to any other |
| LoopWatcher.LeakyBucket.Add | operators/endpointmetrics/pkg/openshift/cmowatcher.go:157-164 | false exactly if the bucket is full |
| LoopWatcher.LeakyBucket.Leak | operators/endpointmetrics/pkg/openshift/cmowatcher.go:174-182 | one tick takes one unit out, down to none |
| LoopWatcher.CmoConfigChangesWatcher.CheckRequest | operators/endpointmetrics/pkg/openshift/cmowatcher.go:65-136 | the new bucket, status and flag, the requeue delay and the error, of every branch |
| LoopWatcher.BucketBounds | operators/endpointmetrics/pkg/openshift/cmowatcher.go:138-182 | over any stretch the length stays within the capacity, and at most capacity plus leaks updates find room |
| LoopWatcher.LoopReasonSteps | operators/pkg/status/status.go:49-103 | loop-detected is entered only on a full bucket and left only for stopped, disabled or not-supported; stopped is entered only at or below the reset ratio |
| LoopWatcher.LoopDetectionHadCause | operators/endpointmetrics/pkg/openshift/cmowatcher.go:65-136 | in every run the reason goes back to an update that found the bucket full, with nothing in between |
| LoopWatcher.DetectsExactly | operators/endpointmetrics/pkg/openshift/cmowatcher.go:75-98 | a check that is read and overflows leaves the loop-detected reason iff it was there, or its report is stored and the reason before was none or that of a working or recovered collector |
| LoopWatcher.LoopIsDetected | operators/endpointmetrics/pkg/openshift/cmowatcher.go:65-98 | in every run of one process, more updates than room and leaks make a check overflow, which then detects the loop under that condition |
| LoopWatcher.LoopIsReported | operators/endpointmetrics/pkg/openshift/cmowatcher.go:65-98 | with stored reports and nobody else reporting, such a run does report the loop |
| LoopWatcher.DelaySuffices | operators/endpointmetrics/pkg/openshift/cmowatcher.go:93-133 | either requeue delay, whatever the phase of the ticker, brings the fill ratio to the reset ratio once updates stop |
| LoopWatcher.DelayIsLeast | operators/endpointmetrics/pkg/openshift/cmowatcher.go:93-133 | and no shorter delay would do: the leaks that bring the ratio down are exactly those that reach the delay |
| LoopWatcher.CheckRecoversExactly | operators/endpointmetrics/pkg/openshift/cmowatcher.go:65-136 | a check ends the degraded status iff it is not dropped, finds room, knows the reason, finds the ratio at or below the reset ratio, and its report is stored |
| LoopWatcher.NoRequeueExactly | operators/endpointmetrics/pkg/openshift/cmowatcher.go:65-136 | a check that leaves the status degraded returns neither a delay nor an error, so that it is not repeated, iff it is dropped or its report that the loop stopped was not stored |
| LoopWatcher.RequeueRecoversExactly | operators/endpointmetrics/pkg/openshift/cmowatcher.go:65-136 | over the run up to the requeued request: it ends the degraded status iff it is about the monitoring ConfigMap, knows the reason and stores its report |
| StatusAggregation.SortSlice | operators/endpointmetrics/controllers/status/status_controller.go:320-325 | an insertion sort with whatever comparator it is given, lawful or not |
| StatusAggregation.ChampionComesLast | operators/endpointmetrics/controllers/status/status_controller.go:320-327 | the last element of the sorted list is the one never overtaken by one behind it, whatever the comparator |
| StatusAggregation.Aggregate | operators/endpointmetrics/controllers/status/status_controller.go:337-390 | the aggregated condition |
| StatusAggregation.AggregateIsWorst | operators/endpointmetrics/controllers/status/status_controller.go:352-390 | it speaks for the component reason of highest priority, ties by type |
| StatusAggregation.ShouldUpdateConditions | operators/endpointmetrics/controllers/status/status_controller.go:302-332 | the comparison with the standard condition that sorts last |
| StatusAggregation.TrueConditionSortsLast | operators/endpointmetrics/controllers/status/status_controller.go:320-327 | the comparator mixing status and time puts the one true condition last iff no standard condition listed before it is later |
| StatusAggregation.OlderTrueCondition | operators/endpointmetrics/controllers/status/status_controller.go:320-327 | the two orders of an older true and a later false condition, one of which fails |
| StatusAggregation.WritesExactly | operators/endpointmetrics/controllers/status/status_controller.go:302-332 | a pass writes iff the one true condition says something else than the aggregate, or a standard condition listed before it is later; then the write is redundant |
| StatusAggregation.ResetMainConditions | operators/endpointmetrics/controllers/status/status_controller.go:392-399 | exactly the standard conditions become false |
| StatusAggregation.UpdateSpokeAddon | operators/endpointmetrics/controllers/status/status_controller.go:123-146 | the new conditions and whether they were written |
| StatusAggregation.UpdateLeavesOneTrue | operators/endpointmetrics/controllers/status/status_controller.go:123-146 | a write leaves exactly one standard condition true, types unique and component conditions as they were |
| StatusAggregation.SecondPassWritesNothing | operators/endpointmetrics/controllers/status/status_controller.go:123-146 | an immediate second pass writes nothing, whether or not the first one did |
| StatusAggregation.RunIsSound | operators/endpointmetrics/controllers/status/status_controller.go:123-146 | in every run of reports and passes there is no standard condition or exactly one true one |
| StatusAggregation.PassTellsTheWorst | operators/endpointmetrics/controllers/status/status_controller.go:123-146 | in every run, after every stored pass the one true condition tells what the worst component reported |
| StatusAggregation.PassTellsReports | operators/endpointmetrics/controllers/status/status_controller.go:40-146 | in every run, after a stored pass, in terms of the reports alone: Degraded iff some component reports a failure or nothing runs, Progressing iff none fails and one is on its way, Available iff otherwise one forwards; and the reason told is the gravest |
| StatusAggregation.FailureTellsComponent | operators/endpointmetrics/controllers/status/status_controller.go:361-390 | a failure is told with the name and message of its component, cut at 256 characters |
| Dashboards.CurrentIsExpected | loaders/dashboards/pkg/controller/dashboard_controller.go:572-602 | whatever an update creates is expected by the sweep |
| Dashboards.CurrentExactly | loaders/dashboards/pkg/controller/dashboard_controller.go:572-602 | which UIDs an update sends: of each entry that parses the one in its JSON, or else the generated one |
| Dashboards.ExpectedExactly | loaders/dashboards/pkg/controller/dashboard_controller.go:372-413 | which UIDs a sweep expects: the same, and the generated ones of entries that do not parse |
| Dashboards.GrafanaDashboardController.DeleteTrackedUIDs | loaders/dashboards/pkg/controller/dashboard_controller.go:251-290 | for every pattern of answers, what is left in Grafana and that exactly the UIDs whose delete failed stay tracked; the key goes iff none failed; there is no error iff every call succeeded and the folder needs no retry |
| Dashboards.GrafanaDashboardController.ReplaceDashboards | loaders/dashboards/pkg/controller/dashboard_controller.go:635-718 | for every pattern of answers, what is left in Grafana and that the key tracks what was sent plus the old UIDs that could not be deleted |
| Dashboards.GrafanaDashboardController.UpdateDashboard | loaders/dashboards/pkg/controller/dashboard_controller.go:608-740 | the same with folders and home dashboard, and exactly when it returns no error; without a folder nothing changes |
| Dashboards.DeleteSparesExactly | loaders/dashboards/pkg/controller/dashboard_controller.go:251-290 | a dashboard survives the delete of a key for every pattern of answers iff the key does not track it and it is not in the folder that goes, whoever else tracks it |
| Dashboards.UpdateSparesExactly | loaders/dashboards/pkg/controller/dashboard_controller.go:608-740 | a dashboard survives an update for every pattern of answers iff it is sent or the key did not track it, and neither its folder nor, if the dashboard is sent, the new one is a folder that goes |
| Dashboards.DoneUpdateDelivers | loaders/dashboards/pkg/controller/dashboard_controller.go:608-740 | when every call succeeds the key tracks exactly what it sent, and each dashboard is in the folder asked for unless that folder goes |
| Dashboards.HomeExactly | loaders/dashboards/pkg/controller/dashboard_controller.go:676-685 | only the dashboard asked for becomes the home dashboard, and when every call succeeds it does if it is sent |
| Dashboards.FormerFolderGoes | loaders/dashboards/pkg/controller/dashboard_controller.go:726-740 | over two updates: a ConfigMap that moves to another folder leaves nothing in the former one if that looks empty |
| Dashboards.DoneDeleteForgets | loaders/dashboards/pkg/controller/dashboard_controller.go:251-290 | when every call succeeds a delete ends the tracking of the key and leaves none of its dashboards |
| Dashboards.FolderWaits | loaders/dashboards/pkg/controller/dashboard_controller.go:270-287 | while the delete of one dashboard fails the folder is not touched |
| Dashboards.CheckOkExactly | loaders/dashboards/pkg/controller/dashboard_controller.go:251-290 | a folder cleanup is an error iff the lookup failed or the folder does not look empty yet |
| Dashboards.SharedDashboardIsLost | loaders/dashboards/pkg/controller/dashboard_controller.go:251-290 | the failing case: of two ConfigMaps with one UID the delete of one removes the dashboard the other still tracks |
| Dashboards.ForgetsOnlyWhatIsGone | loaders/dashboards/pkg/controller/dashboard_controller.go:251-290 | an update or a delete stops tracking only under its own key, and only what is gone from Grafana |
| Dashboards.RunIsAccounted | loaders/dashboards/pkg/controller/dashboard_controller.go:251-740 | in every run of updates, deletes and sweeps, for every pattern of answers: each dashboard in Grafana is tracked, or was left by the last sweep (not shown to it, or its delete failed), or was there before the first one |
| Dashboards.GrafanaDashboardController.Scan | loaders/dashboards/pkg/controller/dashboard_controller.go:372-413 | the expected UIDs and states of the desired ConfigMaps |
| Dashboards.GrafanaDashboardController.Refresh | loaders/dashboards/pkg/controller/dashboard_controller.go:415-434 | stale keys go, states that still cover the scan stay, others are replaced |
| Dashboards.GrafanaDashboardController.DeleteOrphans | loaders/dashboards/pkg/controller/dashboard_controller.go:436-446 | the loop over the listing: which deletes are called for, what they leave, and the folders still in use |
| Dashboards.OrphansGone | loaders/dashboards/pkg/controller/dashboard_controller.go:436-446 | no expected dashboard is deleted, and every other listed one is gone or its delete failed |
| Dashboards.GrafanaDashboardController.CleanupAllEmptyFolders | loaders/dashboards/pkg/controller/dashboard_controller.go:548-568 | the loop over the folders: exactly the unused ones are called for, one call each |
| Dashboards.FoldersKeep | loaders/dashboards/pkg/controller/dashboard_controller.go:548-568 | a dashboard in no folder, in a used or in an unlisted one is kept |
| Dashboards.GrafanaDashboardController.CleanupOrphanDashboards | loaders/dashboards/pkg/controller/dashboard_controller.go:354-451 | what is tracked and what is left in Grafana, for every pattern of answers |
| Dashboards.SweepAccounts | loaders/dashboards/pkg/controller/dashboard_controller.go:354-451 | every listed dashboard still there is tracked or its delete call failed |
| Dashboards.SurvivesSweepExactly | loaders/dashboards/pkg/controller/dashboard_controller.go:436-449 | an expected dashboard survives every pattern of answers iff it is in no folder, its folder is not listed, or the search shows an expected dashboard in that folder |
| Dashboards.UnlistedDashboardIsLost | loaders/dashboards/pkg/controller/dashboard_controller.go:548-568 | the failing case: an expected dashboard the search leaves out, alone in its folder, is lost |
| Dashboards.RefreshedTracks | loaders/dashboards/pkg/controller/dashboard_controller.go:424-434 | after the refresh every expected UID is tracked under its ConfigMap |
| Dashboards.RefreshKeepsFailed | loaders/dashboards/pkg/controller/dashboard_controller.go:424-434 | a state that covers what is expected, in the same folder, stays with the UIDs whose delete failed; nothing else comes to be tracked |
| Dashboards.ScanExactly | loaders/dashboards/pkg/controller/dashboard_controller.go:372-413 | the scan has the expected UIDs and the folder of each desired ConfigMap and nothing else |
| Finalizers.Remove | operators/pkg/util/util.go:24-32 | the list without every occurrence |
| Finalizers.AnalyticsReconciler.Reconcile | operators/multiclusterobservability/controllers/analytics/analytics_controller.go:64-144 | the deletion phases and finalizer of the analytics controller are one step of the protocol; a requeue delay ends exactly when the window does; it finishes only with the finalizer where it should be and fails only if a call does |
| Finalizers.InitFinalization | operators/multiclusterobservability/controllers/multiclusterobservability/multiclusterobservability_controller.go:454-510 | the finalization of the main controller is one step of the protocol; it goes on only with the finalizer where it should be, requeues only while ManifestWorks remain, and fails only if a call does |
| Finalizers.CleanupMcoaManifestWorks | operators/multiclusterobservability/controllers/multiclusterobservability/multiclusterobservability_controller.go:1246-1261 | it lets the caller go on only if the calls succeed and no ManifestWork is left |
| Finalizers.RunIsOrderly | operators/multiclusterobservability/controllers/analytics/analytics_controller.go:80-144 | in every run, over any delete and re-create cycles, restarts and failing calls, every event was earned by earlier ones of the same resource |
| Finalizers.RememberedPhaseIsOwn | operators/multiclusterobservability/controllers/analytics/analytics_controller.go:130-133 | in every run, while the analytics finalizer is there, a remembered phase 1 is one of this very deletion, never of an earlier resource |
| Finalizers.NoFinalizerAddedLate | operators/multiclusterobservability/controllers/multiclusterobservability/multiclusterobservability_controller.go:489-510 | no finalizer is added to a resource after its deletion started |
| Finalizers.StepWrites | operators/multiclusterobservability/controllers/analytics/analytics_controller.go:80-144 | which kind of event may write which entry: a cleanup is recorded only by a reconcile whose cleanup calls all succeed |
| Finalizers.AnalyticsFinalizerGoesExactly | operators/multiclusterobservability/controllers/analytics/analytics_controller.go:80-128 | under deletion the analytics finalizer goes iff the right-sizing cleanup succeeds, the window after phase 1, and the patch arrives |
| Finalizers.ResFinalizerGoesExactly | operators/multiclusterobservability/controllers/multiclusterobservability/multiclusterobservability_controller.go:454-488 | the other one goes iff every cleanup call succeeds with no ManifestWork left, and the patch arrives |
| Finalizers.FailedCleanupKeepsResource | operators/multiclusterobservability/controllers/analytics/analytics_controller.go:118-120 | a reconcile of either controller whose cleanup fails leaves the resource and its finalizers as they are |
| Finalizers.LiveResourceGetsFinalizers | operators/multiclusterobservability/controllers/multiclusterobservability/multiclusterobservability_controller.go:489-510 | a reconcile of a live resource whose patch arrives leaves the finalizer there, replaces the outdated one, and keeps all others |
| Finalizers.GoneOnlyAfterCleanup | operators/multiclusterobservability/controllers/analytics/analytics_controller.go:80-128 | the resource disappears only after an event all of whose cluster cleanup calls succeeded with no ManifestWork left, and after an event whose right-sizing cleanup succeeded at least ten seconds behind phase 1 of the same deletion, for whichever finalizer was added |
| Finalizers.DeletionCompletes | operators/multiclusterobservability/controllers/analytics/analytics_controller.go:80-128 | and with working calls a deletion does complete |
| RightSizingSync.OverwriteFound | operators/multiclusterobservability/controllers/analytics/analytics_controller.go:327-352 | the single pass overwrites every occurrence, notes which variables were seen and whether anything changed |
| RightSizingSync.AddOnDeploymentConfig.SyncRightSizingState | operators/multiclusterobservability/controllers/analytics/analytics_controller.go:291-385 | the stored config after a sync, for every outcome of the API calls |
| RightSizingSync.SyncedMeans | operators/multiclusterobservability/controllers/analytics/analytics_controller.go:327-369 | the three variables have the wanted values everywhere, and all other variables are as they were, in order |
| RightSizingSync.SyncedValues | operators/multiclusterobservability/controllers/analytics/analytics_controller.go:291-369 | which flag goes to which variable, for every platform and either mode |
| RightSizingSync.SyncedExactly | operators/multiclusterobservability/controllers/analytics/analytics_controller.go:371-384 | an update is needed exactly if the config is not up to date; a second sync never writes |
| RightSizingSync.LastSyncWins | operators/multiclusterobservability/controllers/analytics/analytics_controller.go:291-385 | of two syncs with different wishes only the last one shows |

## Left out

- MetricMerge.MergeSortedWithTimestamps: families are values in the array, so pointers shared between families and spare capacity shared between metric slices are not captured.
- FederateSamples.SortMetrics: `sort.Sort` is represented by insertion; any stable or unstable sort meets the stated contract.
- StatusAggregation.SortSlice: `sort.Slice` is an insertion sort up to 12 elements; there are at most three standard and two component conditions with unique types.
- RemoteWrite.RemoteWrite: retries, deadlines and encodings of one request are summed up in whether it is accepted.
- LoopWatcher.DelaySuffices: fill ratios are real numbers, not 64-bit floats, and the capacity is positive (with capacity 0 the code divides by zero in floating point).
- Dashboards.GrafanaDashboardController.CleanupOrphanDashboards: the search result and the list of folders (those with an ID) are parameters; a sweep that cannot get the search result does nothing.
- Allowlist.NoProxyStepShrinks: overlapping syncs of one process count as proxies of their own, whose memory may change at any time between steps.
- Finalizers.GoneOnlyAfterCleanup: each reconcile is one atomic step, and nobody but the two controllers adds or removes their finalizers.
- CmoConfig.RevertUndoesCreate: API errors and the package-level revert flags are not modelled.
- UserWorkloadConfig.UserWorkloadMonitoring.CreateOrUpdate: API errors are not modelled, and `config.yaml` is what it parses to plus whether its text is the marshalled form.
- PromQL text: parsing and printing are represented by trees (printing and re-parsing between the two passes changes nothing); the empty query text, which is returned as it is, has no tree.
- Regular expressions beyond plain names and alternations of them: the engine is a parameter.
- The hash of a series is taken to be injective, and `renderMatches` is a parameter.
- `rewriteQueryValues` and `Modify`: parameters of an HTTP request, each passed to the modelled rewrite.
- The Hypershift transformer (API calls, dereferences nil metrics), elision, renaming and anonymisation transformers.
- YAML and JSON marshalling, HTTP, TLS, authentication, informers, work queues, retries with backoff, logging and metrics.
- `updateHubAddon`, conflict retries of status writes, and other writers of standard conditions such as the registration agent.
- Dashboard contents, folder creation and title lookup (parameters), IDs of stored dashboards (taken not to be zero), and the reconcile lock.
- The termination flag shared between operator controllers, pause annotations, and everything a reconcile does after the finalizer phases.
- Interleavings of API calls within one sync of the addon deployment config.
