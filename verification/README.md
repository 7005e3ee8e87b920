# Verified model of the supply-chain route service

The repository recommends transport routes over a graph of locations. Around that graph it clusters
news, consumes AIS ship positions, deletes synthetic data and migrates identifiers. This project
models the algorithms of those parts in Dafny and proves what they promise. `dafny verify
dfyconfig.toml` checks everything.

| file | what it models |
|---|---|
| `RouteGraph.dfy` | segments, their weights, walks and the sorted outgoing lists |
| `KShortestPaths.dfy` | the best-first enumeration of simple paths, as a state machine and as the loop |
| `ShortestPath.dfy` | the single-pair search with lazy deletion and early exit |
| `SearchAgreement.dfy` | both searches give the same optimum |
| `RouteScoring.dfy`, `Recommendation.dfy` | scores, constraints, ranking; pooling, rerouting, fallback, selection |
| `DisjointSets.dfy`, `Clustering.dfy` | union-find with path halving; news clusters and their ids |
| `AisObservations.dfy`, `LatestStore.dfy` | merging observations; the upserted latest state; runs of one vessel |
| `DedupeCache.dfy`, `TrafficAggregation.dfy`, `AisConsumer.dfy` | the consumer's cache, windowed port traffic, message and flush handling |
| `CleanupPlanning.dfy` | which synthetic nodes are safe to delete |
| `IdAssignment.dfy`, `LocationIdentity.dfy`, `LocationMigration.dfy` | location ids, alias ownership and the migration transaction |
| `UnifiedSchema.dfy` | the unified location plan and its idempotence |
| `RouteSampling.dfy` | sampling a polyline by arc length |
| `Basics.dfy`, `Text.dfy` | lists, the standard stable sort, the heap queue, trimming |

Costs, scores, times in days and coordinates are exact reals; clocks and timestamps are integers.
Digests (SHA-256, truncated) are opaque functions, and each lemma that needs it says that they do
not collide on the values at hand. `heapq` is a list from which a first smallest element is removed,
and Python's sort is a stable insertion sort; nothing else about either is used. Where the code
updates something in a loop or in place, mostly a method does the same and is proved against a
function, and the lemmas are about that function; head pruning of queues, the owners of aliases and
the aggregates of a cluster are functions at once.

Where a promise does not hold of the code for all inputs, the exact condition is proved instead:

* Planned location ids are distinct exactly when no location that has to be suffixed gets the id an
  earlier one desired (`LocationIdentity.NewIdsDistinctIff`); who has to be suffixed is read off the
  desired and the suffixed ids (`IdAssignment.CollidesIffCrowded`), and `SuffixedIdCanClash` shows
  three locations that clash.
* Cluster ids are distinct for windows of 24 hours or more, and for no shorter window
  (`Clustering.ClusterIdsAreDistinct`, `Clustering.ShortWindowSharesIds`).
* Planning the unified schema again yields no rows exactly when both the location ids and the
  warehouse ids came out distinct (`UnifiedSchema.PlanIsIdempotentIff`), and so exactly when no node
  that has to be suffixed gets an id that an earlier one prefers (`PlanIsIdempotentIffNoClash`).
  `ThreePortsReplan` and `ThreeDepotsReplan` are nodes that are planned twice, the depots although
  their location ids are distinct.
* A node keeps the trimmed location id that no other node carries exactly when no earlier node, having
  to be suffixed, gets that very id (`UnifiedSchema.UniqueLocationIdIsKeptIff`); nodes without an id
  are planned later and do not matter. `UniqueLocationIdCanBeLost` shows three ports.
* Accepted times of a vessel never decrease exactly when it never reports a time before its greatest
  one while a cutoff more than a window after that one is the last word on it
  (`TrafficAggregation.TimesNeverDecreaseIff`); `PruningForgetsTime` gives runs where they decrease.
* Pruning a queue from its head is the exact filter exactly when nothing late stands behind
  something kept (`TrafficAggregation.DropOldIsFilterIff`).
* Interpolation ends exactly on its right point unless that longitude is written as 180
  (`RouteSampling.OnlyTheDateLineIsRewritten`).

## Model

| member | source | states |
|---|---|---|
| RouteGraph.RiskOptimizationValue | app/route_optimizer.py:25-31 | The risk a search minimises lies in [0, 1], is 1 when unknown, and never understates the capped risk score. |
| RouteGraph.MissingDataCosts | app/route_optimizer.py:25-31 | Missing data adds up to a quarter to a known risk, in proportion to what is missing, unless that exceeds one. |
| RouteGraph.WeightsAreNonNegative | app/route_optimizer.py:34-45 | Under the API's bounds every segment weight is nonnegative, and strictly positive for cost and duration. |
| RouteGraph.RiskValueIsMonotone | app/route_optimizer.py:25-31 | More risk or less complete data never makes a segment look safer. |
| RouteGraph.BalancedWeightMixes | app/route_optimizer.py:45 | The balanced weight lies between cost score and risk value and is the risk value at share 1. |
| RouteGraph.CheaperIsNoWorse | app/route_optimizer.py:25-45 | A path of no greater weight has no greater sum of the field the objective names: dollars or days, where an unknown one counts as a billion and is never preferred to a known sum below it; risk scores; or their blend with cost scores. |
| RouteGraph.PrefixCostsLess | app/route_optimizer.py:156 | With nonnegative weights no prefix of a path costs more than the path. |
| RouteGraph.LookupContents | app/route_optimizer.py:126-130 | A node's outgoing list holds exactly the segments of the network that leave it. |
| RouteGraph.AdjacencyForgetsOrder | app/route_optimizer.py:126-130 | With distinct segment ids the sorted lists do not depend on the order of the input. |
| RouteGraph.BuildAdjacency | app/route_optimizer.py:126-130 | The append-then-sort loops build exactly the dictionary of outgoing segments. |
| HeapQueue.PopIsLeast | app/route_optimizer.py:142 | The popped entry is no greater than any entry of the queue. |
| KShortestPaths.StepProgress | app/route_optimizer.py:141-161 | Every turn spends expansion budget or shortens the queue, so the search ends. |
| KShortestPaths.StepExpands | app/route_optimizer.py:149-161 | An expanding turn replaces the popped entry by one child for each segment to an unvisited node and by nothing else. |
| KShortestPaths.StepKeepsSound | app/route_optimizer.py:141-161 | Each turn keeps: queue entries are simple walks with their true cost, reported paths are admissible, signatures are theirs. |
| KShortestPaths.StepKeepsInOrder | app/route_optimizer.py:141-161 | Each turn keeps: reported costs never decrease and nothing queued is cheaper. |
| KShortestPaths.StepKeepsComplete | app/route_optimizer.py:141-161 | Each turn keeps: every admissible path is reported by signature at no greater cost, or still covered by the queue. |
| KShortestPaths.RunKeepsInvariant | app/route_optimizer.py:141-162 | All three hold after a whole run, which ends only by empty queue, limit or cap. |
| KShortestPaths.ReturnedPathsAreAdmissible | app/route_optimizer.py:132-162 | Returned paths are simple, at most max_hops long, from an origin to a destination with none in between, each signature once, at most limit. |
| KShortestPaths.ReturnedPathsAreBest | app/route_optimizer.py:132-162 | Costs are nondecreasing, and an admissible path is matched by signature at no greater cost or costs at least as much as all returned, cap or not. |
| KShortestPaths.FirstPathIsCheapest | app/route_optimizer.py:132-162 | No admissible path is cheaper than the first one returned. |
| KShortestPaths.ReturnedPathsAreBestInFields | app/route_optimizer.py:117-162 | Returned paths never decrease in that field, and no admissible path is better in it than the first returned or, unless its signature is returned, than any. |
| KShortestPaths.UncutSearchIsExhaustive | app/route_optimizer.py:141-162 | If the queue ran empty, or neither limit nor cap was reached, every admissible path is returned by signature. |
| KShortestPaths.EnumerationForgetsOrder | app/route_optimizer.py:117-162 | With distinct segment ids the result does not depend on the order of the segments. |
| KShortestPaths.PushChildren | app/route_optimizer.py:151-161 | The inner loop pushes the children of one entry and counts them, as the expansion step does. |
| KShortestPaths.Enumerate | app/route_optimizer.py:117-162 | The whole loop returns the paths of the enumeration and its expansion count. |
| ShortestPath.WalkMeetsFrontier | app/route_optimizer.py:65-77 | A walk from the origin stays among settled nodes or meets a frontier node that is no farther than the walk. |
| ShortestPath.HeadIsFinal | app/route_optimizer.py:66-70 | When the destination heads the queue with a current label, its distance is minimal over all walks: the early exit is safe. |
| ShortestPath.EmptyQueueIsExhaustive | app/route_optimizer.py:65-80 | When the queue runs empty, every reachable node has a distance. |
| ShortestPath.DropStale | app/route_optimizer.py:66-68 | Skipping an outdated label keeps the invariant: lazy deletion loses nothing. |
| ShortestPath.RelaxKeepsExpanding | app/route_optimizer.py:71-77 | Relaxing one segment keeps the invariant and never touches a settled node, even with zero weights. |
| ShortestPath.TraceBack | app/route_optimizer.py:82-88 | Following previous pointers ends and yields the path of the destination. |
| ShortestPath.RelaxAll | app/route_optimizer.py:71-77 | Relaxing all outgoing segments restores the loop invariant. |
| ShortestPath.Search | app/route_optimizer.py:48-88 | None exactly when the destination is unreachable, else a contiguous path whose weight is its distance and minimal over all walks. |
| ShortestPath.AnswerIsBestInFields | app/route_optimizer.py:48-88 | No walk between the two nodes is better in that field than the path found. |
| SearchAgreement.CutCycle | app/route_optimizer.py:153-155 | Cutting a detour between two visits of a node leaves a route that costs no more. |
| SearchAgreement.SimpleRouteIsAdmissible | app/route_optimizer.py:117-162 | A simple route is admissible once max_hops reaches the node count minus one. |
| SearchAgreement.SearchesAgree | app/route_optimizer.py:48-162 | For nonnegative weights, two different nodes and max_hops at least the node count minus one, the first enumerated path costs what the other search reports, and one is empty iff the other is None unless the cap was reached. |
| RouteScoring.UtilityScore | app/recommendation/engine.py:943-952 | A utility lies in [0, 100], is 100 exactly at or below the best anchor, 0 exactly at or above the worst, and falls linearly between them. |
| RouteScoring.UtilityIsAntitone | app/recommendation/engine.py:943-952 | A smaller value never has the lower utility. |
| RouteScoring.PenaltyScore | app/recommendation/engine.py:954-956 | The cost score lies in [0, 1], is 1 for an unknown cost, and of a known one it is what the utility lacks of 100, in hundredths. |
| RouteScoring.ScoreGrows | app/recommendation/engine.py:796-807 | Sub-scores and confidences that are no lower give a final score and a completeness that are no lower. |
| RouteScoring.CertainRouteScoresItsMean | app/recommendation/engine.py:796-807 | With full confidence there is no penalty and the score is the sum of the utilities, each times the weight of its own measure. |
| RouteScoring.RiskAloneDecides | app/recommendation/engine.py:776-807 | A request that weighs risk alone scores the risk against its own anchors, less a hundred times the penalty weight for missing confidence, and nothing if the risk is unknown. |
| RouteScoring.CostAloneDecides | app/recommendation/engine.py:776-807 | Weighing cost alone does the same with the cost per vehicle. |
| RouteScoring.DurationAloneDecides | app/recommendation/engine.py:776-807 | Weighing duration alone does the same with the median duration. |
| RouteScoring.DominatingRouteScoresNoLower | app/recommendation/engine.py:776-820 | A route at least as good in risk, cost, duration and confidence never gets the lower final score. |
| RouteScoring.RankingIsAnOrder | app/recommendation/engine.py:855-879 | Both ranking keys are total preorders, and two routes tie only with equal ids. |
| RouteScoring.RankingIsRight | app/recommendation/engine.py:855-879 | Read off the fields: ordinarily final scores never increase, then known lower risks come first; in a reroute known lower risks come first, then higher scores; ties go by cost, duration and id. |
| RouteScoring.DominatingRouteRanksNoLater | app/recommendation/engine.py:776-879 | Under either key such a route is not ranked behind, unless the two differ in nothing ranked but their ids. |
| RouteScoring.Failures | app/recommendation/engine.py:822-853 | No reason is given exactly when every bound set in the request is met by a known value. |
| RouteScoring.FailuresTell | app/recommendation/engine.py:822-853 | Each reason is given exactly when its own bound is set and its own value is unknown or beyond it. |
| RouteScoring.ModesTell | app/recommendation/engine.py:822-829 | The modes named are exactly those of the route that are not allowed. |
| Recommendations.CandidatesAreAdmissible | app/recommendation/engine.py:312-350 | Pooled paths are admissible, of pairwise different signatures, at most a pool full. |
| Recommendations.QueryTells | app/recommendation/engine.py:322-340 | Each search looks for the larger of three times the routes asked for and the configured number, with the request's own ends, hops and share of risk. |
| Recommendations.ObjectivesTakeTurns | app/recommendation/engine.py:325-330 | After the primary objective the others follow in one fixed order. |
| Recommendations.FirstCandidateIsBest | app/recommendation/engine.py:325-347 | If the search for the request's own objective found anything, the first candidate is a cheapest path for it. |
| Recommendations.FirstCandidateIsBestInFields | app/recommendation/engine.py:325-347 | No admissible path is better in the field the strategy stands for; a custom strategy blends risk and cost by their weights. |
| Recommendations.UncutPoolIsExhaustive | app/recommendation/engine.py:331-350 | A pool that is not full, with one search not cut short, holds every admissible path by signature. |
| Recommendations.PoolIsFull | app/recommendation/engine.py:348-349 | Returning early with a full pool loses nothing the later searches could add. |
| Recommendations.NoSegmentsNoCandidates | app/recommendation/engine.py:320-321 | The early return on an empty network agrees with searching it. |
| Recommendations.AddPaths | app/recommendation/engine.py:334-349 | The inner loop adds paths of new signatures and stops exactly when the pool is full. |
| Recommendations.CandidatePaths | app/recommendation/engine.py:312-350 | The nested loops return the first pool-size paths of distinct signatures over all objectives in order. |
| Recommendations.ChooseCandidates | app/recommendation/engine.py:214-244 | The statements before scoring compute baseline, reroute request, fallback and candidates. |
| Recommendations.AllowedContents | app/recommendation/engine.py:214-220 | Exactly the segments that touch no avoided zone are searched. |
| Recommendations.SafeContents | app/recommendation/engine.py:222-237 | A reroute searches exactly those of them whose id no segment with a risk at the threshold shares. |
| Recommendations.CandidatesAvoidZones | app/recommendation/engine.py:214-220 | No candidate, rerouted or not, uses a segment that touches an avoided zone. |
| Recommendations.RerouteAvoidsRisk | app/recommendation/engine.py:222-244 | Candidates of a reroute without fallback have no segment at or above the threshold and never the baseline's signature. |
| Recommendations.CandidatesEmptyIffBaselineEmpty | app/recommendation/engine.py:238-245 | There are no candidates iff there is no baseline path. |
| Recommendations.FallbackIsLastResort | app/recommendation/engine.py:235-244 | The fallback is used only if every admissible path has a high-risk segment id, provided one safe search was not cut short. |
| Recommendations.SplitIsExact | app/recommendation/engine.py:262-269 | Every scored route is on exactly one of the two lists, counted with multiplicity. |
| Recommendations.SplitRoutes | app/recommendation/engine.py:262-269 | The loop yields the eligible routes in order and a rejection with its reasons for each other one. |
| Recommendations.Recommend | app/recommendation/engine.py:204-310 | The method returns the specified recommendation for the input segments, and fails iff a candidate cannot be scored because its anchors are inverted. |
| Recommendations.ReroutedIff | app/recommendation/engine.py:281-287 | The five-part test for "rerouted" amounts to this: a reroute without fallback selected a route. |
| Recommendations.RecommendedRoutesAreSound | app/recommendation/engine.py:204-310 | Returned routes satisfy all constraints, lead from an origin to a destination within max_hops, avoid all avoided zones, carry the ids of their own path, and number min(limit, eligible). |
| Recommendations.RecommendedRoutesAreTheBest | app/recommendation/engine.py:271-273 | Returned routes are sorted by the key in force, and every satisfying candidate is returned or ranks behind all returned. |
| Recommendations.RecommendedRoutesAreRight | app/recommendation/engine.py:271-287 | In the fields: a recommendation that rerouted is ordered by known risk first and leaves out no satisfying candidate of lower risk; any other is ordered by final score and leaves out none of higher score; ties go by the rest of the key. |
| Recommendations.RankingIsStrict | app/recommendation/engine.py:70-72 | With route ids that do not collide on the candidates, neither key leaves a tie between two of them. |
| Recommendations.CountsAddUp | app/recommendation/engine.py:295-299 | Eligible and rejected counts add up to the candidates, rejections shown are cut at fifty, and a path is found iff there are candidates. |
| Recommendations.RerouteIsSound | app/recommendation/engine.py:222-287 | A reroute is requested iff asked for and the preferred path has a segment whose known risk reaches the threshold; without fallback no returned route has one, and "rerouted" is true iff some route is returned. |
| Recommendations.RecommendationForgetsOrder | app/recommendation/engine.py:204-310 | With distinct segment ids the recommendation does not depend on the order of the input segments. |
| DisjointSets.HalvingKeepsRoots | gdelt/risk.py:299-303 | Pointing an element at its grandparent changes no root. |
| DisjointSets.LinkingMergesClasses | gdelt/risk.py:305-309 | Linking the larger root below the smaller moves exactly the class of the larger. |
| DisjointSets.RootIsLeastOfClass | gdelt/risk.py:305-309 | A root is the least index of its class. |
| DisjointSets.DisjointSet.constructor | gdelt/risk.py:296-297 | Initially every element is alone in its class. |
| DisjointSets.DisjointSet.Find | gdelt/risk.py:299-303 | Find ends, returns the root and leaves every label as it was. |
| DisjointSets.DisjointSet.Union | gdelt/risk.py:305-309 | Union merges the two classes under the smaller root and changes nothing else. |
| Clustering.WindowEdge | gdelt/risk.py:330-333 | In time order, everything before the first article out of the window is out of it too: the break loses nothing. |
| Clustering.SameStoryIff | gdelt/risk.py:334-338 | Within the window two articles are joined iff they share the category and either the title or enough of their tokens. |
| Clustering.RelatedIff | gdelt/risk.py:325-338 | Articles are related by address, or by story within so many hours. |
| Clustering.LookBack | gdelt/risk.py:330-339 | The look-back joins the article to every related earlier one and unites only connected articles. |
| Clustering.Scan | gdelt/risk.py:322-339 | After the scan two articles share a root iff they are connected by the all-pairs relation. |
| Clustering.RootsAreComponents | gdelt/risk.py:322-339 | Once related pairs share roots and roots stay connected, classes are the connected components. |
| Clustering.Group | gdelt/risk.py:340-342 | Grouping by root collects exactly the members of every class, in order, and leaves the partition alone. |
| Clustering.ClusterArticles | gdelt/risk.py:312-369 | Clusters are exactly the connected components; each tells the least hash, the representative, the first and last times, the greatest severity and the domains of its members; latest first, then most severe; each article carries the id of its cluster. |
| Clustering.ClusterSummarizes | gdelt/risk.py:344-362 | First and last times bound the members' and are attained, so is the severity; a domain is listed iff a member has it; the id is the prefix and a member's hash that none precedes; the representative is the most severe of shortest headline, and the first of these. |
| Clustering.Representative | gdelt/risk.py:345 | The representative is a member, no member is more severe, none as severe has a shorter headline, and it comes before all of which the same holds. |
| Clustering.ContentIdentityIsInjective | gdelt/risk.py:270 | The joined text determines title, date and category. |
| Clustering.EqualHashesAreRelated | gdelt/risk.py:270-271 | With a window of 24 hours or more, equal content hashes make two articles related. |
| Clustering.ClusterIdsAreDistinct | gdelt/risk.py:330-347 | Then different clusters have different ids, and two articles carry one id iff they are connected. |
| Clustering.ShortWindowSharesIds | gdelt/risk.py:330-347 | For every shorter window two articles that meet every other demand of `ClusterIdsAreDistinct` end in two clusters of one id, whatever the digest. |
| AisObservations.MergeIsAssociative | ais/models.py:80-121 | Merging is associative on position, statics, targets, types and times. |
| AisObservations.MergeAbsorbsReplay | ais/models.py:80-121 | Merging a batch whose beginning was merged before adds only its new part. |
| AisObservations.FoldAppend | ais/models.py:80-121 | A fold can be cut anywhere. |
| AisObservations.FoldKeepsLatestPosition | ais/models.py:86-88 | A fold ends with the position of the greatest position time, the last of them, or with the first position when none has a time. |
| AisObservations.FoldKeepsLastStatics | ais/models.py:91-110 | Each of the six static fields of a fold is that of the last observation that carries one, and none iff none does. |
| AisObservations.FoldKeepsRest | ais/models.py:89-121 | A fold names the last message of the latest time, the greatest receipt and static times, and all targets and message types. |
| AisObservations.FoldPositionForgetsOrder | ais/models.py:86-88 | With distinct position times the position is the same under every permutation. |
| LatestStore.ProjectionOfMerge | ais/repository.py:109-135 | Writing a merge is writing its parts one after the other. |
| LatestStore.OverlapIsAbsorbed | ais/repository.py:109-135 | Writing a merged batch whose beginning is stored already gives the fold of everything. |
| LatestStore.UpsertAllByVessel | ais/repository.py:104-163 | With one row per vessel, each vessel changes by its own row and no other. |
| LatestStore.Store.Upsert | ais/repository.py:100-163 | Both nodes of every row coalesce their statics, and their position groups move together iff the row is no older than the vessel. |
| LatestStore.RunIsFold | ais/service.py:145-173 | After any interleaving of messages and flushes, failing or not, the store is one fold of what reached it and the buffer the merge of the rest. |
| LatestStore.RunHoldsLast | ais/repository.py:109-135 | After any such run each stored static field is the last value carried by what reached the store, and the position the latest of it, or else what was stored at first. |
| LatestStore.NothingAcceptedIsLost | ais/service.py:145-173 | Store and buffer together always stand for the fold of everything accepted. |
| LatestStore.FlushScheduleDoesNotMatter | ais/service.py:153-173 | Runs that accept the same observations and end with a completed flush leave the same store. |
| Deduplication.DedupeCache.Seen | ais/service.py:41-53 | One call moves, appends, expires and trims exactly as specified; with a nondecreasing clock over the history of the object it hits iff its key was called recently. |
| Deduplication.DedupeCache.Record | ais/service.py:46-53 | A present key moves to the end; a new one is appended and the oldest are trimmed. |
| Deduplication.AfterIsValid | ais/service.py:41-53 | Every call keeps at most max_entries entries, one per key. |
| Deduplication.CacheIsRecentEnd | ais/service.py:41-53 | The cache is always the recent end of the list of last calls, cut by age or by capacity. |
| Deduplication.CacheIsOrderedAndBounded | ais/service.py:41-53 | Entries stay sorted by last call, one per key, at most max_entries. |
| Deduplication.RecencyPosition | ais/service.py:46-50 | Behind a last call stand exactly the keys called since. |
| Deduplication.SeenIffRecent | ais/service.py:41-53 | With a nondecreasing clock a call hits iff its key was called at or after now minus ttl with fewer than max_entries other keys since. |
| TrafficAggregation.DropOldKeepsRecent | ais/aggregation.py:144-149 | Pruning drops only a head of the queue and never an event at or after the cutoff. |
| TrafficAggregation.DropOldIsFilterIff | ais/aggregation.py:144-149 | Pruning equals the exact filter iff no late event stands behind a kept one. |
| TrafficAggregation.TimeOrderPrunesExactly | ais/aggregation.py:144-149 | A queue filled in time order is pruned exactly. |
| TrafficAggregation.IngestKeepsTally | ais/aggregation.py:107-133 | Ingesting keeps the tally invariant of a target. |
| TrafficAggregation.PruneKeepsTally | ais/aggregation.py:143-157 | Pruning keeps it. |
| TrafficAggregation.RunKeepsTally | ais/aggregation.py:107-157 | After every run: listed inside iff the state says so; inside is first-seen-inside plus arrivals minus departures minus pruned; times never decrease and crossings alternate since first seen. |
| TrafficAggregation.RunHoldsRecent | ais/aggregation.py:107-149 | After every run the three queues are ends of everything ever queued and miss nothing from the latest cutoff on. |
| TrafficAggregation.OrderedIngestionOrdersLog | ais/aggregation.py:107-133 | Ingesting in time order fills all three queues in time order, whatever is pruned in between. |
| TrafficAggregation.TimeOrderedRunIsExact | ais/aggregation.py:107-149 | When observations were ingested in time order, a prune at the latest cutoff leaves exactly the entries not older. |
| TrafficAggregation.PruningForgetsTime | ais/aggregation.py:114-157 | After any run, a report, a prune more than a window later and an earlier report make the accepted times decrease. |
| TrafficAggregation.TimesNeverDecreaseIff | ais/aggregation.py:107-157 | Over a whole run the accepted times of a vessel never decrease iff no move reports a time before its greatest one while it is forgotten: said of reports and cutoffs alone. |
| TrafficAggregation.WindowStart | ais/aggregation.py:135-141 | The window that starts there holds now, and its start is a multiple of its length. |
| TrafficAggregation.MovesTell | ais/aggregation.py:107-119 | A target sees an observation iff it has a timed position in the subscription box, and takes it for inside iff it is in the aggregation box. |
| TrafficAggregation.MatchedTell | ais/aggregation.py:113-133 | Exactly the ids of targets that see it are returned. |
| TrafficAggregation.PortTrafficAggregator.Ingest | ais/aggregation.py:107-133 | Every target whose subscription box holds the position ingests it, the others keep their track, exactly the ids of the former are returned, and every track stays the run of its target. |
| TrafficAggregation.PortTrafficAggregator.BuildSnapshots | ais/aggregation.py:159-184 | Every target is pruned to the window. A target has a snapshot iff an accepted position is left; it counts the vessels inside since the start, and at least the arrivals, departures and positions of the run since then, exactly those when ingestion was in time order; no snapshot is of anything else. |
| TrafficAggregation.TargetIsConserved | ais/aggregation.py:107-184 | Whatever an aggregator has been through, each of its targets conserves its inside count and its queues miss nothing from the latest cutoff on. |
| AisConsumers.AisConsumer.ProcessMessage | ais/service.py:129-151 | A message is buffered, with the targets it matched, iff it parses to an observation the cache has not seen; only then the targets ingest it. Each received message is counted under exactly one outcome. |
| AisConsumers.AisConsumer.Flush | ais/service.py:153-173 | A flush extends every vessel's run by its outcome; only a completed one empties the buffer. |
| AisConsumers.UpsertIsAStep | ais/service.py:167-169 | Writing the rows of a buffer is one store step for every vessel. |
| AisConsumers.StoreIsFold | ais/service.py:129-173 | For every vessel the store is the fold of its observations up to the last upsert that took effect. |
| AisConsumers.StoreHoldsLast | ais/service.py:129-173 | So the consumer's store holds, for every vessel and field, the last value that reached it. |
| CleanupPlanning.SafeLeavesNoDanglingLink | scripts/cleanup_synthetic_data.py:235-259 | With boundary links disallowed, each link that touches a deleted node has both ends deleted. |
| CleanupPlanning.SafeTouchesNothingKept | scripts/cleanup_synthetic_data.py:235-268 | In either mode no deleted node touches a protected node or a candidate that stays. |
| CleanupPlanning.SafeUnion | scripts/cleanup_synthetic_data.py:225-270 | Safe sets are closed under union, so there is a greatest one. |
| CleanupPlanning.LinkReasonsTell | scripts/cleanup_synthetic_data.py:242-259 | A protected neighbor gives a reason that names its protection; any other outside the candidates gives a boundary reason unless these are allowed. |
| CleanupPlanning.SelectedIsLast | scripts/cleanup_synthetic_data.py:225 | Of selected nodes with one id the last counts. |
| CleanupPlanning.Propagate | scripts/cleanup_synthetic_data.py:261-268 | The queue drains with "blocked" closed under links between candidates; candidates blocked by links keep their reasons, the others name one blocked neighbor. |
| CleanupPlanning.UnblockedIsSafe | scripts/cleanup_synthetic_data.py:225-270 | The candidates left unblocked are safe to delete. |
| CleanupPlanning.UnblockedIsGreatest | scripts/cleanup_synthetic_data.py:225-270 | Every safe set is contained in them. |
| CleanupPlanning.BuildCleanupPlan | scripts/cleanup_synthetic_data.py:220-279 | The plan deletes exactly the greatest safe set, sorted, and gives every selected node its disposition; a blocked one carries exactly the reasons its links give or, if none does, one neighbor that stays. |
| IdAssignment.DistinctIff | database/location_identity.py:231-244 | With distinct digests, assigned ids are distinct iff no claim that has to be suffixed is handed an id an earlier claim preferred, all said of preferred and suffixed ids. |
| IdAssignment.CollidesIffCrowded | database/location_identity.py:231-244 | A claim has to be suffixed iff an earlier one prefers the same id, or one that has to be suffixed itself gets that id by its suffix. |
| IdAssignment.FreshSuffixesSuffice | scripts/migrate_unified_schema.py:489-503 | Under fresh suffixes all ids are distinct and the first to ask for an id has it. |
| IdAssignment.DistinctWishesAreGranted | scripts/migrate_unified_schema.py:489-503 | Pairwise distinct wishes are all granted. |
| IdAssignment.UsedCountIff | scripts/migrate_unified_schema.py:489-503 | The table of used ids has as many entries as there were claims iff the assigned ids are distinct. |
| IdAssignment.Choose | database/location_identity.py:231-244 | One turn assigns the preferred id if it is free, else the suffixed one, and keeps the table exact. |
| LocationIdentity.AssignRows | database/location_identity.py:218-260 | The loop fails iff some location has no id, and else gives each location its row in order. |
| LocationIdentity.SetReferenceAliases | database/location_identity.py:261-276 | Each row receives the aliases its new id owns, its old id and its new id. |
| LocationIdentity.BuildLocationIdPlan | database/location_identity.py:218-286 | The plan covers the nodes sorted by element id and fails iff some id is blank. |
| LocationIdentity.NewIdsDistinctIff | database/location_identity.py:231-244 | New ids are pairwise distinct iff no location that has to be suffixed is handed an id an earlier one desired. |
| LocationIdentity.NewIdTells | database/location_identity.py:231-244 | A location gets the id it desires, or that id with its own digest iff it is crowded out. |
| LocationIdentity.UnsuffixedDesiresSuffice | database/location_identity.py:231-244 | They are distinct if no desired id has the suffixed form of a location. |
| LocationIdentity.SuffixedIdCanClash | database/location_identity.py:233-244 | Three locations for which the plan assigns one id twice. |
| LocationMigration.PlanIsWellReferenced | database/location_identity.py:261-276 | The rows of a plan carry the aliases the rewriting relies on. |
| LocationMigration.RewritingIsSingleValued | scripts/migrate_location_ids_v2.py:116-126 | Each stored reference is rewritten to at most one new id, also when new ids coincide, and by at most one row when they do not. |
| LocationMigration.OldReferencesMove | scripts/migrate_location_ids_v2.py:116-126 | A reference to an old id ends at that row's new id, even when new ids permute old ones. |
| LocationMigration.SharedAliasIsLeftAlone | database/location_identity.py:267-272 | An alias that several rows claim and that is nobody's old id is not rewritten. |
| LocationMigration.OwnAliasMoves | database/location_identity.py:267-272 | An alias that exactly one row claims moves to that row. |
| LocationMigration.MatchingBeforeSettingMatters | scripts/migrate_location_ids_v2.py:119-124 | For two locations that exchange ids, matching row by row would undo the first rewrite. |
| LocationMigration.StagesDiffer | scripts/migrate_location_ids_v2.py:92-115 | At any moment of either statement no two locations share an id. |
| LocationMigration.EveryAssignmentKeepsUnique | scripts/migrate_location_ids_v2.py:92-115 | The id is unique after every single assignment of both statements, for any row order and any permutation of ids. |
| LocationMigration.EveryLocationArrives | scripts/migrate_location_ids_v2.py:101-115 | In the end every location holds its new id. |
| LocationMigration.DirectReplacementCollides | scripts/migrate_location_ids_v2.py:92-100 | Without the temporary phase a location that is given what another still holds, as when two exchange ids, breaks uniqueness half way. |
| LocationMigration.PlanIsReady | database/location_identity.py:249-260 | A plan with distinct new ids meets what the transaction needs, unless an id in use has the temporary form. |
| LocationMigration.LocationGraph.Execute | scripts/migrate_location_ids_v2.py:72-126 | The transaction gives every location its new id and rewrites both reference fields as one simultaneous match. |
| LocationMigration.LocationGraph.SetTemporaryIds | scripts/migrate_location_ids_v2.py:92-100 | The first statement parks every changed location, and ids are unique after each of its assignments. |
| LocationMigration.LocationGraph.SetFinalIds | scripts/migrate_location_ids_v2.py:101-115 | The second statement sets the new ids, and ids are unique after each of its assignments. |
| LocationMigration.RewriteReferences | scripts/migrate_location_ids_v2.py:116-126 | Finding all matches before setting any gives each reference its one rewritten value. |
| UnifiedSchema.FirstPropertyIsEarliest | scripts/migrate_unified_schema.py:459-464 | What is found belongs to the earliest field with an identifier, and nothing is found iff no field has one. |
| UnifiedSchema.KindInOrder | scripts/migrate_unified_schema.py:449-456 | Port, airport, rail terminal, road terminal, factory: the first of these labels decides the kind. |
| UnifiedSchema.WarehouseTells | scripts/migrate_unified_schema.py:449-456 | A warehouse carries one of the five warehouse labels and none of these. |
| UnifiedSchema.PortPrefers | scripts/migrate_unified_schema.py:43-51 | A port asks for its location id, UN/LOCODE, port id, code or id, whichever comes first, or else an id made of its digest. |
| UnifiedSchema.AirportPrefers | scripts/migrate_unified_schema.py:43-51 | An airport asks for its location id, its three codes, its airport id, code or id. |
| UnifiedSchema.RailTerminalPrefers | scripts/migrate_unified_schema.py:43-51 | A rail terminal asks for its location id, terminal code, code, id or name. |
| UnifiedSchema.RoadTerminalPrefers | scripts/migrate_unified_schema.py:43-51 | A road terminal asks for its location id, its own id, terminal code, code, id or name. |
| UnifiedSchema.FactoryPrefers | scripts/migrate_unified_schema.py:43-51 | A factory asks for its location id, its own id in three spellings, code, id or name. |
| UnifiedSchema.WarehousePrefers | scripts/migrate_unified_schema.py:43-51 | A warehouse asks for its location id, warehouse id, code, airport id or id. |
| UnifiedSchema.WarehouseIdPrefers | scripts/migrate_unified_schema.py:512-519 | For its warehouse id it asks for that field, code, airport id or id, or else for one made of its name. |
| UnifiedSchema.AppliedLocationWish | scripts/migrate_unified_schema.py:484-511 | After its row is applied a node asks for exactly the id it was given, under the same source. |
| UnifiedSchema.AppliedNeedsNoRow | scripts/migrate_unified_schema.py:504-526 | A node given again what it carries needs no row. |
| UnifiedSchema.SameIdsAgain | scripts/migrate_unified_schema.py:479-523 | When the ids came out distinct, planning again gives every node, warehouse or not, the ids it was given before. |
| UnifiedSchema.PlanIsIdempotent | scripts/migrate_unified_schema.py:467-544 | When the assigned ids are distinct, planning again after applying the rows yields no rows. |
| UnifiedSchema.SharedLocationIdReplans | scripts/migrate_unified_schema.py:491-503 | Two nodes left with one location id make the next plan nonempty. |
| UnifiedSchema.SharedWarehouseIdReplans | scripts/migrate_unified_schema.py:508-523 | So do two warehouses left with one warehouse id. |
| UnifiedSchema.PlanIsIdempotentIff | scripts/migrate_unified_schema.py:467-544 | Planning again is empty iff the location ids and the warehouse ids came out distinct. |
| UnifiedSchema.PlanIsIdempotentIffNoClash | scripts/migrate_unified_schema.py:467-544 | With distinct digests it is empty iff no node that has to be suffixed gets a location or warehouse id that an earlier one prefers. |
| UnifiedSchema.ThreePortsReplan | scripts/migrate_unified_schema.py:491-503 | Three ports, for any printable id, that are planned again after their rows were applied. |
| UnifiedSchema.ThreeDepotsReplan | scripts/migrate_unified_schema.py:508-523 | Three warehouses with distinct location ids that are planned again, for their warehouse ids. |
| UnifiedSchema.PlannedIdsAreDistinct | scripts/migrate_unified_schema.py:489-523 | Under fresh suffixes location ids and warehouse ids are pairwise distinct. |
| UnifiedSchema.UniqueLocationIdIsKeptIff | scripts/migrate_unified_schema.py:472-503 | A node whose trimmed location id nobody else carries keeps it iff no earlier node, crowded out of its own, is suffixed to it; all earlier nodes carry an id too. |
| UnifiedSchema.LaterNodesDoNotMatter | scripts/migrate_unified_schema.py:472-503 | So nodes without a location id, planned after all that carry one, change none of their ids, whatever they prefer. |
| UnifiedSchema.UniqueLocationIdCanBeLost | scripts/migrate_unified_schema.py:489-503 | Three ports in planning order, for any printable id, of which the third alone carries its id and is given another. |
| UnifiedSchema.PlanNode | scripts/migrate_unified_schema.py:479-536 | One turn computes the row of a node and updates both tables exactly. |
| UnifiedSchema.BuildLocationPlan | scripts/migrate_unified_schema.py:467-544 | The rows are those of the nodes in planning order; the plan fails iff some node has no location kind; each pair of projected counts agrees iff the planned ids are distinct. |
| RouteSampling.Wrap | weather/route_sampling.py:86-87 | A wrapped longitude lies in [-180, 180) and longitudes there are left as they are. |
| RouteSampling.InterpolationMeetsItsEnds | weather/route_sampling.py:82-88 | Interpolation starts on its left and ends on its right point iff their longitudes are below 180, and always up to full turns. |
| RouteSampling.OnlyTheDateLineIsRewritten | weather/route_sampling.py:82-88 | Among accepted coordinates only longitude 180 is rewritten, as -180. |
| RouteSampling.LatitudeIsProportional | weather/route_sampling.py:82-88 | Latitudes change in proportion along a leg. |
| RouteSampling.LongitudeIsProportional | weather/route_sampling.py:82-88 | So do longitudes where no date line is crossed. |
| RouteSampling.ReachedLocally | weather/route_sampling.py:100-104 | The leg that reaches the target has a length and the local fraction lies in (0, 1]: no division by zero. |
| RouteSampling.PlacesFollowArcLength | weather/route_sampling.py:98-106 | A greater arc length is never earlier on the line, and an arc length has one place. |
| RouteSampling.PointAlongLine | weather/route_sampling.py:91-107 | The walk returns the point at arc length fraction times total; ends are exact, and so is a line of no length. |
| RouteSampling.SampleIsPartWay | weather/route_sampling.py:91-107 | An inner sample lies on a leg of some length, at exactly that fraction of the length of the line. |
| RouteSampling.SampleIsUnique | weather/route_sampling.py:91-107 | Each fraction has one point. |
| RouteSampling.SamplesAdvance | weather/route_sampling.py:91-107 | A larger fraction is never earlier on the line. |
| RouteSampling.SampleLine | weather/route_sampling.py:122-124 | The samples of a line are spaced evenly from its first to its last point, both exact. |

## Left out

- Rounding: scores, costs and coordinates are rounded in the program; rounding is monotone and the model keeps exact reals.
- Floating point, trigonometry and geodesy: weights are exact reals and the distance of two points is any nonnegative function.
- heapq's array layout: only that a pop removes a smallest entry is used; ties in the model fall on the first.
- ShortestPath.Search: does not model the totals and risk summary that `shortest_path` adds to the path it found.
- Recommendations.Recommend: starts from prepared segments and resolved weights; mode and feasibility filters, cost and duration estimators and the formatting of a route are one opaque estimate of a path.
- Recommendations.Recommend: rank texts, tags, comparisons, the list of included segments and the names of avoided news zones are not modelled.
- Recommendations.FallbackIsLastResort: says nothing when every safe search was cut short by the limit or the expansion cap, because the program then may miss a safe path.
- RouteScoring.Failures: reasons are kinds of failure, without their texts.
- Clustering.ClusterArticles: token sets, normalized titles, domains and hashes of the articles are given; texts copied from the representative are not modelled.
- score_zone and the other news scores: weighted averages with bounds that are easy to see.
- LatestStore.Store.Upsert: last_static_observed_at, message types and other message-level fields go to the last writer and are not part of the fold.
- AisConsumers.AisConsumer.Flush: snapshot storage, health state and reconnecting are reduced to the outcome of the flush; a dry run only empties the buffer.
- AisConsumers.AisConsumer.ProcessMessage: parsing is opaque; its result is one of four outcomes.
- TrafficAggregation.PortTrafficAggregator.BuildSnapshots: pressure, coverage and confidence scores of a snapshot are not modelled.
- CleanupPlanning.BuildCleanupPlan: protection rules are opaque, and reasons keep their kind but not their text.
- LocationIdentity.BuildLocationIdPlan: `canonical_location_id`, `location_aliases` and country codes are given; counters of the report are not modelled. Element ids come from the database and are distinct.
- LocationMigration.LocationGraph.Execute: the port_id rewrite, which uses the aliases as listed, and the other properties of a location are not modelled; the uniqueness constraint is an invariant.
- LocationMigration.PlanIsReady: assumes that no id in use starts with the temporary prefix and that new ids are trimmed.
- UnifiedSchema.BuildLocationPlan: digests and slugs are opaque printable text; the list of conflicts in the report is not modelled.
- Text: trimming removes spaces, tabs, carriage returns and line feeds, not every Unicode space.
- RouteSampling.SampleLine: parsing of geometries, the endpoint fallback without geometry and confidence labels are not modelled.
- HTTP, Cypher beyond the two statements named above, schedulers, command lines and reports.
