# Review analysis dashboard: a verified model of its data engine

This project models the core of a review-analysis application in Dafny and proves properties
of it. Users upload a CSV of customer reviews. A Python worker cleans the texts, groups the
reviews of each source category into topics, names every topic with a generated title, and
classifies each review's sentiment. A React frontend then polls for the result and shows it:
- a filtered and sorted review table;
- per-cluster sentiment cards;
- a per-source sentiment histogram;
- a scatter plot coloured by cluster;
- a CSV export.

The model covers the parts of that system that compute something:

- **Query keys, polling and the query cache** (`query_core.dfy`, `analyses_queries.dfy`,
  `reviews_queries.dfy`, `clusters_queries.dfy`, `query_client.dfy`):
  - the hierarchical cache-key factories;
  - the two `refetchInterval` rules (poll every 5000 ms or 1000 ms while an analysis is pending);
  - the shared query cache, as a class with one method per fetch or mutation outcome.
- **The review list pipeline** (`text_match.dfy`, `review_list.dfy`):
  - case-insensitive substring filters on text and source id;
  - the sentiment-set filter;
  - the stable confidence sort. It is specified as sorted, a permutation and tie-order-preserving, and such a result is proved unique.
- **Aggregations:**
  - per-cluster sentiment statistics and the cluster grid view (`review_counting.dfy`, `cluster_list.dfy`);
  - the sorted distinct source list, the source options and the per-source histogram (`source_statistics.dfy`);
  - the scatter series grouped by cluster (`cluster_scatter.dfy`);
  - the deterministic cluster colour (`cluster_color.dfy`).
- **The virtualised table layout** (`review_table.dfy`): row offsets, total height, the overscan range and the rendered rows.
- **The CSV export** (`csv_export.dfy`): the `ID,label` serialiser and its round trip.
- **The worker's text cleanup and cluster numbering** (`clean_text.dfy`, `clustering_task.dfy`):
  - `clean_text` as a chain of four rewrites, proved to produce a whitelisted, space-normal, idempotent result;
  - `run_clustering_task`: truncation, the column check, skipping small categories, top-topic selection, `remap_dict`, the running `topic_offset`, the relabelling of every row, the `n_neighbors` clamp, and the review and cluster list assembly.

Imperative source code is modelled imperatively:
- the mutable query cache is a class with a `map` field;
- `clusterStats`, `chartData`, the scatter grouping and the worker's loops are methods with loops proved against specification functions.

Pure source code is modelled as functions and lemmas.

The foreign parts are parameters of `ClusteringTask.RunClusteringTask`, bundled in a `Models` value:
- BERTopic's fit;
- the generated summary;
- UMAP's layout;
- the sentiment classifier.

`WellBehaved` states the only facts the code relies on:
- one topic per text;
- distinct topics in the topic table;
- one point per text.

Two points where the model follows what the code does:
- **Row identity in the table is positional.** `table.tsx` supplies no `getItemKey`, so the virtualizer keys rows by their index, not by the review id. `ReviewTable.RowKeysArePositional` shows that two review lists of the same length get the same keys at the same offsets, whatever the reviews.
- **`Review.coords` is optional.** The `Review` type declares `coords` as always present, but `clusters.tsx` tests `if (review.coords)` before plotting a review. The model makes `coords` optional so that this branch exists.

Two limitations of the source are proved rather than hidden:
- `SourceStatistics.OptionKeysDistinct`: the source options have distinct keys exactly when no review's source is literally `"all"`.
- `CsvExport.CommaInSourceBreaksLine`: an exported line whose source id contains a comma no longer parses back.

## Model

| member | source | states |
|---|---|---|
| Domain.SentimentName | frontend/src/features/reviews/types.ts:3-7 | the wire name of a sentiment is one of "positive", "neutral", "negative" |
| Domain.SentimentNameInjective | frontend/src/features/reviews/types.ts:3-7 | two sentiments have the same wire name iff they are equal |
| AnalysesQueries.All | frontend/src/features/analyses/queries.ts:5 | the root key is the one-element key `["analyses"]` |
| AnalysesQueries.Lists | frontend/src/features/analyses/queries.ts:6 | the list key is `["analyses","list"]`, extending the root key |
| AnalysesQueries.Details | frontend/src/features/analyses/queries.ts:7 | the detail family key is `["analyses","detail"]`, extending the root key |
| AnalysesQueries.Detail | frontend/src/features/analyses/queries.ts:8 | `detail(id)` is the detail family key followed by the id |
| AnalysesQueries.DetailKeysDistinct | frontend/src/features/analyses/queries.ts:4-9 | detail keys are equal iff their ids are; no detail key equals or extends the list key |
| AnalysesQueries.AnyPending | frontend/src/features/analyses/queries.ts:19 | true iff some analysis in the list has status pending |
| AnalysesQueries.ListRefetchInterval | frontend/src/features/analyses/queries.ts:15-22 | off without data; otherwise every 5000 ms iff some analysis is pending, else off |
| AnalysesQueries.DetailRefetchInterval | frontend/src/features/analyses/queries.ts:30-35 | off without data; every 1000 ms iff the analysis is pending, so done and failed stop polling |
| AnalysesQueries.UseAnalyses | frontend/src/features/analyses/queries.ts:11-24 | the list query uses the list key and the list polling rule |
| AnalysesQueries.UseAnalysis | frontend/src/features/analyses/queries.ts:26-37 | the detail query uses `detail(id)` and the detail polling rule |
| ReviewsQueries.All | frontend/src/features/reviews/queries.ts:6 | the root key is `["reviews"]` |
| ReviewsQueries.Lists | frontend/src/features/reviews/queries.ts:7 | the list family key is `["reviews","list"]`, extending the root |
| ReviewsQueries.List | frontend/src/features/reviews/queries.ts:8 | `list(a)` is the list family key followed by the analysis id |
| ReviewsQueries.Details | frontend/src/features/reviews/queries.ts:9 | the detail family key is `["reviews","detail"]`, extending the root |
| ReviewsQueries.Detail | frontend/src/features/reviews/queries.ts:10 | `detail(id)` is the detail family key followed by the id |
| ReviewsQueries.KeysDistinct | frontend/src/features/reviews/queries.ts:5-11 | `list` and `detail` are each injective and never produce the same key |
| ReviewsQueries.UseReviews | frontend/src/features/reviews/queries.ts:13-18 | the list query uses `list(analysisId)` and never polls |
| ReviewsQueries.UseReview | frontend/src/features/reviews/queries.ts:20-25 | the detail query uses `detail(id)` and never polls |
| ClustersQueries.All | frontend/src/features/clusters/queries.ts:5 | the root key is `["clusters"]` |
| ClustersQueries.Lists | frontend/src/features/clusters/queries.ts:6 | the list family key is `["clusters","list"]`, extending the root |
| ClustersQueries.List | frontend/src/features/clusters/queries.ts:7 | `list(a)` is the list family key followed by the analysis id |
| ClustersQueries.Details | frontend/src/features/clusters/queries.ts:8 | the detail family key is `["clusters","detail"]`, extending the root |
| ClustersQueries.Detail | frontend/src/features/clusters/queries.ts:9 | `detail(id)` is the detail family key followed by the id |
| ClustersQueries.KeysDistinct | frontend/src/features/clusters/queries.ts:4-10 | `list` and `detail` are each injective and never coincide |
| ClustersQueries.UseClusters | frontend/src/features/clusters/queries.ts:12-17 | the list query uses `list(analysisId)` and never polls |
| ClustersQueries.UseCluster | frontend/src/features/clusters/queries.ts:19-24 | the detail query uses `detail(id)` and never polls |
| QueryClient.FactoriesProduceAppKeys | frontend/src/features/analyses/queries.ts:4-9 | every key the three factory modules build has one of the application key shapes |
| QueryCore.IsPrefix | frontend/src/features/analyses/queries.ts:45 | the partial key matching of `invalidateQueries` and `removeQueries`: a filter key matches every key that extends it; `PrefixMatchIsExact` shows that on application keys it is equality |
| QueryClient.PrefixMatchIsExact | frontend/src/features/reviews/queries.ts:5-11 | between application keys, matching by prefix is the same as equality, so invalidating one key touches exactly that key |
| QueryClient.Invalidated | frontend/src/features/analyses/queries.ts:45 | invalidation keeps every entry and its data, and an entry is stale afterwards iff it was stale or matches the key |
| QueryClient.Removed | frontend/src/features/reviews/queries.ts:50 | removal deletes exactly the matching entries and leaves the others unchanged |
| QueryClient.InvalidateTouchesOnlyItsKey | frontend/src/features/reviews/queries.ts:34-37 | on application keys, invalidating a key stales that entry only and leaves every other entry as it was |
| QueryClient.RemoveTouchesOnlyItsKey | frontend/src/features/reviews/queries.ts:50 | on application keys, removing a key is deleting that one map entry |
| QueryClient.Lookup | frontend/src/features/analyses/queries.ts:16 | `query.state.data` is present iff the cache holds the key, and is then its entry |
| QueryClient.RefetchIntervalFor | frontend/src/features/analyses/queries.ts:15-35 | queries without a rule never poll; the two analysis rules apply to the cached list or analysis, with no data when nothing of that kind is cached |
| QueryClient.ReviewAndClusterQueriesNeverPoll | frontend/src/features/reviews/queries.ts:13-25 | review and cluster queries poll at no interval, whatever the cache holds |
| QueryClient.DetailPollingFollowsStatus | frontend/src/features/analyses/queries.ts:30-35 | a cached pending analysis is polled every 1000 ms, any other status stops polling |
| QueryClient.AnalysisMutationTouchesOnlyList | frontend/src/features/analyses/queries.ts:43-46 | invalidating the list key keeps every key and leaves every other entry, every detail entry included, unchanged |
| QueryClient.UpdateReviewTouchesTwoKeys | frontend/src/features/reviews/queries.ts:33-38 | after an update exactly `detail(data.id)` and `list(data.analysis_id)` are stale; all else is unchanged |
| QueryClient.DeleteReviewEffect | frontend/src/features/reviews/queries.ts:48-51 | after a delete `detail(id)` is gone, `list(analysisId)` is stale, and all else is unchanged |
| QueryClient.ReviewMutationsSpareAnalyses | frontend/src/features/reviews/queries.ts:27-53 | no review mutation changes or removes a cached analyses entry |
| QueryClient.QueryCache.constructor | frontend/src/features/analyses/queries.ts:40 | the shared cache starts empty |
| QueryClient.QueryCache.FetchSucceeded | frontend/src/features/analyses/queries.ts:11-14 | a successful fetch stores fresh data under its key and changes nothing else |
| QueryClient.QueryCache.FetchFailed | frontend/src/features/analyses/queries.ts:11-14 | a failed fetch leaves the cache unchanged, so polling continues on the last known data |
| QueryClient.QueryCache.InvalidateQueries | frontend/src/features/analyses/queries.ts:45 | the new cache is the old one with the matching entries stale |
| QueryClient.QueryCache.RemoveQueries | frontend/src/features/reviews/queries.ts:50 | the new cache is the old one without the matching entries |
| QueryClient.QueryCache.CreateAnalysisSettled | frontend/src/features/analyses/queries.ts:42-47 | a failure changes nothing; a success stales the list key and leaves every other entry unchanged |
| QueryClient.QueryCache.DeleteAnalysisSettled | frontend/src/features/analyses/queries.ts:53-58 | a failure changes nothing; a success stales only the list, and the deleted analysis's detail entry is neither staled nor removed |
| QueryClient.QueryCache.UpdateReviewSettled | frontend/src/features/reviews/queries.ts:30-39 | a failure changes nothing; a success stales the returned record's detail and list keys |
| QueryClient.QueryCache.DeleteReviewSettled | frontend/src/features/reviews/queries.ts:45-52 | a failure changes nothing; a success stales `list(analysisId)` and removes `detail(id)` |
| TextMatch.LowerChar | frontend/src/widgets/reviews/list/ui/list.tsx:54 | Latin `A`–`Z` go to `a`–`z`, Cyrillic `А`–`Я` to `а`–`я` and `Ѐ`–`Џ` to `ѐ`–`џ`, each capital to the lower-case letter at the same offset; every other character is unchanged |
| TextMatch.LowerCharIdempotentInjective | frontend/src/widgets/reviews/list/ui/list.tsx:54 | lower-casing a lower-cased character changes nothing, and two different characters with the same lower case include one already in lower case |
| TextMatch.Lower | frontend/src/widgets/reviews/list/ui/list.tsx:54-55 | lower-casing a string keeps its length and lower-cases each character |
| TextMatch.LowerIdempotent | frontend/src/widgets/reviews/list/ui/list.tsx:54-55 | lower-casing a lower-cased string changes nothing, so lower-casing the query again inside the match would not change the result |
| TextMatch.Includes | frontend/src/widgets/reviews/list/ui/list.tsx:55 | `includes` holds iff the needle occurs at some position of the haystack |
| TextMatch.IncludesEmpty | frontend/src/widgets/reviews/list/ui/list.tsx:53 | every text includes the empty query |
| ReviewList.TextMatches | frontend/src/widgets/reviews/list/ui/list.tsx:53-55 | the text filter: the review text, lower-cased, includes the lower-cased query |
| ReviewList.SourceMatches | frontend/src/widgets/reviews/list/ui/list.tsx:59-63 | the source filter: the review source id, lower-cased, includes the lower-cased query |
| ReviewList.SentimentFilterActive | frontend/src/widgets/reviews/list/ui/list.tsx:67 | the sentiment filter applies only to a selection that is neither "all" nor empty |
| ReviewList.Keeps | frontend/src/widgets/reviews/list/ui/list.tsx:53-69 | a review passes the list when it passes each active filter: non-empty text query, non-empty source query, active sentiment selection |
| ReviewList.Filter | frontend/src/widgets/reviews/list/ui/list.tsx:55 | a filter keeps exactly the elements satisfying the predicate and is no longer than its input |
| ReviewList.FilterExtensional | frontend/src/widgets/reviews/list/ui/list.tsx:53-69 | filters with equal predicates give equal results |
| ReviewList.FilterTwice | frontend/src/widgets/reviews/list/ui/list.tsx:53-69 | two successive filters equal one filter by the conjunction, so the filters compose by AND |
| ReviewList.FilterKeepsAll | frontend/src/widgets/reviews/list/ui/list.tsx:53-69 | a filter whose predicate always holds returns its input unchanged |
| ReviewList.EmptyQueriesKeepEverything | frontend/src/widgets/reviews/list/ui/list.tsx:53-64 | an empty text or source query keeps every review |
| ReviewList.SortOrderOf | frontend/src/widgets/reviews/list/ui/list.tsx:72-83 | the sort is descending iff the first selected key is `confidence-desc`, ascending iff it is `confidence-asc`, and absent for `"all"`, an empty selection or any other key |
| ReviewList.SortKey | frontend/src/widgets/reviews/list/ui/list.tsx:79-81 | the sort key: the negated confidence for `confidence-desc`, the confidence for `confidence-asc` |
| ReviewList.InsertPermutes | frontend/src/widgets/reviews/list/ui/list.tsx:79-81 | inserting into a sorted run adds exactly the inserted review |
| ReviewList.SortedCons | frontend/src/widgets/reviews/list/ui/list.tsx:79-81 | a sequence with a head is sorted iff the head's key is at most every later key and the tail is sorted |
| ReviewList.InsertSorted | frontend/src/widgets/reviews/list/ui/list.tsx:79-81 | inserting into a sorted sequence keeps it sorted |
| ReviewList.InsertKeepsTies | frontend/src/widgets/reviews/list/ui/list.tsx:79-81 | insertion puts the new review before every review of equal confidence, so ties keep their order |
| ReviewList.StableSort | frontend/src/widgets/reviews/list/ui/list.tsx:79-81 | the result is sorted by the order, is a permutation of the input, and keeps the input order among equal confidences |
| ReviewList.WithConfidenceMembers | frontend/src/widgets/reviews/list/ui/list.tsx:79-81 | the reviews of a given confidence are exactly the input's reviews with that confidence |
| ReviewList.HeadsEqual | frontend/src/widgets/reviews/list/ui/list.tsx:79-81 | two non-empty sorted sequences with the same ties have the same first element |
| ReviewList.TailsAgree | frontend/src/widgets/reviews/list/ui/list.tsx:79-81 | dropping the same first element from two sequences with the same ties leaves tails with the same ties |
| ReviewList.StableSortIsUnique | frontend/src/widgets/reviews/list/ui/list.tsx:79-81 | at most one sequence is sorted and has given ties, so any stable sort returns the same result |
| ReviewList.FilteredReviews | frontend/src/widgets/reviews/list/ui/list.tsx:47-86 | no data gives the empty list; otherwise a permutation of the kept reviews, unchanged without a sort key, else sorted with ties in filtered order |
| ReviewCounting.CountId | frontend/src/widgets/clusters/list/ui/list.tsx:49-55 | the number of reviews in a cluster is at most the number of reviews |
| ReviewCounting.CountIn | frontend/src/widgets/clusters/list/ui/list.tsx:49-55 | the number of reviews in a set of clusters is at most the number of reviews |
| ReviewCounting.CountInSplit | frontend/src/widgets/clusters/list/ui/list.tsx:49-55 | counting over one more cluster id adds that cluster's count |
| ReviewCounting.SumOverDistinctKeys | frontend/src/widgets/clusters/list/ui/list.tsx:49-55 | summing per-cluster counts over distinct ids counts the reviews in any of them |
| ReviewCounting.CountInEmpty | frontend/src/widgets/clusters/list/ui/list.tsx:49-51 | no review lies in an empty set of clusters |
| ReviewCounting.CountInAll | frontend/src/widgets/clusters/list/ui/list.tsx:49-55 | all reviews are counted iff every review's cluster id is in the set |
| ClusterList.Bump | frontend/src/widgets/clusters/list/ui/list.tsx:52-53 | counting a review adds one to the total and one to the bucket of its sentiment only |
| ClusterList.CountsFor | frontend/src/widgets/clusters/list/ui/list.tsx:36-55 | a cluster's total is the number of its reviews and the sum of its three buckets, each bucket counting that sentiment |
| ClusterList.ClusterStats | frontend/src/widgets/clusters/list/ui/list.tsx:33-58 | missing clusters or reviews give an empty map; otherwise the keys are the cluster ids and each entry is that cluster's counts, so unreferenced clusters hold zeros and unmatched reviews are skipped |
| ClusterList.SumTotalsIsSumCounts | frontend/src/widgets/clusters/list/ui/list.tsx:49-55 | the sum of the stats' totals is the sum of the per-cluster review counts |
| ClusterList.TotalsCoverMatchedReviews | frontend/src/widgets/clusters/list/ui/list.tsx:49-55 | the totals add up to at most the number of reviews, and to exactly that iff every review's cluster id is a cluster id |
| ClusterList.Cards | frontend/src/widgets/clusters/list/ui/list.tsx:86-92 | one card per cluster in order, with its stats, or all zeros when the map lacks the cluster |
| ClusterList.ClustersListView | frontend/src/widgets/clusters/list/ui/list.tsx:29-81 | loading iff either query is pending; error iff neither is pending and one failed; otherwise the empty message iff there are no clusters, else the grid of cards |
| ClusterList.LoadedCardsShowCounts | frontend/src/widgets/clusters/list/ui/list.tsx:33-92 | with the computed stats, every card shows its cluster's counts |
| SourceStatistics.SelectedSource | frontend/src/widgets/reviews/statistics/ui/statistics.tsx:19-22 | the first selected key, or "all" when it is missing or empty; the "all" selection yields its first character "a" |
| SourceStatistics.StrLessIrreflexive | frontend/src/widgets/reviews/statistics/ui/statistics.tsx:26 | the default string order is irreflexive |
| SourceStatistics.StrLessTransitive | frontend/src/widgets/reviews/statistics/ui/statistics.tsx:26 | the default string order is transitive |
| SourceStatistics.StrLessTotal | frontend/src/widgets/reviews/statistics/ui/statistics.tsx:26 | any two different strings are ordered one way or the other |
| SourceStatistics.StrLessAsymmetric | frontend/src/widgets/reviews/statistics/ui/statistics.tsx:26 | the default string order is asymmetric |
| SourceStatistics.StrictlySortedIsDistinct | frontend/src/widgets/reviews/statistics/ui/statistics.tsx:26 | a strictly sorted list has no duplicates |
| SourceStatistics.Dedup | frontend/src/widgets/reviews/statistics/ui/statistics.tsx:26 | `Array.from(new Set(...))` has no duplicates and exactly the input's members |
| SourceStatistics.FirstIndex | frontend/src/widgets/reviews/statistics/ui/statistics.tsx:26 | the position of the first occurrence of a string: it is there and nowhere before |
| SourceStatistics.FirstIndexUnique | frontend/src/widgets/reviews/statistics/ui/statistics.tsx:26 | an occurrence with none before it is the first occurrence |
| SourceStatistics.DedupOrder | frontend/src/widgets/reviews/statistics/ui/statistics.tsx:26 | a `Set` iterates in insertion order: the distinct strings come in the order of their first occurrences |
| SourceStatistics.InsertStrPermutes | frontend/src/widgets/reviews/statistics/ui/statistics.tsx:26 | inserting a string adds exactly that string |
| SourceStatistics.StrictlySortedCons | frontend/src/widgets/reviews/statistics/ui/statistics.tsx:26 | a list with a head is strictly sorted iff the head precedes every later element and the tail is strictly sorted |
| SourceStatistics.InsertStrSorted | frontend/src/widgets/reviews/statistics/ui/statistics.tsx:26 | inserting a new string into a strictly sorted list keeps it strictly sorted |
| SourceStatistics.SortStringsCorrect | frontend/src/widgets/reviews/statistics/ui/statistics.tsx:26 | sorting distinct strings gives a strictly sorted permutation |
| SourceStatistics.StrictlySortedUnique | frontend/src/widgets/reviews/statistics/ui/statistics.tsx:26 | two strictly sorted lists with the same members are equal |
| SourceStatistics.SourceIds | frontend/src/widgets/reviews/statistics/ui/statistics.tsx:26 | one source id per review, in order |
| SourceStatistics.Sources | frontend/src/widgets/reviews/statistics/ui/statistics.tsx:24-27 | empty without data; otherwise strictly ascending, holding exactly the reviews' source ids |
| SourceStatistics.SourceOptions | frontend/src/widgets/reviews/statistics/ui/statistics.tsx:29-34 | the "all" option first, then one option per source in order, with key and label both the source |
| SourceStatistics.OptionKeysDistinct | frontend/src/widgets/reviews/statistics/ui/statistics.tsx:29-34 | the option keys are distinct iff no review's source id is "all" |
| SourceStatistics.BySource | frontend/src/widgets/reviews/statistics/ui/statistics.tsx:42 | the exact-match source filter keeps exactly the given reviews whose source id equals the selected source, and no more reviews than it is given |
| SourceStatistics.Shown | frontend/src/widgets/reviews/statistics/ui/statistics.tsx:39-42 | the reviews the chart counts: all of them when "all" is selected, otherwise exactly those whose source id is the selected one |
| SourceStatistics.Tally | frontend/src/widgets/reviews/statistics/ui/statistics.tsx:44-52 | a sentiment's count is at most the number of reviews |
| SourceStatistics.ChartData | frontend/src/widgets/reviews/statistics/ui/statistics.tsx:36-53 | zeros without data; otherwise each bar counts the shown reviews of its sentiment, where "all" shows every review and any other source shows only exact matches |
| SourceStatistics.BarsCountEveryReview | frontend/src/widgets/reviews/statistics/ui/statistics.tsx:44-52 | positive, neutral and negative add up to the number of counted reviews |
| SourceStatistics.SumOverSourcesSnoc | frontend/src/widgets/reviews/statistics/ui/statistics.tsx:39-52 | one more review adds one to the per-source total of its sentiment iff its source is listed |
| SourceStatistics.SourceChartsSumToAll | frontend/src/widgets/reviews/statistics/ui/statistics.tsx:39-52 | when every source is listed once, the per-source bars add up to the "all" bar |
| SourceStatistics.SumOverSourcesEmpty | frontend/src/widgets/reviews/statistics/ui/statistics.tsx:44-52 | no reviews give zero in every per-source sum |
| SourceStatistics.SelectSourcesPartitionChart | frontend/src/widgets/reviews/statistics/ui/statistics.tsx:24-53 | over the offered sources, the per-source bars of a sentiment add up to its "all" bar |
| ClusterColor.JsRem | frontend/src/features/clusters/lib.ts:6 | JavaScript `%` keeps the dividend's sign: in `[0, m)` for non-negative, in `(-m, 0]` for negative dividends |
| ClusterColor.HueMilli | frontend/src/features/clusters/lib.ts:6 | the hue in thousandths of a degree is in `[0, 360000)` for ids ≥ 0 and in `(-360000, 0]` for negative ids |
| ClusterColor.ClusterColorOf | frontend/src/features/clusters/lib.ts:1-8 | the grey noise colour iff the id is -1; otherwise saturation 70 and lightness 60, hue in `[0, 360)` for ids ≥ 0 and in `(-360, 0]` for ids below -1 |
| ClusterColor.StepDividesTurnIff | frontend/src/features/clusters/lib.ts:6 | a multiple of the 137.508° step is a whole number of turns iff the multiplier is a multiple of 30000 |
| ClusterColor.ColorsRepeatEvery30000 | frontend/src/features/clusters/lib.ts:6-7 | two non-negative ids get the same colour iff they differ by a multiple of 30000 |
| ClusterColor.DistinctColorsForSmallIds | frontend/src/features/clusters/lib.ts:6-7 | distinct ids in `[0, 30000)` get distinct colours |
| ClusterScatter.WithCoords | frontend/src/widgets/reviews/clusters/ui/clusters.tsx:29 | dropping reviews without coordinates keeps at most the input |
| ClusterScatter.GroupOf | frontend/src/widgets/reviews/clusters/ui/clusters.tsx:28-35 | every review in a group has coordinates and the group's cluster id |
| ClusterScatter.WithCoordsMembers | frontend/src/widgets/reviews/clusters/ui/clusters.tsx:29 | the placed reviews are exactly the input reviews with coordinates |
| ClusterScatter.GroupMembers | frontend/src/widgets/reviews/clusters/ui/clusters.tsx:28-35 | a group holds exactly the placed reviews of its cluster id |
| ClusterScatter.IdsInOrder | frontend/src/widgets/reviews/clusters/ui/clusters.tsx:30-32 | the map's keys in insertion order have no duplicates |
| ClusterScatter.IdsInOrderMembers | frontend/src/widgets/reviews/clusters/ui/clusters.tsx:30-32 | an id is a map key iff its group is non-empty |
| ClusterScatter.GroupByCluster | frontend/src/widgets/reviews/clusters/ui/clusters.tsx:26-35 | the loop builds the map whose keys are the ids with a placed review, in first-seen order, each holding its group in input order |
| ClusterScatter.InsertIntPermutes | frontend/src/widgets/reviews/clusters/ui/clusters.tsx:37 | inserting an id adds exactly that id |
| ClusterScatter.SortInts | frontend/src/widgets/reviews/clusters/ui/clusters.tsx:37 | the numeric sort of the map keys, by insertion; specified by `SortIntsCorrect` |
| ClusterScatter.InsertIntIncreasing | frontend/src/widgets/reviews/clusters/ui/clusters.tsx:37 | inserting a new id into an increasing list keeps it increasing |
| ClusterScatter.InsertIntCorrect | frontend/src/widgets/reviews/clusters/ui/clusters.tsx:37 | inserting a new id gives an increasing list with that id added |
| ClusterScatter.SortIntsCorrect | frontend/src/widgets/reviews/clusters/ui/clusters.tsx:37 | sorting distinct ids numerically gives an increasing permutation |
| ClusterScatter.NatDigits | frontend/src/widgets/reviews/clusters/ui/clusters.tsx:42 | the decimal form of a natural number is a non-empty string of digits |
| ClusterScatter.ParseNatDigits | frontend/src/widgets/reviews/clusters/ui/clusters.tsx:42 | reading back a number's decimal digits gives the number |
| ClusterScatter.IntToString | frontend/src/widgets/reviews/clusters/ui/clusters.tsx:42 | the decimal form of an integer is non-empty |
| ClusterScatter.IntToStringInjective | frontend/src/widgets/reviews/clusters/ui/clusters.tsx:42 | different integers have different decimal forms |
| ClusterScatter.SeriesName | frontend/src/widgets/reviews/clusters/ui/clusters.tsx:42 | the series name `Кластер <id>`; specified by `SeriesNameInjective` |
| ClusterScatter.SeriesNameInjective | frontend/src/widgets/reviews/clusters/ui/clusters.tsx:42 | different cluster ids get different series names |
| ClusterScatter.Points | frontend/src/widgets/reviews/clusters/ui/clusters.tsx:48-52 | one point `[x, y, review]` per review of the group, in order |
| ClusterScatter.SeriesFor | frontend/src/widgets/reviews/clusters/ui/clusters.tsx:39-52 | the series of one cluster id: its name, its colour `generateClusterColor(id)` and the points of its group |
| ClusterScatter.SeriesOf | frontend/src/widgets/reviews/clusters/ui/clusters.tsx:39-57 | one series per id, in the order of the ids |
| ClusterScatter.ScatterOption | frontend/src/widgets/reviews/clusters/ui/clusters.tsx:23-57 | the empty option iff there is no data; otherwise the series of the sorted ids |
| ClusterScatter.ChartSeriesShape | frontend/src/widgets/reviews/clusters/ui/clusters.tsx:37-42 | the series ids are increasing, -1 included, exactly the ids of placed reviews, and the series names are distinct |
| ClusterScatter.ReviewInOwnSeries | frontend/src/widgets/reviews/clusters/ui/clusters.tsx:26-52 | a review is plotted in series k iff it has coordinates and series k's id is its cluster id |
| ClusterScatter.GroupSizeIsCount | frontend/src/widgets/reviews/clusters/ui/clusters.tsx:28-35 | a group's size is the number of placed reviews with its id |
| ClusterScatter.TotalPointsOfSeries | frontend/src/widgets/reviews/clusters/ui/clusters.tsx:39-52 | the points of the series of some ids add up to the placed reviews counted per id |
| ClusterScatter.EveryPlacedReviewPlottedOnce | frontend/src/widgets/reviews/clusters/ui/clusters.tsx:29-52 | the chart holds as many points as there are reviews with coordinates |
| ReviewTable.TotalSize | frontend/src/widgets/reviews/list/ui/table.tsx:42-43 | the spacer ends where the last row ends, and is empty without rows |
| ReviewTable.RowStart | frontend/src/widgets/reviews/list/ui/table.tsx:21-54 | each row starts one estimated height below the previous one |
| ReviewTable.OverscanRange | frontend/src/widgets/reviews/list/ui/table.tsx:18-23 | the rendered range covers the visible rows unless clipped at an end, stays within the rows, and is at most twice the overscan wider |
| ReviewTable.Rows | frontend/src/widgets/reviews/list/ui/table.tsx:48-57 | every rendered row has an existing index in the range and shows that review at its offset with the estimated height; indices are consecutive |
| ReviewTable.RowsCoverRange | frontend/src/widgets/reviews/list/ui/table.tsx:48-51 | every existing index in the range is rendered |
| ReviewTable.RowsTile | frontend/src/widgets/reviews/list/ui/table.tsx:42-57 | rendered rows abut without gaps or overlap and fit inside the spacer |
| ReviewTable.RowKeysArePositional | frontend/src/widgets/reviews/list/ui/table.tsx:18-50 | rows get the same keys and offsets for any two review lists of equal length, so identity is positional |
| ReviewTable.VisibleRowsRendered | frontend/src/widgets/reviews/list/ui/table.tsx:18-57 | every existing visible row is rendered |
| ReviewTable.RowsWithinRange | frontend/src/widgets/reviews/list/ui/table.tsx:48-57 | at most one rendered row per index of the range |
| ReviewTable.RenderedRowsBounded | frontend/src/widgets/reviews/list/ui/table.tsx:18-57 | the rendered rows number at most the visible rows plus five above and five below, whatever the length of the list |
| CsvExport.SentimentLabel | frontend/src/widgets/analyses/overview/ui/export.tsx:9-13 | a sentiment's label is one of "0.0", "1.0", "2.0" |
| CsvExport.LabelSentiment | frontend/src/widgets/analyses/overview/ui/export.tsx:9-13 | a label decodes iff it is one of the three labels |
| CsvExport.LabelRoundTrip | frontend/src/widgets/analyses/overview/ui/export.tsx:9-13 | decoding a sentiment's label gives the sentiment back |
| CsvExport.CsvRows | frontend/src/widgets/analyses/overview/ui/export.tsx:21-27 | the header `ID,label` followed by one line per review in order |
| CsvExport.CsvLine | frontend/src/widgets/analyses/overview/ui/export.tsx:24-25 | one data line: the source id, a comma and the sentiment label; `ParseCsvLine` and `CommaInSourceBreaksLine` state when it reads back |
| CsvExport.Join | frontend/src/widgets/analyses/overview/ui/export.tsx:29 | `join("\n")`: the lines with the separator between consecutive ones; `SplitJoin` is its inverse |
| CsvExport.Export | frontend/src/widgets/analyses/overview/ui/export.tsx:18-29 | there is a file iff there is review data |
| CsvExport.Split | frontend/src/widgets/analyses/overview/ui/export.tsx:29 | splitting yields at least one part |
| CsvExport.SplitWithout | frontend/src/widgets/analyses/overview/ui/export.tsx:29 | a text without the separator splits into itself |
| CsvExport.SplitAtFirst | frontend/src/widgets/analyses/overview/ui/export.tsx:29 | splitting a text at its first separator yields the text before it followed by the parts of the rest |
| CsvExport.SplitJoin | frontend/src/widgets/analyses/overview/ui/export.tsx:29 | splitting a join of separator-free lines gives the lines back |
| CsvExport.Pairs | frontend/src/widgets/analyses/overview/ui/export.tsx:23-26 | one `(source_id, sentiment)` pair per review, in order |
| CsvExport.ParseCsvLine | frontend/src/widgets/analyses/overview/ui/export.tsx:23-26 | a line of a source id without comma or newline parses back to that id and sentiment |
| CsvExport.ParseLinesOfReviews | frontend/src/widgets/analyses/overview/ui/export.tsx:23-26 | the data lines parse back to the reviews' pairs |
| CsvExport.ExportRoundTrip | frontend/src/widgets/analyses/overview/ui/export.tsx:18-29 | the file has one more line than there are reviews and parses back to their pairs |
| CsvExport.CommaInSourceBreaksLine | frontend/src/widgets/analyses/overview/ui/export.tsx:25 | for every review whose source id contains a comma, the exported line no longer reads back as one `(source_id, label)` pair |
| CsvExport.SplitLength | frontend/src/widgets/analyses/overview/ui/export.tsx:29 | a text splits into one more part than it has separators |
| CleanText.MarkupNotAllowed | ml/preprocess.py:31 | `<`, `>` and `&` are outside the whitelist |
| CleanText.IsSpace | ml/preprocess.py:31-32 | the characters Python's `\s` matches in a `str` pattern |
| CleanText.IsWordChar | ml/preprocess.py:31 | the characters this model takes as `\w`: ASCII letters and digits, `_` and the Cyrillic letters |
| CleanText.Allowed | ml/preprocess.py:31 | the whitelist `[\w\s.,!?;:()"'-]`: a word character, whitespace or one of the kept punctuation marks |
| CleanText.NamedRef | ml/preprocess.py:29 | a recognised reference starts with `&` and spans at least two characters of the text |
| CleanText.Unescape | ml/preprocess.py:29 | left to right, each recognised reference becomes its character (`&nbsp;` becomes U+00A0) and anything else is kept, so the text never gets longer |
| CleanText.UnescapeWithoutAmpersand | ml/preprocess.py:29 | unescaping is the identity on text without `&` |
| CleanText.FindGt | ml/preprocess.py:30 | finds the first `>` at or after a position, or reports that there is none |
| CleanText.StripTags | ml/preprocess.py:30 | the result has no complete `<...>` tag, introduces no `<` or `>`, and keeps or replaces characters by spaces |
| CleanText.StripTagsWithoutTags | ml/preprocess.py:30 | text without `<` is unchanged |
| CleanText.Whitelist | ml/preprocess.py:31 | each character is kept if allowed, else replaced by a space |
| CleanText.WhitelistOutputAllowed | ml/preprocess.py:31 | every character of the whitelisted text is allowed |
| CleanText.WhitelistIdentity | ml/preprocess.py:31 | text of allowed characters only is unchanged |
| CleanText.DropSpaces | ml/preprocess.py:32 | removes the leading whitespace run, leaving a suffix that does not start with whitespace |
| CleanText.Collapse | ml/preprocess.py:32 | every whitespace run becomes one space; no other whitespace and no two adjacent spaces remain, and other characters come from the input |
| CleanText.CollapseIdentity | ml/preprocess.py:32 | collapsing is the identity on space-normal text |
| CleanText.NoSpaceAfterSpace | ml/preprocess.py:32 | in space-normal text a space is never followed by whitespace |
| CleanText.Strip | ml/preprocess.py:33 | the result is a slice of the input with no whitespace at either end, and empty for an all-whitespace input |
| CleanText.DropTrailingSpaces | ml/preprocess.py:33 | removes the trailing whitespace run, leaving a prefix that does not end with whitespace |
| CleanText.StripIdentity | ml/preprocess.py:33 | stripping is the identity on text without whitespace at its ends |
| CleanText.CleanOutputShape | ml/preprocess.py:21-33 | the output has only allowed characters, no `<`, `>` or `&`, single spaces as its only whitespace, and none at either end |
| CleanText.CollapseKeepsAllowed | ml/preprocess.py:31-32 | collapsing whitespace keeps text within the whitelist |
| CleanText.StripKeepsShape | ml/preprocess.py:32-33 | stripping allowed, space-normal text gives the output shape |
| CleanText.Clean | ml/preprocess.py:21-33 | the four rewrites in order: unescape, tags to spaces, whitelist, whitespace runs to one space, then strip; specified by `CleanOutputShape` and `CleanIdempotent` |
| CleanText.CleanIdempotent | ml/preprocess.py:21-33 | cleaning a cleaned text changes nothing |
| CleanText.BatchClean | ml/preprocess.py:36-37 | same length and order, each element cleaned |
| CleanText.BatchCleanIdempotent | ml/inference_worker.py:97-98 | batch cleaning is idempotent and every output has the cleaned shape |
| ClusteringTask.ExportLabelsMatchClasses | ml/inference_worker.py:41 | class k's sentiment is exported as "k.0" and that label decodes back to it, so the worker's classes agree with the export labels |
| ClusteringTask.SentimentOfLabel | ml/inference_worker.py:41 | `SENTIMENT_MAP`: class 0 is negative, class 1 neutral and class 2 positive, each iff |
| ClusteringTask.Truncate | ml/inference_worker.py:170 | keeps at most the first 500 rows, and all rows when there are no more |
| ClusteringTask.Categories | ml/inference_worker.py:183 | `unique()` has no duplicates and exactly the rows' categories; its order is stated by `CategoriesInFirstAppearanceOrder` |
| ClusteringTask.SrcColumn | ml/inference_worker.py:183 | the `src` column, one cell per row in order |
| ClusteringTask.CategoriesInFirstAppearanceOrder | ml/inference_worker.py:183 | `unique()` keeps the order of first appearance, so an earlier category gets the lower global ids |
| ClusteringTask.RowsOf | ml/inference_worker.py:190 | every row of a category subset has that category |
| ClusteringTask.RowsOfMembers | ml/inference_worker.py:190 | a category subset holds exactly the rows of that category |
| ClusteringTask.Texts | ml/inference_worker.py:191 | one text per row, in order |
| ClusteringTask.CountOf | ml/inference_worker.py:228 | the `Count` of a topic in the topic table; specified by `CountOfFirst` and `CountOfAbsent` |
| ClusteringTask.CountOfFirst | ml/inference_worker.py:228 | the count of a topic is the `Count` of the first table row with that topic |
| ClusteringTask.CountOfAbsent | ml/inference_worker.py:228 | a topic with no row in the table counts 0 |
| ClusteringTask.RealTopics | ml/inference_worker.py:207 | the real topics exclude -1 and all come from the topic table |
| ClusteringTask.TopIds | ml/inference_worker.py:206-209 | at most three real topics, excluding -1, the first ones of the table: three of them, or all when there are fewer |
| ClusteringTask.RealTopicsDistinct | ml/inference_worker.py:207-209 | the real topics of a table with distinct topics are distinct |
| ClusteringTask.Remap | ml/inference_worker.py:211 | `remap_dict` maps exactly the top topics, each to its position |
| ClusteringTask.NNeighbors | ml/inference_worker.py:255-257 | always in `[2, 15]`; exactly 15 above 15 texts; otherwise exactly `min(5, n - 1)`, raised to 2 when smaller, which gives 2 for fewer than 3 texts |
| ClusteringTask.TitleOf | ml/inference_worker.py:234 | a summary's title, or "No Title" when it has none |
| ClusteringTask.DescriptionOf | ml/inference_worker.py:235 | a summary's description, or "No Description" when it has none |
| ClusteringTask.SummaryOf | ml/inference_worker.py:227-239 | one entry of `cluster_summaries`: the global id, the category, the generated title and description with their fallbacks, and the topic's count |
| ClusteringTask.TitleAsWritten | ml/inference_worker.py:247 | the direct lookup succeeds iff the summary has a title |
| ClusteringTask.TitleLookupsDisagree | ml/inference_worker.py:234-247 | for a summary without a title the direct lookup fails while the cluster list gets "No Title" |
| ClusteringTask.TitleLookupsAgreeWhenPresent | ml/inference_worker.py:234-247 | when the lookup succeeds both lookups give the same title |
| ClusteringTask.SourceIdOf | ml/inference_worker.py:305 | a review's `source_id`: the `ID` cell when the table has that column, else the category |
| ClusteringTask.KeptRows | ml/inference_worker.py:186-194 | the rows of each category with at least five rows, category by category; every kept row's category is processed and has at least five rows |
| ClusteringTask.KeptRowsMembers | ml/inference_worker.py:186-194 | a row is kept iff its category is processed and has at least five rows |
| ClusteringTask.KeptRowsOfTable | ml/inference_worker.py:183-194 | over all categories, exactly the rows of categories with at least five rows are kept |
| ClusteringTask.GeneratedLookup | ml/inference_worker.py:213-224 | `qwen_results` after the loop holds exactly the visited topics, each with its own generated summary |
| ClusteringTask.SummarizeTopics | ml/inference_worker.py:213-239 | one summary per top topic, numbered from the offset, with the category, title, description and count of that topic; `qwen_results` maps exactly the top topics to their generated summaries |
| ClusteringTask.RelabelTopics | ml/inference_worker.py:241-250 | a top topic becomes its position plus the offset, titled by the corrected lookup `TitleOf` of its `qwen_results` entry (line 247 as written reads `["title"]`, see Findings); any other topic becomes -1 with "Шум" |
| ClusteringTask.MakeFrame | ml/inference_worker.py:252-268 | one frame row per subset row, carrying that row's cluster id, title and layout point |
| ClusteringTask.IndexOf | ml/inference_worker.py:211 | the first position of a topic among the top topics: it holds that topic and no earlier position does |
| ClusteringTask.RemapIsIndexOf | ml/inference_worker.py:211 | `remap_dict` maps each top topic to its first position among the top topics |
| ClusteringTask.GlobalId | ml/inference_worker.py:244-249 | a topic's global id is -1 iff it is not a top topic; otherwise it lies in `[offset, offset + |top|)` and names the cluster of that very topic |
| ClusteringTask.CategorySummaries | ml/inference_worker.py:213-239 | what one kept category adds to `cluster_summaries`: one summary per top topic, the i-th numbered `offset + i` with that topic's generated title, description and count |
| ClusteringTask.CategoryFrame | ml/inference_worker.py:241-268 | what one kept category adds to the frames: row j with the global id and title of its own topic and row j of the category's layout |
| ClusteringTask.CategoryRelabelled | ml/inference_worker.py:241-253 | in a category's frame each row keeps its row and gets its topic's global id, and is noise titled "Шум" or a cluster this category adds, with that cluster's title |
| ClusteringTask.ProcessCategory | ml/inference_worker.py:190-270 | the body for one category yields that category's frame and summaries: one summary per top topic numbered from the offset with its own title, description and count, and one frame row per subset row carrying the global id of that row's topic (noise iff not a top topic), its title and its layout point |
| ClusteringTask.FramesStayValid | ml/inference_worker.py:270-273 | appending a category's frame and summaries keeps every frame row pointing at a cluster of its own category with its title |
| ClusteringTask.Summaries | ml/inference_worker.py:179-273 | `cluster_summaries` after a prefix of the categories: each kept category's summaries at the running `topic_offset`; specified by `SummariesNumbered` |
| ClusteringTask.Frames | ml/inference_worker.py:179-273 | `result_frames` concatenated after a prefix of the categories; specified by `FramesRows`, `FramesValid` and `KeptRowFrame` |
| ClusteringTask.FramesRows | ml/inference_worker.py:186-194 | the frames hold exactly the kept rows, in order |
| ClusteringTask.SummariesNumbered | ml/inference_worker.py:227-273 | global ids run 0, 1, 2, … without gaps, and every cluster belongs to a processed category with at least five rows |
| ClusteringTask.TopicCount | ml/inference_worker.py:186-209 | the number of top topics (at most three per category) summed over the categories with at least five rows; specified by `SummariesCount` |
| ClusteringTask.TopicCountSnoc | ml/inference_worker.py:186-209 | one more category adds its top topics when it has at least five rows and nothing otherwise |
| ClusteringTask.SummariesCount | ml/inference_worker.py:227-273 | `cluster_summaries` holds exactly one entry per top topic of each category with at least five rows |
| ClusteringTask.FramesValid | ml/inference_worker.py:241-273 | every frame row is noise titled "Шум" or points at a cluster of its own category whose title it carries |
| ClusteringTask.SummariesPrefix | ml/inference_worker.py:230-273 | processing more categories only appends to `cluster_summaries` |
| ClusteringTask.FramesPrefix | ml/inference_worker.py:270-273 | processing more categories only appends to the frames |
| ClusteringTask.KeptCategoryStep | ml/inference_worker.py:186-273 | a kept category appends its own frame and summaries right after those of the earlier categories, at offset `topic_offset` |
| ClusteringTask.KeptRowFrame | ml/inference_worker.py:241-273 | row j of a kept category sits in the frames right after the kept rows of the earlier categories, as row j of that category's frame |
| ClusteringTask.KeptTopicSummary | ml/inference_worker.py:227-273 | the summary of top topic i of a kept category sits in `cluster_summaries` at that category's `topic_offset` plus i |
| ClusteringTask.ProcessCategories | ml/inference_worker.py:179-273 | the frames and summaries after all categories: the kept rows in order; global ids 0, 1, 2, … without gaps; every row noise or pointing at a cluster of its own category with the same title; only categories with at least five rows have clusters |
| ClusteringTask.ClassifyRows | ml/inference_worker.py:299-312 | one review per frame row, in order, with the row's text, its source id, the sentiment and the confidence of its cleaned text's class, its cluster id and its layout point |
| ClusteringTask.BuildReviews | ml/inference_worker.py:283-312 | one review per frame row, with its text, source id, the sentiment and confidence the classifier gives its cleaned text, its cluster id and its layout point |
| ClusteringTask.BuildClusters | ml/inference_worker.py:314-321 | one cluster per summary, in order, with its id, title and description |
| ClusteringTask.TaskFollowsTopics | ml/inference_worker.py:179-321 | reviews and clusters copied from the frames and summaries follow the topic model: in every kept category, row j's review carries the global id of row j's topic and row j's layout point, and top topic i's cluster has id `topic_offset + i` and that topic's generated title and description |
| ClusteringTask.RunClusteringTask | ml/inference_worker.py:167-327 | fails with the column message iff `text` or `src` is missing and succeeds otherwise; on success one review per kept row of the first 500, with its text, source id and the sentiment and confidence of its cleaned text; exactly one cluster per top topic of each kept category (`TopicCount`), numbered 0, 1, 2, …; every review noise or an emitted cluster; and in every kept category each review carries the global id of its own topic and its layout point, and each top topic's cluster its generated title and description |

## Left out

- Network I/O. The fetch functions of `features/*/api.ts` are not part of this model; a fetch is either `FetchSucceeded` with its data or `FetchFailed`, and a failed mutation runs no `onSuccess`.
- TanStack Query internals: timers, request de-duplication, loading versus background-refresh status. Invalidation is modelled as marking entries stale, with the library's prefix matching, which `QueryClient.PrefixMatchIsExact` shows to be exact matching on the application's keys.
- The debounce of the search inputs (`useDebounce`) and other timers: the filters take the debounced values as parameters.
- TextMatch.LowerChar: lower-cases only ASCII and the basic Cyrillic block (`А`–`Я`, `Ѐ`–`Џ`); the rest of Unicode's case mapping is not modelled.
- SourceStatistics.StrLess: compares code points, where JavaScript's default sort compares UTF-16 code units; the two orders differ only between characters above U+FFFF and those in U+E000–U+FFFF.
- The exact visible-range algorithm of `@tanstack/react-virtual` and its scroll state are not part of this model. `ReviewTable.OverscanRange` is one such range and its contract states only bounds, with the visible rows as parameters.
- Floating point: confidence, hue and coordinates are `real`. `ClusterColor` computes the hue exactly in thousandths of a degree, so the text formatting of the `hsl(...)` string and IEEE rounding of `id * 137.508` are not modelled.
- UI chrome: skeletons, error panels, modals, filters wiring, row rendering, chart styling and tooltips, the DOM side effects of the export (Blob, anchor, click).
- CleanText.Unescape: recognises the named references `&amp;`, `&lt;`, `&gt;`, `&quot;`, `&apos;`, `&#39;` and `&nbsp;` (to U+00A0, as Python's `html.unescape` does) only, not the full HTML5 table or numeric references in general; its identity on `&`-free text, which idempotence needs, is proved.
- CleanText.IsWordChar: Python's Unicode `\w` is approximated by ASCII letters, digits, `_` and the Cyrillic letters; other scripts' letters are treated as non-word characters.
- The machine-learning calls are parameters in `ClusteringTask.Models`, with only the facts stated by `WellBehaved`:
  - BERTopic fitting and its topic table;
  - UMAP;
  - the Qwen summary generation (`generate_summary`);
  - the sentiment classifier with its tokenizer, softmax and argmax.
- Random sampling of example texts is not modelled, and neither are the keyword list, the `keywords` field of the summaries, or progress printing.
- The pandas `read_csv` parse and its error branch are not modelled; the table arrives as columns and rows of strings. Truncation, the column check, category order and row order are modelled. What pandas' typing does to cells is not:
  - an empty `src` cell becomes NaN; since NaN equals nothing, `df[df["src"] == category]` (`ml/inference_worker.py:190`) selects no row for it and those rows are dropped, while the model treats `""` as an ordinary category and keeps its rows when there are five or more;
  - `str(row.get("ID", …))` (`ml/inference_worker.py:305`) gives `"nan"` for an empty `ID` cell and `"123.0"` for an integer `ID` column that has a gap (pandas reads it as floats), while `ClusteringTask.SourceIdOf` returns the cell's text.
- `ml/preprocess.py`'s `load_csv` and dataset preparation, and the training, evaluation and API-server scripts, are outside the core.
- The `stats` of an analysis come from the server and are never checked by the client; the model assumes nothing about them.

## Findings

| source | as written | input that shows it | evidently intended | confidence | as-written member | corrected member |
|---|---|---|---|---|---|---|
| ml/inference_worker.py:247 | the relabel loop reads a topic's title with `qwen_results[t]["title"]`, which raises `KeyError` when the generated JSON has no `"title"`, aborting the whole task, while the cluster list built at line 234 falls back to `"No Title"` | a generated summary `{"description": "x"}` for a top topic (the model's JSON is parsed as is at line 151) | every row of that topic carries the same fallback title `"No Title"` as its cluster | medium, not executed | ClusteringTask.TitleAsWritten | ClusteringTask.TitleOf |
