/**
 * The shared query cache and the `onSuccess` effects of the four mutations
 * (frontend/src/features/analyses/queries.ts, frontend/src/features/reviews/queries.ts).
 * `invalidateQueries` marks every entry whose key extends the filter key as stale;
 * `removeQueries` deletes those entries.
 */
module QueryClient {
  import opened Wrappers
  import opened Domain
  import opened QueryCore
  import AnalysesQueries
  import ReviewsQueries
  import ClustersQueries

  /** The value a query resolved to, tagged by the query that fetched it. */
  datatype CachedData =
    | AnalysisList(analyses: seq<Analysis>)
    | AnalysisItem(analysis: Analysis)
    | ReviewList(reviews: seq<Review>)
    | ReviewItem(review: Review)
    | ClusterList(clusters: seq<Cluster>)
    | ClusterItem(cluster: Cluster)

  datatype Entry = Entry(data: CachedData, stale: bool)

  /** Any non-2xx response; the API layer does not distinguish status codes. */
  datatype NetworkError = NetworkError

  /** Key families that end in a numeric id. */
  function IdFamilies(): set<Key> {
    {AnalysesQueries.Details(), ReviewsQueries.Lists(), ReviewsQueries.Details(),
     ClustersQueries.Lists(), ClustersQueries.Details()}
  }

  /** The shapes the key factories produce. */
  predicate AppKey(k: Key) {
    k == AnalysesQueries.Lists() || (|k| == 3 && k[2].Num? && k[..2] in IdFamilies())
  }

  lemma FactoriesProduceAppKeys(id: int)
    ensures AppKey(AnalysesQueries.Lists())
    ensures AppKey(AnalysesQueries.Detail(id))
    ensures AppKey(ReviewsQueries.List(id)) && AppKey(ReviewsQueries.Detail(id))
    ensures AppKey(ClustersQueries.List(id)) && AppKey(ClustersQueries.Detail(id))
  {
    assert AnalysesQueries.Detail(id)[..2] == AnalysesQueries.Details();
    assert ReviewsQueries.List(id)[..2] == ReviewsQueries.Lists();
    assert ReviewsQueries.Detail(id)[..2] == ReviewsQueries.Details();
    assert ClustersQueries.List(id)[..2] == ClustersQueries.Lists();
    assert ClustersQueries.Detail(id)[..2] == ClustersQueries.Details();
  }

  /** Among the keys the application uses, prefix matching is exact matching. */
  lemma PrefixMatchIsExact(p: Key, k: Key)
    requires AppKey(p) && AppKey(k)
    ensures IsPrefix(p, k) <==> p == k
  {
  }

  /** Keys under `["analyses"]`. */
  predicate IsAnalysesKey(k: Key) {
    IsPrefix(AnalysesQueries.All(), k)
  }

  /** The cache after `invalidateQueries({ queryKey: prefix })`: same entries, matched ones stale. */
  function Invalidated(m: map<Key, Entry>, prefix: Key): (r: map<Key, Entry>)
    ensures r.Keys == m.Keys
    ensures forall k :: k in m ==> r[k].data == m[k].data
    ensures forall k :: k in m ==> (r[k].stale <==> m[k].stale || IsPrefix(prefix, k))
  {
    map k | k in m :: if IsPrefix(prefix, k) then m[k].(stale := true) else m[k]
  }

  /** The cache after `removeQueries({ queryKey: prefix })`: matched entries gone, the rest untouched. */
  function Removed(m: map<Key, Entry>, prefix: Key): (r: map<Key, Entry>)
    ensures r.Keys == set k | k in m && !IsPrefix(prefix, k)
    ensures forall k :: k in r ==> r[k] == m[k]
  {
    map k | k in m && !IsPrefix(prefix, k) :: m[k]
  }

  predicate AllAppKeys(m: map<Key, Entry>) {
    forall k :: k in m ==> AppKey(k)
  }

  /** On application keys, invalidating a key stales exactly that entry and nothing else. */
  lemma InvalidateTouchesOnlyItsKey(m: map<Key, Entry>, key: Key)
    requires AllAppKeys(m) && AppKey(key)
    ensures Invalidated(m, key).Keys == m.Keys
    ensures forall k :: k in m && k != key ==> Invalidated(m, key)[k] == m[k]
    ensures key in m ==> Invalidated(m, key)[key] == m[key].(stale := true)
  {
    forall k | k in m
      ensures Invalidated(m, key)[k] == if k == key then m[k].(stale := true) else m[k]
    {
      PrefixMatchIsExact(key, k);
    }
  }

  /** On application keys, removing a key deletes exactly that entry and nothing else. */
  lemma RemoveTouchesOnlyItsKey(m: map<Key, Entry>, key: Key)
    requires AllAppKeys(m) && AppKey(key)
    ensures Removed(m, key) == m - {key}
  {
    forall k | k in m
      ensures k in Removed(m, key) <==> k != key
    {
      PrefixMatchIsExact(key, k);
    }
  }

  /** What the cache shows a query that has not fetched yet: no data. */
  function Lookup(m: map<Key, Entry>, key: Key): (e: Option<Entry>)
    ensures e.Some? <==> key in m
    ensures e.Some? ==> e.value == m[key]
  {
    if key in m then Some(m[key]) else None
  }

  /**
   * The polling period a query definition asks for, given the cached data for its key.
   * Data of the wrong shape is treated like no data.
   */
  function RefetchIntervalFor(q: QueryOptions, e: Option<Entry>): (r: RefetchInterval)
    ensures q.refetch == NoRefetch ==> r == Off
    ensures q.refetch == AnalysisListCadence ==>
      r == AnalysesQueries.ListRefetchInterval(
        if e.Some? && e.value.data.AnalysisList? then Some(e.value.data.analyses) else None)
    ensures q.refetch == AnalysisDetailCadence ==>
      r == AnalysesQueries.DetailRefetchInterval(
        if e.Some? && e.value.data.AnalysisItem? then Some(e.value.data.analysis) else None)
  {
    match q.refetch
    case NoRefetch => Off
    case AnalysisListCadence =>
      AnalysesQueries.ListRefetchInterval(
        if e.Some? && e.value.data.AnalysisList? then Some(e.value.data.analyses) else None)
    case AnalysisDetailCadence =>
      AnalysesQueries.DetailRefetchInterval(
        if e.Some? && e.value.data.AnalysisItem? then Some(e.value.data.analysis) else None)
  }

  /** Review and cluster queries never poll, whatever the cache holds. */
  lemma ReviewAndClusterQueriesNeverPoll(id: int, e: Option<Entry>)
    ensures RefetchIntervalFor(ReviewsQueries.UseReviews(id), e) == Off
    ensures RefetchIntervalFor(ReviewsQueries.UseReview(id), e) == Off
    ensures RefetchIntervalFor(ClustersQueries.UseClusters(id), e) == Off
    ensures RefetchIntervalFor(ClustersQueries.UseCluster(id), e) == Off
  {
  }

  /** A pending analysis is polled every second; once settled the detail query stops polling. */
  lemma DetailPollingFollowsStatus(id: int, a: Analysis)
    ensures a.status == Pending ==>
      RefetchIntervalFor(AnalysesQueries.UseAnalysis(id), Some(Entry(AnalysisItem(a), false))) == Every(1000)
    ensures a.status != Pending ==>
      RefetchIntervalFor(AnalysesQueries.UseAnalysis(id), Some(Entry(AnalysisItem(a), false))) == Off
  {
  }

  /** Effect of a settled review update on the cache: both keys come from the server's record. */
  function AfterUpdateReview(m: map<Key, Entry>, updated: Review): map<Key, Entry> {
    Invalidated(Invalidated(m, ReviewsQueries.Detail(updated.id)), ReviewsQueries.List(updated.analysisId))
  }

  /** Effect of a settled review delete: the list is invalidated, the detail entry removed. */
  function AfterDeleteReview(m: map<Key, Entry>, id: int, analysisId: int): map<Key, Entry> {
    Removed(Invalidated(m, ReviewsQueries.List(analysisId)), ReviewsQueries.Detail(id))
  }

  /** A successful create or delete of an analysis stales the list entry and leaves every other entry as it was. */
  lemma AnalysisMutationTouchesOnlyList(m: map<Key, Entry>)
    requires AllAppKeys(m)
    ensures Invalidated(m, AnalysesQueries.Lists()).Keys == m.Keys
    ensures forall k :: k in m && k != AnalysesQueries.Lists() ==>
      Invalidated(m, AnalysesQueries.Lists())[k] == m[k]
    ensures forall id :: AnalysesQueries.Detail(id) in m ==>
      Invalidated(m, AnalysesQueries.Lists())[AnalysesQueries.Detail(id)] == m[AnalysesQueries.Detail(id)]
  {
    FactoriesProduceAppKeys(0);
    InvalidateTouchesOnlyItsKey(m, AnalysesQueries.Lists());
    forall id | AnalysesQueries.Detail(id) in m
      ensures AnalysesQueries.Detail(id) != AnalysesQueries.Lists()
    {
      AnalysesQueries.DetailKeysDistinct(id, id);
    }
  }

  /** After a successful review update exactly `detail(id)` and `list(analysisId)` of the returned record are stale. */
  lemma UpdateReviewTouchesTwoKeys(m: map<Key, Entry>, updated: Review)
    requires AllAppKeys(m)
    ensures AfterUpdateReview(m, updated).Keys == m.Keys
    ensures forall k :: k in m ==>
      AfterUpdateReview(m, updated)[k] ==
        if k == ReviewsQueries.Detail(updated.id) || k == ReviewsQueries.List(updated.analysisId)
        then m[k].(stale := true) else m[k]
  {
    var d, l := ReviewsQueries.Detail(updated.id), ReviewsQueries.List(updated.analysisId);
    FactoriesProduceAppKeys(updated.id);
    FactoriesProduceAppKeys(updated.analysisId);
    InvalidateTouchesOnlyItsKey(m, d);
    InvalidateTouchesOnlyItsKey(Invalidated(m, d), l);
    ReviewsQueries.KeysDistinct(updated.analysisId, updated.id);
  }

  /** After a successful review delete `list(analysisId)` is stale, `detail(id)` is gone, all else is unchanged. */
  lemma DeleteReviewEffect(m: map<Key, Entry>, id: int, analysisId: int)
    requires AllAppKeys(m)
    ensures AfterDeleteReview(m, id, analysisId).Keys == m.Keys - {ReviewsQueries.Detail(id)}
    ensures forall k :: k in m && k != ReviewsQueries.Detail(id) ==>
      AfterDeleteReview(m, id, analysisId)[k] ==
        if k == ReviewsQueries.List(analysisId) then m[k].(stale := true) else m[k]
  {
    var d, l := ReviewsQueries.Detail(id), ReviewsQueries.List(analysisId);
    FactoriesProduceAppKeys(id);
    FactoriesProduceAppKeys(analysisId);
    InvalidateTouchesOnlyItsKey(m, l);
    RemoveTouchesOnlyItsKey(Invalidated(m, l), d);
  }

  /** Review mutations never touch a cached analysis, so its `stats` are not refreshed by a sentiment change. */
  lemma ReviewMutationsSpareAnalyses(m: map<Key, Entry>, updated: Review, id: int, analysisId: int)
    requires AllAppKeys(m)
    ensures forall k :: k in m && IsAnalysesKey(k) ==>
      k in AfterUpdateReview(m, updated) && AfterUpdateReview(m, updated)[k] == m[k]
    ensures forall k :: k in m && IsAnalysesKey(k) ==>
      k in AfterDeleteReview(m, id, analysisId) && AfterDeleteReview(m, id, analysisId)[k] == m[k]
  {
    UpdateReviewTouchesTwoKeys(m, updated);
    DeleteReviewEffect(m, id, analysisId);
    forall k | k in m && IsAnalysesKey(k)
      ensures k != ReviewsQueries.Detail(updated.id) && k != ReviewsQueries.List(updated.analysisId)
      ensures k != ReviewsQueries.Detail(id) && k != ReviewsQueries.List(analysisId)
    {
      assert k[0] == Str("analyses");
    }
  }

  /** The query cache shared by every component. */
  class QueryCache {
    var entries: map<Key, Entry>

    /** Only keys built by the factories are ever cached. */
    ghost predicate Valid()
      reads this
    {
      AllAppKeys(entries)
    }

    constructor ()
      ensures Valid() && entries == map[]
    {
      entries := map[];
    }

    /** A successful fetch replaces the value for its key with fresh data. */
    method FetchSucceeded(key: Key, data: CachedData)
      requires Valid() && AppKey(key)
      modifies this
      ensures Valid()
      ensures entries == old(entries)[key := Entry(data, false)]
    {
      entries := entries[key := Entry(data, false)];
    }

    /** A failed fetch keeps the last known data, so polling continues on the last known status. */
    method FetchFailed(key: Key)
      requires Valid()
      modifies this
      ensures Valid() && entries == old(entries)
    {
    }

    method InvalidateQueries(prefix: Key)
      requires Valid()
      modifies this
      ensures Valid()
      ensures entries == Invalidated(old(entries), prefix)
    {
      entries := Invalidated(entries, prefix);
    }

    method RemoveQueries(prefix: Key)
      requires Valid()
      modifies this
      ensures Valid()
      ensures entries == Removed(old(entries), prefix)
    {
      entries := Removed(entries, prefix);
    }

    /** `useCreateAnalysis`: on success invalidate the list; a failure runs no `onSuccess`. */
    method CreateAnalysisSettled(outcome: Result<Analysis, NetworkError>)
      requires Valid()
      modifies this
      ensures Valid()
      ensures outcome.Failure? ==> entries == old(entries)
      ensures outcome.Success? ==> entries == Invalidated(old(entries), AnalysesQueries.Lists())
      ensures entries.Keys == old(entries).Keys
      ensures forall k :: k in old(entries) && k != AnalysesQueries.Lists() ==> entries[k] == old(entries)[k]
    {
      AnalysisMutationTouchesOnlyList(entries);
      if outcome.Success? {
        InvalidateQueries(AnalysesQueries.Lists());
      }
    }

    /** `useDeleteAnalysis`: on success invalidate the list; the deleted analysis's detail entry stays. */
    method DeleteAnalysisSettled(id: int, outcome: Result<(), NetworkError>)
      requires Valid()
      modifies this
      ensures Valid()
      ensures outcome.Failure? ==> entries == old(entries)
      ensures outcome.Success? ==> entries == Invalidated(old(entries), AnalysesQueries.Lists())
      ensures entries.Keys == old(entries).Keys
      ensures AnalysesQueries.Detail(id) in old(entries) ==>
        entries[AnalysesQueries.Detail(id)] == old(entries)[AnalysesQueries.Detail(id)]
    {
      AnalysisMutationTouchesOnlyList(entries);
      if outcome.Success? {
        InvalidateQueries(AnalysesQueries.Lists());
      }
    }

    /** `useUpdateReview`: on success invalidate `detail(data.id)` and `list(data.analysis_id)` of the returned record. */
    method UpdateReviewSettled(id: int, outcome: Result<Review, NetworkError>)
      requires Valid()
      modifies this
      ensures Valid()
      ensures outcome.Failure? ==> entries == old(entries)
      ensures outcome.Success? ==> entries == AfterUpdateReview(old(entries), outcome.value)
    {
      if outcome.Success? {
        InvalidateQueries(ReviewsQueries.Detail(outcome.value.id));
        InvalidateQueries(ReviewsQueries.List(outcome.value.analysisId));
      }
    }

    /** `useDeleteReview`: on success invalidate the caller's `list(analysisId)` and remove `detail(id)`. */
    method DeleteReviewSettled(id: int, analysisId: int, outcome: Result<(), NetworkError>)
      requires Valid()
      modifies this
      ensures Valid()
      ensures outcome.Failure? ==> entries == old(entries)
      ensures outcome.Success? ==> entries == AfterDeleteReview(old(entries), id, analysisId)
      ensures outcome.Success? ==> ReviewsQueries.Detail(id) !in entries
    {
      if outcome.Success? {
        InvalidateQueries(ReviewsQueries.List(analysisId));
        RemoveQueries(ReviewsQueries.Detail(id));
      }
    }
  }
}
