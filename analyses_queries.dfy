/** Query keys and polling cadence of analyses (frontend/src/features/analyses/queries.ts). */
module AnalysesQueries {
  import opened Wrappers
  import opened Domain
  import opened QueryCore

  /** Polling period of the analyses list while at least one analysis is pending. */
  const ListPollMs: nat := 5000
  /** Polling period of a single analysis while it is pending. */
  const DetailPollMs: nat := 1000

  function All(): (k: Key)
    ensures |k| == 1 && k[0] == Str("analyses")
  {
    [Str("analyses")]
  }

  function Lists(): (k: Key)
    ensures |k| == 2 && IsPrefix(All(), k) && k[1] == Str("list")
  {
    All() + [Str("list")]
  }

  function Details(): (k: Key)
    ensures |k| == 2 && IsPrefix(All(), k) && k[1] == Str("detail")
  {
    All() + [Str("detail")]
  }

  function Detail(id: int): (k: Key)
    ensures |k| == 3 && IsPrefix(Details(), k) && k[2] == Num(id)
  {
    Details() + [Num(id)]
  }

  /** Distinct ids give distinct detail keys, and no detail key is the list key or extends it. */
  lemma DetailKeysDistinct(a: int, b: int)
    ensures Detail(a) == Detail(b) <==> a == b
    ensures Detail(a) != Lists() && !IsPrefix(Lists(), Detail(a))
  {
    assert Detail(a)[2] == Num(a);
    assert Detail(a)[1] == Str("detail") != Str("list");
  }

  /** `data.some(analysis => analysis.status === "pending")`. */
  function AnyPending(analyses: seq<Analysis>): (b: bool)
    ensures b <==> exists i :: 0 <= i < |analyses| && analyses[i].status == Pending
  {
    if analyses == [] then false
    else analyses[0].status == Pending || AnyPending(analyses[1..])
  }

  /** The `refetchInterval` callback of `useAnalyses`; `None` is a query with no data yet. */
  function ListRefetchInterval(data: Option<seq<Analysis>>): (r: RefetchInterval)
    ensures data.None? ==> r == Off
    ensures r == Off || r == Every(ListPollMs)
    ensures r == Every(ListPollMs) <==>
      data.Some? && exists i :: 0 <= i < |data.value| && data.value[i].status == Pending
  {
    if data.None? then Off
    else if AnyPending(data.value) then Every(ListPollMs)
    else Off
  }

  /** The `refetchInterval` callback of `useAnalysis`. */
  function DetailRefetchInterval(data: Option<Analysis>): (r: RefetchInterval)
    ensures data.None? ==> r == Off
    ensures r == Off || r == Every(DetailPollMs)
    ensures r == Every(DetailPollMs) <==> data.Some? && data.value.status == Pending
  {
    if data.None? then Off
    else if data.value.status == Pending then Every(DetailPollMs)
    else Off
  }

  function UseAnalyses(): (q: QueryOptions)
    ensures q.queryKey == Lists() && q.refetch == AnalysisListCadence
  {
    QueryOptions(Lists(), AnalysisListCadence)
  }

  function UseAnalysis(id: int): (q: QueryOptions)
    ensures q.queryKey == Detail(id) && q.refetch == AnalysisDetailCadence
  {
    QueryOptions(Detail(id), AnalysisDetailCadence)
  }
}
