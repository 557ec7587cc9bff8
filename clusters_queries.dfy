/** Query keys of clusters (frontend/src/features/clusters/queries.ts). */
module ClustersQueries {
  import opened QueryCore

  function All(): (k: Key)
    ensures |k| == 1 && k[0] == Str("clusters")
  {
    [Str("clusters")]
  }

  function Lists(): (k: Key)
    ensures |k| == 2 && IsPrefix(All(), k) && k[1] == Str("list")
  {
    All() + [Str("list")]
  }

  function List(analysisId: int): (k: Key)
    ensures |k| == 3 && IsPrefix(Lists(), k) && k[2] == Num(analysisId)
  {
    Lists() + [Num(analysisId)]
  }

  function Details(): (k: Key)
    ensures |k| == 2 && IsPrefix(All(), k) && k[1] == Str("detail")
  {
    All() + [Str("detail")]
  }

  function Detail(id: int): (k: Key)
    ensures |k| == 3 && IsPrefix(Details(), k) && k[2] == Num(id)
  {
    Details() + [Num(id)]
  }

  /** Both factories are injective, and a list key never equals a detail key. */
  lemma KeysDistinct(a: int, b: int)
    ensures List(a) == List(b) <==> a == b
    ensures Detail(a) == Detail(b) <==> a == b
    ensures List(a) != Detail(b)
  {
    assert List(a)[2] == Num(a) && Detail(a)[2] == Num(a);
    assert List(a)[1] != Detail(b)[1];
  }

  /** `useClusters` carries no `refetchInterval`. */
  function UseClusters(analysisId: int): (q: QueryOptions)
    ensures q.queryKey == List(analysisId) && q.refetch == NoRefetch
  {
    QueryOptions(List(analysisId), NoRefetch)
  }

  /** `useCluster` carries no `refetchInterval`. */
  function UseCluster(id: int): (q: QueryOptions)
    ensures q.queryKey == Detail(id) && q.refetch == NoRefetch
  {
    QueryOptions(Detail(id), NoRefetch)
  }
}
