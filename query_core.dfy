/**
 * Vocabulary shared by the three query modules: hierarchical cache keys,
 * the prefix matching the query cache applies to them, and what a query
 * definition says about polling.
 */
module QueryCore {

  /** One segment of a query key: the factories use string literals and numeric ids. */
  datatype KeyPart = Str(s: string) | Num(n: int)

  type Key = seq<KeyPart>

  /** Partial key matching: `invalidateQueries`/`removeQueries` affect every key that extends the filter key. */
  predicate IsPrefix(prefix: Key, k: Key) {
    |prefix| <= |k| && k[..|prefix|] == prefix
  }

  /** What a `refetchInterval` callback returns: `false` (no polling) or a period in milliseconds. */
  datatype RefetchInterval = Off | Every(ms: nat)

  /** Which `refetchInterval` callback a query definition carries, if any. */
  datatype RefetchRule = NoRefetch | AnalysisListCadence | AnalysisDetailCadence

  /** The part of a `useQuery` definition the model keeps. */
  datatype QueryOptions = QueryOptions(queryKey: Key, refetch: RefetchRule)
}
