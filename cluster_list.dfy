/**
 * Per-cluster sentiment counts and the view precedence of the clusters list
 * (frontend/src/widgets/clusters/list/ui/list.tsx).
 */
module ClusterList {
  import opened Wrappers
  import opened Domain
  import opened ReviewCounting

  /** `{ total, positive, neutral, negative }` as the widget builds it. */
  datatype SentimentCounts = SentimentCounts(total: nat, positive: nat, neutral: nat, negative: nat)

  const Zero := SentimentCounts(0, 0, 0, 0)

  /** `stat.total += 1; stat[review.sentiment] += 1`. */
  function Bump(c: SentimentCounts, s: Sentiment): (d: SentimentCounts)
    ensures d.total == c.total + 1
    ensures d.positive + d.neutral + d.negative == c.positive + c.neutral + c.negative + 1
    ensures d.positive == c.positive + (if s == Positive then 1 else 0)
    ensures d.neutral == c.neutral + (if s == Neutral then 1 else 0)
    ensures d.negative == c.negative + (if s == Negative then 1 else 0)
  {
    match s
    case Positive => c.(total := c.total + 1, positive := c.positive + 1)
    case Neutral => c.(total := c.total + 1, neutral := c.neutral + 1)
    case Negative => c.(total := c.total + 1, negative := c.negative + 1)
  }

  /** Number of reviews of cluster `id` with sentiment `s`. */
  function CountSentiment(rs: seq<Review>, id: int, s: Sentiment): nat {
    if rs == [] then 0
    else
      var last := rs[|rs| - 1];
      CountSentiment(rs[..|rs| - 1], id, s) + (if last.clusterId == id && last.sentiment == s then 1 else 0)
  }

  /** The counts one pass over `rs` accumulates for cluster `id`. */
  function CountsFor(rs: seq<Review>, id: int): (c: SentimentCounts)
    ensures c.total == c.positive + c.neutral + c.negative
    ensures c.total == CountId(rs, id)
    ensures c.positive == CountSentiment(rs, id, Positive)
    ensures c.neutral == CountSentiment(rs, id, Neutral)
    ensures c.negative == CountSentiment(rs, id, Negative)
  {
    if rs == [] then Zero
    else
      var prev := CountsFor(rs[..|rs| - 1], id);
      if rs[|rs| - 1].clusterId == id then Bump(prev, rs[|rs| - 1].sentiment) else prev
  }

  function ClusterIds(cs: seq<Cluster>): set<int> {
    set c | c in cs :: c.id
  }

  /**
   * `clusterStats`: every cluster starts at zero, then each review whose `cluster_id` names
   * a cluster bumps that cluster's counts; any other review (including id -1) is skipped.
   */
  method ClusterStats(clusters: Option<seq<Cluster>>, reviews: Option<seq<Review>>)
    returns (stats: map<int, SentimentCounts>)
    ensures clusters.None? || reviews.None? ==> stats == map[]
    ensures clusters.Some? && reviews.Some? ==> stats.Keys == ClusterIds(clusters.value)
    ensures clusters.Some? && reviews.Some? ==>
      forall id :: id in stats ==> stats[id] == CountsFor(reviews.value, id)
  {
    if clusters.None? || reviews.None? {
      return map[];
    }
    var cs, rs := clusters.value, reviews.value;
    stats := map[];
    for i := 0 to |cs|
      invariant stats.Keys == ClusterIds(cs[..i])
      invariant forall id :: id in stats ==> stats[id] == Zero
    {
      assert cs[..i + 1] == cs[..i] + [cs[i]];
      stats := stats[cs[i].id := Zero];
    }
    assert cs[..|cs|] == cs;
    for j := 0 to |rs|
      invariant stats.Keys == ClusterIds(cs)
      invariant forall id :: id in stats ==> stats[id] == CountsFor(rs[..j], id)
    {
      assert rs[..j + 1][..j] == rs[..j];
      var review := rs[j];
      if review.clusterId in stats {
        stats := stats[review.clusterId := Bump(stats[review.clusterId], review.sentiment)];
      }
    }
    assert rs[..|rs|] == rs;
  }

  /** The sum of the `total`s of the clusters listed in `ids`. */
  function SumTotals(stats: map<int, SentimentCounts>, ids: seq<int>): nat
    requires forall i :: 0 <= i < |ids| ==> ids[i] in stats
  {
    if ids == [] then 0
    else
      stats[ids[0]].total + SumTotals(stats, ids[1..])
  }

  lemma {:induction false} SumTotalsIsSumCounts(stats: map<int, SentimentCounts>, rs: seq<Review>, ids: seq<int>)
    requires forall i :: 0 <= i < |ids| ==> ids[i] in stats && stats[ids[i]] == CountsFor(rs, ids[i])
    ensures SumTotals(stats, ids) == SumCounts(rs, ids)
  {
    if ids != [] {
      SumTotalsIsSumCounts(stats, rs, ids[1..]);
    }
  }

  /**
   * Summed over all clusters (each id listed once), the totals count at most every review,
   * and all of them exactly when every review's `cluster_id` is a cluster id.
   */
  lemma TotalsCoverMatchedReviews(stats: map<int, SentimentCounts>, rs: seq<Review>, ids: seq<int>)
    requires Distinct(ids) && (set k | k in ids) == stats.Keys
    requires forall id :: id in stats ==> stats[id] == CountsFor(rs, id)
    ensures SumTotals(stats, ids) <= |rs|
    ensures SumTotals(stats, ids) == |rs| <==> forall i :: 0 <= i < |rs| ==> rs[i].clusterId in stats
  {
    assert forall i :: 0 <= i < |ids| ==> ids[i] in stats;
    SumTotalsIsSumCounts(stats, rs, ids);
    SumOverDistinctKeys(rs, ids);
    CountInAll(rs, stats.Keys);
  }

  /** A card of the grid: the cluster and the counts it shows. */
  datatype Card = Card(cluster: Cluster, stats: SentimentCounts)

  /** The grid: one card per cluster, in order, with all-zero counts for a cluster missing from the map. */
  function Cards(cs: seq<Cluster>, stats: map<int, SentimentCounts>): (cards: seq<Card>)
    ensures |cards| == |cs|
    ensures forall i :: 0 <= i < |cs| ==> cards[i].cluster == cs[i]
    ensures forall i :: 0 <= i < |cs| && cs[i].id in stats ==> cards[i].stats == stats[cs[i].id]
    ensures forall i :: 0 <= i < |cs| && cs[i].id !in stats ==> cards[i].stats == Zero
  {
    seq(|cs|, i requires 0 <= i < |cs| =>
      Card(cs[i], if cs[i].id in stats then stats[cs[i].id] else Zero))
  }

  /** Status of a query as the hook reports it. */
  datatype QueryStatus = QueryPending | QueryError | QuerySuccess

  datatype ClustersView = Loading | ErrorPanel | NoClusters | Grid(cards: seq<Card>)

  /** Loading if either query is pending, else an error if either failed, else the clusters. */
  function ClustersListView(
    clustersStatus: QueryStatus, reviewsStatus: QueryStatus,
    clusters: Option<seq<Cluster>>, stats: map<int, SentimentCounts>): (v: ClustersView)
    requires clustersStatus == QuerySuccess ==> clusters.Some?
    ensures v == Loading <==> clustersStatus == QueryPending || reviewsStatus == QueryPending
    ensures v == ErrorPanel <==>
      clustersStatus != QueryPending && reviewsStatus != QueryPending &&
      (clustersStatus == QueryError || reviewsStatus == QueryError)
    ensures v.NoClusters? || v.Grid? ==>
      clustersStatus == QuerySuccess && reviewsStatus == QuerySuccess
    ensures v.NoClusters? <==> v != Loading && v != ErrorPanel && |clusters.value| == 0
    ensures v.Grid? ==> v.cards == Cards(clusters.value, stats) && |v.cards| > 0
  {
    if clustersStatus == QueryPending || reviewsStatus == QueryPending then Loading
    else if clustersStatus == QueryError || reviewsStatus == QueryError then ErrorPanel
    else
      assert clustersStatus == QuerySuccess && reviewsStatus == QuerySuccess;
      if |clusters.value| == 0 then NoClusters else Grid(Cards(clusters.value, stats))
  }

  /** With both queries loaded the zero fallback agrees with the counted stats: every card shows its cluster's counts. */
  lemma LoadedCardsShowCounts(cs: seq<Cluster>, rs: seq<Review>, stats: map<int, SentimentCounts>)
    requires stats.Keys == ClusterIds(cs)
    requires forall id :: id in stats ==> stats[id] == CountsFor(rs, id)
    ensures forall i :: 0 <= i < |cs| ==> Cards(cs, stats)[i].stats == CountsFor(rs, cs[i].id)
  {
    forall i | 0 <= i < |cs| ensures cs[i].id in stats {
      assert cs[i] in cs;
    }
  }
}
