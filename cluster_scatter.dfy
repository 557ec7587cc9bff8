/**
 * The cluster scatter chart (frontend/src/widgets/reviews/clusters/ui/clusters.tsx): reviews
 * with coordinates grouped by `cluster_id`, one coloured series per cluster in ascending id order.
 */
module ClusterScatter {
  import opened Wrappers
  import opened Domain
  import opened ReviewCounting
  import opened ClusterColor

  /** A chart point `[x, y, review]`. */
  datatype Point = Point(x: real, y: real, review: Review)

  datatype Series = Series(name: string, color: Color, points: seq<Point>)

  /** The chart option: `{}` without data, otherwise the scatter series. */
  datatype ChartOption = NoOption | Scatter(series: seq<Series>)

  /** The reviews that have coordinates, in order. */
  function WithCoords(rs: seq<Review>): (w: seq<Review>)
    ensures |w| <= |rs|
  {
    if rs == [] then []
    else
      var last := rs[|rs| - 1];
      WithCoords(rs[..|rs| - 1]) + (if last.coords.Some? then [last] else [])
  }

  /** The reviews with coordinates in cluster `id`, in order: the array the grouping builds for `id`. */
  function GroupOf(rs: seq<Review>, id: int): (g: seq<Review>)
    ensures forall k :: 0 <= k < |g| ==> g[k].coords.Some? && g[k].clusterId == id
  {
    if rs == [] then []
    else
      var last := rs[|rs| - 1];
      GroupOf(rs[..|rs| - 1], id) + (if last.coords.Some? && last.clusterId == id then [last] else [])
  }

  lemma {:induction false} WithCoordsMembers(rs: seq<Review>, r: Review)
    ensures r in WithCoords(rs) <==> r in rs && r.coords.Some?
  {
    if rs != [] {
      WithCoordsMembers(rs[..|rs| - 1], r);
      assert rs == rs[..|rs| - 1] + [rs[|rs| - 1]];
    }
  }

  lemma {:induction false} GroupMembers(rs: seq<Review>, id: int, r: Review)
    ensures r in GroupOf(rs, id) <==> r in rs && r.coords.Some? && r.clusterId == id
  {
    if rs != [] {
      GroupMembers(rs[..|rs| - 1], id, r);
      assert rs == rs[..|rs| - 1] + [rs[|rs| - 1]];
    }
  }

  /** The keys of the grouping map in insertion order: each cluster id at its first review with coordinates. */
  function IdsInOrder(rs: seq<Review>): (ids: seq<int>)
    ensures Distinct(ids)
  {
    if rs == [] then []
    else
      var last := rs[|rs| - 1];
      var prev := IdsInOrder(rs[..|rs| - 1]);
      if last.coords.Some? && last.clusterId !in prev then prev + [last.clusterId] else prev
  }

  /** A cluster id is a key of the grouping map exactly when its group is not empty. */
  lemma {:induction false} IdsInOrderMembers(rs: seq<Review>, id: int)
    ensures id in IdsInOrder(rs) <==> GroupOf(rs, id) != []
  {
    if rs != [] {
      IdsInOrderMembers(rs[..|rs| - 1], id);
    }
  }

  /** The `forEach` that fills the `Map<number, Review[]>`: its entries and its key order. */
  method GroupByCluster(rs: seq<Review>) returns (groups: map<int, seq<Review>>, order: seq<int>)
    ensures order == IdsInOrder(rs)
    ensures forall id :: id in groups <==> id in order
    ensures forall id :: id in groups ==> groups[id] == GroupOf(rs, id)
  {
    groups, order := map[], [];
    for i := 0 to |rs|
      invariant order == IdsInOrder(rs[..i])
      invariant forall id :: id in groups <==> id in order
      invariant forall id :: id in groups ==> groups[id] == GroupOf(rs[..i], id)
    {
      ghost var done := rs[..i + 1];
      assert done[..i] == rs[..i];
      var review := rs[i];
      if review.coords.Some? {
        if review.clusterId !in groups {
          IdsInOrderMembers(rs[..i], review.clusterId);
          groups := groups[review.clusterId := []];
          order := order + [review.clusterId];
        }
        groups := groups[review.clusterId := groups[review.clusterId] + [review]];
      }
      assert forall id :: id in groups ==> groups[id] == GroupOf(done, id);
    }
    assert rs[..|rs|] == rs;
  }

  // ---------------------------------------------------------------------------
  // `.sort((a, b) => a - b)`: ascending numeric order
  // ---------------------------------------------------------------------------

  predicate Increasing(s: seq<int>) {
    forall i, j :: 0 <= i < j < |s| ==> s[i] < s[j]
  }

  function InsertInt(x: int, s: seq<int>): seq<int> {
    if s == [] || x < s[0] then [x] + s else [s[0]] + InsertInt(x, s[1..])
  }

  function SortInts(s: seq<int>): seq<int> {
    if s == [] then [] else InsertInt(s[0], SortInts(s[1..]))
  }

  lemma {:induction false} InsertIntPermutes(x: int, s: seq<int>)
    ensures multiset(InsertInt(x, s)) == multiset(s) + multiset{x}
  {
    if s != [] && x >= s[0] {
      assert s == [s[0]] + s[1..];
      InsertIntPermutes(x, s[1..]);
    }
  }

  lemma {:induction false} InsertIntMembers(x: int, s: seq<int>, y: int)
    ensures y in InsertInt(x, s) <==> y == x || y in s
  {
    if s != [] && x >= s[0] {
      InsertIntMembers(x, s[1..], y);
      assert s == [s[0]] + s[1..];
    }
  }

  /** A value below every element of an increasing sequence can go in front of it. */
  lemma ConsIncreasing(a: int, t: seq<int>)
    requires Increasing(t)
    requires forall k :: 0 <= k < |t| ==> a < t[k]
    ensures Increasing([a] + t)
  {
    var r := [a] + t;
    forall i, j | 0 <= i < j < |r| ensures r[i] < r[j] {
      assert r[j] == t[j - 1];
      if i > 0 {
        assert r[i] == t[i - 1];
      }
    }
  }

  lemma {:induction false} InsertIntIncreasing(x: int, s: seq<int>)
    requires Increasing(s) && x !in s
    ensures Increasing(InsertInt(x, s))
  {
    if s != [] && x >= s[0] {
      assert s == [s[0]] + s[1..];
      InsertIntIncreasing(x, s[1..]);
      var t := InsertInt(x, s[1..]);
      forall k | 0 <= k < |t| ensures s[0] < t[k] {
        InsertIntMembers(x, s[1..], t[k]);
      }
      ConsIncreasing(s[0], t);
    }
  }

  lemma InsertIntCorrect(x: int, s: seq<int>)
    requires Increasing(s) && x !in s
    ensures Increasing(InsertInt(x, s))
    ensures multiset(InsertInt(x, s)) == multiset(s) + multiset{x}
  {
    InsertIntPermutes(x, s);
    InsertIntIncreasing(x, s);
  }

  /** Sorting distinct ids yields them in strictly ascending order. */
  lemma {:induction false} SortIntsCorrect(s: seq<int>)
    requires Distinct(s)
    ensures Increasing(SortInts(s))
    ensures multiset(SortInts(s)) == multiset(s)
  {
    if s != [] {
      assert s == [s[0]] + s[1..];
      assert Distinct(s[1..]) by {
        forall i, j | 0 <= i < j < |s[1..]| ensures s[1..][i] != s[1..][j] {
          assert s[1..][i] == s[i + 1] && s[1..][j] == s[j + 1];
        }
      }
      SortIntsCorrect(s[1..]);
      forall k | 0 <= k < |s[1..]| ensures s[1..][k] != s[0] {
        assert s[1..][k] == s[k + 1];
      }
      assert s[0] !in multiset(SortInts(s[1..]));
      InsertIntCorrect(s[0], SortInts(s[1..]));
    }
  }

  // ---------------------------------------------------------------------------
  // Series names: the decimal rendering of the id
  // ---------------------------------------------------------------------------

  function DigitChar(d: int): char
    requires 0 <= d < 10
  {
    ('0' as int + d) as char
  }

  predicate IsDigitChar(c: char) {
    '0' <= c <= '9'
  }

  /** The decimal digits of `n`, most significant first, without leading zeros. */
  function NatDigits(n: nat): (s: string)
    ensures |s| >= 1
    ensures forall i :: 0 <= i < |s| ==> IsDigitChar(s[i])
  {
    if n < 10 then [DigitChar(n)] else NatDigits(n / 10) + [DigitChar(n % 10)]
  }

  function ParseDigits(s: string): nat
    requires forall i :: 0 <= i < |s| ==> IsDigitChar(s[i])
  {
    if s == [] then 0
    else
      assert IsDigitChar(s[|s| - 1]);
      ParseDigits(s[..|s| - 1]) * 10 + (s[|s| - 1] as int - '0' as int)
  }

  lemma {:induction false} ParseNatDigits(n: nat)
    ensures ParseDigits(NatDigits(n)) == n
  {
    if n >= 10 {
      ParseNatDigits(n / 10);
      var s := NatDigits(n);
      assert s[..|s| - 1] == NatDigits(n / 10);
    }
  }

  /** `${clusterId}` for an integer: a minus sign before the digits of a negative id. */
  function IntToString(i: int): (s: string)
    ensures |s| >= 1
  {
    if i < 0 then "-" + NatDigits(-i) else NatDigits(i)
  }

  /** Reading the rendering back gives the id: distinct ids are rendered differently. */
  lemma IntToStringInjective(a: int, b: int)
    requires IntToString(a) == IntToString(b)
    ensures a == b
  {
    var sa, sb := IntToString(a), IntToString(b);
    ParseNatDigits(if a < 0 then -a else a);
    ParseNatDigits(if b < 0 then -b else b);
    if a < 0 {
      assert sb[0] == '-';
      assert sa[1..] == NatDigits(-a) && sb[1..] == NatDigits(-b);
    } else {
      assert sa[0] != '-';
      assert sb[0] != '-';
    }
  }

  const SeriesPrefix := "Кластер "

  function SeriesName(id: int): string {
    SeriesPrefix + IntToString(id)
  }

  lemma SeriesNameInjective(a: int, b: int)
    requires SeriesName(a) == SeriesName(b)
    ensures a == b
  {
    assert SeriesName(a)[|SeriesPrefix|..] == IntToString(a);
    assert SeriesName(b)[|SeriesPrefix|..] == IntToString(b);
    IntToStringInjective(a, b);
  }

  // ---------------------------------------------------------------------------
  // The chart option
  // ---------------------------------------------------------------------------

  function Points(g: seq<Review>): (ps: seq<Point>)
    requires forall k :: 0 <= k < |g| ==> g[k].coords.Some?
    ensures |ps| == |g|
    ensures forall k :: 0 <= k < |g| ==> ps[k] == Point(g[k].coords.value.x, g[k].coords.value.y, g[k])
  {
    seq(|g|, k requires 0 <= k < |g| => Point(g[k].coords.value.x, g[k].coords.value.y, g[k]))
  }

  function SeriesFor(rs: seq<Review>, id: int): Series {
    Series(SeriesName(id), ClusterColorOf(id), Points(GroupOf(rs, id)))
  }

  function SeriesOf(rs: seq<Review>, ids: seq<int>): (ss: seq<Series>)
    ensures |ss| == |ids|
    ensures forall k :: 0 <= k < |ids| ==> ss[k] == SeriesFor(rs, ids[k])
  {
    if ids == [] then [] else [SeriesFor(rs, ids[0])] + SeriesOf(rs, ids[1..])
  }

  /** The series of the chart: one per cluster id that has a review with coordinates, ascending. */
  function ChartSeries(rs: seq<Review>): seq<Series> {
    SeriesOf(rs, SortInts(IdsInOrder(rs)))
  }

  /** Every id of the sorted key order has its group in the grouping map. */
  lemma SortedIdsGrouped(rs: seq<Review>, groups: map<int, seq<Review>>, order: seq<int>)
    requires order == IdsInOrder(rs)
    requires forall id :: id in groups <==> id in order
    requires forall id :: id in groups ==> groups[id] == GroupOf(rs, id)
    ensures forall k :: 0 <= k < |SortInts(order)| ==>
      SortInts(order)[k] in groups && groups[SortInts(order)[k]] == GroupOf(rs, SortInts(order)[k])
  {
    var sorted := SortInts(order);
    SortIntsCorrect(order);
    forall k | 0 <= k < |sorted| ensures sorted[k] in groups {
      assert sorted[k] in multiset(order);
    }
  }

  /** `option`: nothing without data, otherwise the grouped, sorted series. */
  method ScatterOption(reviews: Option<seq<Review>>) returns (opt: ChartOption)
    ensures reviews.None? <==> opt == NoOption
    ensures reviews.Some? ==> opt == Scatter(ChartSeries(reviews.value))
  {
    if reviews.None? {
      return NoOption;
    }
    var rs := reviews.value;
    var groups, order := GroupByCluster(rs);
    var sorted := SortInts(order);
    SortedIdsGrouped(rs, groups, order);
    var series := seq(|sorted|, k requires 0 <= k < |sorted| =>
      Series(SeriesName(sorted[k]), ClusterColorOf(sorted[k]), Points(groups[sorted[k]])));
    assert series == SeriesOf(rs, sorted) by {
      forall k | 0 <= k < |sorted| ensures series[k] == SeriesFor(rs, sorted[k]) {
        assert groups[sorted[k]] == GroupOf(rs, sorted[k]);
      }
    }
    return Scatter(series);
  }

  /** The series ids ascend strictly, cover exactly the clusters with placed reviews, and carry distinct names. */
  lemma ChartSeriesShape(rs: seq<Review>)
    ensures var ids := SortInts(IdsInOrder(rs)); var ss := ChartSeries(rs);
      && Increasing(ids)
      && (forall id :: id in ids <==> exists r :: r in rs && r.coords.Some? && r.clusterId == id)
      && (forall i, j :: 0 <= i < j < |ss| ==> ss[i].name != ss[j].name)
  {
    var ids := SortInts(IdsInOrder(rs));
    SortIntsCorrect(IdsInOrder(rs));
    forall id ensures id in ids <==> exists r :: r in rs && r.coords.Some? && r.clusterId == id {
      assert id in ids <==> id in multiset(ids);
      IdsInOrderMembers(rs, id);
      var g := GroupOf(rs, id);
      if g != [] {
        GroupMembers(rs, id, g[0]);
      }
      if exists r :: r in rs && r.coords.Some? && r.clusterId == id {
        var r :| r in rs && r.coords.Some? && r.clusterId == id;
        GroupMembers(rs, id, r);
      }
    }
    var ss := ChartSeries(rs);
    forall i, j | 0 <= i < j < |ss| ensures ss[i].name != ss[j].name {
      if ss[i].name == ss[j].name {
        SeriesNameInjective(ids[i], ids[j]);
      }
    }
  }

  /** The points of a group carry exactly the group's reviews. */
  lemma PointsReviews(g: seq<Review>, r: Review)
    requires forall k :: 0 <= k < |g| ==> g[k].coords.Some?
    ensures (exists p :: p in Points(g) && p.review == r) <==> r in g
  {
    var ps := Points(g);
    if r in g {
      var m :| 0 <= m < |g| && g[m] == r;
      assert ps[m].review == r;
    }
    if exists p :: p in ps && p.review == r {
      var p :| p in ps && p.review == r;
      var m :| 0 <= m < |ps| && ps[m] == p;
      assert g[m] == r;
    }
  }

  /** A placed review sits in the series of its own cluster and in no other. */
  lemma ReviewInOwnSeries(rs: seq<Review>, k: int, r: Review)
    requires 0 <= k < |ChartSeries(rs)|
    ensures var ids := SortInts(IdsInOrder(rs));
      (exists p :: p in ChartSeries(rs)[k].points && p.review == r)
      <==> r in rs && r.coords.Some? && r.clusterId == ids[k]
  {
    var ids := SortInts(IdsInOrder(rs));
    var g := GroupOf(rs, ids[k]);
    assert ChartSeries(rs)[k].points == Points(g);
    GroupMembers(rs, ids[k], r);
    PointsReviews(g, r);
  }

  function TotalPoints(ss: seq<Series>): nat {
    if ss == [] then 0 else |ss[0].points| + TotalPoints(ss[1..])
  }

  lemma {:induction false} GroupSizeIsCount(rs: seq<Review>, id: int)
    ensures |GroupOf(rs, id)| == CountId(WithCoords(rs), id)
  {
    if rs != [] {
      var init, last := rs[..|rs| - 1], rs[|rs| - 1];
      GroupSizeIsCount(init, id);
      var w := WithCoords(rs);
      if last.coords.Some? {
        assert w == WithCoords(init) + [last];
        assert w[..|w| - 1] == WithCoords(init);
        assert CountId(w, id) == CountId(WithCoords(init), id) + (if last.clusterId == id then 1 else 0);
      } else {
        assert w == WithCoords(init);
      }
    }
  }

  lemma {:induction false} TotalPointsOfSeries(rs: seq<Review>, ids: seq<int>)
    ensures TotalPoints(SeriesOf(rs, ids)) == SumCounts(WithCoords(rs), ids)
  {
    if ids != [] {
      TotalPointsOfSeries(rs, ids[1..]);
      GroupSizeIsCount(rs, ids[0]);
      assert SeriesOf(rs, ids)[1..] == SeriesOf(rs, ids[1..]);
    }
  }

  /** Every review with coordinates is plotted exactly once; reviews without coordinates are not plotted. */
  lemma EveryPlacedReviewPlottedOnce(rs: seq<Review>)
    ensures TotalPoints(ChartSeries(rs)) == |WithCoords(rs)|
  {
    var ids := SortInts(IdsInOrder(rs));
    SortIntsCorrect(IdsInOrder(rs));
    TotalPointsOfSeries(rs, ids);
    assert Distinct(ids);
    SumOverDistinctKeys(WithCoords(rs), ids);
    var w := WithCoords(rs);
    forall i | 0 <= i < |w| ensures w[i].clusterId in (set id | id in ids) {
      var r := w[i];
      WithCoordsMembers(rs, r);
      GroupMembers(rs, r.clusterId, r);
      IdsInOrderMembers(rs, r.clusterId);
      assert r.clusterId in multiset(ids);
    }
    CountInAll(w, set id | id in ids);
  }
}
