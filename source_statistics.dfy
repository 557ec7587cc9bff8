/**
 * The sentiment-statistics card (frontend/src/widgets/reviews/statistics/ui/statistics.tsx):
 * the selected source, the sorted list of distinct sources, the select's options and the
 * per-sentiment bar counts of the reviews shown.
 */
module SourceStatistics {
  import opened Wrappers
  import opened Domain
  import opened ReviewList

  /** The select's value: the first selected key, "all" when it is missing or empty. */
  function SelectedSource(sel: Selection): (src: string)
    ensures src != ""
    ensures src == "all" <==> sel.Keys? && (|sel.keys| == 0 || sel.keys[0] == "" || sel.keys[0] == "all")
    ensures sel.Keys? && |sel.keys| > 0 && sel.keys[0] != "" ==> src == sel.keys[0]
    ensures sel.AllKeys? ==> src == "a"
  {
    match sel
    // `Array.from("all")[0]` spreads the string into its characters
    case AllKeys => "a"
    case Keys(ks) => if |ks| > 0 && ks[0] != "" then ks[0] else "all"
  }

  // ---------------------------------------------------------------------------
  // The default order of `Array.prototype.sort`: lexicographic on characters
  // ---------------------------------------------------------------------------

  predicate StrLess(a: string, b: string)
    decreases |a|
  {
    if a == [] then b != []
    else if b == [] then false
    else a[0] < b[0] || (a[0] == b[0] && StrLess(a[1..], b[1..]))
  }

  lemma {:induction false} StrLessIrreflexive(a: string)
    ensures !StrLess(a, a)
  {
    if a != [] {
      StrLessIrreflexive(a[1..]);
    }
  }

  lemma {:induction false} StrLessTransitive(a: string, b: string, c: string)
    requires StrLess(a, b) && StrLess(b, c)
    ensures StrLess(a, c)
  {
    if a != [] && b != [] && c != [] && a[0] == b[0] && b[0] == c[0] {
      StrLessTransitive(a[1..], b[1..], c[1..]);
    }
  }

  lemma {:induction false} StrLessTotal(a: string, b: string)
    requires a != b
    ensures StrLess(a, b) || StrLess(b, a)
  {
    if a != [] && b != [] && a[0] == b[0] {
      assert a == [a[0]] + a[1..] && b == [b[0]] + b[1..];
      StrLessTotal(a[1..], b[1..]);
    }
  }

  predicate StrictlySorted(s: seq<string>) {
    forall i, j :: 0 <= i < j < |s| ==> StrLess(s[i], s[j])
  }

  predicate DistinctStrings(s: seq<string>) {
    forall i, j :: 0 <= i < j < |s| ==> s[i] != s[j]
  }

  lemma StrictlySortedIsDistinct(s: seq<string>)
    requires StrictlySorted(s)
    ensures DistinctStrings(s)
  {
    forall i, j | 0 <= i < j < |s| ensures s[i] != s[j] {
      StrLessIrreflexive(s[i]);
    }
  }

  /** `new Set(xs)` read back in insertion order: first occurrences only. */
  function Dedup(s: seq<string>): (d: seq<string>)
    ensures DistinctStrings(d)
    ensures forall x :: x in d <==> x in s
  {
    if s == [] then []
    else
      var prev := Dedup(s[..|s| - 1]);
      assert forall x :: x in s <==> x in s[..|s| - 1] || x == s[|s| - 1] by {
        assert s == s[..|s| - 1] + [s[|s| - 1]];
      }
      if s[|s| - 1] in prev then prev else prev + [s[|s| - 1]]
  }

  /** The position of the first occurrence of `x` in `s`. */
  function FirstIndex(s: seq<string>, x: string): (k: nat)
    requires x in s
    ensures k < |s| && s[k] == x && x !in s[..k]
  {
    if s[0] == x then 0 else 1 + FirstIndex(s[1..], x)
  }

  /** Any occurrence with no earlier one is the first occurrence. */
  lemma FirstIndexUnique(s: seq<string>, x: string, k: nat)
    requires k < |s| && s[k] == x && x !in s[..k]
    ensures FirstIndex(s, x) == k
  {
    var f := FirstIndex(s, x);
    assert s[f] == x && s[k] == x;
  }

  /** `Dedup` lists the distinct strings in the order of their first occurrences. */
  lemma {:induction false} DedupOrder(s: seq<string>)
    ensures forall i, j :: 0 <= i < j < |Dedup(s)| ==> FirstIndex(s, Dedup(s)[i]) < FirstIndex(s, Dedup(s)[j])
  {
    if s != [] {
      var init := s[..|s| - 1];
      var prev := Dedup(init);
      DedupOrder(init);
      forall x | x in init ensures FirstIndex(s, x) == FirstIndex(init, x) {
        var k := FirstIndex(init, x);
        assert s[..k] == init[..k];
        FirstIndexUnique(s, x, k);
      }
      var last := s[|s| - 1];
      if last !in prev {
        assert s[..|s| - 1] == init;
        FirstIndexUnique(s, last, |s| - 1);
        assert Dedup(s) == prev + [last];
      }
    }
  }

  function InsertStr(x: string, s: seq<string>): seq<string> {
    if s == [] || StrLess(x, s[0]) then [x] + s else [s[0]] + InsertStr(x, s[1..])
  }

  function SortStrings(s: seq<string>): seq<string> {
    if s == [] then [] else InsertStr(s[0], SortStrings(s[1..]))
  }

  lemma {:induction false} InsertStrPermutes(x: string, s: seq<string>)
    ensures multiset(InsertStr(x, s)) == multiset(s) + multiset{x}
  {
    if s != [] && !StrLess(x, s[0]) {
      InsertStrPermutes(x, s[1..]);
      assert s == [s[0]] + s[1..];
    }
  }

  lemma StrictlySortedCons(h: string, t: seq<string>)
    ensures StrictlySorted([h] + t) <==> (forall y :: y in t ==> StrLess(h, y)) && StrictlySorted(t)
  {
    var r := [h] + t;
    if (forall y :: y in t ==> StrLess(h, y)) && StrictlySorted(t) {
      forall i, j | 0 <= i < j < |r| ensures StrLess(r[i], r[j]) {
        assert r[j] == t[j - 1];
        if i > 0 {
          assert r[i] == t[i - 1];
        }
      }
    }
    if StrictlySorted(r) {
      forall y | y in t ensures StrLess(h, y) {
        var k :| 0 <= k < |t| && t[k] == y;
        assert r[0] == h && r[k + 1] == y;
      }
      forall i, j | 0 <= i < j < |t| ensures StrLess(t[i], t[j]) {
        assert t[i] == r[i + 1] && t[j] == r[j + 1];
      }
    }
  }

  lemma {:induction false} InsertStrSorted(x: string, s: seq<string>)
    requires StrictlySorted(s) && x !in s
    ensures StrictlySorted(InsertStr(x, s))
  {
    if s == [] {
    } else if StrLess(x, s[0]) {
      StrictlySortedCons(x, s);
      forall y | y in s ensures StrLess(x, y) {
        if y != s[0] {
          var k :| 0 <= k < |s| && s[k] == y;
          StrLessTransitive(x, s[0], y);
        }
      }
    } else {
      var t := InsertStr(x, s[1..]);
      assert s == [s[0]] + s[1..];
      StrictlySortedCons(s[0], s[1..]);
      InsertStrSorted(x, s[1..]);
      InsertStrPermutes(x, s[1..]);
      StrLessTotal(x, s[0]);
      forall y | y in t ensures StrLess(s[0], y) {
        assert y in multiset(t);
      }
      StrictlySortedCons(s[0], t);
    }
  }

  /** Sorting distinct strings yields them in strictly increasing order. */
  lemma {:induction false} SortStringsCorrect(s: seq<string>)
    requires DistinctStrings(s)
    ensures StrictlySorted(SortStrings(s))
    ensures multiset(SortStrings(s)) == multiset(s)
  {
    if s != [] {
      assert s == [s[0]] + s[1..];
      assert DistinctStrings(s[1..]) by {
        forall i, j | 0 <= i < j < |s[1..]| ensures s[1..][i] != s[1..][j] {
          assert s[1..][i] == s[i + 1] && s[1..][j] == s[j + 1];
        }
      }
      SortStringsCorrect(s[1..]);
      var t := SortStrings(s[1..]);
      InsertStrPermutes(s[0], t);
      assert s[0] !in t by {
        forall k | 0 <= k < |s[1..]| ensures s[1..][k] != s[0] {
          assert s[1..][k] == s[k + 1];
        }
        assert s[0] !in multiset(s[1..]);
      }
      InsertStrSorted(s[0], t);
    }
  }

  /** The default string order is asymmetric. */
  lemma StrLessAsymmetric(a: string, b: string)
    ensures StrLess(a, b) ==> !StrLess(b, a)
  {
    if StrLess(a, b) && StrLess(b, a) {
      StrLessTransitive(a, b, a);
      StrLessIrreflexive(a);
    }
  }

  /** Two strictly increasing sequences with the same elements are equal: the sorted order is the only one. */
  lemma {:induction false} StrictlySortedUnique(a: seq<string>, b: seq<string>)
    requires StrictlySorted(a) && StrictlySorted(b)
    requires forall x :: x in a <==> x in b
    ensures a == b
  {
    if a != [] {
      assert a[0] in b;
    }
    if b != [] {
      assert b[0] in a;
    }
    if a != [] && b != [] {
      StrictlySortedCons(a[0], a[1..]);
      StrictlySortedCons(b[0], b[1..]);
      assert a == [a[0]] + a[1..] && b == [b[0]] + b[1..];
      assert a[0] == b[0] by {
        assert a[0] in b && b[0] in a;
        StrLessAsymmetric(a[0], b[0]);
      }
      forall x ensures x in a[1..] <==> x in b[1..] {
        StrLessIrreflexive(a[0]);
        assert x in a <==> x == a[0] || x in a[1..];
        assert x in b <==> x == b[0] || x in b[1..];
        if x in a[1..] {
          assert StrLess(a[0], x);
        }
        if x in b[1..] {
          assert StrLess(b[0], x);
        }
      }
      StrictlySortedUnique(a[1..], b[1..]);
    }
  }

  function SourceIds(rs: seq<Review>): (ids: seq<string>)
    ensures |ids| == |rs|
    ensures forall i :: 0 <= i < |rs| ==> ids[i] == rs[i].sourceId
  {
    seq(|rs|, i requires 0 <= i < |rs| => rs[i].sourceId)
  }

  /** `sources`: the distinct `source_id`s in sorted order; no data gives no sources. */
  function Sources(reviews: Option<seq<Review>>): (srcs: seq<string>)
    ensures reviews.None? ==> srcs == []
    ensures StrictlySorted(srcs)
    ensures reviews.Some? ==> forall x :: x in srcs <==> exists r :: r in reviews.value && r.sourceId == x
  {
    if reviews.None? then []
    else
      var ids := SourceIds(reviews.value);
      var d := Dedup(ids);
      SortStringsCorrect(d);
      var srcs := SortStrings(d);
      assert forall x :: x in srcs <==> x in d by {
        forall x ensures x in srcs <==> x in d {
          assert x in srcs <==> x in multiset(srcs);
        }
      }
      assert forall x :: x in ids <==> exists r :: r in reviews.value && r.sourceId == x by {
        forall x ensures x in ids <==> exists r :: r in reviews.value && r.sourceId == x {
          if x in ids {
            var k :| 0 <= k < |ids| && ids[k] == x;
            assert reviews.value[k] in reviews.value;
          }
          if exists r :: r in reviews.value && r.sourceId == x {
            var r :| r in reviews.value && r.sourceId == x;
            var k :| 0 <= k < |reviews.value| && reviews.value[k] == r;
            assert ids[k] == x;
          }
        }
      }
      srcs
  }

  /** An item of the source select. */
  datatype SourceOption = SourceOption(key: string, caption: string)

  const AllSourcesLabel := "Все источники"

  /** `sourceOptions`: the "all" item, then one item per source keyed and labelled by it. */
  function SourceOptions(sources: seq<string>): (opts: seq<SourceOption>)
    ensures |opts| == |sources| + 1
    ensures opts[0] == SourceOption("all", AllSourcesLabel)
    ensures forall i :: 0 <= i < |sources| ==> opts[i + 1] == SourceOption(sources[i], sources[i])
  {
    [SourceOption("all", AllSourcesLabel)] + seq(|sources|, i requires 0 <= i < |sources| => SourceOption(sources[i], sources[i]))
  }

  /**
   * The option keys are pairwise distinct unless some review's source is itself called "all",
   * in which case its item collides with the "all sources" item.
   */
  lemma OptionKeysDistinct(reviews: seq<Review>)
    ensures var opts := SourceOptions(Sources(Some(reviews)));
      (forall i, j :: 0 <= i < j < |opts| ==> opts[i].key != opts[j].key)
      <==> (forall r :: r in reviews ==> r.sourceId != "all")
  {
    var srcs := Sources(Some(reviews));
    var opts := SourceOptions(srcs);
    StrictlySortedIsDistinct(srcs);
    if forall r :: r in reviews ==> r.sourceId != "all" {
      forall i, j | 0 <= i < j < |opts| ensures opts[i].key != opts[j].key {
        if i == 0 {
          assert opts[j].key == srcs[j - 1];
          assert srcs[j - 1] in srcs;
        }
      }
    } else {
      var r :| r in reviews && r.sourceId == "all";
      assert "all" in srcs;
      var k :| 0 <= k < |srcs| && srcs[k] == "all";
      assert opts[k + 1].key == opts[0].key;
    }
  }

  // ---------------------------------------------------------------------------
  // Bar counts
  // ---------------------------------------------------------------------------

  /** The reviews from source `src`, in order. */
  function BySource(rs: seq<Review>, src: string): (f: seq<Review>)
    ensures |f| <= |rs|
    ensures forall x :: x in f <==> x in rs && x.sourceId == src
  {
    if rs == [] then []
    else BySource(rs[..|rs| - 1], src) + (if rs[|rs| - 1].sourceId == src then [rs[|rs| - 1]] else [])
  }

  /** The reviews the chart counts: all of them for "all", otherwise those of the selected source. */
  function Shown(rs: seq<Review>, selected: string): (v: seq<Review>)
    ensures selected == "all" ==> v == rs
    ensures selected != "all" ==> forall x :: x in v <==> x in rs && x.sourceId == selected
  {
    if selected == "all" then rs else BySource(rs, selected)
  }

  /** Number of reviews with sentiment `s`. */
  function Tally(rs: seq<Review>, s: Sentiment): (n: nat)
    ensures n <= |rs|
  {
    if rs == [] then 0 else Tally(rs[..|rs| - 1], s) + (if rs[|rs| - 1].sentiment == s then 1 else 0)
  }

  datatype ChartCounts = ChartCounts(positive: nat, neutral: nat, negative: nat)

  /** `chartData`: the per-sentiment counts of the shown reviews, all zero when there is no data. */
  method ChartData(reviews: Option<seq<Review>>, selected: string) returns (c: ChartCounts)
    ensures reviews.None? ==> c == ChartCounts(0, 0, 0)
    ensures reviews.Some? ==>
      var shown := Shown(reviews.value, selected);
      c.positive == Tally(shown, Positive) && c.neutral == Tally(shown, Neutral) && c.negative == Tally(shown, Negative)
  {
    if reviews.None? {
      return ChartCounts(0, 0, 0);
    }
    var filtered := Shown(reviews.value, selected);
    c := ChartCounts(0, 0, 0);
    for i := 0 to |filtered|
      invariant c == ChartCounts(Tally(filtered[..i], Positive), Tally(filtered[..i], Neutral), Tally(filtered[..i], Negative))
    {
      assert filtered[..i + 1][..i] == filtered[..i];
      var review := filtered[i];
      if review.sentiment == Positive {
        c := c.(positive := c.positive + 1);
      } else if review.sentiment == Neutral {
        c := c.(neutral := c.neutral + 1);
      } else if review.sentiment == Negative {
        c := c.(negative := c.negative + 1);
      }
    }
    assert filtered[..|filtered|] == filtered;
  }

  /** Every shown review lands in exactly one bar. */
  lemma {:induction false} BarsCountEveryReview(rs: seq<Review>)
    ensures Tally(rs, Positive) + Tally(rs, Neutral) + Tally(rs, Negative) == |rs|
  {
    if rs != [] {
      BarsCountEveryReview(rs[..|rs| - 1]);
    }
  }

  /** The sum, over the sources listed in `srcs`, of one bar's count for that source. */
  function SumOverSources(rs: seq<Review>, srcs: seq<string>, s: Sentiment): nat {
    if srcs == [] then 0 else Tally(BySource(rs, srcs[0]), s) + SumOverSources(rs, srcs[1..], s)
  }

  /** The tail of a list of distinct sources is distinct and leaves out its head. */
  lemma DistinctTail(srcs: seq<string>)
    requires srcs != [] && DistinctStrings(srcs)
    ensures DistinctStrings(srcs[1..]) && srcs[0] !in srcs[1..]
  {
    forall i, j | 0 <= i < j < |srcs[1..]| ensures srcs[1..][i] != srcs[1..][j] {
      assert srcs[1..][i] == srcs[i + 1] && srcs[1..][j] == srcs[j + 1];
    }
    forall i | 0 <= i < |srcs[1..]| ensures srcs[1..][i] != srcs[0] {
      assert srcs[1..][i] == srcs[i + 1];
    }
  }

  /** One more review adds one to its own source's bar for its sentiment and changes nothing else. */
  lemma TallyBySourceSnoc(rs: seq<Review>, h: Review, k: string, s: Sentiment)
    ensures Tally(BySource(rs + [h], k), s)
      == Tally(BySource(rs, k), s) + (if h.sourceId == k && h.sentiment == s then 1 else 0)
  {
    var rs' := rs + [h];
    assert rs'[..|rs'| - 1] == rs;
    var b := BySource(rs, k);
    if h.sourceId == k {
      assert BySource(rs', k) == b + [h];
      assert (b + [h])[..|b|] == b;
      assert Tally(b + [h], s) == Tally(b, s) + (if h.sentiment == s then 1 else 0);
    } else {
      assert BySource(rs', k) == b + [] == b;
    }
  }

  lemma {:induction false} SumOverSourcesSnoc(rs: seq<Review>, h: Review, srcs: seq<string>, s: Sentiment)
    requires DistinctStrings(srcs)
    ensures SumOverSources(rs + [h], srcs, s)
      == SumOverSources(rs, srcs, s) + (if h.sourceId in srcs && h.sentiment == s then 1 else 0)
  {
    if srcs != [] {
      DistinctTail(srcs);
      SumOverSourcesSnoc(rs, h, srcs[1..], s);
      TallyBySourceSnoc(rs, h, srcs[0], s);
      assert srcs == [srcs[0]] + srcs[1..];
      assert h.sourceId in srcs <==> h.sourceId == srcs[0] || h.sourceId in srcs[1..];
    }
  }

  /**
   * The per-source charts add up to the all-sources chart: for a list of distinct sources
   * that names every review's source, the per-source counts of each bar sum to its overall count.
   */
  lemma {:induction false} SourceChartsSumToAll(rs: seq<Review>, srcs: seq<string>, s: Sentiment)
    requires DistinctStrings(srcs)
    requires forall r :: r in rs ==> r.sourceId in srcs
    ensures SumOverSources(rs, srcs, s) == Tally(Shown(rs, "all"), s)
  {
    if rs == [] {
      SumOverSourcesEmpty(srcs, s);
    } else {
      var init := rs[..|rs| - 1];
      assert rs == init + [rs[|rs| - 1]];
      SourceChartsSumToAll(init, srcs, s);
      SumOverSourcesSnoc(init, rs[|rs| - 1], srcs, s);
    }
  }

  lemma {:induction false} SumOverSourcesEmpty(srcs: seq<string>, s: Sentiment)
    ensures SumOverSources([], srcs, s) == 0
  {
    if srcs != [] {
      SumOverSourcesEmpty(srcs[1..], s);
    }
  }

  /** In particular the sources the select offers partition the reviews: their charts add up to "all". */
  lemma SelectSourcesPartitionChart(rs: seq<Review>, s: Sentiment)
    ensures SumOverSources(rs, Sources(Some(rs)), s) == Tally(Shown(rs, "all"), s)
  {
    var srcs := Sources(Some(rs));
    StrictlySortedIsDistinct(srcs);
    SourceChartsSumToAll(rs, srcs, s);
  }
}
