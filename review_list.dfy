/**
 * The filter-sort pipeline of the review list
 * (`filteredReviews` in frontend/src/widgets/reviews/list/ui/list.tsx).
 */
module ReviewList {
  import opened Wrappers
  import opened Domain
  import opened TextMatch

  /** HeroUI's `SharedSelection`: the string "all", or a set of keys iterated in insertion order. */
  datatype Selection = AllKeys | Keys(keys: seq<string>)

  /** The debounced filter inputs. */
  datatype Criteria = Criteria(search: string, sourceQuery: string, sentiments: Selection)

  datatype SortOrder = ConfidenceDesc | ConfidenceAsc

  /** Case-insensitive substring match on `text`. */
  predicate TextMatches(r: Review, search: string) {
    Includes(Lower(r.text), Lower(search))
  }

  /** Case-insensitive substring match on `source_id`. */
  predicate SourceMatches(r: Review, query: string) {
    Includes(Lower(r.sourceId), Lower(query))
  }

  /** The sentiment filter applies only when the selection is neither "all" nor empty. */
  predicate SentimentFilterActive(sel: Selection) {
    sel.Keys? && |sel.keys| > 0
  }

  /** A review survives every active filter: the three filters compose by AND. */
  predicate Keeps(r: Review, c: Criteria) {
    && (c.search != "" ==> TextMatches(r, c.search))
    && (c.sourceQuery != "" ==> SourceMatches(r, c.sourceQuery))
    && (SentimentFilterActive(c.sentiments) ==> SentimentName(r.sentiment) in c.sentiments.keys)
  }

  /** `Array.prototype.filter`: the elements satisfying `p`, in their original order. */
  function Filter(s: seq<Review>, p: Review -> bool): (r: seq<Review>)
    ensures |r| <= |s|
    ensures forall x :: x in r <==> x in s && p(x)
  {
    if s == [] then [] else (if p(s[0]) then [s[0]] else []) + Filter(s[1..], p)
  }

  /** The sub-sequence of the input that every active filter keeps. */
  function Kept(s: seq<Review>, c: Criteria): seq<Review> {
    Filter(s, x => Keeps(x, c))
  }

  lemma {:induction false} FilterExtensional(s: seq<Review>, p: Review -> bool, q: Review -> bool)
    requires forall x :: p(x) == q(x)
    ensures Filter(s, p) == Filter(s, q)
  {
    if s != [] {
      FilterExtensional(s[1..], p, q);
    }
  }

  /** Filtering by `p` and then by `q` is filtering once by their conjunction. */
  lemma {:induction false} FilterTwice(s: seq<Review>, p: Review -> bool, q: Review -> bool, pq: Review -> bool)
    requires forall x :: pq(x) == (p(x) && q(x))
    ensures Filter(Filter(s, p), q) == Filter(s, pq)
  {
    if s != [] {
      FilterTwice(s[1..], p, q, pq);
      var t := Filter(s[1..], p);
      if p(s[0]) {
        assert Filter(s, p) == [s[0]] + t;
        assert ([s[0]] + t)[1..] == t;
      } else {
        assert Filter(s, p) == t;
      }
    }
  }

  lemma {:induction false} FilterKeepsAll(s: seq<Review>, p: Review -> bool)
    requires forall x :: p(x)
    ensures Filter(s, p) == s
  {
    if s != [] {
      FilterKeepsAll(s[1..], p);
    }
  }

  /** An empty query would keep every review even without the guard in front of it. */
  lemma EmptyQueriesKeepEverything(r: Review)
    ensures TextMatches(r, "") && SourceMatches(r, "")
  {
    assert Lower("") == "";
    IncludesEmpty(Lower(r.text));
    IncludesEmpty(Lower(r.sourceId));
  }

  /** The sort key the selection names: the first key, if it is one of the two known sort keys. */
  function SortOrderOf(sel: Selection): (o: Option<SortOrder>)
    ensures o == Some(ConfidenceDesc) <==> sel.Keys? && |sel.keys| > 0 && sel.keys[0] == "confidence-desc"
    ensures o == Some(ConfidenceAsc) <==> sel.Keys? && |sel.keys| > 0 && sel.keys[0] == "confidence-asc"
  {
    if sel.AllKeys? || |sel.keys| == 0 then None
    else if sel.keys[0] == "confidence-desc" then Some(ConfidenceDesc)
    else if sel.keys[0] == "confidence-asc" then Some(ConfidenceAsc)
    else None
  }

  /** Sorting ascending by this key is sorting by the comparator the order names. */
  function SortKey(r: Review, o: SortOrder): real {
    if o == ConfidenceDesc then -r.confidence else r.confidence
  }

  predicate SortedBy(s: seq<Review>, o: SortOrder) {
    forall i, j :: 0 <= i < j < |s| ==> SortKey(s[i], o) <= SortKey(s[j], o)
  }

  /** The reviews of `s` whose confidence is `v`, in their order in `s`. */
  function WithConfidence(s: seq<Review>, v: real): seq<Review> {
    if s == [] then [] else (if s[0].confidence == v then [s[0]] else []) + WithConfidence(s[1..], v)
  }

  /** Insert `x` before the first element that does not sort strictly before it. */
  function Insert(x: Review, s: seq<Review>, o: SortOrder): seq<Review> {
    if s == [] || SortKey(x, o) <= SortKey(s[0], o) then [x] + s
    else [s[0]] + Insert(x, s[1..], o)
  }

  lemma {:induction false} InsertPermutes(x: Review, s: seq<Review>, o: SortOrder)
    ensures multiset(Insert(x, s, o)) == multiset(s) + multiset{x}
  {
    if s != [] && SortKey(x, o) > SortKey(s[0], o) {
      InsertPermutes(x, s[1..], o);
      assert s == [s[0]] + s[1..];
    }
  }

  lemma SortedConsIntro(h: Review, t: seq<Review>, o: SortOrder)
    requires forall y :: y in t ==> SortKey(h, o) <= SortKey(y, o)
    requires SortedBy(t, o)
    ensures SortedBy([h] + t, o)
  {
    var r := [h] + t;
    forall i, j | 0 <= i < j < |r| ensures SortKey(r[i], o) <= SortKey(r[j], o) {
      assert r[j] == t[j - 1];
      if i > 0 {
        assert r[i] == t[i - 1];
      }
    }
  }

  lemma SortedConsElim(h: Review, t: seq<Review>, o: SortOrder)
    requires SortedBy([h] + t, o)
    ensures forall y :: y in t ==> SortKey(h, o) <= SortKey(y, o)
    ensures SortedBy(t, o)
  {
    var r := [h] + t;
    forall y | y in t ensures SortKey(h, o) <= SortKey(y, o) {
      var k :| 0 <= k < |t| && t[k] == y;
      assert r[0] == h && r[k + 1] == y;
      assert SortKey(r[0], o) <= SortKey(r[k + 1], o);
    }
    forall i, j | 0 <= i < j < |t| ensures SortKey(t[i], o) <= SortKey(t[j], o) {
      assert t[i] == r[i + 1] && t[j] == r[j + 1];
    }
  }

  lemma SortedCons(h: Review, t: seq<Review>, o: SortOrder)
    ensures SortedBy([h] + t, o) <==>
      (forall y :: y in t ==> SortKey(h, o) <= SortKey(y, o)) && SortedBy(t, o)
  {
    if (forall y :: y in t ==> SortKey(h, o) <= SortKey(y, o)) && SortedBy(t, o) {
      SortedConsIntro(h, t, o);
    }
    if SortedBy([h] + t, o) {
      SortedConsElim(h, t, o);
    }
  }

  lemma {:induction false} InsertSorted(x: Review, s: seq<Review>, o: SortOrder)
    requires SortedBy(s, o)
    ensures SortedBy(Insert(x, s, o), o)
  {
    if s == [] || SortKey(x, o) <= SortKey(s[0], o) {
      forall y | y in s ensures SortKey(x, o) <= SortKey(y, o) {
        var k :| 0 <= k < |s| && s[k] == y;
        assert k == 0 || SortKey(s[0], o) <= SortKey(s[k], o);
      }
      SortedCons(x, s, o);
    } else {
      assert s == [s[0]] + s[1..];
      SortedCons(s[0], s[1..], o);
      InsertSorted(x, s[1..], o);
      InsertPermutes(x, s[1..], o);
      var t := Insert(x, s[1..], o);
      forall y | y in t ensures SortKey(s[0], o) <= SortKey(y, o) {
        assert y in multiset(t);
      }
      SortedCons(s[0], t, o);
    }
  }

  /** Inserting `x` adds it in front of every equal-confidence element already present. */
  lemma {:induction false} InsertKeepsTies(x: Review, s: seq<Review>, o: SortOrder, v: real)
    ensures WithConfidence(Insert(x, s, o), v) == (if x.confidence == v then [x] else []) + WithConfidence(s, v)
  {
    if s == [] || SortKey(x, o) <= SortKey(s[0], o) {
      assert ([x] + s)[1..] == s;
    } else {
      InsertKeepsTies(x, s[1..], o, v);
      var t := Insert(x, s[1..], o);
      assert ([s[0]] + t)[1..] == t;
      assert s[0].confidence != x.confidence;
    }
  }

  /** A stable sort: sorted by the key, a permutation, and ties kept in their input order. */
  function StableSort(s: seq<Review>, o: SortOrder): (r: seq<Review>)
    ensures SortedBy(r, o)
    ensures multiset(r) == multiset(s)
    ensures forall v :: WithConfidence(r, v) == WithConfidence(s, v)
  {
    if s == [] then []
    else
      var t := StableSort(s[1..], o);
      InsertSorted(s[0], t, o);
      InsertPermutes(s[0], t, o);
      assert s == [s[0]] + s[1..];
      assert forall v :: WithConfidence(Insert(s[0], t, o), v) == WithConfidence(s, v) by {
        forall v ensures WithConfidence(Insert(s[0], t, o), v) == WithConfidence(s, v) {
          InsertKeepsTies(s[0], t, o, v);
        }
      }
      Insert(s[0], t, o)
  }

  lemma {:induction false} WithConfidenceMembers(s: seq<Review>, v: real, y: Review)
    ensures y in WithConfidence(s, v) <==> y in s && y.confidence == v
  {
    if s != [] {
      WithConfidenceMembers(s[1..], v, y);
      assert s == [s[0]] + s[1..];
    }
  }

  /** The first element of a sorted sequence has the least key. */
  lemma FirstKeyLeast(s: seq<Review>, o: SortOrder, y: Review)
    requires SortedBy(s, o) && y in s
    ensures SortKey(s[0], o) <= SortKey(y, o)
  {
    var k :| 0 <= k < |s| && s[k] == y;
    assert k == 0 || SortKey(s[0], o) <= SortKey(s[k], o);
  }

  /** Two sorted sequences with the same equal-confidence runs start with the same review. */
  lemma HeadsEqual(a: seq<Review>, b: seq<Review>, o: SortOrder)
    requires a != [] && b != []
    requires SortedBy(a, o) && SortedBy(b, o)
    requires forall v :: WithConfidence(a, v) == WithConfidence(b, v)
    ensures a[0] == b[0]
  {
    var v0, w0 := a[0].confidence, b[0].confidence;
    WithConfidenceMembers(a, v0, a[0]);
    WithConfidenceMembers(b, v0, a[0]);
    WithConfidenceMembers(b, w0, b[0]);
    WithConfidenceMembers(a, w0, b[0]);
    FirstKeyLeast(b, o, a[0]);
    FirstKeyLeast(a, o, b[0]);
    assert w0 == v0;
    assert WithConfidence(a, v0)[0] == a[0];
    assert WithConfidence(b, v0)[0] == b[0];
  }

  /** Removing the same first review from both keeps the equal-confidence runs equal. */
  lemma TailsAgree(a: seq<Review>, b: seq<Review>)
    requires a != [] && b != [] && a[0] == b[0]
    requires forall v :: WithConfidence(a, v) == WithConfidence(b, v)
    ensures forall v :: WithConfidence(a[1..], v) == WithConfidence(b[1..], v)
  {
    forall v ensures WithConfidence(a[1..], v) == WithConfidence(b[1..], v) {
      assert WithConfidence(a, v) == WithConfidence(b, v);
      var ta, tb := WithConfidence(a[1..], v), WithConfidence(b[1..], v);
      if a[0].confidence == v {
        assert WithConfidence(a, v) == [a[0]] + ta;
        assert WithConfidence(b, v) == [a[0]] + tb;
        assert ([a[0]] + ta)[1..] == ta;
        assert ([a[0]] + tb)[1..] == tb;
      } else {
        assert WithConfidence(a, v) == [] + ta == ta;
        assert WithConfidence(b, v) == [] + tb == tb;
      }
    }
  }

  /**
   * A sequence that is sorted by the key and has the same equal-confidence runs as another
   * sorted sequence is that sequence: a stable sort has exactly one possible result, whichever
   * algorithm computes it.
   */
  lemma {:induction false} StableSortIsUnique(a: seq<Review>, b: seq<Review>, o: SortOrder)
    requires SortedBy(a, o) && SortedBy(b, o)
    requires forall v :: WithConfidence(a, v) == WithConfidence(b, v)
    ensures a == b
    decreases |a|
  {
    if a == [] || b == [] {
      if a != [] {
        WithConfidenceMembers(a, a[0].confidence, a[0]);
      }
      if b != [] {
        WithConfidenceMembers(b, b[0].confidence, b[0]);
      }
    } else {
      HeadsEqual(a, b, o);
      TailsAgree(a, b);
      assert SortedBy(a[1..], o) by { SortedCons(a[0], a[1..], o); assert a == [a[0]] + a[1..]; }
      assert SortedBy(b[1..], o) by { SortedCons(b[0], b[1..], o); assert b == [b[0]] + b[1..]; }
      StableSortIsUnique(a[1..], b[1..], o);
      assert a == [a[0]] + a[1..] && b == [b[0]] + b[1..];
    }
  }

  /**
   * `filteredReviews`: copy, narrow by each active filter in turn, then sort the copy
   * when the first selected sort key is a known one.
   */
  method FilteredReviews(reviews: Option<seq<Review>>, c: Criteria, sort: Selection)
    returns (result: seq<Review>)
    ensures reviews.None? ==> result == []
    ensures reviews.Some? ==> multiset(result) == multiset(Kept(reviews.value, c))
    ensures reviews.Some? && SortOrderOf(sort).None? ==> result == Kept(reviews.value, c)
    ensures reviews.Some? && SortOrderOf(sort).Some? ==>
      && SortedBy(result, SortOrderOf(sort).value)
      && forall v :: WithConfidence(result, v) == WithConfidence(Kept(reviews.value, c), v)
  {
    if reviews.None? {
      return [];
    }
    var all := reviews.value;
    result := all;

    ghost var p1 := (r: Review) => c.search != "" ==> TextMatches(r, c.search);
    ghost var p2 := (r: Review) => p1(r) && (c.sourceQuery != "" ==> SourceMatches(r, c.sourceQuery));
    ghost var p3 := (r: Review) => Keeps(r, c);

    if c.search != "" {
      var lowerSearch := Lower(c.search);
      var q := (r: Review) => Includes(Lower(r.text), lowerSearch);
      FilterTwice(all, x => true, q, p1);
      FilterKeepsAll(all, x => true);
      result := Filter(result, q);
    } else {
      FilterKeepsAll(all, p1);
    }
    assert result == Filter(all, p1);

    if c.sourceQuery != "" {
      var lowerSourceId := Lower(c.sourceQuery);
      var q := (r: Review) => Includes(Lower(r.sourceId), lowerSourceId);
      FilterTwice(all, p1, q, p2);
      result := Filter(result, q);
    } else {
      FilterExtensional(all, p1, p2);
    }
    assert result == Filter(all, p2);

    if SentimentFilterActive(c.sentiments) {
      var selected := c.sentiments.keys;
      var q := (r: Review) => SentimentName(r.sentiment) in selected;
      FilterTwice(all, p2, q, p3);
      result := Filter(result, q);
    } else {
      FilterExtensional(all, p2, p3);
    }
    FilterExtensional(all, p3, x => Keeps(x, c));
    assert result == Kept(all, c);

    var order := SortOrderOf(sort);
    if order.Some? {
      result := StableSort(result, order.value);
    }
  }
}
