/**
 * The virtualised reviews table (frontend/src/widgets/reviews/list/ui/table.tsx): rows of a fixed
 * estimated height, rendered only for the index range the virtualizer reports.
 */
module ReviewTable {
  import opened Domain

  /** `estimateSize: () => 50`; rows are never measured, so every row keeps this height. */
  const EstimateSize: nat := 50
  /** `overscan: 5`. */
  const Overscan: nat := 5

  /** `getTotalSize()`: the height of the spacer holding all rows. */
  function TotalSize(count: nat): (h: nat)
    ensures count > 0 ==> h == RowStart(count - 1) + EstimateSize
    ensures count == 0 ==> h == 0
  {
    count * EstimateSize
  }

  /** `virtualRow.start` of row `i`: the rows above it stacked at their estimated height. */
  function RowStart(i: nat): (start: nat)
    ensures i > 0 ==> start == RowStart(i - 1) + EstimateSize
  {
    i * EstimateSize
  }

  /**
   * The range the library renders around the visible rows `visibleStart..visibleEnd`:
   * widened by the overscan on both sides and clipped to the rows that exist.
   */
  function OverscanRange(count: nat, visibleStart: int, visibleEnd: int): (range: (int, int))
    ensures 0 <= range.0
    ensures range.1 <= count - 1
    ensures range.0 <= visibleStart || range.0 == 0
    ensures visibleEnd <= range.1 || range.1 == count - 1
    ensures range.1 - range.0 <= visibleEnd - visibleStart + 2 * Overscan
  {
    var lo := if visibleStart - Overscan > 0 then visibleStart - Overscan else 0;
    var hi := if visibleEnd + Overscan < count - 1 then visibleEnd + Overscan else count - 1;
    (lo, hi)
  }

  /** A rendered `ReviewRow`: its React key, its review, and its `translateY` offset and height. */
  datatype RenderedRow = RenderedRow(key: nat, review: Review, top: nat, height: nat)

  /**
   * `getVirtualItems().map(...)` for the item range `lo..hi`: one row per index of that range
   * that exists, keyed by its index and placed at its estimated offset.
   */
  function Rows(reviews: seq<Review>, lo: int, hi: int): (rows: seq<RenderedRow>)
    ensures forall k :: 0 <= k < |rows| ==>
      && rows[k].key < |reviews|
      && lo <= rows[k].key <= hi
      && rows[k].review == reviews[rows[k].key]
      && rows[k].top == RowStart(rows[k].key)
      && rows[k].height == EstimateSize
    ensures forall k :: 0 < k < |rows| ==> rows[k].key == rows[k - 1].key + 1
  {
    var first := if lo > 0 then lo else 0;
    var last := if hi < |reviews| - 1 then hi else |reviews| - 1;
    if last < first then []
    else
      seq(last - first + 1, k requires 0 <= k < last - first + 1 =>
        RenderedRow(first + k, reviews[first + k], RowStart(first + k), EstimateSize))
  }

  /** Every existing index of the range is rendered. */
  lemma RowsCoverRange(reviews: seq<Review>, lo: int, hi: int, i: int)
    requires 0 <= i < |reviews| && lo <= i <= hi
    ensures exists k :: 0 <= k < |Rows(reviews, lo, hi)| && Rows(reviews, lo, hi)[k].key == i
  {
    var first := if lo > 0 then lo else 0;
    var rows := Rows(reviews, lo, hi);
    assert rows[i - first].key == i;
  }

  /** Consecutive rows touch without overlapping, and the last one ends inside the spacer. */
  lemma RowsTile(reviews: seq<Review>, lo: int, hi: int)
    ensures var rows := Rows(reviews, lo, hi);
      && (forall k :: 0 < k < |rows| ==> rows[k - 1].top + rows[k - 1].height == rows[k].top)
      && (forall k :: 0 <= k < |rows| ==> rows[k].top + rows[k].height <= TotalSize(|reviews|))
  {
    var rows := Rows(reviews, lo, hi);
    forall k | 0 <= k < |rows| ensures rows[k].top + rows[k].height <= TotalSize(|reviews|) {
      var i := rows[k].key;
      assert rows[k].top + rows[k].height == (i + 1) * EstimateSize;
    }
  }

  /**
   * Row identity is positional: two lists of the same length render the same keys at the same
   * offsets whatever reviews they hold, so a row keeps its key when a different review moves into it.
   */
  lemma RowKeysArePositional(a: seq<Review>, b: seq<Review>, lo: int, hi: int)
    requires |a| == |b|
    ensures |Rows(a, lo, hi)| == |Rows(b, lo, hi)|
    ensures forall k :: 0 <= k < |Rows(a, lo, hi)| ==>
      Rows(a, lo, hi)[k].key == Rows(b, lo, hi)[k].key && Rows(a, lo, hi)[k].top == Rows(b, lo, hi)[k].top
  {
  }

  /** At most one row per index of the range. */
  lemma RowsWithinRange(reviews: seq<Review>, lo: int, hi: int)
    ensures |Rows(reviews, lo, hi)| == 0 || |Rows(reviews, lo, hi)| <= hi - lo + 1
  {
    var rows := Rows(reviews, lo, hi);
    if |rows| > 0 {
      assert rows[|rows| - 1].key == rows[0].key + |rows| - 1 by {
        forall k | 0 <= k < |rows| ensures rows[k].key == rows[0].key + k {
          var first := if lo > 0 then lo else 0;
          assert rows[k].key == first + k;
        }
      }
    }
  }

  /**
   * Windowing: the rows rendered for the overscan range number at most the visible rows plus the
   * overscan on both sides, however many reviews the list holds (an inverted window renders nothing).
   */
  lemma RenderedRowsBounded(reviews: seq<Review>, visibleStart: int, visibleEnd: int)
    ensures var range := OverscanRange(|reviews|, visibleStart, visibleEnd);
      |Rows(reviews, range.0, range.1)| == 0
      || |Rows(reviews, range.0, range.1)| <= visibleEnd - visibleStart + 1 + 2 * Overscan
  {
    var range := OverscanRange(|reviews|, visibleStart, visibleEnd);
    RowsWithinRange(reviews, range.0, range.1);
  }

  /** With the overscan range, every visible row that exists is rendered. */
  lemma VisibleRowsRendered(reviews: seq<Review>, visibleStart: int, visibleEnd: int, i: int)
    requires 0 <= i < |reviews| && visibleStart <= i <= visibleEnd
    ensures var range := OverscanRange(|reviews|, visibleStart, visibleEnd);
      exists k :: 0 <= k < |Rows(reviews, range.0, range.1)| && Rows(reviews, range.0, range.1)[k].key == i
  {
    var range := OverscanRange(|reviews|, visibleStart, visibleEnd);
    RowsCoverRange(reviews, range.0, range.1, i);
  }
}
