/** Counting reviews by `cluster_id`, shared by the per-cluster stats and the scatter grouping. */
module ReviewCounting {
  import opened Domain

  /** Number of reviews whose `cluster_id` is `id`. */
  function CountId(rs: seq<Review>, id: int): (n: nat)
    ensures n <= |rs|
  {
    if rs == [] then 0
    else CountId(rs[..|rs| - 1], id) + (if rs[|rs| - 1].clusterId == id then 1 else 0)
  }

  /** Number of reviews whose `cluster_id` is one of `ids`. */
  function CountIn(rs: seq<Review>, ids: set<int>): (n: nat)
    ensures n <= |rs|
  {
    if rs == [] then 0
    else CountIn(rs[..|rs| - 1], ids) + (if rs[|rs| - 1].clusterId in ids then 1 else 0)
  }

  predicate Distinct(keys: seq<int>) {
    forall i, j :: 0 <= i < j < |keys| ==> keys[i] != keys[j]
  }

  /** The sum of the per-id counts over `keys`. */
  function SumCounts(rs: seq<Review>, keys: seq<int>): nat {
    if keys == [] then 0 else CountId(rs, keys[0]) + SumCounts(rs, keys[1..])
  }

  lemma {:induction false} CountInSplit(rs: seq<Review>, k: int, ids: set<int>)
    requires k !in ids
    ensures CountIn(rs, {k} + ids) == CountId(rs, k) + CountIn(rs, ids)
  {
    if rs != [] {
      CountInSplit(rs[..|rs| - 1], k, ids);
    }
  }

  /** Summing the counts of distinct ids counts each review whose id is among them exactly once. */
  lemma {:induction false} SumOverDistinctKeys(rs: seq<Review>, keys: seq<int>)
    requires Distinct(keys)
    ensures SumCounts(rs, keys) == CountIn(rs, set k | k in keys)
  {
    if keys == [] {
      assert (set k | k in keys) == {};
      CountInEmpty(rs);
    } else {
      SumOverDistinctKeys(rs, keys[1..]);
      var rest := set k | k in keys[1..];
      assert (set k | k in keys) == {keys[0]} + rest;
      CountInSplit(rs, keys[0], rest);
    }
  }

  lemma {:induction false} CountInEmpty(rs: seq<Review>)
    ensures CountIn(rs, {}) == 0
  {
    if rs != [] {
      CountInEmpty(rs[..|rs| - 1]);
    }
  }

  /** Every review is counted exactly when every review's id is among `ids`. */
  lemma {:induction false} CountInAll(rs: seq<Review>, ids: set<int>)
    ensures CountIn(rs, ids) == |rs| <==> forall i :: 0 <= i < |rs| ==> rs[i].clusterId in ids
  {
    if rs != [] {
      var init := rs[..|rs| - 1];
      CountInAll(init, ids);
      if forall i :: 0 <= i < |rs| ==> rs[i].clusterId in ids {
        assert forall i :: 0 <= i < |init| ==> init[i].clusterId in ids;
      }
      if CountIn(rs, ids) == |rs| {
        forall i | 0 <= i < |rs| ensures rs[i].clusterId in ids {
          if i < |rs| - 1 {
            assert init[i] == rs[i];
          }
        }
      }
    }
  }
}
