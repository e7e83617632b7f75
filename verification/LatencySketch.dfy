/** The mergeable latency sketch: counts per logarithmic bucket, a nearest-rank
    95th percentile, a binary form, and the query merger over encoded sketches. */
module LatencySketch {
  import opened Choice
  import opened Wrappers
  import opened Varint
  import opened Records
  import opened MapSums
  import opened LogBuckets

  type Bins = map<int, nat>

  const MAX_UINT64 := TWO_64 - 1
  const FORMAT_VERSION: Byte := 1

  // ----- counts below a bucket -----

  function UpTo(bins: Bins, key: int): Bins {
    map k | k in bins && k <= key :: bins[k]
  }

  /** How many values lie in buckets up to `key`. */
  ghost function CountUpTo(bins: Bins, key: int): nat {
    Sum(UpTo(bins, key))
  }

  lemma CountUpToUpdate(bins: Bins, k: int, v: nat, key: int)
    ensures CountUpTo(bins[k := v], key) + (if k <= key then Get(bins, k) else 0) == CountUpTo(bins, key) + (if k <= key then v else 0)
  {
    if k <= key {
      assert UpTo(bins[k := v], key) == UpTo(bins, key)[k := v];
      SumUpdate(UpTo(bins, key), k, v);
    } else {
      assert UpTo(bins[k := v], key) == UpTo(bins, key);
    }
  }

  lemma CountUpToAll(bins: Bins, key: int)
    requires forall k :: k in bins ==> k <= key
    ensures CountUpTo(bins, key) == Sum(bins)
  {
    assert UpTo(bins, key) == bins;
  }

  /** The bucket that holds the `rank`-th smallest value: the first at which the
      running count reaches `rank`. */
  ghost predicate RankBucket(bins: Bins, rank: nat, key: int) {
    && key in bins
    && rank <= CountUpTo(bins, key)
    && forall k :: k in bins && k < key ==> CountUpTo(bins, k) < rank
  }

  lemma RankBucketUnique(bins: Bins, rank: nat, j: int, k: int)
    requires RankBucket(bins, rank, j) && RankBucket(bins, rank, k)
    ensures j == k
  {
  }

  // ----- ranks -----

  /** ceil(95 n / 100). */
  function NearestRank95(n: nat): nat {
    (95 * n + 99) / 100
  }

  /** The rank in unsigned 64-bit arithmetic. */
  /** The smallest rank with 95 of 100 values at or below it. */
  lemma NearestRankMeans(n: nat)
    ensures 100 * NearestRank95(n) >= 95 * n && (0 < n ==> 100 * (NearestRank95(n) - 1) < 95 * n) && (n == 0 ==> NearestRank95(n) == 0)
  {
  }

  function WrappedRank95(n: nat): nat {
    (95 * n + 99) % TWO_64 / 100
  }

  /** No rank exceeds the count, so the bucket scan always finds its bucket. */
  lemma WrappedRankInRange(n: nat)
    requires 1 <= n < TWO_64
    ensures WrappedRank95(n) <= n
    ensures WrappedRank95(n) <= NearestRank95(n)
    ensures WrappedRank95(n) == NearestRank95(n) <==> 95 * n + 99 < TWO_64
  {
    var total := 95 * n + 99;
    if total >= TWO_64 {
      var wrapped := total % TWO_64;
      assert total == TWO_64 * (total / TWO_64) + wrapped;
      assert total / TWO_64 >= 1;
    }
  }

  // ----- sorted bins -----

  datatype Bin = Bin(key: int, count: nat)

  ghost predicate Ascending(keys: seq<int>) {
    forall i, j :: 0 <= i < j < |keys| ==> keys[i] < keys[j]
  }

  /** The keys of a map in ascending order. */
  ghost predicate SortedKeys(bins: Bins, keys: seq<int>) {
    Ascending(keys) && (forall k :: k in bins <==> k in keys)
  }

  function InsertKey(keys: seq<int>, key: int): seq<int> {
    if keys == [] || key < keys[0] then [key] + keys else [keys[0]] + InsertKey(keys[1..], key)
  }

  lemma {:induction false} InsertKeySorts(keys: seq<int>, key: int)
    requires Ascending(keys) && key !in keys
    ensures Ascending(InsertKey(keys, key))
    ensures forall k :: k in InsertKey(keys, key) <==> k in keys || k == key
  {
    if keys != [] && keys[0] < key {
      var rest := InsertKey(keys[1..], key);
      InsertKeySorts(keys[1..], key);
      assert keys == [keys[0]] + keys[1..];
      assert forall j :: 0 <= j < |rest| ==> rest[j] in rest;
    }
  }

  /** One step of the running count. */
  /** What lies below a key in order is what goes up to the key before. */
  lemma BeforeKey(bins: Bins, keys: seq<int>, i: nat)
    requires SortedKeys(bins, keys) && i < |keys|
    ensures keys[i] in UpTo(bins, keys[i]) && UpTo(bins, keys[i])[keys[i]] == bins[keys[i]]
    ensures UpTo(bins, keys[i]) - {keys[i]} == if i == 0 then map[] else UpTo(bins, keys[i - 1])
  {
    assert keys[i] in keys;
    assert forall k :: k in bins && k < keys[i] ==> k in keys;
  }

  lemma RunningCount(bins: Bins, keys: seq<int>, i: nat)
    requires SortedKeys(bins, keys) && i < |keys|
    ensures keys[i] in bins
    ensures CountUpTo(bins, keys[i]) == (if i == 0 then 0 else CountUpTo(bins, keys[i - 1])) + bins[keys[i]]
  {
    var key := keys[i];
    var upTo := UpTo(bins, key);
    assert key in keys;
    BeforeKey(bins, keys, i);
    hide UpTo;
    SumRemove(upTo, key);
    hide Sum;
  }

  // ----- what the bins of a list of values are -----

  /** The bins after adding `values` one by one. */
  function BinsOf(values: seq<int>): Bins
    requires forall i :: 0 <= i < |values| ==> 1 <= values[i]
  {
    if values == [] then map[]
    else
      var before := BinsOf(values[..|values| - 1]);
      var key := Key(values[|values| - 1]);
      before[key := Get(before, key) + 1]
  }

  ghost predicate Positive(values: seq<int>) {
    forall i :: 0 <= i < |values| ==> 1 <= values[i]
  }

  /** How many of the values are at most `x`. */
  function AtMost(values: seq<int>, x: int): nat {
    if values == [] then 0
    else AtMost(values[..|values| - 1], x) + if values[|values| - 1] <= x then 1 else 0
  }

  /** `x` is the `rank`-th smallest value. */
  ghost predicate IsRanked(values: seq<int>, rank: nat, x: int) {
    x in values && AtMost(values, x - 1) < rank <= AtMost(values, x)
  }

  lemma {:induction false} BinsCount(values: seq<int>)
    requires Positive(values)
    ensures Sum(BinsOf(values)) == |values|
    ensures forall k :: k in BinsOf(values) ==> BinsOf(values)[k] > 0
  {
    if values != [] {
      var most := values[..|values| - 1];
      BinsCount(most);
      var key := Key(values[|values| - 1]);
      SumUpdate(BinsOf(most), key, Get(BinsOf(most), key) + 1);
    }
  }

  /** Values up to `x` lie in buckets up to `key`, if `x` does; values in buckets up
      to `key` are at most `x`, if the bucket of `x` is a later one. */
  lemma {:induction false} CountsAgree(values: seq<int>, x: int, k: int, key: int)
    requires Positive(values) && 1 <= x && InBucket(x, k)
    ensures k <= key ==> AtMost(values, x) <= CountUpTo(BinsOf(values), key)
    ensures key < k ==> CountUpTo(BinsOf(values), key) <= AtMost(values, x - 1)
  {
    if values == [] {
      assert UpTo(map[], key) == map[];
    } else {
      var most, v := values[..|values| - 1], values[|values| - 1];
      CountsAgree(most, x, k, key);
      var bins := BinsOf(most);
      CountUpToUpdate(bins, Key(v), Get(bins, Key(v)) + 1, key);
      if v <= x {
        KeyOrder(v, x, Key(v), k);
      } else {
        KeyOrder(x, v, k, Key(v));
      }
      if v == x {
        KeyOrder(v, x, Key(v), k);
      }
    }
  }

  /** The bucket found for a rank is the bucket of the value that has that rank. */
  lemma RankBucketHoldsValue(values: seq<int>, rank: nat, x: int, key: int)
    requires Positive(values) && IsRanked(values, rank, x) && RankBucket(BinsOf(values), rank, key)
    ensures InBucket(x, key)
  {
    var bins, k := BinsOf(values), Key(x);
    CountsAgree(values, x, k, key);
    if k < key {
      ValueHasBin(values, x);
      CountsAgree(values, x, k, k);
      assert false;
    }
    if key < k {
      assert CountUpTo(bins, key) <= AtMost(values, x - 1);
    }
  }

  lemma {:induction false} ValueHasBin(values: seq<int>, x: int)
    requires Positive(values) && x in values
    ensures Key(x) in BinsOf(values)
  {
    var most := values[..|values| - 1];
    if x in most {
      ValueHasBin(most, x);
    } else {
      assert values == most + [values[|values| - 1]];
    }
  }

  /** Whatever the scan returns is within 1% of the true percentile of the values,
      before rounding. */
  lemma P95Accurate(values: seq<int>, x: int, key: int)
    requires Positive(values) && IsRanked(values, NearestRank95(|values|), x)
    requires 95 * |values| + 99 < TWO_64
    requires RankBucket(BinsOf(values), WrappedRank95(|values|), key)
    ensures 0.99 * (x as real) <= Representative(key) <= 1.01 * (x as real)
  {
    P95InBucket(values, x, key);
    RepresentativeAccuracy(x, key);
  }

  lemma P95InBucket(values: seq<int>, x: int, key: int)
    requires Positive(values) && IsRanked(values, NearestRank95(|values|), x)
    requires 95 * |values| + 99 < TWO_64
    requires RankBucket(BinsOf(values), WrappedRank95(|values|), key)
    ensures 1 <= x && InBucket(x, key)
  {
    var rank := WrappedRank95(|values|);
    assert rank == NearestRank95(|values|) by {
      WrappedRankInRange(|values|);
    }
    RankBucketHoldsValue(values, rank, x, key);
  }

  /** After rounding to a whole number the error grows by at most one half. */
  lemma P95RoundedAccurate(values: seq<int>, x: int, key: int)
    requires Positive(values) && IsRanked(values, NearestRank95(|values|), x) && x <= MAX_INT64
    requires 95 * |values| + 99 < TWO_64
    requires RankBucket(BinsOf(values), WrappedRank95(|values|), key)
    ensures 0.99 * (x as real) - 0.5 <= Rounded(key) as real <= 1.01 * (x as real) + 0.5
  {
    P95InBucket(values, x, key);
    RoundedAccuracy(x, key);
  }

  /** In a sorted list the `rank`-th smallest value stands at `rank - 1`. */
  lemma {:induction false} SortedRank(values: seq<int>, rank: nat)
    requires 1 <= rank <= |values|
    requires forall i, j :: 0 <= i < j < |values| ==> values[i] <= values[j]
    ensures IsRanked(values, rank, values[rank - 1])
    decreases |values|
  {
    var n := |values|;
    var most := values[..n - 1];
    var x := values[rank - 1];
    if rank == n {
      AtMostAll(most, x);
      assert AtMost(values, x) == n;
      AtMostBelow(values, x, n - 1);
    } else {
      SortedRank(most, rank);
      assert most[rank - 1] == x;
    }
  }

  lemma {:induction false} AtMostAll(values: seq<int>, x: int)
    requires forall i :: 0 <= i < |values| ==> values[i] <= x
    ensures AtMost(values, x) == |values|
  {
    if values != [] {
      AtMostAll(values[..|values| - 1], x);
    }
  }

  lemma {:induction false} AtMostBound(values: seq<int>, x: int)
    ensures AtMost(values, x) <= |values|
  {
    if values != [] {
      AtMostBound(values[..|values| - 1], x);
    }
  }

  lemma AtMostBelow(values: seq<int>, x: int, i: nat)
    requires i == |values| - 1 && values[i] == x
    ensures AtMost(values, x - 1) < |values|
  {
    AtMostBound(values[..i], x - 1);
  }

  /** Past the wrap-around the scan is wrong for some sketch of every size: exactly
      the sizes below it are served right whatever the sketch holds. */
  lemma P95RightUpToTheWrap(n: nat)
    requires 1 <= n < TWO_64
    ensures 95 * n + 99 < TWO_64 <==> forall bins: Bins, key :: Sum(bins) == n && RankBucket(bins, WrappedRank95(n), key) ==> RankBucket(bins, NearestRank95(n), key)
  {
    WrappedRankInRange(n);
    if 95 * n + 99 >= TWO_64 {
      var low := NearestRank95(n) - 1;
      var bins: Bins := map[0 := low, 1 := n - low];
      SumRemove(bins, 0);
      SumRemove(bins - {0}, 1);
      assert bins - {0} == map[1 := n - low] && bins - {0} - {1} == map[];
      var first := UpTo(bins, 0);
      assert first == map[0 := low];
      SumRemove(first, 0);
      assert first - {0} == map[];
      assert RankBucket(bins, WrappedRank95(n), 0);
      assert !RankBucket(bins, NearestRank95(n), 0);
    }
  }

  /** Merging the sketches of two lists gives the sketch of both. */
  lemma {:induction false} BinsOfMerge(one: seq<int>, other: seq<int>)
    requires Positive(one) && Positive(other)
    ensures Plus(BinsOf(one), BinsOf(other)) == BinsOf(one + other)
    decreases |other|
  {
    if other == [] {
      assert one + other == one;
    } else {
      var most, v := other[..|other| - 1], other[|other| - 1];
      BinsOfMerge(one, most);
      BinsOfMergeOne(one, most, v);
      assert most + [v] == other;
      assert (one + most) + [v] == one + other;
    }
  }

  lemma BinsOfMergeOne(one: seq<int>, most: seq<int>, v: int)
    requires Positive(one) && Positive(most) && 1 <= v
    requires Plus(BinsOf(one), BinsOf(most)) == BinsOf(one + most)
    ensures Plus(BinsOf(one), BinsOf(most + [v])) == BinsOf((one + most) + [v])
  {
    hide BinsOf;
    hide Key;
    hide Plus;
    var a, b, c, key := BinsOf(one), BinsOf(most), BinsOf(one + most), Key(v);
    var b', c' := b[key := Get(b, key) + 1], c[key := Get(c, key) + 1];
    assert BinsOf(most + [v]) == b' by { BinsOfAppend(most, v); }
    assert BinsOf((one + most) + [v]) == c' by { BinsOfAppend(one + most, v); }
    assert Plus(a, b') == c' by { PlusIncrement(a, b, key); }
  }

  lemma BinsOfAppend(values: seq<int>, v: int)
    requires Positive(values) && 1 <= v
    ensures BinsOf(values + [v]) == BinsOf(values)[Key(v) := Get(BinsOf(values), Key(v)) + 1]
  {
    assert (values + [v])[..|values|] == values;
  }

  lemma PlusIncrement(a: Bins, b: Bins, key: int)
    ensures Plus(a, b[key := Get(b, key) + 1]) == Plus(a, b)[key := Get(Plus(a, b), key) + 1]
  {
  }
}
