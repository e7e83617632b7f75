/** The sketch object, and the query merger that accumulates encoded sketches. */
module Sketches {
  import opened Choice
  import opened Wrappers
  import opened Varint
  import opened Records
  import opened MapSums
  import opened LogBuckets
  import opened LatencySketch
  import opened SketchCodec

  /** Positive counts under 64-bit keys, and the count is their sum. */
  ghost predicate Consistent(bins: Bins, count: nat) {
    && count == Sum(bins) <= MAX_UINT64
    && forall k :: k in bins ==> 0 < bins[k] && -TWO_63 <= k < TWO_63
  }

  lemma PartOfCount(bins: Bins, count: nat, k: int)
    requires Consistent(bins, count)
    ensures Get(bins, k) <= count
  {
    SumHasPart(bins, k);
  }

  /** Bins whose counts together fit cannot overflow one by one. */
  lemma NoBinOverflows(a: Bins, m: nat, b: Bins, n: nat)
    requires Consistent(a, m) && Consistent(b, n) && m + n <= MAX_UINT64
    ensures forall k :: k in b ==> Get(a, k) + b[k] <= MAX_UINT64
  {
    forall k | k in b
      ensures Get(a, k) + b[k] <= MAX_UINT64
    {
      PartOfCount(a, m, k);
      PartOfCount(b, n, k);
    }
  }

  lemma ConsistentPlus(a: Bins, m: nat, b: Bins, n: nat)
    requires Consistent(a, m) && Consistent(b, n) && m + n <= MAX_UINT64
    ensures Consistent(Plus(a, b), m + n)
  {
    SumPlus(a, b);
  }

  lemma ConsistentIncrement(bins: Bins, count: nat, key: int)
    requires Consistent(bins, count) && count < MAX_UINT64 && -TWO_63 <= key < TWO_63
    ensures Consistent(bins[key := Get(bins, key) + 1], count + 1)
  {
    SumUpdate(bins, key, Get(bins, key) + 1);
  }

  /** All bins of `incoming` but those under the keys `left` have been added. */
  ghost predicate Merging(base: Bins, incoming: Bins, left: set<int>, bins: Bins) {
    left <= incoming.Keys && bins == Plus(base, incoming - left)
  }

  lemma MergeBegins(base: Bins, incoming: Bins)
    ensures Merging(base, incoming, incoming.Keys, base)
  {
  }

  lemma MergeStep(base: Bins, incoming: Bins, left: set<int>, bins: Bins, key: int, n: nat, left': set<int>, bins': Bins)
    requires Merging(base, incoming, left, bins) && key in left && n == incoming[key]
    requires left' == left - {key} && bins' == bins[key := Get(bins, key) + n]
    ensures Get(bins, key) == Get(base, key)
    ensures Merging(base, incoming, left', bins')
  {
    var taken, more := incoming - left, incoming - left';
    assert more == taken[key := incoming[key]];
    assert more - {key} == taken;
    PlusOne(base, more, key);
  }

  lemma MergeEnds(base: Bins, incoming: Bins, bins: Bins)
    requires Merging(base, incoming, {}, bins)
    ensures bins == Plus(base, incoming)
  {
    assert incoming - {} == incoming;
  }

  class Sketch {
    var bins: Bins
    var count: nat

    ghost predicate Valid()
      reads this
    {
      Consistent(bins, count)
    }

    constructor ()
      ensures Valid() && bins == map[] && count == 0
    {
      bins, count := map[], 0;
    }

    /** One more value in its bucket; refused if it is not positive or the count is full. */
    method Add(value: int) returns (ok: bool)
      requires Valid() && value <= MAX_INT64
      modifies this
      ensures Valid()
      ensures ok == (1 <= value && old(count) < MAX_UINT64)
      ensures ok ==> bins == old(bins)[Key(value) := Get(old(bins), Key(value)) + 1] && count == old(count) + 1
      ensures !ok ==> bins == old(bins) && count == old(count)
    {
      if value <= 0 {
        return false;
      }
      var key := Key(value);
      KeySmall(value);
      PartOfCount(bins, count, key);
      if Get(bins, key) == MAX_UINT64 || count == MAX_UINT64 {
        return false;
      }
      ConsistentIncrement(bins, count, key);
      bins := bins[key := Get(bins, key) + 1];
      count := count + 1;
      return true;
    }

    /** Bin by bin addition. It fails only when the counts together pass 64 bits, and
        then before anything is changed: no single bin can overflow half-way. */
    method Merge(other: Sketch) returns (ok: bool)
      requires Valid() && other.Valid() && other != this
      modifies this
      ensures Valid()
      ensures ok == (old(count) + other.count <= MAX_UINT64)
      ensures ok ==> bins == Plus(old(bins), other.bins) && count == old(count) + other.count
      ensures !ok ==> bins == old(bins) && count == old(count)
    {
      if count > MAX_UINT64 - other.count {
        return false;
      }
      NoBinOverflows(bins, count, other.bins, other.count);
      ok := MergeBins(other.bins);
      ConsistentPlus(old(bins), count, other.bins, other.count);
      count := count + other.count;
    }

    /** The bin loop of a merge, in any order; its overflow branch is never taken. */
    method MergeBins(incoming: Bins) returns (ok: bool)
      requires forall k :: k in incoming ==> Get(bins, k) + incoming[k] <= MAX_UINT64
      modifies this`bins
      ensures ok && bins == Plus(old(bins), incoming)
    {
      var left := incoming.Keys;
      ghost var base := bins;
      MergeBegins(base, incoming);
      while left != {}
        invariant Merging(base, incoming, left, bins)
        decreases |left|
      {
        var key := Pick(left);
        var n := incoming[key];
        ghost var left', bins' := left - {key}, bins[key := Get(bins, key) + n];
        MergeStep(base, incoming, left, bins, key, n, left', bins');
        if Get(bins, key) > MAX_UINT64 - n {
          assert false;
          return false;
        }
        bins := bins[key := Get(bins, key) + n];
        left := left - {key};
      }
      MergeEnds(base, incoming, bins);
      return true;
    }

    method SortKeys() returns (keys: seq<int>)
      ensures SortedKeys(bins, keys)
    {
      keys := [];
      var left := bins.Keys;
      while left != {}
        invariant left <= bins.Keys && Ascending(keys)
        invariant forall k :: k in keys <==> k in bins && k !in left
        decreases |left|
      {
        var key := Pick(left);
        InsertKeySorts(keys, key);
        keys := InsertKey(keys, key);
        left := left - {key};
      }
    }

    /** The running count over the ascending buckets reaches the rank, so the bucket
        returned is the one holding it. */
    method ScanFor(rank: nat) returns (bucket: int)
      requires Valid() && 0 < count && rank <= count
      ensures RankBucket(bins, rank, bucket)
    {
      var keys := SortKeys();
      var cumulative := 0;
      for i := 0 to |keys|
        invariant cumulative == if i == 0 then 0 else CountUpTo(bins, keys[i - 1])
        invariant NotReached(bins, keys[..i], rank)
      {
        RunningCount(bins, keys, i);
        cumulative := cumulative + bins[keys[i]];
        if cumulative >= rank {
          FirstReached(bins, keys, i, rank);
          return keys[i];
        }
        assert keys[..i + 1] == keys[..i] + [keys[i]];
      }
      assert keys[..|keys|] == keys;
      AlwaysReached(bins, keys, count, rank);
      assert false;
      bucket := 0;
    }

    method P95() returns (value: int)
      requires Valid()
      ensures count == 0 ==> value == 0
      ensures count > 0 ==> exists bucket :: RankBucket(bins, WrappedRank95(count), bucket) && value == Rounded(bucket)
    {
      if count == 0 {
        return 0;
      }
      WrappedRankInRange(count);
      var bucket := ScanFor(WrappedRank95(count));
      return Rounded(bucket);
    }

    /** The bins in key order; decoding the bytes gives the same sketch. */
    method MarshalBinary() returns (r: Result<seq<Byte>>)
      requires Valid()
      ensures r.Ok?
      ensures Decode(r.value).Ok? && MapOf(Decode(r.value).value) == bins && TotalOf(Decode(r.value).value) == count
    {
      var keys := SortKeys();
      var list: seq<Bin> := [];
      var body: seq<Byte> := [];
      for i := 0 to |keys|
        invariant |list| == i && forall j :: 0 <= j < i ==> list[j] == Bin(keys[j], Get(bins, keys[j]))
        invariant body == EncodeMany(list, EncodeBin)
      {
        var key := keys[i];
        assert key in keys;
        if Get(bins, key) == 0 {
          assert false;
          return Err;
        }
        EncodeManyAppend(list, Bin(key, Get(bins, key)), EncodeBin);
        list := list + [Bin(key, Get(bins, key))];
        body := body + EncodeBin(Bin(key, Get(bins, key)));
      }
      ListOfBins(bins, count, keys, list);
      LegalLength(list);
      RoundTrip(list);
      return Ok(Frame(FORMAT_VERSION, |keys|, body));
    }
  }

  ghost predicate NotReached(bins: Bins, keys: seq<int>, rank: nat) {
    forall k :: k in keys ==> CountUpTo(bins, k) < rank
  }

  lemma FirstReached(bins: Bins, keys: seq<int>, i: nat, rank: nat)
    requires SortedKeys(bins, keys) && i < |keys| && rank <= CountUpTo(bins, keys[i])
    requires NotReached(bins, keys[..i], rank)
    ensures RankBucket(bins, rank, keys[i])
  {
    assert keys[i] in keys;
    forall k | k in bins && k < keys[i]
      ensures k in keys[..i]
    {
      assert k in keys;
    }
  }

  /** The line behind the loop is never reached. */
  lemma AlwaysReached(bins: Bins, keys: seq<int>, count: nat, rank: nat)
    requires SortedKeys(bins, keys) && Consistent(bins, count) && 0 < count && rank <= count
    ensures !NotReached(bins, keys, rank)
  {
    assert keys == [] ==> bins.Keys == {};
    var last := keys[|keys| - 1];
    assert forall k :: k in bins ==> k in keys;
    CountUpToAll(bins, last);
    assert last in keys;
  }

  ghost predicate Lists(bins: Bins, keys: seq<int>, list: seq<Bin>) {
    && SortedKeys(bins, keys) && |list| == |keys|
    && forall j :: 0 <= j < |keys| ==> list[j] == Bin(keys[j], Get(bins, keys[j]))
  }

  lemma {:induction false} ListTotal(bins: Bins, keys: seq<int>, list: seq<Bin>, i: nat)
    requires Lists(bins, keys, list) && i <= |keys|
    ensures TotalOf(list[..i]) == if i == 0 then 0 else CountUpTo(bins, keys[i - 1])
  {
    if i > 0 {
      ListTotal(bins, keys, list, i - 1);
      RunningCount(bins, keys, i - 1);
      assert list[..i][..i - 1] == list[..i - 1];
    }
  }

  function Part(bins: Bins, keys: set<int>): Bins {
    map k | k in bins && k in keys :: bins[k]
  }

  lemma PartGrows(bins: Bins, keys: set<int>, k: int)
    requires k in bins
    ensures Part(bins, keys + {k}) == Part(bins, keys)[k := bins[k]]
  {
  }

  function KeySet(keys: seq<int>): set<int> {
    set k | k in keys
  }

  lemma {:induction false} ListMap(bins: Bins, keys: seq<int>, list: seq<Bin>, i: nat)
    requires Lists(bins, keys, list) && i <= |keys|
    ensures MapOf(list[..i]) == Part(bins, KeySet(keys[..i]))
  {
    if i > 0 {
      var key := keys[i - 1];
      ListMap(bins, keys, list, i - 1);
      assert list[..i][..i - 1] == list[..i - 1];
      assert KeySet(keys[..i]) == KeySet(keys[..i - 1]) + {key} by {
        assert keys[..i] == keys[..i - 1] + [key];
      }
      assert key in keys;
      PartGrows(bins, KeySet(keys[..i - 1]), key);
    }
  }

  lemma ListLegal(bins: Bins, count: nat, keys: seq<int>, list: seq<Bin>)
    requires Lists(bins, keys, list) && Consistent(bins, count)
    ensures Legal(list)
  {
    forall i | 0 <= i < |list|
      ensures Fits(list[..i], list[i])
    {
      ListTotal(bins, keys, list, i);
      RunningCount(bins, keys, i);
      SumUpTo(bins, keys[i]);
    }
  }

  lemma SumUpTo(bins: Bins, key: int)
    ensures CountUpTo(bins, key) <= Sum(bins)
  {
    var above: Bins := map k | k in bins && key < k :: bins[k];
    assert Plus(UpTo(bins, key), above) == bins by {
      hide Sum;
    }
    hide Sum;
    SumPlus(UpTo(bins, key), above);
  }

  lemma ListOfBins(bins: Bins, count: nat, keys: seq<int>, list: seq<Bin>)
    requires Lists(bins, keys, list) && Consistent(bins, count)
    ensures Legal(list) && MapOf(list) == bins && TotalOf(list) == count
    ensures forall j :: 0 <= j < |list| ==> InWord(list[j])
  {
    ListLegal(bins, count, keys, list);
    assert list[..|list|] == list && keys[..|keys|] == keys;
    ListMap(bins, keys, list, |list|);
    assert MapOf(list) == bins by {
      assert forall k :: k in bins ==> k in KeySet(keys);
    }
    LegalMap(list);
    forall j | 0 <= j < |list|
      ensures InWord(list[j])
    {
      assert keys[j] in keys;
      PartOfCount(bins, count, keys[j]);
    }
  }

  /** Every bin holds something, so there are no more bins than values. */
  lemma {:induction false} LegalLength(list: seq<Bin>)
    requires Legal(list)
    ensures |list| <= TotalOf(list) <= MAX_UINT64
  {
    if list != [] {
      var n := |list| - 1;
      assert Fits(list[..n], list[n]);
      forall i | 0 <= i < n
        ensures Fits(list[..n][..i], list[..n][i])
      {
        assert list[..n][..i] == list[..i] && Fits(list[..i], list[i]);
      }
      LegalLength(list[..n]);
    }
  }

  /** The first `i` bins of a decoded row as a map. */
  lemma RowStep(row: seq<Bin>, i: nat)
    requires Legal(row) && i < |row|
    ensures MapOf(row[..i + 1]) == MapOf(row[..i])[row[i].key := row[i].count]
    ensures row[i].key !in MapOf(row[..i])
  {
    assert row[..i + 1][..i] == row[..i];
    assert Fits(row[..i], row[i]);
    LegalPrefix(row, i);
    LegalMap(row[..i]);
  }

  lemma LegalPrefix(row: seq<Bin>, n: nat)
    requires Legal(row) && n <= |row|
    ensures Legal(row[..n])
  {
    forall i | 0 <= i < n
      ensures Fits(row[..n][..i], row[..n][i])
    {
      assert row[..n][..i] == row[..i] && Fits(row[..i], row[i]);
    }
  }

  lemma PlusRowStep(base: Bins, done: Bins, key: int, n: nat, bins: Bins)
    requires bins == Plus(base, done) && key !in done
    ensures Get(bins, key) == Get(base, key)
    ensures bins[key := Get(bins, key) + n] == Plus(base, done[key := n])
  {
  }

  /** A bin of the row that overflows means the counts together overflow. */
  lemma OverflowIsTotal(base: Bins, count: nat, row: seq<Bin>, i: nat)
    requires Consistent(base, count) && Legal(row) && i < |row|
    ensures Get(base, row[i].key) + row[i].count <= count + TotalOf(row)
  {
    PartOfCount(base, count, row[i].key);
    PartOfTotal(row, i);
  }

  lemma {:induction false} PartOfTotal(row: seq<Bin>, i: nat)
    requires i < |row|
    ensures row[i].count <= TotalOf(row)
    decreases |row|
  {
    if i < |row| - 1 {
      PartOfTotal(row[..|row| - 1], i);
    }
  }

  /** A decoded row is a consistent sketch, up to the range of its keys. */
  lemma {:induction false} RowKeys(row: seq<Bin>)
    requires forall i :: 0 <= i < |row| ==> -TWO_63 <= row[i].key < TWO_63
    ensures forall k :: k in MapOf(row) ==> -TWO_63 <= k < TWO_63
  {
    if row != [] {
      RowKeys(row[..|row| - 1]);
    }
  }

  lemma DecodedConsistent(data: seq<Byte>)
    requires Decode(data).Ok?
    ensures Legal(Decode(data).value)
    ensures Consistent(MapOf(Decode(data).value), TotalOf(Decode(data).value))
  {
    var row := Decode(data).value;
    DecodeLegal(data);
    LegalMap(row);
    DecodeListFromOne(data, FORMAT_VERSION, MAX_UINT64, BinDecoder(), Fits, (b: Bin) => -TWO_63 <= b.key < TWO_63);
    RowKeys(row);
  }

  method UnmarshalSketch(data: seq<Byte>) returns (r: Result<Sketch>)
    ensures r.Ok? <==> Decode(data).Ok?
    ensures r.Ok? ==> fresh(r.value) && r.value.Valid()
    ensures r.Ok? ==> r.value.bins == MapOf(Decode(data).value) && r.value.count == TotalOf(Decode(data).value)
  {
    var walked, total := WalkSketch(data);
    if walked.Err? {
      return Err;
    }
    var row := walked.value;
    DecodedConsistent(data);
    var sketch := new Sketch();
    for i := 0 to |row|
      invariant sketch.bins == MapOf(row[..i]) && fresh(sketch)
    {
      RowStep(row, i);
      sketch.bins := sketch.bins[row[i].key := row[i].count];
    }
    assert row[..|row|] == row;
    sketch.count := total;
    return Ok(sketch);
  }

  class QuerySketchMerger {
    var sketch: Sketch?

    ghost predicate Valid()
      reads this, sketch
    {
      sketch != null ==> sketch.Valid()
    }

    constructor ()
      ensures Valid() && sketch != null && fresh(sketch) && sketch.bins == map[] && sketch.count == 0
    {
      sketch := new Sketch();
    }

    /** Adds the bins of a row until one overflows. */
    method Accumulate(row: seq<Bin>) returns (binOverflow: bool)
      requires sketch != null && Legal(row)
      modifies sketch`bins
      ensures !binOverflow ==> sketch.bins == Plus(old(sketch.bins), MapOf(row))
      ensures binOverflow ==> exists i :: 0 <= i < |row| && Get(old(sketch.bins), row[i].key) + row[i].count > MAX_UINT64
    {
      binOverflow := false;
      ghost var base := sketch.bins;
      assert Plus(base, map[]) == base;
      for i := 0 to |row|
        invariant !binOverflow ==> sketch.bins == Plus(base, MapOf(row[..i]))
        invariant binOverflow ==> exists j :: 0 <= j < i && Get(base, row[j].key) + row[j].count > MAX_UINT64
      {
        var key, n := row[i].key, row[i].count;
        if !binOverflow {
          RowStep(row, i);
          PlusRowStep(base, MapOf(row[..i]), key, n, sketch.bins);
          if Get(sketch.bins, key) > MAX_UINT64 - n {
            binOverflow := true;
          } else {
            sketch.bins := sketch.bins[key := Get(sketch.bins, key) + n];
          }
        }
      }
      assert row[..|row|] == row;
    }

    /** Accepts exactly what decoding and `Sketch.Merge` would accept, with the same
        result; any failure closes the merger. */
    method MergeBinary(encoded: seq<Byte>) returns (r: Result<nat>)
      requires Valid()
      modifies this, sketch
      ensures Valid()
      ensures r.Ok? <==> old(sketch) != null && Decode(encoded).Ok?
                         && old(if sketch == null then 0 else sketch.count) + TotalOf(Decode(encoded).value) <= MAX_UINT64
      ensures r.Err? ==> sketch == null
      ensures r.Ok? ==> var row := Decode(encoded).value;
                && sketch == old(sketch) && r.value == TotalOf(row)
                && sketch.bins == Plus(old(if sketch == null then map[] else sketch.bins), MapOf(row))
                && sketch.count == old(if sketch == null then 0 else sketch.count) + TotalOf(row)
    {
      if sketch == null {
        return Err;
      }
      ghost var base, count := sketch.bins, sketch.count;
      var walked, total := WalkSketch(encoded);
      if walked.Err? {
        sketch := null;
        return Err;
      }
      DecodedConsistent(encoded);
      var binOverflow := Accumulate(walked.value);
      if binOverflow {
        forall i | 0 <= i < |walked.value|
          ensures Get(base, walked.value[i].key) + walked.value[i].count <= count + total
        {
          OverflowIsTotal(base, count, walked.value, i);
        }
        sketch := null;
        return Err;
      }
      if sketch.count > MAX_UINT64 - total {
        sketch := null;
        return Err;
      }
      ConsistentPlus(base, count, MapOf(walked.value), total);
      sketch.count := sketch.count + total;
      return Ok(total);
    }

    method TakeSketch() returns (taken: Sketch?)
      requires Valid()
      modifies this
      ensures Valid() && sketch == null && taken == old(sketch)
      ensures taken != null ==> taken.Valid()
    {
      taken := sketch;
      sketch := null;
    }
  }
}
