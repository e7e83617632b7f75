/** Latency rows: what one row holds of its events, and merging the rows of two pages. */
module LatencyRows {
  import opened Varint
  import opened Lists
  import opened SamplePoints
  import opened SampleSets
  import opened LatencySketch
  import opened LogBuckets
  import opened Sketches
  import opened MapSums

  /** A row, with its sample as the set of retained points. */
  datatype Row = Row(count: int, maxTTFT: int, maxLatency: int, ttft: Bins, latency: Bins, kept: set<SamplePoint>)

  function Ttfts(group: seq<SamplePoint>): (r: seq<int>)
    ensures |r| == |group|
  {
    seq(|group|, i requires 0 <= i < |group| => group[i].ttftMS)
  }

  function Latencies(group: seq<SamplePoint>): (r: seq<int>)
    ensures |r| == |group|
  {
    seq(|group|, i requires 0 <= i < |group| => group[i].latencyMS)
  }

  function MaxOf(values: seq<int>): int {
    if values == [] then 0
    else if values[|values| - 1] > MaxOf(values[..|values| - 1]) then values[|values| - 1]
    else MaxOf(values[..|values| - 1])
  }

  ghost predicate AllPoints(group: seq<SamplePoint>, prio: int -> UInt64) {
    forall i :: 0 <= i < |group| ==> WellFormed(group[i], prio)
  }

  /** The maximum and the sketch of exactly these values. */
  ghost predicate IsColumn(max: int, bins: Bins, values: seq<int>) {
    Positive(values) && max == MaxOf(values) && bins == BinsOf(values)
  }

  /** The row of exactly these events. */
  ghost predicate IsRow(r: Row, group: seq<SamplePoint>, k: nat, prio: int -> UInt64) {
    && AllPoints(group, prio)
    && r.count == |group| && IsColumn(r.maxTTFT, r.ttft, Ttfts(group)) && IsColumn(r.maxLatency, r.latency, Latencies(group))
    && Best(Elements(group), r.kept, k)
  }

  /** A group has one row only, in whatever order its sample was trimmed. */
  lemma RowUnique(a: Row, b: Row, group: seq<SamplePoint>, k: nat, prio: int -> UInt64)
    requires IsRow(a, group, k, prio) && IsRow(b, group, k, prio)
    ensures a == b
  {
    hide BinsOf;
    hide MaxOf;
    BestUnique(Elements(group), a.kept, b.kept, k);
  }

  function Larger(a: int, b: int): int {
    if b > a then b else a
  }

  /** Counts and bins add up, maxima are compared, and the samples keep the best of both. */
  ghost predicate IsMerged(a: Row, b: Row, c: Row, k: nat) {
    && c.count == a.count + b.count && c.maxTTFT == Larger(a.maxTTFT, b.maxTTFT) && c.maxLatency == Larger(a.maxLatency, b.maxLatency)
    && c.ttft == Plus(a.ttft, b.ttft) && c.latency == Plus(a.latency, b.latency)
    && Best(a.kept + b.kept, c.kept, k)
  }

  lemma {:induction false} MaxConcat(a: seq<int>, b: seq<int>)
    requires Positive(b)
    ensures MaxOf(a + b) == Larger(MaxOf(a), MaxOf(b))
  {
    if b == [] {
      assert a + b == a;
      MaxNotNegative(a);
    } else {
      assert (a + b)[..|a| + |b| - 1] == a + b[..|b| - 1];
      MaxConcat(a, b[..|b| - 1]);
    }
  }

  lemma {:induction false} MaxNotNegative(a: seq<int>)
    ensures 0 <= MaxOf(a)
  {
    if a != [] {
      MaxNotNegative(a[..|a| - 1]);
    }
  }

  lemma BestTogether(a: set<SamplePoint>, keptA: set<SamplePoint>, b: set<SamplePoint>, keptB: set<SamplePoint>, kept: set<SamplePoint>, k: nat)
    requires Best(a, keptA, k) && Best(b, keptB, k) && Best(keptA + keptB, kept, k)
    ensures Best(a + b, kept, k)
  {
    BestOfBest(a, keptA, keptB, kept, k);
    assert a + keptB == keptB + a;
    BestOfBest(b, keptB, a, kept, k);
    assert b + a == a + b;
  }

  lemma GroupsConcat(x: seq<SamplePoint>, y: seq<SamplePoint>)
    ensures Ttfts(x + y) == Ttfts(x) + Ttfts(y) && Latencies(x + y) == Latencies(x) + Latencies(y)
  {
  }

  lemma {:induction false} ColumnMerges(maxX: int, binsX: Bins, x: seq<int>, maxY: int, binsY: Bins, y: seq<int>)
    requires IsColumn(maxX, binsX, x) && IsColumn(maxY, binsY, y)
    ensures IsColumn(Larger(maxX, maxY), Plus(binsX, binsY), x + y)
  {
    MaxConcat(x, y);
    hide MaxOf;
    BinsOfMerge(x, y);
  }

  lemma {:induction false} KeptMerges(x: seq<SamplePoint>, keptX: set<SamplePoint>, y: seq<SamplePoint>, keptY: set<SamplePoint>, kept: set<SamplePoint>, k: nat)
    requires Best(Elements(x), keptX, k) && Best(Elements(y), keptY, k) && Best(keptX + keptY, kept, k)
    ensures Best(Elements(x + y), kept, k)
  {
    hide Best;
    BestTogether(Elements(x), keptX, Elements(y), keptY, kept, k);
    assert Elements(x + y) == Elements(x) + Elements(y);
  }

  lemma {:induction false} PointsConcat(x: seq<SamplePoint>, y: seq<SamplePoint>, prio: int -> UInt64)
    requires AllPoints(x, prio) && AllPoints(y, prio)
    ensures AllPoints(x + y, prio)
  {
  }

  /** Merging the rows of two pages gives the row of all their events. */
  lemma {:induction false} MergedIsRow(a: Row, b: Row, c: Row, x: seq<SamplePoint>, y: seq<SamplePoint>, k: nat, prio: int -> UInt64)
    requires IsRow(a, x, k, prio) && IsRow(b, y, k, prio) && IsMerged(a, b, c, k)
    ensures IsRow(c, x + y, k, prio)
  {
    hide AllPoints;
    hide Ttfts;
    hide Latencies;
    hide IsColumn;
    hide Larger;
    hide Best;
    hide Plus;
    hide Elements;
    PointsConcat(x, y, prio);
    GroupsConcat(x, y);
    ColumnMerges(a.maxTTFT, a.ttft, Ttfts(x), b.maxTTFT, b.ttft, Ttfts(y));
    ColumnMerges(a.maxLatency, a.latency, Latencies(x), b.maxLatency, b.latency, Latencies(y));
    KeptMerges(x, a.kept, y, b.kept, c.kept, k);
  }

  lemma MergedCommutes(a: Row, b: Row, c: Row, k: nat)
    requires IsMerged(a, b, c, k)
    ensures IsMerged(b, a, c, k)
  {
    PlusCommutes(a.ttft, b.ttft);
    PlusCommutes(a.latency, b.latency);
    assert a.kept + b.kept == b.kept + a.kept;
  }

  /** So the row of a group does not depend on the order of its two parts. */
  lemma {:induction false} PartsInAnyOrder(r: Row, s: Row, a: Row, b: Row, x: seq<SamplePoint>, y: seq<SamplePoint>, k: nat, prio: int -> UInt64)
    requires IsRow(a, x, k, prio) && IsRow(b, y, k, prio) && IsMerged(a, b, r, k)
    requires IsRow(s, y + x, k, prio)
    ensures r == s
  {
    hide IsMerged;
    hide IsRow;
    MergedCommutes(a, b, r, k);
    MergedIsRow(b, a, r, y, x, k, prio);
    RowUnique(r, s, y + x, k, prio);
  }

  // ----- building a row -----

  /** One more value in its bucket. */
  function Incremented(bins: Bins, v: int): Bins
    requires 1 <= v
  {
    bins[Key(v) := Get(bins, Key(v)) + 1]
  }

  /** The row after one more event. */
  function Counted(r: Row, p: SamplePoint, kept: set<SamplePoint>): Row
    requires 1 <= p.ttftMS && 1 <= p.latencyMS
  {
    Row(r.count + 1, Larger(r.maxTTFT, p.ttftMS), Larger(r.maxLatency, p.latencyMS),
        Incremented(r.ttft, p.ttftMS), Incremented(r.latency, p.latencyMS), kept)
  }

  lemma {:induction false} ColumnGrows(max: int, bins: Bins, x: seq<int>, v: int)
    requires IsColumn(max, bins, x) && 1 <= v
    ensures IsColumn(Larger(max, v), Incremented(bins, v), x + [v])
  {
    assert (x + [v])[..|x|] == x;
    BinsOfAppend(x, v);
    hide BinsOf;
  }

  lemma ColumnsOf(group: seq<SamplePoint>, p: SamplePoint)
    ensures Ttfts(group + [p]) == Ttfts(group) + [p.ttftMS] && Latencies(group + [p]) == Latencies(group) + [p.latencyMS]
  {
  }

  lemma {:induction false} KeptGrows(group: seq<SamplePoint>, p: SamplePoint, before: set<SamplePoint>, kept: set<SamplePoint>, k: nat)
    requires Best(Elements(group), before, k) && Best(before + {p}, kept, k)
    ensures Best(Elements(group + [p]), kept, k)
  {
    BestOfBest(Elements(group), before, {p}, kept, k);
    assert Elements(group + [p]) == Elements(group) + {p};
  }

  lemma {:induction false} NextPoint(r: Row, group: seq<SamplePoint>, p: SamplePoint, kept: set<SamplePoint>, k: nat, prio: int -> UInt64)
    requires IsRow(r, group, k, prio) && WellFormed(p, prio) && Best(r.kept + {p}, kept, k)
    ensures IsRow(Counted(r, p, kept), group + [p], k, prio)
  {
    assert AllPoints(group + [p], prio);
    assert 1 <= p.ttftMS && 1 <= p.latencyMS;
    hide AllPoints;
    hide WellFormed;
    hide Ttfts;
    hide Latencies;
    hide IsColumn;
    hide Larger;
    hide Best;
    hide Elements;
    hide Incremented;
    ColumnsOf(group, p);
    ColumnGrows(r.maxTTFT, r.ttft, Ttfts(group), p.ttftMS);
    ColumnGrows(r.maxLatency, r.latency, Latencies(group), p.latencyMS);
    KeptGrows(group, p, r.kept, kept, k);
  }

  /** A row being built: counters, two sketches and a sample set that stay in step. */
  class RowBuilder {
    var sampleCount: int
    var maxTTFT: int
    var maxLatency: int
    const ttft: Sketch
    const latency: Sketch
    const samples: SampleSet
    ghost var group: seq<SamplePoint>

    ghost predicate PartsValid()
      reads this, ttft, latency, samples
    {
      ttft != latency && ttft.Valid() && latency.Valid() && samples.Valid()
    }

    ghost function Parts(): Row
      reads this, ttft, latency, samples
    {
      Row(sampleCount, maxTTFT, maxLatency, ttft.bins, latency.bins, samples.points.Values)
    }

    ghost predicate Valid()
      reads this, ttft, latency, samples
    {
      && PartsValid() && ttft.count == |group| && latency.count == |group|
      && IsRow(Parts(), group, samples.k, samples.prio)
    }

    constructor (k: nat, prio: int -> UInt64)
      requires 0 < k
      ensures Valid() && group == [] && fresh(ttft) && fresh(latency) && fresh(samples) && samples.k == k && samples.prio == prio
    {
      sampleCount, maxTTFT, maxLatency, group := 0, 0, 0, [];
      ttft := new Sketch();
      latency := new Sketch();
      samples := new SampleSet(k, prio);
      new;
      assert Ttfts([]) == [] && Latencies([]) == [] && Elements<SamplePoint>([]) == {};
    }

    ghost function PointOf(eventID: int, ttftMS: int, latencyMS: int): SamplePoint {
      SamplePoint(eventID, samples.prio(eventID), ttftMS, latencyMS)
    }

    /** The two sketches, one after the other. */
    method AddSketches(ttftMS: int, latencyMS: int) returns (ok: bool)
      requires PartsValid() && ttftMS < TWO_63 && latencyMS < TWO_63
      modifies ttft, latency
      ensures PartsValid()
      ensures ok == (0 < ttftMS && 0 < latencyMS && old(ttft.count) < MAX_UINT64 && old(latency.count) < MAX_UINT64)
      ensures ok ==> ttft.count == old(ttft.count) + 1 && latency.count == old(latency.count) + 1
      ensures ok ==> ttft.bins == Incremented(old(ttft.bins), ttftMS) && latency.bins == Incremented(old(latency.bins), latencyMS)
    {
      hide Sketches.Consistent;
      hide Keyed;
      hide Key;
      hide Get;
      ok := ttft.Add(ttftMS);
      if ok {
        ok := latency.Add(latencyMS);
      }
    }

    /** The three representations, one after the other. */
    method AddParts(eventID: int, ttftMS: int, latencyMS: int) returns (ok: bool)
      requires PartsValid() && eventID < TWO_63 && ttftMS < TWO_63 && latencyMS < TWO_63
      modifies this, ttft, latency, samples
      ensures PartsValid() && group == old(group)
      ensures var p := PointOf(eventID, ttftMS, latencyMS);
              && ok == (WellFormed(p, samples.prio) && !Conflicts(old(samples.points), {p}) && old(ttft.count) < MAX_UINT64 && old(latency.count) < MAX_UINT64)
              && (ok ==> Merged(old(samples.points), {p}, samples.points, samples.k, samples.prio))
              && (ok ==> Parts() == Counted(old(Parts()), p, samples.points.Values))
      ensures ok ==> ttft.count == old(ttft.count) + 1 && latency.count == old(latency.count) + 1
    {
      hide Sketches.Consistent;
      hide Keyed;
      hide Key;
      hide Conflicts;
      hide Merged;
      hide Get;
      ok := AddSketches(ttftMS, latencyMS);
      if !ok {
        return;
      }
      hide Incremented;
      ok := samples.Add(eventID, ttftMS, latencyMS);
      if !ok {
        return;
      }
      sampleCount := sampleCount + 1;
      if ttftMS > maxTTFT {
        maxTTFT := ttftMS;
      }
      if latencyMS > maxLatency {
        maxLatency := latencyMS;
      }
    }

    /** Adds one event to all three representations. It fails exactly when the event is
        malformed, contradicts a retained one, or the row is full; the row is then void. */
    method Add(eventID: int, ttftMS: int, latencyMS: int) returns (ok: bool)
      requires Valid() && eventID < TWO_63 && ttftMS < TWO_63 && latencyMS < TWO_63
      modifies this, ttft, latency, samples
      ensures var p := PointOf(eventID, ttftMS, latencyMS);
              && ok == Takes(old(group), p, samples.k, samples.prio)
              && (ok ==> Valid() && group == old(group) + [p])
    {
      hide IsColumn;
      hide AllPoints;
      hide Best;
      hide Sketches.Consistent;
      hide Keyed;
      hide Conflicts;
      hide Contradicts;
      ghost var r, p := Parts(), PointOf(eventID, ttftMS, latencyMS);
      ContradictsRetained(group, samples.points, p, samples.k, samples.prio);
      hide IsRow;
      hide Merged;
      hide Counted;
      ok := AddParts(eventID, ttftMS, latencyMS);
      if ok {
        AddedBest(old(samples.points), p, samples.points, samples.k, samples.prio);
        NextPoint(r, group, p, samples.points.Values, samples.k, samples.prio);
        group := group + [p];
      }
    }
  }

  ghost predicate Denies(kept: set<SamplePoint>, p: SamplePoint) {
    exists q :: q in kept && q.eventID == p.eventID && q != p
  }

  /** The best points of the group hold one for the same event with other values. */
  ghost predicate Contradicts(group: seq<SamplePoint>, p: SamplePoint, k: nat) {
    exists kept :: Best(Elements(group), kept, k) && Denies(kept, p)
  }

  /** Whether a row of the group takes one more point. */
  ghost predicate Takes(group: seq<SamplePoint>, p: SamplePoint, k: nat, prio: int -> UInt64) {
    WellFormed(p, prio) && |group| < MAX_UINT64 && !Contradicts(group, p, k)
  }

  lemma {:induction false} ContradictsRetained(group: seq<SamplePoint>, points: PointMap, p: SamplePoint, k: nat, prio: int -> UInt64)
    requires Keyed(points, prio) && Best(Elements(group), points.Values, k)
    ensures Contradicts(group, p, k) <==> Conflicts(points, {p})
  {
    if Conflicts(points, {p}) {
      assert points[p.eventID] in points.Values;
    }
    if Contradicts(group, p, k) {
      var kept :| Best(Elements(group), kept, k) && Denies(kept, p);
      BestUnique(Elements(group), kept, points.Values, k);
      var q :| q in points.Values && q.eventID == p.eventID && q != p;
      FoundUnderID(points, q, prio);
      assert p in {p};
    }
  }

  /** The points retained after a successful add. */
  lemma AddedBest(before: PointMap, p: SamplePoint, after: PointMap, k: nat, prio: int -> UInt64)
    requires Merged(before, {p}, after, k, prio)
    ensures Best(before.Values + {p}, after.Values, k)
  {
  }
}
