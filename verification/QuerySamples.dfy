/** The query-side merger: it folds encoded rows straight into a retained set with
    a heap that it keeps between rows, and must end where decoding a row and
    merging it would. */
module QuerySamples {
  import opened Wrappers
  import opened Varint
  import opened Lists
  import opened SamplePoints
  import opened SampleHeap
  import opened SampleCodec
  import opened SampleSets

  /** The heap holds exactly the points of the map: the `k` best of all offered. */
  ghost predicate Retains(h: seq<SamplePoint>, m: PointMap, all: set<SamplePoint>, k: nat, prio: int -> UInt64) {
    && Keyed(m, prio) && IsHeap(h) && |h| <= k && multiset(h) == multiset(m.Values)
    && Best(all, m.Values, k)
  }

  /** A point is worth adding only if its event is not retained and there is room
      or it beats the worst. */
  predicate Eligible(h: seq<SamplePoint>, m: PointMap, k: nat, p: SamplePoint) {
    p.eventID !in m && (|h| < k || (|h| > 0 && Less(p, h[0])))
  }

  ghost predicate Offered(h: seq<SamplePoint>, m: PointMap, k: nat, row: set<SamplePoint>, candidates: seq<SamplePoint>) {
    && StrictlySorted(candidates)
    && Elements(candidates) == set p | p in row && Eligible(h, m, k, p)
  }

  lemma PrefixGrows(row: seq<SamplePoint>, i: nat)
    requires StrictlySorted(row) && i < |row|
    ensures Elements(row[..i + 1]) == Elements(row[..i]) + {row[i]}
    ensures forall q :: q in Elements(row[..i]) ==> Less(q, row[i])
  {
    assert row[..i + 1] == row[..i] + [row[i]];
  }

  lemma OfferSkip(h: seq<SamplePoint>, m: PointMap, k: nat, row: set<SamplePoint>, candidates: seq<SamplePoint>, p: SamplePoint)
    requires Offered(h, m, k, row, candidates) && !Eligible(h, m, k, p)
    ensures Offered(h, m, k, row + {p}, candidates)
  {
  }

  lemma OfferTake(h: seq<SamplePoint>, m: PointMap, k: nat, row: set<SamplePoint>, candidates: seq<SamplePoint>, p: SamplePoint)
    requires Offered(h, m, k, row, candidates) && Eligible(h, m, k, p)
    requires forall q :: q in row ==> Less(q, p)
    ensures Offered(h, m, k, row + {p}, candidates + [p])
  {
    forall j | 0 <= j < |candidates|
      ensures Less(candidates[j], p)
    {
      assert candidates[j] in Elements(candidates);
    }
    assert Elements(candidates + [p]) == Elements(candidates) + {p};
  }

  lemma ConflictsMore(m: PointMap, row: set<SamplePoint>, p: SamplePoint)
    ensures Conflicts(m, row + {p}) <==> (Conflicts(m, row) || (p.eventID in m && m[p.eventID] != p))
  {
    assert p in row + {p};
  }

  /** What is retained is the best of itself. */
  lemma {:induction false} RetainsItself(h: seq<SamplePoint>, m: PointMap, all: set<SamplePoint>, k: nat, prio: int -> UInt64, candidates: seq<SamplePoint>)
    requires Retains(h, m, all, k, prio)
    ensures Retains(h, m, m.Values + Elements(candidates[..0]), k, prio) && Keyed(m, prio) && |h| <= k
  {
    RetainsSize(h, m, all, k, prio);
    assert m.Values + Elements(candidates[..0]) == m.Values;
  }

  lemma RetainsSize(h: seq<SamplePoint>, m: PointMap, all: set<SamplePoint>, k: nat, prio: int -> UInt64)
    requires Retains(h, m, all, k, prio)
    ensures |h| == |m.Values| && (|h| < k ==> m.Values == all)
  {
    MultisetElements(h, m.Values);
    SubsetSize(m.Values, all);
    if |h| < k {
      SubsetOfSameSize(m.Values, all);
    }
  }

  /** A point strictly behind the worst retained one cannot carry a retained event
      ID, so skipping its conflict check loses no conflict. */
  lemma BehindWorstIsNew(h: seq<SamplePoint>, m: PointMap, all: set<SamplePoint>, k: nat, prio: int -> UInt64, p: SamplePoint)
    requires Retains(h, m, all, k, prio) && 0 < |h| && WellFormed(p, prio) && Less(h[0], p)
    ensures p.eventID !in m
  {
    HeapRoot(h, m.Values, m, prio);
    assert forall id :: id in m ==> m[id] in m.Values;
  }

  lemma PushRoom(h: seq<SamplePoint>, m: PointMap, all: set<SamplePoint>, k: nat, prio: int -> UInt64, p: SamplePoint, next: seq<SamplePoint>, m': PointMap)
    requires Retains(h, m, all, k, prio) && |h| < k && WellFormed(p, prio) && p.eventID !in m
    requires IsHeap(next) && multiset(next) == multiset(h + [p]) && m' == m[p.eventID := p]
    ensures Retains(next, m', all + {p}, k, prio)
  {
    KeyedInsert(m, p, prio);
    RetainsSize(h, m, all, k, prio);
    assert |multiset(next)| == |next| && |multiset(h + [p])| == |h + [p]|;
    assert multiset(m'.Values) == multiset(m.Values) + multiset{p};
    assert all + {p} == m'.Values;
  }

  lemma PushReplace(h: seq<SamplePoint>, m: PointMap, all: set<SamplePoint>, k: nat, prio: int -> UInt64, p: SamplePoint, next: seq<SamplePoint>, m': PointMap)
    requires Retains(h, m, all, k, prio) && |h| == k > 0 && WellFormed(p, prio) && p.eventID !in m && Less(p, h[0])
    requires IsHeap(next) && multiset(next) == multiset(h[0 := p]) && m' == (m - {h[0].eventID})[p.eventID := p]
    ensures h[0].eventID in m
    ensures Retains(next, m', all + {p}, k, prio)
  {
    var root := h[0];
    RetainsSize(h, m, all, k, prio);
    HeapRoot(h, m.Values, m, prio);
    FoundUnderID(m, root, prio);
    KeyedInsert(m, p, prio);
    KeyedDelete(m, root.eventID, prio);
    KeyedInsert(m - {root.eventID}, p, prio);
    RootReplaced(h, m.Values, p);
    assert |multiset(next)| == |next| && |multiset(h[0 := p])| == |h|;
    ReplaceRoot(m.Values, root, p);
    BestOfBest(all, m.Values, {p}, m'.Values, k);
  }

  lemma PushSkip(h: seq<SamplePoint>, m: PointMap, all: set<SamplePoint>, k: nat, prio: int -> UInt64, p: SamplePoint)
    requires Retains(h, m, all, k, prio) && |h| == k > 0 && WellFormed(p, prio) && p.eventID !in m && !Less(p, h[0])
    ensures Retains(h, m, all + {p}, k, prio)
  {
    RetainsSize(h, m, all, k, prio);
    HeapRoot(h, m.Values, m, prio);
    FoundUnderID(m, h[0], prio);
    KeyedInsert(m, p, prio);
    LessTotal(p, h[0]);
    ReplaceRoot(m.Values, h[0], p);
    BestOfBest(all, m.Values, {p}, m.Values, k);
  }

  /** New points behind a full heap leave the retained ones the best. */
  lemma {:induction false} BehindKept(h: seq<SamplePoint>, m: PointMap, all: set<SamplePoint>, k: nat, prio: int -> UInt64, row: set<SamplePoint>, behind: set<SamplePoint>)
    requires Retains(h, m, all, k, prio) && 0 < k && !Conflicts(m, row)
    requires forall p :: p in row ==> WellFormed(p, prio)
    requires behind <= row && behind !! m.Values && forall p :: p in behind ==> !Eligible(h, m, k, p)
    ensures Best(m.Values + behind, m.Values, k)
  {
    RetainsSize(h, m, all, k, prio);
    if |h| < k {
      assert forall id :: id in m ==> m[id] in m.Values;
      assert m.Values + behind == m.Values;
    } else {
      HeapRoot(h, m.Values, m, prio);
      SubsetSize(m.Values, m.Values + behind);
      forall a, b | a in m.Values && b in m.Values + behind && b !in m.Values
        ensures Less(a, b)
      {
        BehindRoot(h, m, k, prio, row, b);
      }
      if |m.Values + behind| <= k {
        SubsetOfSameSize(m.Values, m.Values + behind);
      }
    }
  }

  /** Points that were no candidates change nothing: they are retained already or
      rank behind a full heap. */
  lemma {:induction false} CandidatesSuffice(h: seq<SamplePoint>, m: PointMap, all: set<SamplePoint>, k: nat, prio: int -> UInt64, row: set<SamplePoint>, candidates: set<SamplePoint>, after: set<SamplePoint>)
    requires Retains(h, m, all, k, prio) && 0 < k && !Conflicts(m, row)
    requires forall p :: p in row ==> WellFormed(p, prio)
    requires candidates == set p | p in row && Eligible(h, m, k, p)
    requires Best(m.Values + candidates, after, k)
    ensures Best(m.Values + row, after, k)
  {
    var behind := set p | p in row && p !in candidates && p !in m.Values;
    BehindKept(h, m, all, k, prio, row, behind);
    hide Retains;
    hide Conflicts;
    hide Eligible;
    hide WellFormed;
    hide Best;
    BestOfBest(m.Values + behind, m.Values, candidates, after, k);
    assert m.Values + behind + candidates == m.Values + row;
  }

  lemma BehindRoot(h: seq<SamplePoint>, m: PointMap, k: nat, prio: int -> UInt64, row: set<SamplePoint>, b: SamplePoint)
    requires Keyed(m, prio) && 0 < |h| && h[0] in m.Values && b in row && b !in m.Values && !Conflicts(m, row)
    requires !Eligible(h, m, k, b)
    ensures Less(h[0], b)
  {
    FoundUnderID(m, h[0], prio);
    assert forall id :: id in m ==> m[id] in m.Values;
    LessTotal(b, h[0]);
  }

  class QuerySampleMerger {
    const k: nat
    const prio: int -> UInt64
    var samples: SampleSet?
    var heap: array<SamplePoint>
    var size: nat
    ghost var seen: set<SamplePoint>  // every point of every row merged so far

    ghost predicate Valid()
      reads this, samples, heap
    {
      && 0 < k == heap.Length && size <= k
      && (samples != null ==>
            samples.k == k && samples.prio == prio && Retains(heap[..size], samples.points, seen, k, prio))
    }

    constructor (k: nat, prio: int -> UInt64)
      requires 0 < k
      ensures Valid() && this.k == k && this.prio == prio && seen == {}
      ensures samples != null && fresh(samples) && fresh(heap) && samples.points == map[]
    {
      this.k, this.prio, size, seen := k, prio, 0, {};
      samples := new SampleSet(k, prio);
      heap := new SamplePoint[k](_ => SamplePoint(0, 0, 0, 0));
      new;
      assert heap[..0] == [];
    }

    /** The visitor the decoder calls point by point; it changes nothing. */
    method Visit(row: seq<SamplePoint>) returns (candidates: seq<SamplePoint>, conflict: bool)
      requires Valid() && samples != null && StrictlySorted(row) && AllWellFormed(row, prio)
      ensures conflict == Conflicts(samples.points, Elements(row))
      ensures Offered(heap[..size], samples.points, k, Elements(row), candidates)
    {
      candidates, conflict := [], false;
      ghost var h, m := heap[..size], samples.points;
      for i := 0 to |row|
        invariant conflict == Conflicts(m, Elements(row[..i]))
        invariant Offered(h, m, k, Elements(row[..i]), candidates)
      {
        var point := row[i];
        ghost var before := Elements(row[..i]);
        PrefixGrows(row, i);
        ConflictsMore(m, before, point);
        assert size > 0 ==> heap[0] == h[0];
        if size == k && Less(heap[0], point) {
          BehindWorstIsNew(h, m, seen, k, prio, point);
          OfferSkip(h, m, k, before, candidates, point);
        } else if point.eventID in samples.points {
          conflict := conflict || samples.points[point.eventID] != point;
          OfferSkip(h, m, k, before, candidates, point);
        } else if size < k || Less(point, heap[0]) {
          OfferTake(h, m, k, before, candidates, point);
          candidates := candidates + [point];
        } else {
          OfferSkip(h, m, k, before, candidates, point);
        }
      }
      assert row[..|row|] == row;
    }

    method Append(point: SamplePoint, ghost all: set<SamplePoint>)
      requires size < k == heap.Length && samples != null
      requires Retains(heap[..size], samples.points, all, k, prio)
      requires WellFormed(point, prio) && point.eventID !in samples.points
      modifies this`size, samples`points, heap
      ensures size <= k
      ensures Retains(heap[..size], samples.points, all + {point}, k, prio)
    {
      ghost var h, m := heap[..size], samples.points;
      samples.points := samples.points[point.eventID := point];
      heap[size] := point;
      size := size + 1;
      assert heap[..size - 1] == h && heap[..size] == h + [point];
      SiftUp(heap, size);
      PushRoom(h, m, all, k, prio, point, heap[..size], samples.points);
    }

    method ReplaceWorst(point: SamplePoint, ghost all: set<SamplePoint>)
      requires 0 < size == k == heap.Length && samples != null
      requires Retains(heap[..size], samples.points, all, k, prio)
      requires WellFormed(point, prio) && point.eventID !in samples.points && Less(point, heap[0])
      modifies samples`points, heap
      ensures Retains(heap[..size], samples.points, all + {point}, k, prio)
    {
      ghost var h, m := heap[..size], samples.points;
      assert heap[0] == h[0];
      HeapRoot(h, m.Values, m, prio);
      assert HeapFrom(h[0 := point], 1) by {
        KeyedInsert(m, point, prio);
        RootReplaced(h, m.Values, point);
      }
      samples.points := (samples.points - {heap[0].eventID})[point.eventID := point];
      heap[0] := point;
      assert heap[..size] == h[0 := point];
      SiftDownWorst(heap, size, 0);
      PushReplace(h, m, all, k, prio, point, heap[..size], samples.points);
    }

    method PushCandidate(point: SamplePoint, ghost all: set<SamplePoint>)
      requires 0 < k == heap.Length && size <= k && samples != null
      requires Retains(heap[..size], samples.points, all, k, prio)
      requires WellFormed(point, prio) && point.eventID !in samples.points
      modifies this`size, samples`points, heap
      ensures size <= k
      ensures Retains(heap[..size], samples.points, all + {point}, k, prio)
    {
      if size < k {
        Append(point, all);
      } else if Less(point, heap[0]) {
        ReplaceWorst(point, all);
      } else {
        assert heap[0] == heap[..size][0];
        PushSkip(heap[..size], samples.points, all, k, prio, point);
      }
    }

    method MergeCandidate(candidates: seq<SamplePoint>, i: nat, ghost base: PointMap)
      requires 0 < k == heap.Length && size <= k && samples != null && i < |candidates| && StrictlySorted(candidates)
      requires forall j :: 0 <= j < |candidates| ==> candidates[j].eventID !in base && WellFormed(candidates[j], prio)
      requires Keyed(base, prio) && Retains(heap[..size], samples.points, base.Values + Elements(candidates[..i]), k, prio)
      modifies this`size, samples`points, heap
      ensures size <= k
      ensures Retains(heap[..size], samples.points, base.Values + Elements(candidates[..i + 1]), k, prio)
    {
      PrefixGrows(candidates, i);
      hide StrictlySorted;
      hide Retains;
      hide Keyed;
      hide Less;
      ghost var all := base.Values + Elements(candidates[..i]);
      NotRetained(candidates, i, base, samples.points, prio);
      PushCandidate(candidates[i], all);
      assert all + {candidates[i]} == base.Values + Elements(candidates[..i + 1]);
    }

    method MergeCandidates(candidates: seq<SamplePoint>)
      requires Valid() && samples != null && StrictlySorted(candidates)
      requires forall j :: 0 <= j < |candidates| ==> candidates[j].eventID !in samples.points && WellFormed(candidates[j], prio)
      modifies this`size, samples`points, heap
      ensures size <= k
      ensures Retains(heap[..size], samples.points, old(samples.points).Values + Elements(candidates), k, prio)
    {
      hide Retains;
      hide StrictlySorted;
      ghost var base := samples.points;
      RetainsItself(heap[..size], base, seen, k, prio, candidates);
      for i := 0 to |candidates|
        invariant size <= k
        invariant Retains(heap[..size], samples.points, base.Values + Elements(candidates[..i]), k, prio)
      {
        MergeCandidate(candidates, i, base);
      }
      assert candidates[..|candidates|] == candidates;
    }

    method MergeRow(row: seq<SamplePoint>) returns (conflict: bool)
      requires Valid() && samples != null && StrictlySorted(row) && AllWellFormed(row, prio)
      modifies this`size, this`seen, samples`points, heap
      ensures Valid()
      ensures conflict == Conflicts(old(samples.points), Elements(row))
      ensures conflict ==> unchanged(this, heap, samples)
      ensures !conflict ==> Merged(old(samples.points), Elements(row), samples.points, k, prio) && seen == old(seen) + Elements(row)
    {
      hide StrictlySorted;
      hide Best;
      hide Less;
      ghost var base, h := samples.points, heap[..size];
      var candidates: seq<SamplePoint>;
      candidates, conflict := Visit(row);
      if conflict {
        return;
      }
      forall j | 0 <= j < |candidates|
        ensures candidates[j].eventID !in base && WellFormed(candidates[j], prio)
      {
        assert candidates[j] in Elements(candidates) && candidates[j] in Elements(row);
      }
      MergeCandidates(candidates);
      ghost var after := samples.points;
      CandidatesSuffice(h, base, seen, k, prio, Elements(row), Elements(candidates), after.Values);
      BestOfBest(seen, base.Values, Elements(row), after.Values, k);
      seen := seen + Elements(row);
    }

    /** Merges one encoded row. It succeeds exactly when the row decodes and
        contradicts no retained point, then retains what `SampleSet.Merge` of the
        decoded row would; otherwise nothing changes. */
    method MergeBinary(encoded: seq<Byte>) returns (r: Result<nat>)
      requires Valid()
      modifies this, samples, heap
      ensures Valid() && samples == old(samples) && heap == old(heap)
      ensures r.Ok? <==> samples != null && Decode(encoded, prio).Ok?
                         && !Conflicts(old(if samples == null then map[] else samples.points), Elements(Decode(encoded, prio).value))
      ensures r.Err? ==> unchanged(this, heap) && (samples != null ==> unchanged(samples))
      ensures r.Ok? ==> var row := Decode(encoded, prio).value;
                && r.value == |row|
                && Merged(old(if samples == null then map[] else samples.points), Elements(row), samples.points, k, prio)
                && seen == old(seen) + Elements(row)
    {
      if samples == null {
        return Err;
      }
      var walked := WalkSampleSet(encoded, prio);
      DecodeSorted(encoded, prio);
      if walked.Err? {
        return Err;
      }
      var conflict := MergeRow(walked.value);
      return if conflict then Err else Ok(|walked.value|);
    }

    /** Hands the retained set over; every later merge fails. */
    method TakeSamples() returns (taken: SampleSet?)
      requires Valid()
      modifies this`samples, this`size
      ensures seen == old(seen)
      ensures Valid() && samples == null && taken == old(samples)
      ensures taken != null ==> Keyed(taken.points, prio) && Best(seen, taken.points.Values, k)
    {
      taken := samples;
      samples, size := null, 0;
    }
  }

  /** A candidate's event is not retained when its turn comes. */
  lemma NotRetained(candidates: seq<SamplePoint>, i: nat, base: PointMap, m: PointMap, prio: int -> UInt64)
    requires i < |candidates| && StrictlySorted(candidates) && Keyed(base, prio) && Keyed(m, prio)
    requires forall j :: 0 <= j < |candidates| ==> candidates[j].eventID !in base && WellFormed(candidates[j], prio)
    requires m.Values <= base.Values + Elements(candidates[..i])
    ensures candidates[i].eventID !in m
  {
    forall id | id in m
      ensures id != candidates[i].eventID
    {
      assert m[id] in m.Values;
      if m[id] in base.Values {
        FoundUnderID(base, m[id], prio);
      } else {
        var j :| 0 <= j < i && candidates[j] == m[id];
        assert Less(candidates[j], candidates[i]);
      }
    }
  }
}
