/** The sample set that writers build, and the merger that queries use instead of
    decoding a set and merging it. Both keep a map and select with a heap. */
module SampleSets {
  import opened Choice
  import opened Lists
  import opened Wrappers
  import opened Varint
  import opened Records
  import opened SamplePoints
  import opened SampleHeap
  import opened SampleCodec

  type PointMap = map<int, SamplePoint>

  /** Every point sits under its own event ID. */
  ghost predicate Keyed(m: PointMap, prio: int -> UInt64) {
    forall id :: id in m ==> m[id].eventID == id && WellFormed(m[id], prio)
  }

  /** Some point of `row` is stored under the same event ID with other contents. */
  ghost predicate Conflicts(m: PointMap, row: set<SamplePoint>) {
    exists p :: p in row && p.eventID in m && m[p.eventID] != p
  }

  lemma KeyedDelete(m: PointMap, id: int, prio: int -> UInt64)
    requires Keyed(m, prio) && id in m
    ensures (m - {id}).Values == m.Values - {m[id]}
    ensures Keyed(m - {id}, prio)
  {
    var less := m - {id};
    forall p | p in m.Values - {m[id]}
      ensures p in less.Values
    {
      var other := KeyOf(m, p);
      assert other in less;
    }
    forall p | p in less.Values
      ensures p in m.Values && p != m[id]
    {
      var other := KeyOf(less, p);
      assert m[other] == p;
    }
  }

  lemma KeyedInsert(m: PointMap, p: SamplePoint, prio: int -> UInt64)
    requires Keyed(m, prio) && p.eventID !in m && WellFormed(p, prio)
    ensures m[p.eventID := p].Values == m.Values + {p}
    ensures Keyed(m[p.eventID := p], prio) && p !in m.Values
  {
    var more := m[p.eventID := p];
    assert p.eventID in more;
    forall q | q in m.Values
      ensures q in more.Values && q != p
    {
      var id := KeyOf(m, q);
      assert more[id] == q;
    }
  }

  lemma {:induction false} KeyedSize(m: PointMap, prio: int -> UInt64)
    requires Keyed(m, prio)
    ensures |m.Values| == |m|
    decreases |m|
  {
    if m.Keys != {} {
      var id := SomeElement(m.Keys);
      KeyedDelete(m, id, prio);
      KeyedSize(m - {id}, prio);
    }
  }

  /** A keyed map is determined by its points. */
  lemma KeyedEqual(one: PointMap, other: PointMap, prio: int -> UInt64)
    requires Keyed(one, prio) && Keyed(other, prio) && one.Values == other.Values
    ensures one == other
  {
    forall id | id in one
      ensures id in other && other[id] == one[id]
    {
      assert one[id] in other.Values;
      var found := KeyOf(other, one[id]);
    }
    forall id | id in other
      ensures id in one
    {
      assert other[id] in one.Values;
      var found := KeyOf(one, other[id]);
    }
  }

  /** What merging `row` into `before` must leave: no stored event is contradicted
      and the `k` best points of both remain. */
  ghost predicate Merged(before: PointMap, row: set<SamplePoint>, after: PointMap, k: nat, prio: int -> UInt64) {
    && !Conflicts(before, row)
    && Keyed(after, prio)
    && Best(before.Values + row, after.Values, k)
  }

  /** So two merges of the same row into the same set end in the same map,
      whichever order their maps were walked in. */
  lemma MergedUnique(before: PointMap, row: set<SamplePoint>, one: PointMap, other: PointMap, k: nat, prio: int -> UInt64)
    requires Merged(before, row, one, k, prio) && Merged(before, row, other, k, prio)
    ensures one == other
  {
    BestUnique(before.Values + row, one.Values, other.Values, k);
    KeyedEqual(one, other, prio);
  }

  lemma FoundUnderID(m: PointMap, p: SamplePoint, prio: int -> UInt64)
    requires Keyed(m, prio) && p in m.Values
    ensures p.eventID in m && m[p.eventID] == p
  {
    var id := KeyOf(m, p);
  }

  lemma UnionValues(one: PointMap, other: PointMap, prio: int -> UInt64)
    requires Keyed(one, prio) && Keyed(other, prio) && !Conflicts(one, other.Values)
    ensures (other + one).Values == one.Values + other.Values
    ensures Keyed(other + one, prio)
  {
    var both := other + one;
    forall p | p in one.Values + other.Values
      ensures p in both.Values
    {
      if p in one.Values {
        FoundUnderID(one, p, prio);
        assert both[p.eventID] == p;
      } else {
        FoundUnderID(other, p, prio);
        assert both[p.eventID] == p;
      }
    }
    forall p | p in both.Values
      ensures p in one.Values + other.Values
    {
      var id := KeyOf(both, p);
      assert if id in one then one[id] == p else other[id] == p;
    }
  }

  // ----- enumerations without repetition -----

  ghost predicate Distinct(order: seq<SamplePoint>) {
    multiset(order) == multiset(Elements(order))
  }

  lemma DistinctPrefix(order: seq<SamplePoint>, n: nat)
    requires Distinct(order) && n <= |order|
    ensures Distinct(order[..n]) && |Elements(order[..n])| == n
  {
    var prefix := order[..n];
    assert order == prefix + order[n..];
    forall p: SamplePoint
      ensures multiset(prefix)[p] == multiset(Elements(prefix))[p]
    {
      assert multiset(order)[p] <= 1;
      assert p in prefix <==> multiset(prefix)[p] > 0;
    }
    assert |multiset(prefix)| == n;
    assert multiset(Elements(prefix)) == multiset(prefix);
  }

  lemma ElementsSplit(order: seq<SamplePoint>, i: nat)
    requires i < |order| && Distinct(order)
    ensures Elements(order[..i + 1]) == Elements(order[..i]) + {order[i]}
    ensures Elements(order[i..]) == Elements(order[i + 1..]) + {order[i]}
    ensures order[i] !in Elements(order[..i]) && order[i] !in Elements(order[i + 1..])
  {
    var p := order[i];
    assert order == order[..i] + [p] + order[i + 1..];
    assert order[..i + 1] == order[..i] + [p] && order[i..] == [p] + order[i + 1..];
    assert multiset(order)[p] <= 1;
  }

  lemma MultisetElements(order: seq<SamplePoint>, s: set<SamplePoint>)
    requires multiset(order) == multiset(s)
    ensures Elements(order) == s && Distinct(order) && |order| == |s|
  {
    forall p | p in Elements(order) + s
      ensures p in Elements(order) && p in s
    {
      assert p in order <==> multiset(order)[p] > 0;
      assert p in s <==> multiset(s)[p] > 0;
    }
    assert |multiset(order)| == |order| && |multiset(s)| == |s|;
  }

  lemma ElementsApart(order: seq<SamplePoint>, n: nat)
    requires Distinct(order) && n <= |order|
    ensures Elements(order) == Elements(order[..n]) + Elements(order[n..])
    ensures Elements(order[..n]) !! Elements(order[n..])
  {
    assert order == order[..n] + order[n..];
    forall p: SamplePoint
      ensures !(p in order[..n] && p in order[n..])
    {
      assert multiset(order)[p] == multiset(order[..n])[p] + multiset(order[n..])[p] <= 1;
      assert p in order[..n] <==> multiset(order[..n])[p] > 0;
      assert p in order[n..] <==> multiset(order[n..])[p] > 0;
    }
  }

  /** The points of a map in any order. */
  method Enumerate(m: PointMap, ghost prio: int -> UInt64) returns (a: array<SamplePoint>)
    requires Keyed(m, prio)
    ensures fresh(a) && multiset(a[..]) == multiset(m.Values)
  {
    var left := m;
    var order: seq<SamplePoint> := [];
    while left.Keys != {}
      invariant Keyed(left, prio)
      invariant multiset(order) + multiset(left.Values) == multiset(m.Values)
      decreases |left|
    {
      var id := Pick(left.Keys);
      KeyedDelete(left, id, prio);
      assert left[id] in left.Values;
      order := order + [left[id]];
      left := left - {id};
    }
    a := new SamplePoint[|order|](i requires 0 <= i < |order| => order[i]);
    assert a[..] == order;
    assert left.Values == {};
  }

  method Heapify(a: array<SamplePoint>, n: nat)
    requires 0 < n <= a.Length
    modifies a
    ensures IsHeap(a[..n]) && multiset(a[..n]) == multiset(old(a[..n]))
    ensures a[n..] == old(a[n..])
  {
    var index := n / 2;
    while index > 0
      invariant 0 <= index <= n / 2
      invariant HeapFrom(a[..n], index) && multiset(a[..n]) == multiset(old(a[..n]))
      invariant a[n..] == old(a[n..])
    {
      index := index - 1;
      SiftDownWorst(a, n, index);
    }
  }

  lemma HeapRoot(h: seq<SamplePoint>, kept: set<SamplePoint>, m: PointMap, prio: int -> UInt64)
    requires IsHeap(h) && 0 < |h| && multiset(h) == multiset(kept)
    requires Keyed(m, prio) && kept <= m.Values
    ensures h[0] in kept && forall q :: q in kept && q != h[0] ==> Less(q, h[0])
  {
    MultisetElements(h, kept);
    forall q | q in kept && q != h[0]
      ensures Less(q, h[0])
    {
      assert q in Elements(h);
      var i :| 0 <= i < |h| && h[i] == q;
      RootIsWorst(h, i);
      FoundUnderID(m, q, prio);
      FoundUnderID(m, h[0], prio);
    }
  }

  lemma RootReplaced(before: seq<SamplePoint>, kept: set<SamplePoint>, p: SamplePoint)
    requires IsHeap(before) && 0 < |before| && multiset(before) == multiset(kept) && p !in kept
    ensures HeapFrom(before[0 := p], 1)
    ensures before[0] in kept && multiset(before[0 := p]) == multiset(kept - {before[0]} + {p})
  {
    assert before[0] in multiset(before);
  }

  /** One selection step: the root gives way to a better point, or stays. */
  lemma ReplaceRoot(kept: set<SamplePoint>, root: SamplePoint, p: SamplePoint)
    requires root in kept && p !in kept
    requires forall q :: q in kept && q != root ==> Less(q, root)
    ensures Less(p, root) ==> Best(kept + {p}, kept - {root} + {p}, |kept|)
    ensures Less(root, p) ==> Best(kept + {p}, kept, |kept|)
  {
  }

  /** Different events never tie. */
  lemma LessTotal(p: SamplePoint, q: SamplePoint)
    requires p.eventID != q.eventID
    ensures Less(p, q) != Less(q, p)
  {
  }

  /** Half-way through a selection: `h` is a heap of the `k` best of the first `j`
      enumerated points, and the map holds those and the points still to come. */
  ghost predicate Selecting(order: seq<SamplePoint>, j: nat, h: seq<SamplePoint>, kept: set<SamplePoint>, m: PointMap, k: nat, prio: int -> UInt64) {
    && 0 < k <= j <= |order| && Distinct(order)
    && IsHeap(h) && |h| == k && multiset(h) == multiset(kept) && |kept| == k
    && Keyed(m, prio) && m.Values == kept + Elements(order[j..]) && kept !! Elements(order[j..])
    && Best(Elements(order[..j]), kept, k)
  }

  lemma SelectStep(order: seq<SamplePoint>, j: nat, h: seq<SamplePoint>, kept: set<SamplePoint>, m: PointMap, k: nat, prio: int -> UInt64)
    requires Selecting(order, j, h, kept, m, k, prio) && j < |order|
    ensures h[0] in kept && order[j] !in kept
    ensures FoundAt(m, h[0]) && FoundAt(m, order[j]) && Less(order[j], h[0]) != Less(h[0], order[j])
    ensures Less(order[j], h[0]) ==>
              && Best(Elements(order[..j + 1]), kept - {h[0]} + {order[j]}, k)
              && HeapFrom(h[0 := order[j]], 1)
              && multiset(h[0 := order[j]]) == multiset(kept - {h[0]} + {order[j]})
    ensures Less(h[0], order[j]) ==> Best(Elements(order[..j + 1]), kept, k)
  {
    var p, root := order[j], h[0];
    ElementsSplit(order, j);
    HeapRoot(h, kept, m, prio);
    FoundUnderID(m, p, prio);
    FoundUnderID(m, root, prio);
    LessTotal(p, root);
    ReplaceRoot(kept, root, p);
    if Less(p, root) {
      BestOfBest(Elements(order[..j]), kept, {p}, kept - {root} + {p}, k);
      RootReplaced(h, kept, p);
    } else {
      BestOfBest(Elements(order[..j]), kept, {p}, kept, k);
    }
  }

  ghost predicate FoundAt(m: PointMap, p: SamplePoint) {
    p.eventID in m && m[p.eventID] == p
  }

  /** Dropping a kept point for the next one, or the next one itself, leaves the
      kept points and those still to come. */
  lemma SelectDrop(order: seq<SamplePoint>, j: nat, kept: set<SamplePoint>, gone: SamplePoint, m: PointMap, prio: int -> UInt64)
    requires Distinct(order) && j < |order|
    requires Keyed(m, prio) && m.Values == kept + Elements(order[j..]) && kept !! Elements(order[j..])
    requires FoundAt(m, gone)
    ensures Keyed(m - {gone.eventID}, prio)
    ensures gone in kept ==> (m - {gone.eventID}).Values == (kept - {gone} + {order[j]}) + Elements(order[j + 1..])
    ensures gone == order[j] ==> (m - {gone.eventID}).Values == kept + Elements(order[j + 1..])
    ensures (kept + {order[j]}) !! Elements(order[j + 1..])
  {
    ElementsSplit(order, j);
    KeyedDelete(m, gone.eventID, prio);
  }

  lemma SelectInit(order: seq<SamplePoint>, h: seq<SamplePoint>, m: PointMap, k: nat, prio: int -> UInt64)
    requires 0 < k <= |order| && Keyed(m, prio) && multiset(order) == multiset(m.Values)
    requires IsHeap(h) && |h| == k && multiset(h) == multiset(order[..k])
    ensures Selecting(order, k, h, Elements(order[..k]), m, k, prio)
  {
    MultisetElements(order, m.Values);
    DistinctPrefix(order, k);
    ElementsApart(order, k);
  }

  lemma SelectReplaced(order: seq<SamplePoint>, j: nat, h: seq<SamplePoint>, kept: set<SamplePoint>, m: PointMap, k: nat, prio: int -> UInt64, next: seq<SamplePoint>, kept': set<SamplePoint>, m': PointMap)
    requires Selecting(order, j, h, kept, m, k, prio) && j < |order| && Less(order[j], h[0])
    requires IsHeap(next) && multiset(next) == multiset(h[0 := order[j]])
    requires kept' == kept - {h[0]} + {order[j]} && m' == m - {h[0].eventID}
    ensures Selecting(order, j + 1, next, kept', m', k, prio)
  {
    SelectStep(order, j, h, kept, m, k, prio);
    SelectDrop(order, j, kept, h[0], m, prio);
    assert |multiset(next)| == |next| && |multiset(h)| == |h|;
  }

  lemma SelectPassed(order: seq<SamplePoint>, j: nat, h: seq<SamplePoint>, kept: set<SamplePoint>, m: PointMap, k: nat, prio: int -> UInt64, m': PointMap)
    requires Selecting(order, j, h, kept, m, k, prio) && j < |order| && !Less(order[j], h[0])
    requires m' == m - {order[j].eventID}
    ensures Selecting(order, j + 1, h, kept, m', k, prio)
  {
    SelectStep(order, j, h, kept, m, k, prio);
    SelectDrop(order, j, kept, order[j], m, prio);
  }

  lemma SelectDone(order: seq<SamplePoint>, j: nat, h: seq<SamplePoint>, kept: set<SamplePoint>, m: PointMap, k: nat, prio: int -> UInt64)
    requires Selecting(order, j, h, kept, m, k, prio) && j == |order|
    ensures m.Values == kept && Best(Elements(order), kept, k)
    ensures h[0] in kept && forall p :: p in kept && p != h[0] ==> Less(p, h[0])
  {
    assert order[..|order|] == order && order[|order|..] == [];
    HeapRoot(h, kept, m, prio);
  }

  /** Weighs the next enumerated point against the root. */
  method SelectOne(all: array<SamplePoint>, ghost order: seq<SamplePoint>, j: nat, ghost kept: set<SamplePoint>, m: PointMap, k: nat, ghost prio: int -> UInt64)
    returns (left: PointMap, ghost kept': set<SamplePoint>)
    requires j < all.Length == |order| && 0 < k <= all.Length && all[k..] == order[k..]
    requires Selecting(order, j, all[..k], kept, m, k, prio)
    modifies all
    ensures all[k..] == order[k..]
    ensures Selecting(order, j + 1, all[..k], kept', left, k, prio)
  {
    var point := all[j];
    ghost var h := all[..k];
    assert point == all[k..][j - k] == order[j] && all[0] == h[0];
    hide Best;
    hide Keyed;
    hide Distinct;
    hide Less;
    SelectStep(order, j, h, kept, m, k, prio);
    if Less(point, all[0]) {
      left := m - {all[0].eventID};
      all[0] := point;
      assert all[..k] == h[0 := point];
      SiftDownWorst(all, k, 0);
      kept' := kept - {h[0]} + {point};
      SelectReplaced(order, j, h, kept, m, k, prio, all[..k], kept', left);
    } else {
      left := m - {point.eventID};
      kept' := kept;
      SelectPassed(order, j, h, kept, m, k, prio, left);
    }
  }

  method SelectRest(all: array<SamplePoint>, ghost order: seq<SamplePoint>, ghost kept: set<SamplePoint>, m: PointMap, k: nat, ghost prio: int -> UInt64)
    returns (left: PointMap)
    requires all.Length == |order| && 0 < k <= all.Length && all[k..] == order[k..]
    requires Selecting(order, k, all[..k], kept, m, k, prio)
    modifies all
    ensures Keyed(left, prio) && Best(Elements(order), left.Values, k)
    ensures all[0] in left.Values && forall p :: p in left.Values && p != all[0] ==> Less(p, all[0])
  {
    left := m;
    ghost var now := kept;
    var j := k;
    while j < all.Length
      invariant k <= j <= all.Length && all[k..] == order[k..]
      invariant Selecting(order, j, all[..k], now, left, k, prio)
    {
      left, now := SelectOne(all, order, j, now, left, k, prio);
      j := j + 1;
    }
    SelectDone(order, j, all[..k], now, left, k, prio);
    assert all[..k][0] == all[0];
  }

  /** Leaves the `k` best points in the map and their worst in `all[0]`. */
  method SelectBest(all: array<SamplePoint>, m: PointMap, k: nat, ghost prio: int -> UInt64) returns (left: PointMap)
    requires 0 < k <= all.Length && Keyed(m, prio) && multiset(all[..]) == multiset(m.Values)
    modifies all
    ensures Keyed(left, prio) && Best(m.Values, left.Values, k)
    ensures all[0] in left.Values && forall p :: p in left.Values && p != all[0] ==> Less(p, all[0])
  {
    ghost var order := all[..];
    MultisetElements(order, m.Values);
    Heapify(all, k);
    SelectInit(order, all[..k], m, k, prio);
    left := SelectRest(all, order, Elements(order[..k]), m, k, prio);
  }

  // ----- ranking -----

  /** Some points of `m` are ranked, the others are left. */
  ghost predicate RankingSome(m: PointMap, left: PointMap, ps: seq<SamplePoint>, prio: int -> UInt64) {
    && Keyed(m, prio) && Keyed(left, prio)
    && StrictlySorted(ps) && AllWellFormed(ps, prio) && |ps| + |left| == |m|
    && Elements(ps) + left.Values == m.Values && Elements(ps) !! left.Values
  }

  lemma OtherEvents(m: PointMap, ps: seq<SamplePoint>, p: SamplePoint, prio: int -> UInt64)
    requires Keyed(m, prio) && p in m.Values && Elements(ps) <= m.Values && p !in Elements(ps)
    ensures forall i :: 0 <= i < |ps| ==> ps[i].eventID != p.eventID
  {
    FoundUnderID(m, p, prio);
    forall i | 0 <= i < |ps|
      ensures ps[i].eventID != p.eventID
    {
      assert ps[i] in Elements(ps);
      FoundUnderID(m, ps[i], prio);
    }
  }

  lemma MoveOver(ranked: set<SamplePoint>, left: set<SamplePoint>, all: set<SamplePoint>, p: SamplePoint)
    requires ranked + left == all && ranked !! left && p in left
    ensures (ranked + {p}) + (left - {p}) == all && (ranked + {p}) !! (left - {p})
    ensures p !in ranked && p in all && ranked <= all
  {
  }

  lemma RankOne(m: PointMap, left: PointMap, ps: seq<SamplePoint>, id: int, prio: int -> UInt64)
    requires RankingSome(m, left, ps, prio) && id in left
    ensures RankingSome(m, left - {id}, Insert(ps, left[id]), prio)
  {
    var p, out, rest := left[id], Insert(ps, left[id]), left - {id};
    assert Keyed(rest, prio) && rest.Values == left.Values - {p} && p in left.Values && |rest| == |left| - 1 by {
      KeyedDelete(left, id, prio);
    }
    MoveOver(Elements(ps), left.Values, m.Values, p);
    assert StrictlySorted(out) && AllWellFormed(out, prio) && Elements(out) == Elements(ps) + {p} && |out| == |ps| + 1 by {
      OtherEvents(m, ps, p, prio);
      InsertRanks(ps, p, prio);
    }
  }

  function Insert(ps: seq<SamplePoint>, p: SamplePoint): seq<SamplePoint> {
    if ps == [] || Less(p, ps[0]) then [p] + ps else [ps[0]] + Insert(ps[1..], p)
  }

  lemma {:induction false} RanksFirst(p: SamplePoint, rest: seq<SamplePoint>, prio: int -> UInt64)
    requires StrictlySorted(rest) && AllWellFormed(rest, prio) && WellFormed(p, prio)
    requires forall j :: 0 <= j < |rest| ==> Less(p, rest[j])
    ensures StrictlySorted([p] + rest) && AllWellFormed([p] + rest, prio) && Elements([p] + rest) == {p} + Elements(rest)
  {
  }

  lemma {:induction false} TailSorted(ps: seq<SamplePoint>, prio: int -> UInt64)
    requires StrictlySorted(ps) && AllWellFormed(ps, prio) && ps != []
    ensures StrictlySorted(ps[1..]) && AllWellFormed(ps[1..], prio) && Elements(ps) == {ps[0]} + Elements(ps[1..])
    ensures forall j :: 1 <= j < |ps| ==> Less(ps[0], ps[j])
  {
    assert ps == [ps[0]] + ps[1..];
  }

  /** A point goes in front of all it outranks. */
  lemma {:induction false} InFront(ps: seq<SamplePoint>, p: SamplePoint)
    requires StrictlySorted(ps) && (ps != [] ==> Less(p, ps[0]))
    ensures forall j :: 0 <= j < |ps| ==> Less(p, ps[j])
  {
  }

  lemma {:induction false} AllBehind(first: SamplePoint, rest: seq<SamplePoint>, tail: seq<SamplePoint>, p: SamplePoint)
    requires Elements(rest) == Elements(tail) + {p} && Less(first, p) && forall j :: 0 <= j < |tail| ==> Less(first, tail[j])
    ensures forall j :: 0 <= j < |rest| ==> Less(first, rest[j])
  {
    hide Less;
    forall j | 0 <= j < |rest|
      ensures Less(first, rest[j])
    {
      assert rest[j] in Elements(rest);
    }
  }

  lemma {:induction false} InsertRanks(ps: seq<SamplePoint>, p: SamplePoint, prio: int -> UInt64)
    requires StrictlySorted(ps) && AllWellFormed(ps, prio) && WellFormed(p, prio)
    requires forall i :: 0 <= i < |ps| ==> ps[i].eventID != p.eventID
    ensures var out := Insert(ps, p);
            StrictlySorted(out) && AllWellFormed(out, prio) && Elements(out) == Elements(ps) + {p} && |out| == |ps| + 1
  {
    if ps == [] || Less(p, ps[0]) {
      InFront(ps, p);
      RanksFirst(p, ps, prio);
    } else {
      var rest := Insert(ps[1..], p);
      TailSorted(ps, prio);
      InsertRanks(ps[1..], p, prio);
      LessTotal(ps[0], p);
      hide StrictlySorted;
      hide AllWellFormed;
      hide Less;
      AllBehind(ps[0], rest, ps[1..], p);
      hide Insert;
      RanksFirst(ps[0], rest, prio);
    }
  }

  /** A set has one ranking, so its encoding does not depend on map order. */
  lemma {:induction false} RankingUnique(one: seq<SamplePoint>, other: seq<SamplePoint>)
    requires StrictlySorted(one) && StrictlySorted(other) && Elements(one) == Elements(other)
    ensures one == other
  {
    if one == [] || other == [] {
      assert one == [] <==> Elements(one) == {} by { NoElements(one); }
      assert other == [] <==> Elements(other) == {} by { NoElements(other); }
    } else {
      HeadIsBest(one, other[0]);
      HeadIsBest(other, one[0]);
      TailElements(one);
      TailElements(other);
      RankingUnique(one[1..], other[1..]);
      assert one == [one[0]] + one[1..] && other == [other[0]] + other[1..];
    }
  }

  lemma NoElements(ps: seq<SamplePoint>)
    ensures Elements(ps) == {} <==> ps == []
  {
    if ps != [] {
      assert ps[0] in Elements(ps);
    }
  }

  lemma HeadIsBest(ps: seq<SamplePoint>, p: SamplePoint)
    requires StrictlySorted(ps) && ps != [] && p in Elements(ps)
    ensures p == ps[0] || Less(ps[0], p)
  {
  }

  lemma TailElements(ps: seq<SamplePoint>)
    requires StrictlySorted(ps) && ps != []
    ensures Elements(ps[1..]) == Elements(ps) - {ps[0]}
  {
    assert ps == [ps[0]] + ps[1..];
    forall p | p in ps[1..]
      ensures p != ps[0]
    {
      var i :| 0 <= i < |ps[1..]| && ps[1..][i] == p;
      assert Less(ps[0], ps[i + 1]);
    }
  }

  /** The ranking of a set of points. */
  ghost predicate Ranks(ps: seq<SamplePoint>, s: set<SamplePoint>) {
    StrictlySorted(ps) && Elements(ps) == s
  }

  /** A merge under way: `taken` of the incoming points are in, none contradicted. */
  ghost predicate Joining(base: PointMap, incoming: PointMap, left: set<int>, points: PointMap, prio: int -> UInt64) {
    && left <= incoming.Keys && Keyed(base, prio) && Keyed(incoming, prio) && Keyed(points, prio)
    && points == (incoming - left) + base && !Conflicts(base, (incoming - left).Values)
  }

  /** One more of them is in, unless it contradicts. */
  lemma {:induction false} TakeOne(base: PointMap, incoming: PointMap, left: set<int>, points: PointMap, id: int, points': PointMap, prio: int -> UInt64)
    requires Joining(base, incoming, left, points, prio) && id in left && !Conflicts(points, {incoming[id]})
    requires points' == if incoming[id].eventID in points then points else points[incoming[id].eventID := incoming[id]]
    ensures Joining(base, incoming, left - {id}, points', prio)
  {
    var taken, more, point := incoming - left, incoming - (left - {id}), incoming[id];
    assert more == taken[id := point];
    TakenFits(base, taken, more, point, points, prio);
    assert points' == more + base;
  }

  lemma {:induction false} TakenFits(base: PointMap, taken: PointMap, more: PointMap, point: SamplePoint, points: PointMap, prio: int -> UInt64)
    requires Keyed(base, prio) && Keyed(taken, prio) && point.eventID !in taken && WellFormed(point, prio)
    requires more == taken[point.eventID := point] && points == taken + base
    requires !Conflicts(base, taken.Values) && !Conflicts(points, {point})
    ensures !Conflicts(base, more.Values) && (point.eventID in points ==> points[point.eventID] == point)
  {
    KeyedInsert(taken, point, prio);
    assert point in {point};
  }

  lemma {:induction false} JoinBegins(base: PointMap, incoming: PointMap, prio: int -> UInt64)
    requires Keyed(base, prio) && Keyed(incoming, prio)
    ensures Joining(base, incoming, incoming.Keys, base, prio)
  {
    assert incoming - incoming.Keys == map[];
  }

  lemma {:induction false} JoinEnds(base: PointMap, incoming: PointMap, points: PointMap, prio: int -> UInt64)
    requires Joining(base, incoming, {}, points, prio)
    ensures points == incoming + base && !Conflicts(base, incoming.Values)
  {
    assert incoming - {} == incoming;
  }

  lemma {:induction false} JoiningPoint(base: PointMap, incoming: PointMap, left: set<int>, points: PointMap, id: int, prio: int -> UInt64)
    requires Joining(base, incoming, left, points, prio) && id in left
    ensures WellFormed(incoming[id], prio) && incoming[id].eventID == id && Keyed(points, prio)
    ensures forall i :: i in base ==> i in points && points[i] == base[i]
    ensures forall i :: i in points && i !in base ==> i in incoming && points[i] == incoming[i]
  {
  }

  /** A point that contradicts what has been taken contradicts what there was before. */
  lemma {:induction false} ConflictShown(base: PointMap, incoming: PointMap, left: set<int>, points: PointMap, id: int, prio: int -> UInt64)
    requires Joining(base, incoming, left, points, prio) && id in left && Conflicts(points, {incoming[id]})
    ensures Conflicts(base, incoming.Values)
  {
    var point := incoming[id];
    assert point in incoming.Values;
    assert point.eventID == id && points[id] == base[id];
  }

  lemma SameIfConflicting(points: PointMap, point: SamplePoint, prio: int -> UInt64)
    requires Conflicts(points, {point})
    ensures point.eventID in points
  {
  }

  lemma {:induction false} AddedValues(before: PointMap, point: SamplePoint, after: PointMap, prio: int -> UInt64)
    requires Keyed(before, prio) && WellFormed(point, prio) && !Conflicts(before, {point})
    requires after == if point.eventID in before then before else before[point.eventID := point]
    ensures after.Values == before.Values + {point}
  {
    assert point in {point};
    if point.eventID in before {
      assert before[point.eventID] == point;
    } else {
      KeyedInsert(before, point, prio);
    }
  }

  class SampleSet {
    const k: nat
    const prio: int -> UInt64
    var points: PointMap

    ghost predicate Valid()
      reads this
    {
      0 < k && Keyed(points, prio)
    }

    constructor (k: nat, prio: int -> UInt64)
      requires 0 < k
      ensures Valid() && points == map[] && this.k == k && this.prio == prio
    {
      this.k, this.prio, points := k, prio, map[];
    }

    method AddPoint(point: SamplePoint) returns (ok: bool)
      requires Valid() && WellFormed(point, prio)
      modifies this`points
      ensures Valid()
      ensures ok == !Conflicts(old(points), {point})
      ensures points == if point.eventID in old(points) then old(points) else old(points)[point.eventID := point]
    {
      if point.eventID in points {
        assert point in {point};
        return points[point.eventID] == point;
      }
      points := points[point.eventID := point];
      return true;
    }

    /** Adding an event that is already retained with the same values changes nothing;
        with other values it fails. Otherwise the best `k` remain. */
    method Add(eventID: int, ttftMS: int, latencyMS: int) returns (ok: bool)
      requires Valid() && eventID < TWO_63 && ttftMS < TWO_63 && latencyMS < TWO_63
      modifies this`points
      ensures Valid()
      ensures var p := SamplePoint(eventID, prio(eventID), ttftMS, latencyMS);
              && ok == (WellFormed(p, prio) && !Conflicts(old(points), {p}))
              && (if ok then Merged(old(points), {p}, points, k, prio) else points == old(points))
    {
      if eventID <= 0 || ttftMS <= 0 || latencyMS <= 0 {
        return false;
      }
      hide Keyed;
      hide Conflicts;
      hide Best;
      hide Less;
      var point := SamplePoint(eventID, prio(eventID), ttftMS, latencyMS);
      ok := AddPoint(point);
      if !ok {
        return;
      }
      AddedValues(old(points), point, points, prio);
      var _, _ := Trim();
    }

    /** Merges a whole set, checking every point of it before anything is dropped. */
    method Merge(other: SampleSet) returns (ok: bool)
      requires Valid() && other.Valid() && other.prio == prio
      modifies this`points
      ensures Valid()
      ensures ok == !Conflicts(old(points), old(other.points).Values)
      ensures ok ==> Merged(old(points), old(other.points).Values, points, k, prio)
      ensures !ok ==> forall id :: id in old(points) ==> id in points && points[id] == old(points)[id]
      ensures !ok ==> forall id :: id in points && id !in old(points) ==> id in old(other.points) && points[id] == old(other.points)[id]
    {
      hide Keyed;
      hide Conflicts;
      hide Joining;
      hide Best;
      var incoming := other.points;
      var left := incoming.Keys;
      JoinBegins(points, incoming, prio);
      while left != {}
        invariant left <= incoming.Keys && Joining(old(points), incoming, left, points, prio) && Keyed(points, prio)
        decreases |left|
      {
        var id := Pick(left);
        var point := incoming[id];
        ghost var before := points;
        JoiningPoint(old(points), incoming, left, points, id, prio);
        ok := AddPoint(point);
        if !ok {
          ConflictShown(old(points), incoming, left, before, id, prio);
          SameIfConflicting(before, point, prio);
          return;
        }
        TakeOne(old(points), incoming, left, before, id, points, prio);
        left := left - {id};
      }
      JoinEnds(old(points), incoming, points, prio);
      UnionValues(old(points), incoming, prio);
      var _, _ := Trim();
      return true;
    }

    /** Keeps the `k` best points, selecting them with a worst-at-root heap over an
        arbitrary enumeration of the map. */
    method Trim() returns (worst: SamplePoint, trimmed: bool)
      requires Valid()
      modifies this`points
      ensures Valid()
      ensures Best(old(points).Values, points.Values, k)
      ensures trimmed == (|old(points)| > k)
      ensures trimmed ==> worst in points.Values && forall p :: p in points.Values && p != worst ==> Less(p, worst)
    {
      KeyedSize(points, prio);
      if |points| <= k {
        return SamplePoint(0, 0, 0, 0), false;
      }
      var all := Enumerate(points, prio);
      MultisetElements(all[..], points.Values);
      points := SelectBest(all, points, k, prio);
      return all[0], true;
    }

    /** The retained points in rank order. */
    method Points() returns (ps: seq<SamplePoint>)
      requires Valid()
      ensures Ranks(ps, points.Values) && AllWellFormed(ps, prio) && |ps| == |points|
    {
      ps := [];
      var left := points;
      while left.Keys != {}
        invariant RankingSome(points, left, ps, prio)
        decreases |left|
      {
        var id := Pick(left.Keys);
        RankOne(points, left, ps, id, prio);
        ps := Insert(ps, left[id]);
        left := left - {id};
      }
      assert left.Values == {};
    }

    /** Encodes the ranking; a set over the limit is refused. */
    method MarshalBinary() returns (r: Result<seq<Byte>>)
      requires Valid()
      ensures r.Ok? <==> |points| <= k
      ensures r.Ok? ==> exists ps :: Ranks(ps, points.Values) && r.value == Encode(ps)
      ensures r.Ok? && k <= MAX_ENCODED_SAMPLE_POINTS ==>
                Decode(r.value, prio).Ok? && Ranks(Decode(r.value, prio).value, points.Values)
    {
      var ps := Points();
      if |ps| > k {
        return Err;
      }
      var body: seq<Byte> := [];
      for i := 0 to |ps|
        invariant body == EncodeMany(ps[..i], EncodePoint)
      {
        EncodeManyAppend(ps[..i], ps[i], EncodePoint);
        assert ps[..i + 1] == ps[..i] + [ps[i]];
        body := body + EncodePoint(ps[i]);
      }
      assert ps[..|ps|] == ps;
      if k <= MAX_ENCODED_SAMPLE_POINTS {
        RoundTrip(ps, prio);
      }
      return Ok(Frame(FORMAT_VERSION, |ps|, body));
    }
  }

  /** Decodes a whole set; rows written under a larger limit are accepted untrimmed. */
  method UnmarshalSampleSet(data: seq<Byte>, k: nat, prio: int -> UInt64) returns (r: Result<SampleSet>)
    requires 0 < k
    ensures r.Ok? <==> Decode(data, prio).Ok?
    ensures r.Ok? ==> fresh(r.value) && r.value.Valid() && r.value.k == k && r.value.prio == prio
    ensures r.Ok? ==> r.value.points.Values == Elements(Decode(data, prio).value)
  {
    var walked := WalkSampleSet(data, prio);
    DecodeSorted(data, prio);
    if walked.Err? {
      return Err;
    }
    var ps := walked.value;
    var samples := new SampleSet(k, prio);
    for i := 0 to |ps|
      invariant Keyed(samples.points, prio) && samples.points.Values == Elements(ps[..i])
      invariant samples.k == k && samples.prio == prio && fresh(samples)
    {
      assert ps[..i + 1] == ps[..i] + [ps[i]];
      assert forall id :: id in samples.points ==> samples.points[id] in Elements(ps[..i]);
      KeyedInsert(samples.points, ps[i], prio);
      samples.points := samples.points[ps[i].eventID := ps[i]];
    }
    assert ps[..|ps|] == ps;
    return Ok(samples);
  }
}
