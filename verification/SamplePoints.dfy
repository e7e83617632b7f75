/** Sample points, the order that ranks them, and what it means to retain the
    `k` best of them. */
module SamplePoints {
  import opened Varint

  datatype SamplePoint = SamplePoint(eventID: int, priority: int, ttftMS: int, latencyMS: int)

  /** Better points sort first: a smaller priority, then a smaller event ID. */
  predicate Less(left: SamplePoint, right: SamplePoint) {
    if left.priority != right.priority then left.priority < right.priority
    else left.eventID < right.eventID
  }

  /** A point as the strict decoder accepts it. The priority is a fixed function
      of the event ID. */
  predicate WellFormed(p: SamplePoint, prio: int -> UInt64) {
    && 0 < p.eventID < TWO_63 && 0 < p.ttftMS < TWO_63 && 0 < p.latencyMS < TWO_63
    && p.priority == prio(p.eventID)
  }

  /** `kept` are the `k` best points of `all`, or all of them when there are fewer: each
      has a smaller priority than any dropped one, or the same and a smaller event ID. */
  ghost predicate Best(all: set<SamplePoint>, kept: set<SamplePoint>, k: nat) {
    && kept <= all
    && |kept| == (if |all| <= k then |all| else k)
    && forall a, b :: a in kept && b in all && b !in kept ==>
         a.priority < b.priority || (a.priority == b.priority && a.eventID < b.eventID)
  }

  lemma SubsetOfSameSize<T>(a: set<T>, b: set<T>)
    requires a <= b && |a| == |b|
    ensures a == b
  {
    if x :| x in b && x !in a {
      SubsetSize(a, b - {x});
    }
  }

  lemma SubsetSize<T>(a: set<T>, b: set<T>)
    requires a <= b
    ensures |a| <= |b|
  {
    assert b == a + (b - a);
  }

  /** At most one retained set fits, so any two ways of computing it agree. */
  lemma BestUnique(all: set<SamplePoint>, one: set<SamplePoint>, other: set<SamplePoint>, k: nat)
    requires Best(all, one, k) && Best(all, other, k)
    ensures one == other
  {
    if one != other {
      if one <= other {
        SubsetOfSameSize(one, other);
      } else if other <= one {
        SubsetOfSameSize(other, one);
      } else {
        var a :| a in one && a !in other;
        var b :| b in other && b !in one;
        assert false;
      }
    }
  }

  /** Forgetting everything but the `k` best loses nothing: the best of what was
      kept plus a new row are the best of everything ever offered. */
  lemma BestOfBest(seen: set<SamplePoint>, kept: set<SamplePoint>, row: set<SamplePoint>, after: set<SamplePoint>, k: nat)
    requires Best(seen, kept, k) && Best(kept + row, after, k)
    ensures Best(seen + row, after, k)
  {
    SubsetSize(kept + row, seen + row);
    SubsetSize(kept, kept + row);
    if |seen| <= k {
      SubsetOfSameSize(kept, seen);
    } else {
      forall a, b | a in after && b in seen + row && b !in after
        ensures Less(a, b)
      {
        if b !in kept + row && a !in kept {
          // `after` holds k points, one of them outside `kept`, so it misses some of `kept`
          if kept <= after {
            SubsetSize(kept + {a}, after);
          }
          var m :| m in kept && m !in after;
          assert Less(a, m) && Less(m, b);
        }
      }
    }
  }

  /** Once dropped, an event never comes back: a point no better than a dropped
      one is dropped by every later merge. */
  lemma DroppedStaysDropped(seen: set<SamplePoint>, kept: set<SamplePoint>, row: set<SamplePoint>, after: set<SamplePoint>, k: nat, dropped: SamplePoint)
    requires Best(seen, kept, k) && Best(kept + row, after, k)
    requires dropped in seen && dropped !in kept
    requires forall p :: p in row && p.eventID == dropped.eventID ==> p.priority == dropped.priority
    ensures forall p :: p in after ==> p.eventID != dropped.eventID || p.priority != dropped.priority
  {
    KeptIsFull(seen, kept, k, dropped);
    forall p | p in after
      ensures p.eventID != dropped.eventID || p.priority != dropped.priority
    {
      if p !in kept {
        var m := CrowdedOut(kept, row, after, k, p);
        assert Less(p, m) && Less(m, dropped);
      }
    }
  }

  lemma KeptIsFull(seen: set<SamplePoint>, kept: set<SamplePoint>, k: nat, dropped: SamplePoint)
    requires Best(seen, kept, k) && dropped in seen && dropped !in kept
    ensures |kept| == k
  {
    if |seen| <= k {
      SubsetOfSameSize(kept, seen);
    }
  }

  /** A new point among the best has taken the place of a kept one, which it outranks. */
  lemma CrowdedOut(kept: set<SamplePoint>, row: set<SamplePoint>, after: set<SamplePoint>, k: nat, p: SamplePoint) returns (m: SamplePoint)
    requires |kept| == k && Best(kept + row, after, k) && p in after && p !in kept
    ensures m in kept && Less(p, m)
  {
    SubsetSize(kept, kept + row);
    if kept <= after {
      SubsetSize(kept + {p}, after);
    }
    m :| m in kept && m !in after;
  }
}
