/** Effective periods of quota cycles, and the drops inside one cycle. */
module EfficiencyPeriods {
  import opened Lists

  /** The zero time; the scan uses it for "none yet". */
  const ZERO_TIME := 0

  datatype Cycle = Cycle(id: int, startedAt: int, resetAt: int, lastObservedAt: int)

  datatype Period = Period(start: int, end: int, current: bool)

  predicate ObservedBefore(a: Cycle, b: Cycle) {
    a.lastObservedAt < b.lastObservedAt || (a.lastObservedAt == b.lastObservedAt && a.id < b.id)
  }

  function CycleId(c: Cycle): int {
    c.id
  }

  // ----- the backward scan -----

  /** The earliest start among the cycles from `i` on, as the scan tracks it. */
  function EarliestFrom(ordered: seq<Cycle>, i: nat): int
    requires i <= |ordered|
    decreases |ordered| - i
  {
    if i == |ordered| then ZERO_TIME
    else
      var later := EarliestFrom(ordered, i + 1);
      if later == ZERO_TIME || ordered[i].startedAt < later then ordered[i].startedAt else later
  }

  function EffectiveEnd(ordered: seq<Cycle>, i: nat): int
    requires i < |ordered|
  {
    var later := EarliestFrom(ordered, i + 1);
    if later != ZERO_TIME && later < ordered[i].resetAt then later else ordered[i].resetAt
  }

  function PeriodAt(ordered: seq<Cycle>, i: nat, currentId: int, now: int): Period
    requires i < |ordered|
  {
    var c, end := ordered[i], EffectiveEnd(ordered, i);
    Period(c.startedAt, end, currentId != 0 && c.id == currentId && c.startedAt <= now < end)
  }

  /** The periods of the cycles from `i` on and of no others. */
  ghost predicate PeriodsFrom(periods: map<int, Period>, ordered: seq<Cycle>, i: nat, currentId: int, now: int) {
    && (forall j :: i <= j < |ordered| ==> ordered[j].id in periods && periods[ordered[j].id] == PeriodAt(ordered, j, currentId, now))
    && (forall id :: id in periods ==> exists j :: i <= j < |ordered| && ordered[j].id == id)
  }

  /** The periods of all cycles, whatever order they were given in. */
  ghost predicate ArePeriods(periods: map<int, Period>, cycles: seq<Cycle>, currentId: int, now: int) {
    exists ordered :: InObservedOrder(ordered) && multiset(ordered) == multiset(cycles) && PeriodsFrom(periods, ordered, 0, currentId, now)
  }

  lemma {:induction false} ObservationIsOrder(cycles: set<Cycle>)
    ensures StrictOrder(ObservedBefore, cycles)
  {
  }

  /** Scans the cycles from the last observed to the first, carrying the earliest start. */
  method BuildCyclePeriods(cycles: seq<Cycle>, currentId: int, now: int) returns (periods: map<int, Period>)
    requires DistinctBy(cycles, CycleId)
    ensures ArePeriods(periods, cycles, currentId, now)
  {
    ObservationIsOrder(Elements(cycles));
    var sorted := SortBy(cycles, ObservedBefore);
    DistinctKept(cycles, sorted, CycleId);
    periods := map[];
    var earliest := ZERO_TIME;
    var index := |sorted|;
    while index > 0
      invariant 0 <= index <= |sorted| && earliest == EarliestFrom(sorted, index)
      invariant PeriodsFrom(periods, sorted, index, 0, now)
    {
      index := index - 1;
      var c := sorted[index];
      var end := c.resetAt;
      if earliest != ZERO_TIME && earliest < end {
        end := earliest;
      }
      PeriodsStep(periods, sorted, index, now);
      periods := periods[c.id := Period(c.startedAt, end, false)];
      if earliest == ZERO_TIME || c.startedAt < earliest {
        earliest := c.startedAt;
      }
    }
    assert PeriodsFrom(periods, sorted, 0, 0, now);
    if currentId == 0 || currentId !in periods {
      assert PeriodsFrom(periods, sorted, 0, currentId, now);
      return;
    }
    MarkCurrent(periods, sorted, currentId, now);
    var p := periods[currentId];
    periods := periods[currentId := p.(current := p.start <= now < p.end)];
  }

  lemma {:induction false} PeriodsStep(periods: map<int, Period>, ordered: seq<Cycle>, i: nat, now: int)
    requires i < |ordered| && DistinctBy(ordered, CycleId) && PeriodsFrom(periods, ordered, i + 1, 0, now)
    ensures PeriodsFrom(periods[ordered[i].id := PeriodAt(ordered, i, 0, now)], ordered, i, 0, now)
  {
    hide PeriodAt;
    assert forall j :: i < j < |ordered| ==> CycleId(ordered[j]) != CycleId(ordered[i]);
  }

  lemma {:induction false} MarkCurrent(periods: map<int, Period>, ordered: seq<Cycle>, currentId: int, now: int)
    requires PeriodsFrom(periods, ordered, 0, 0, now) && currentId != 0 && currentId in periods
    ensures var p := periods[currentId];
            PeriodsFrom(periods[currentId := p.(current := p.start <= now < p.end)], ordered, 0, currentId, now)
  {
    hide EffectiveEnd;
  }

  /** The cycle observed last, or zero when there is none. */
  method LatestCycleId(cycles: seq<Cycle>) returns (id: int)
    requires forall i :: 0 <= i < |cycles| ==> cycles[i].id != 0
    ensures cycles == [] <==> id == 0
    ensures cycles != [] ==> exists k :: 0 <= k < |cycles| && cycles[k].id == id && forall i :: 0 <= i < |cycles| ==> !ObservedBefore(cycles[k], cycles[i])
  {
    var latest := Cycle(0, 0, 0, 0);
    for n := 0 to |cycles|
      invariant n == 0 <==> latest.id == 0
      invariant n > 0 ==> exists k :: 0 <= k < n && cycles[k] == latest && forall i :: 0 <= i < n ==> !ObservedBefore(cycles[k], cycles[i])
    {
      var c := cycles[n];
      if latest.id == 0 || ObservedBefore(latest, c) {
        latest := c;
        assert cycles[n] == latest;
      }
    }
    id := latest.id;
  }

  // ----- what the periods mean -----

  /** A cycle starting at the zero time is overlooked by the cycles observed before it.
      That is harmless for one whose reset has passed by then anyway, or that another
      cycle observed later has already cut further back. */
  ghost predicate ZeroStartsHarmless(cycles: seq<Cycle>) {
    forall a, b :: a in cycles && b in cycles && ObservedBefore(a, b) && b.startedAt == ZERO_TIME && a.resetAt > ZERO_TIME ==>
      CutBeforeZero(cycles, a)
  }

  ghost predicate CutBeforeZero(cycles: seq<Cycle>, a: Cycle) {
    exists c :: c in cycles && ObservedBefore(a, c) && c.startedAt < ZERO_TIME
  }

  ghost predicate HarmlessFrom(ordered: seq<Cycle>, i: nat) {
    || (forall j :: i <= j < |ordered| ==> ordered[j].startedAt != ZERO_TIME)
    || exists j :: i <= j < |ordered| && ordered[j].startedAt < ZERO_TIME
  }

  lemma {:induction false} EarliestIsSome(ordered: seq<Cycle>, i: nat)
    requires i <= |ordered|
    ensures EarliestFrom(ordered, i) == ZERO_TIME || exists j :: i <= j < |ordered| && EarliestFrom(ordered, i) == ordered[j].startedAt
    decreases |ordered| - i
  {
    if i < |ordered| {
      EarliestIsSome(ordered, i + 1);
    }
  }

  lemma {:induction false} EarliestIsMinimum(ordered: seq<Cycle>, i: nat)
    requires i <= |ordered| && HarmlessFrom(ordered, i)
    ensures i < |ordered| ==> exists j :: i <= j < |ordered| && EarliestFrom(ordered, i) == ordered[j].startedAt
    ensures forall j :: i <= j < |ordered| ==> EarliestFrom(ordered, i) <= ordered[j].startedAt
    decreases |ordered| - i
  {
    if i < |ordered| {
      if HarmlessFrom(ordered, i + 1) {
        EarliestIsMinimum(ordered, i + 1);
      } else {
        EarliestIsSome(ordered, i + 1);
      }
      assert EarliestFrom(ordered, i) == ordered[i].startedAt || EarliestFrom(ordered, i) == EarliestFrom(ordered, i + 1);
    }
  }

  ghost predicate InObservedOrder(ordered: seq<Cycle>) {
    Sorted(ordered, ObservedBefore) && DistinctBy(ordered, CycleId)
  }

  lemma {:induction false} ObservedBeforeIsIndex(ordered: seq<Cycle>, i: nat, j: nat)
    requires InObservedOrder(ordered) && i < |ordered| && j < |ordered|
    ensures ObservedBefore(ordered[i], ordered[j]) <==> i < j
  {
    if i < j {
      assert !ObservedBefore(ordered[j], ordered[i]) && CycleId(ordered[i]) != CycleId(ordered[j]);
    } else if j < i {
      assert !ObservedBefore(ordered[i], ordered[j]);
    }
  }

  /** A period ends at the earliest of its reset and every later cycle's start. */
  lemma {:induction false} EndIsEarliest(ordered: seq<Cycle>, i: nat)
    requires i < |ordered| && InObservedOrder(ordered) && ZeroStartsHarmless(ordered)
    ensures EffectiveEnd(ordered, i) <= ordered[i].resetAt
    ensures forall j :: i < j < |ordered| ==> EffectiveEnd(ordered, i) <= ordered[j].startedAt
    ensures EffectiveEnd(ordered, i) == ordered[i].resetAt || exists j :: i < j < |ordered| && EffectiveEnd(ordered, i) == ordered[j].startedAt
  {
    if HarmlessFrom(ordered, i + 1) {
      EarliestIsMinimum(ordered, i + 1);
    } else {
      EarliestIsSome(ordered, i + 1);
      var j :| i + 1 <= j < |ordered| && ordered[j].startedAt == ZERO_TIME;
      ObservedBeforeIsIndex(ordered, i, j);
      assert !CutBeforeZero(ordered, ordered[i]) by {
        forall c | c in ordered && ObservedBefore(ordered[i], c)
          ensures c.startedAt >= ZERO_TIME
        {
          var m :| 0 <= m < |ordered| && ordered[m] == c;
          ObservedBeforeIsIndex(ordered, i, m);
        }
      }
    }
  }

  /** The scan cuts every period off at all later starts exactly when no zero start does harm. */
  lemma {:induction false} EndsExactlyWhenHarmless(ordered: seq<Cycle>)
    requires InObservedOrder(ordered)
    ensures ZeroStartsHarmless(ordered) <==> forall i, j :: 0 <= i < j < |ordered| ==> EffectiveEnd(ordered, i) <= ordered[j].startedAt
  {
    if ZeroStartsHarmless(ordered) {
      forall i, j | 0 <= i < j < |ordered|
        ensures EffectiveEnd(ordered, i) <= ordered[j].startedAt
      {
        EndIsEarliest(ordered, i);
      }
    } else {
      var a, b :| a in ordered && b in ordered && ObservedBefore(a, b) && b.startedAt == ZERO_TIME && a.resetAt > ZERO_TIME && !CutBeforeZero(ordered, a);
      var i :| 0 <= i < |ordered| && ordered[i] == a;
      var j :| 0 <= j < |ordered| && ordered[j] == b;
      ObservedBeforeIsIndex(ordered, i, j);
      HarmDone(ordered, i, j);
    }
  }

  lemma {:induction false} HarmDone(ordered: seq<Cycle>, i: nat, j: nat)
    requires InObservedOrder(ordered) && i < j < |ordered|
    requires ordered[j].startedAt == ZERO_TIME && ordered[i].resetAt > ZERO_TIME && !CutBeforeZero(ordered, ordered[i])
    ensures EffectiveEnd(ordered, i) > ordered[j].startedAt
  {
    EarliestIsSome(ordered, i + 1);
    if later: nat :| i < later < |ordered| && EarliestFrom(ordered, i + 1) == ordered[later].startedAt {
      ObservedBeforeIsIndex(ordered, i, later);
    }
  }

  // ----- exactly when the periods are disjoint -----

  predicate InPeriod(ordered: seq<Cycle>, i: nat, t: int)
    requires i < |ordered|
  {
    ordered[i].startedAt <= t < EffectiveEnd(ordered, i)
  }

  /** No instant lies in the effective periods of two cycles. */
  ghost predicate Disjoint(ordered: seq<Cycle>) {
    forall i, j, t :: 0 <= i < j < |ordered| ==> !(InPeriod(ordered, i, t) && InPeriod(ordered, j, t))
  }

  /** Observed after `a`, and not after `b`. */
  predicate Between(a: Cycle, m: Cycle, b: Cycle) {
    ObservedBefore(a, m) && !ObservedBefore(b, m)
  }

  /** The instant is in the cycle, and no cycle observed later has started by then, of
      those observed before the next cycle that starts at the zero time. */
  ghost predicate OpenAt(cycles: seq<Cycle>, c: Cycle, t: int) {
    && c.startedAt <= t < c.resetAt
    && forall m :: m in cycles && ObservedBefore(c, m) && (forall z :: z in cycles && Between(c, z, m) ==> z.startedAt != ZERO_TIME) ==> t < m.startedAt
  }

  /** With a zero start observed in between, and nothing before the zero time to cut the
      first cycle off, both are open. */
  ghost predicate TwiceOpen(cycles: seq<Cycle>, a: Cycle, b: Cycle, t: int) {
    && a in cycles && b in cycles && ObservedBefore(a, b) && OpenAt(cycles, a, t) && OpenAt(cycles, b, t)
    && (exists z :: z in cycles && Between(a, z, b) && z.startedAt == ZERO_TIME)
    && !CutBeforeZero(cycles, a)
  }

  ghost predicate NeverTwiceOpen(cycles: seq<Cycle>) {
    forall a, b, t :: !TwiceOpen(cycles, a, b, t)
  }

  ghost predicate NoZeroWithin(ordered: seq<Cycle>, k: int, m: int)
    requires 0 <= k && m < |ordered|
  {
    forall z :: k <= z <= m ==> ordered[z].startedAt != ZERO_TIME
  }

  /** Where the scan starts over at a zero start, it knows the starts before that only. */
  lemma {:induction false} EarliestOpen(ordered: seq<Cycle>, k: nat, t: int)
    requires k <= |ordered| && forall m :: k <= m < |ordered| ==> ZERO_TIME <= ordered[m].startedAt
    ensures EarliestFrom(ordered, k) == ZERO_TIME <==> k == |ordered| || ordered[k].startedAt == ZERO_TIME
    ensures (EarliestFrom(ordered, k) == ZERO_TIME || t < EarliestFrom(ordered, k)) <==>
              forall m :: k <= m < |ordered| && NoZeroWithin(ordered, k, m) ==> t < ordered[m].startedAt
    decreases |ordered| - k
  {
    if k < |ordered| {
      EarliestOpen(ordered, k + 1, t);
      EarliestIsSome(ordered, k + 1);
      assert NoZeroWithin(ordered, k, k) <==> ordered[k].startedAt != ZERO_TIME;
      assert forall m :: k < m < |ordered| ==>
        (NoZeroWithin(ordered, k, m) <==> ordered[k].startedAt != ZERO_TIME && NoZeroWithin(ordered, k + 1, m));
    }
  }

  lemma {:induction false} OpenIsInPeriod(ordered: seq<Cycle>, i: nat, t: int)
    requires InObservedOrder(ordered) && i < |ordered| && !CutBeforeZero(ordered, ordered[i])
    ensures OpenAt(ordered, ordered[i], t) <==> InPeriod(ordered, i, t)
  {
    forall m: nat | i < m < |ordered|
      ensures ZERO_TIME <= ordered[m].startedAt
    {
      ObservedBeforeIsIndex(ordered, i, m);
    }
    EarliestOpen(ordered, i + 1, t);
    OpenByIndex(ordered, i, t);
  }

  lemma {:induction false} OpenByIndex(ordered: seq<Cycle>, i: nat, t: int)
    requires InObservedOrder(ordered) && i < |ordered|
    ensures OpenAt(ordered, ordered[i], t) <==>
              && ordered[i].startedAt <= t < ordered[i].resetAt
              && forall m :: i + 1 <= m < |ordered| && NoZeroWithin(ordered, i + 1, m) ==> t < ordered[m].startedAt
  {
    forall m: nat | m < |ordered|
      ensures ObservedBefore(ordered[i], ordered[m]) <==> i < m
      ensures (forall z :: z in ordered && Between(ordered[i], z, ordered[m]) ==> z.startedAt != ZERO_TIME) <==>
                NoZeroWithin(ordered, i + 1, m)
    {
      ObservedBeforeIsIndex(ordered, i, m);
      BetweenByIndex(ordered, i, m);
    }
  }

  lemma {:induction false} BetweenByIndex(ordered: seq<Cycle>, i: nat, m: nat)
    requires InObservedOrder(ordered) && i < |ordered| && m < |ordered|
    ensures (exists z :: z in ordered && Between(ordered[i], z, ordered[m]) && z.startedAt == ZERO_TIME) <==>
              !NoZeroWithin(ordered, i + 1, m)
  {
    forall z: nat | z < |ordered|
      ensures Between(ordered[i], ordered[z], ordered[m]) <==> i < z <= m
    {
      ObservedBeforeIsIndex(ordered, i, z);
      ObservedBeforeIsIndex(ordered, m, z);
    }
  }

  /** The periods are disjoint exactly when no instant is open in two cycles. */
  lemma {:induction false} PeriodsDisjoint(ordered: seq<Cycle>)
    requires InObservedOrder(ordered)
    ensures Disjoint(ordered) <==> NeverTwiceOpen(ordered)
  {
    if NeverTwiceOpen(ordered) {
      forall i, j, t | 0 <= i < j < |ordered|
        ensures !(InPeriod(ordered, i, t) && InPeriod(ordered, j, t))
      {
        if InPeriod(ordered, i, t) && InPeriod(ordered, j, t) {
          OverlapIsTwiceOpen(ordered, i, j, t);
        }
      }
    }
    if Disjoint(ordered) {
      forall a, b, t
        ensures !TwiceOpen(ordered, a, b, t)
      {
        if TwiceOpen(ordered, a, b, t) {
          TwiceOpenOverlaps(ordered, a, b, t);
        }
      }
    }
  }

  lemma {:induction false} TwiceOpenOverlaps(ordered: seq<Cycle>, a: Cycle, b: Cycle, t: int)
    requires InObservedOrder(ordered) && TwiceOpen(ordered, a, b, t)
    ensures !Disjoint(ordered)
  {
    hide OpenAt;
    var i: nat :| i < |ordered| && ordered[i] == a;
    var j: nat :| j < |ordered| && ordered[j] == b;
    ObservedBeforeIsIndex(ordered, i, j);
    LaterNotCut(ordered, i, j);
    OpenIsInPeriod(ordered, i, t);
    OpenIsInPeriod(ordered, j, t);
  }

  lemma {:induction false} LaterNotCut(ordered: seq<Cycle>, i: nat, j: nat)
    requires InObservedOrder(ordered) && i < j < |ordered| && !CutBeforeZero(ordered, ordered[i])
    ensures !CutBeforeZero(ordered, ordered[j])
  {
    forall c | c in ordered && ObservedBefore(ordered[j], c)
      ensures c.startedAt >= ZERO_TIME
    {
      ObservedBeforeIsIndex(ordered, i, j);
    }
  }

  lemma {:induction false} OverlapNotCut(ordered: seq<Cycle>, i: nat, j: nat, t: int)
    requires InObservedOrder(ordered) && i < j < |ordered| && InPeriod(ordered, i, t) && InPeriod(ordered, j, t)
    ensures !CutBeforeZero(ordered, ordered[i])
  {
    if c :| c in ordered && ObservedBefore(ordered[i], c) && c.startedAt < ZERO_TIME {
      var m: nat :| m < |ordered| && ordered[m] == c;
      ObservedBeforeIsIndex(ordered, i, m);
      EarliestIsMinimum(ordered, i + 1);
    }
  }

  lemma {:induction false} OverlapIsTwiceOpen(ordered: seq<Cycle>, i: nat, j: nat, t: int)
    requires InObservedOrder(ordered) && i < j < |ordered| && InPeriod(ordered, i, t) && InPeriod(ordered, j, t)
    ensures TwiceOpen(ordered, ordered[i], ordered[j], t)
  {
    ObservedBeforeIsIndex(ordered, i, j);
    OverlapNotCut(ordered, i, j, t);
    LaterNotCut(ordered, i, j);
    OpenIsInPeriod(ordered, i, t);
    OpenIsInPeriod(ordered, j, t);
    OpenByIndex(ordered, i, t);
    BetweenByIndex(ordered, i, j);
    hide OpenAt;
    hide CutBeforeZero;
    hide NoZeroWithin;
  }

  /** Where zero starts do no harm, they leave the periods disjoint. */
  lemma {:induction false} HarmlessDisjoint(ordered: seq<Cycle>)
    requires InObservedOrder(ordered) && ZeroStartsHarmless(ordered)
    ensures Disjoint(ordered)
  {
    EndsExactlyWhenHarmless(ordered);
  }

  /** An instant covered by some cycle before its reset, and by no later cycle, belongs
      to a period: nothing but the overlap is cut away. */
  lemma PeriodsCover(ordered: seq<Cycle>, i: nat, t: int)
    requires i < |ordered| && InObservedOrder(ordered) && ZeroStartsHarmless(ordered) && ordered[i].startedAt <= t < ordered[i].resetAt
    requires forall j :: i < j < |ordered| ==> t < ordered[j].startedAt
    ensures t < EffectiveEnd(ordered, i)
  {
    EndIsEarliest(ordered, i);
  }

  /** A cycle starting at the zero time is taken for "none yet", and its period overlaps
      an earlier one. */
  lemma ZeroStartOverlaps()
    ensures var ordered := [Cycle(1, -10, 10, 1), Cycle(2, ZERO_TIME, 20, 2)];
            Sorted(ordered, ObservedBefore) && ordered[0].startedAt <= 5 < EffectiveEnd(ordered, 0) && ordered[1].startedAt <= 5 < EffectiveEnd(ordered, 1)
  {
    var ordered := [Cycle(1, -10, 10, 1), Cycle(2, ZERO_TIME, 20, 2)];
    assert EarliestFrom(ordered, 2) == ZERO_TIME;
    assert EarliestFrom(ordered, 1) == ZERO_TIME;
  }

  // ----- drops inside a cycle -----

  datatype Segment = Segment(remaining: int, firstObservedAt: int)

  datatype Transition = Transition(from: int, to: int, start: int, end: int)

  /** One transition for each step down between neighbouring segments. */
  function TransitionsOf(segments: seq<Segment>): seq<Transition> {
    if |segments| < 2 then []
    else
      var n := |segments| - 1;
      var previous, current := segments[n - 1], segments[n];
      TransitionsOf(segments[..n]) +
      if previous.remaining - current.remaining <= 0 then []
      else [Transition(previous.remaining, current.remaining, previous.firstObservedAt, current.firstObservedAt)]
  }

  method BuildTransitions(segments: seq<Segment>) returns (transitions: seq<Transition>)
    ensures transitions == TransitionsOf(segments)
  {
    transitions := [];
    var index := 1;
    while index < |segments|
      invariant 1 <= index && (index <= |segments| || transitions == TransitionsOf(segments))
      invariant index <= |segments| ==> transitions == TransitionsOf(segments[..index])
    {
      var previous, current := segments[index - 1], segments[index];
      var points := previous.remaining - current.remaining;
      assert segments[..index + 1][..index] == segments[..index];
      if points > 0 {
        transitions := transitions + [Transition(previous.remaining, current.remaining, previous.firstObservedAt, current.firstObservedAt)];
      }
      index := index + 1;
    }
    assert |segments| > 0 ==> segments[..|segments|] == segments;
  }

  ghost predicate Ordered(segments: seq<Segment>) {
    forall i, j :: 0 <= i < j < |segments| ==> segments[i].firstObservedAt <= segments[j].firstObservedAt
  }

  /** Intervals that follow each other, meeting at most at their ends. */
  ghost predicate IntervalChain(transitions: seq<Transition>) {
    && (forall i :: 0 <= i < |transitions| ==> transitions[i].start <= transitions[i].end)
    && forall i, j :: 0 <= i < j < |transitions| ==> transitions[i].end <= transitions[j].start
  }

  lemma {:induction false} TransitionsChain(segments: seq<Segment>)
    requires Ordered(segments)
    ensures IntervalChain(TransitionsOf(segments))
    ensures forall i :: 0 <= i < |TransitionsOf(segments)| ==> TransitionsOf(segments)[i].end <= segments[|segments| - 1].firstObservedAt
    ensures forall i :: 0 <= i < |TransitionsOf(segments)| ==> TransitionsOf(segments)[i].from > TransitionsOf(segments)[i].to
  {
    if |segments| >= 2 {
      TransitionsChain(segments[..|segments| - 1]);
    }
  }

  function Points(transitions: seq<Transition>): int {
    if transitions == [] then 0
    else
      var last := transitions[|transitions| - 1];
      Points(transitions[..|transitions| - 1]) + (last.from - last.to)
  }

  lemma PointsAppend(transitions: seq<Transition>, t: Transition)
    ensures Points(transitions + [t]) == Points(transitions) + (t.from - t.to)
  {
    assert (transitions + [t])[..|transitions|] == transitions;
  }

  ghost predicate NeverRises(segments: seq<Segment>) {
    forall i :: 0 < i < |segments| ==> segments[i].remaining <= segments[i - 1].remaining
  }

  /** The transitions account for the whole drop of the cycle exactly when the
      percentage never rises; otherwise they account for more. */
  lemma {:induction false} PointsConserved(segments: seq<Segment>)
    requires segments != []
    ensures segments[0].remaining - segments[|segments| - 1].remaining <= Points(TransitionsOf(segments))
    ensures segments[0].remaining - segments[|segments| - 1].remaining == Points(TransitionsOf(segments)) <==> NeverRises(segments)
  {
    if |segments| >= 2 {
      var n := |segments| - 1;
      PointsConserved(segments[..n]);
      var before := TransitionsOf(segments[..n]);
      if segments[n - 1].remaining > segments[n].remaining {
        PointsAppend(before, Transition(segments[n - 1].remaining, segments[n].remaining, segments[n - 1].firstObservedAt, segments[n].firstObservedAt));
      } else {
        assert TransitionsOf(segments) == before;
      }
      assert NeverRises(segments) <==> NeverRises(segments[..n]) && segments[n].remaining <= segments[n - 1].remaining;
    }
  }
}
