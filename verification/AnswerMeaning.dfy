/** The efficiency answer, cycle by cycle, said in observations, starts and resets. */
module AnswerMeaning {
  import opened Lists
  import opened EfficiencyPeriods
  import opened EfficiencyWorks
  import opened EfficiencyUsage
  import opened EfficiencyCost
  import opened EfficiencyStream
  import opened EfficiencyHistory

  // ----- drops -----

  ghost predicate DropAt(segments: seq<Segment>, i: int, t: Transition) {
    && 0 < i < |segments| && segments[i].remaining < segments[i - 1].remaining
    && t == Transition(segments[i - 1].remaining, segments[i].remaining, segments[i - 1].firstObservedAt, segments[i].firstObservedAt)
  }

  /** A drop is a segment below the one before it, from the first observation of the one
      to that of the other. */
  lemma {:induction false} DropsAreSteps(segments: seq<Segment>, t: Transition)
    ensures t in TransitionsOf(segments) <==> exists i :: DropAt(segments, i, t)
  {
    if |segments| >= 2 {
      var n := |segments| - 1;
      DropsAreSteps(segments[..n], t);
      assert forall i :: i < n ==> (DropAt(segments, i, t) <==> DropAt(segments[..n], i, t));
      assert forall i :: DropAt(segments, i, t) ==> i <= n;
      assert DropAt(segments, n, t) <==> t in TransitionsOf(segments)[|TransitionsOf(segments[..n])|..];
      assert TransitionsOf(segments) == TransitionsOf(segments[..n]) + TransitionsOf(segments)[|TransitionsOf(segments[..n])|..];
    }
  }

  // ----- cycles -----

  /** `d` was observed later than `c`; of two observed last at one moment, the newer one counts. */
  predicate LaterThan(d: Cycle, c: Cycle) {
    c.lastObservedAt < d.lastObservedAt || (c.lastObservedAt == d.lastObservedAt && c.id < d.id)
  }

  /** The earliest of the reset and all starts of cycles observed later. */
  ghost predicate EndsAt(cycles: seq<Cycle>, c: Cycle, end: int) {
    && end <= c.resetAt && (forall d :: d in cycles && LaterThan(d, c) ==> end <= d.startedAt)
    && (end == c.resetAt || exists d :: d in cycles && LaterThan(d, c) && end == d.startedAt)
  }

  /** The latest quota is known to be current, and this is its cycle, begun and not yet over. */
  ghost predicate IsNow(cycles: seq<Cycle>, hasCurrent: bool, c: Cycle, end: int, now: int) {
    hasCurrent && (forall d :: d in cycles ==> !LaterThan(d, c)) && c.startedAt <= now < end
  }

  /** Shown are the current cycle and those over by now, if they reach into the range. */
  ghost predicate InAnswer(cycles: seq<Cycle>, hasCurrent: bool, c: Cycle, end: int, rangeStart: int, now: int) {
    c.startedAt < end && rangeStart <= end && (IsNow(cycles, hasCurrent, c, end, now) || end <= now)
  }

  function From(start: int, until: int): Event -> bool {
    (e: Event) => start <= e.at < until
  }

  function InDrop(start: int, until: int, t: Transition): Event -> bool {
    (e: Event) => start <= e.at < until && t.start < e.at <= t.end
  }

  /** The cycle's events up to now or its end, and the events of each of its drops. */
  ghost predicate RecordOf(r: Record, c: Cycle, until: int, drops: seq<Transition>, events: seq<Event>, p: Pricing) {
    && r.work == Work(c.id, c.startedAt, until, drops)
    && r.cycle == NaiveShare(p, Select(events, From(c.startedAt, until)))
    && |r.drops| == |drops|
    && forall m :: 0 <= m < |drops| ==> r.drops[m] == NaiveShare(p, Select(events, InDrop(c.startedAt, until, drops[m])))
  }

  lemma {:induction false} SelectAlike<T(!new)>(s: seq<T>, p: T -> bool, q: T -> bool)
    requires forall x :: p(x) == q(x)
    ensures Select(s, p) == Select(s, q)
  {
    if s != [] {
      SelectAlike(s[..|s| - 1], p, q);
    }
  }

  lemma {:induction false} NaiveIsRecord(r: Record, c: Cycle, until: int, drops: seq<Transition>, events: seq<Event>, p: Pricing)
    requires NaiveRecord(r, p, Work(c.id, c.startedAt, until, drops), events)
    ensures RecordOf(r, c, until, drops, events, p)
  {
    hide Select;
    hide NaiveShare;
    var w := Work(c.id, c.startedAt, until, drops);
    SelectAlike(events, During(w), From(c.startedAt, until));
    forall m | 0 <= m < |drops|
      ensures Select(events, Within(w, drops[m])) == Select(events, InDrop(c.startedAt, until, drops[m]))
    {
      SelectAlike(events, Within(w, drops[m]), InDrop(c.startedAt, until, drops[m]));
    }
  }

  /** The scan's ends are those. */
  lemma {:induction false} EndFound(cycles: seq<Cycle>, ordered: seq<Cycle>, i: nat, end: int)
    requires InObservedOrder(ordered) && multiset(ordered) == multiset(cycles) && ZeroStartsHarmless(cycles)
    requires i < |ordered| && EndsAt(cycles, ordered[i], end)
    ensures EffectiveEnd(ordered, i) == end
  {
    SameElements(ordered, cycles);
    HarmlessKept(cycles, ordered);
    EndIsEarliest(ordered, i);
    hide EffectiveEnd;
    var c := ordered[i];
    forall j: nat | j < |ordered|
      ensures LaterThan(ordered[j], c) <==> i < j
    {
      ObservedBeforeIsIndex(ordered, i, j);
    }
    hide LaterThan;
    if end != c.resetAt {
      var d :| d in cycles && LaterThan(d, c) && end == d.startedAt;
      assert d in ordered;
      var j: nat :| j < |ordered| && ordered[j] == d;
    }
  }

  lemma {:induction false} HarmlessKept(cycles: seq<Cycle>, ordered: seq<Cycle>)
    requires ZeroStartsHarmless(cycles) && forall x :: x in ordered <==> x in cycles
    ensures ZeroStartsHarmless(ordered)
  {
    forall a, b | a in ordered && b in ordered && ObservedBefore(a, b) && b.startedAt == ZERO_TIME && a.resetAt > ZERO_TIME
      ensures CutBeforeZero(ordered, a)
    {
      assert CutBeforeZero(cycles, a);
    }
  }

  lemma {:induction false} CurrentFound(cycles: seq<Cycle>, hasCurrent: bool, currentId: int, c: Cycle)
    requires IsCurrent(cycles, hasCurrent, currentId) && DistinctBy(cycles, CycleId) && c in cycles
    requires forall i :: 0 <= i < |cycles| ==> cycles[i].id != 0
    ensures currentId != 0 && c.id == currentId <==> hasCurrent && forall d :: d in cycles ==> !LaterThan(d, c)
  {
    if hasCurrent {
      var k :| 0 <= k < |cycles| && cycles[k].id == currentId && forall i :: 0 <= i < |cycles| ==> !ObservedBefore(cycles[k], cycles[i]);
      var n :| 0 <= n < |cycles| && cycles[n] == c;
      assert k != n ==> CycleId(cycles[k]) != CycleId(cycles[n]);
      if forall d :: d in cycles ==> !LaterThan(d, c) {
        assert !LaterThan(cycles[k], c);
      }
    }
  }

  /** What is known of a cycle in the answer. */
  ghost predicate Answered(
      records: seq<Record>, c: Cycle, end: int, isNow: bool, shown: bool, events: seq<Event>, now: int, drops: seq<Transition>, p: Pricing) {
    if shown then exists k :: 0 <= k < |records| && RecordOf(records[k], c, if isNow then now else end, drops, events, p)
    else forall k :: 0 <= k < |records| ==> records[k].work.id != c.id
  }

  /** Every cycle that is shown has its record, and no other cycle has one: where no start
      at the zero time does harm, its effective period ends at the earliest of its reset
      and the later starts. */
  lemma {:induction false} AnswerMeans(
      records: seq<Record>, cycles: seq<Cycle>, segmentsByCycle: map<int, seq<Segment>>, events: seq<Event>,
      hasCurrent: bool, rangeStart: int, now: int, p: Pricing, c: Cycle, end: int)
    requires IsHistory(records, cycles, segmentsByCycle, events, hasCurrent, rangeStart, now, p)
    requires DistinctBy(cycles, CycleId) && (forall i :: 0 <= i < |cycles| ==> cycles[i].id != 0) && ZeroStartsHarmless(cycles)
    requires c in cycles && EndsAt(cycles, c, end)
    ensures Answered(records, c, end, IsNow(cycles, hasCurrent, c, end, now), InAnswer(cycles, hasCurrent, c, end, rangeStart, now),
                     events, now, TransitionsOf(SegmentsOf(segmentsByCycle, c.id)), p)
  {
    hide LineOf;
    hide RecordsOf;
    hide InObservedOrder;
    hide IsCurrent;
    hide ZeroStartsHarmless;
    hide EndsAt;
    hide LaterThan;
    hide EffectiveEnd;
    hide Answered;
    var ordered, currentId, line :|
      && InObservedOrder(ordered) && multiset(ordered) == multiset(cycles) && IsCurrent(cycles, hasCurrent, currentId)
      && LineOf(line, ordered, currentId, rangeStart, now, segmentsByCycle) && RecordsOf(records, line, events, p);
    SameElements(ordered, cycles);
    assert c in ordered;
    var i: nat :| i < |ordered| && ordered[i] == c;
    EndFound(cycles, ordered, i, end);
    CurrentFound(cycles, hasCurrent, currentId, c);
    assert PeriodAt(ordered, i, currentId, now) == Period(c.startedAt, end, IsNow(cycles, hasCurrent, c, end, now));
    LineAnswers(records, line, ordered, i, currentId, rangeStart, now, segmentsByCycle, events, p);
  }

  lemma {:induction false} LineAnswers(
      records: seq<Record>, line: seq<Work>, ordered: seq<Cycle>, i: nat, currentId: int, rangeStart: int, now: int,
      segmentsByCycle: map<int, seq<Segment>>, events: seq<Event>, p: Pricing)
    requires i < |ordered| && InObservedOrder(ordered)
    requires LineOf(line, ordered, currentId, rangeStart, now, segmentsByCycle) && RecordsOf(records, line, events, p)
    ensures var c, period := ordered[i], PeriodAt(ordered, i, currentId, now);
            Answered(records, c, period.end, period.current, Shown(period, rangeStart, now), events, now,
                     TransitionsOf(SegmentsOf(segmentsByCycle, c.id)), p)
  {
    hide TransitionsOf;
    hide EffectiveEnd;
    hide RecordOf;
    hide NaiveRecord;
    hide LinedUp;
    var c, period := ordered[i], PeriodAt(ordered, i, currentId, now);
    var drops, until := TransitionsOf(SegmentsOf(segmentsByCycle, c.id)), if period.current then now else period.end;
    forall k | 0 <= k < |line| && line[k].id == c.id
      ensures Shown(period, rangeStart, now) && RecordOf(records[k], c, until, drops, events, p)
    {
      LineReads(line, k, ordered, i, currentId, rangeStart, now, segmentsByCycle);
      NaiveIsRecord(records[k], c, until, drops, events, p);
    }
    if Shown(period, rangeStart, now) {
      var k :| 0 <= k < |line| && line[k].id == c.id;
      assert RecordOf(records[k], c, until, drops, events, p);
    } else {
      forall k | 0 <= k < |records|
        ensures records[k].work.id != c.id
      {
        RecordsWork(records, line, events, p, k);
      }
    }
  }

  lemma RecordsWork(records: seq<Record>, line: seq<Work>, events: seq<Event>, p: Pricing, k: nat)
    requires RecordsOf(records, line, events, p) && k < |records|
    ensures records[k].work == line[k]
  {
    hide NaiveShare;
  }

  lemma {:induction false} LineReads(
      line: seq<Work>, k: nat, ordered: seq<Cycle>, i: nat, currentId: int, rangeStart: int, now: int, segmentsByCycle: map<int, seq<Segment>>)
    requires i < |ordered| && InObservedOrder(ordered) && k < |line| && line[k].id == ordered[i].id
    requires LineOf(line, ordered, currentId, rangeStart, now, segmentsByCycle)
    ensures var period := PeriodAt(ordered, i, currentId, now);
            && Shown(period, rangeStart, now)
            && line[k] == Work(ordered[i].id, ordered[i].startedAt, if period.current then now else period.end,
                               TransitionsOf(SegmentsOf(segmentsByCycle, ordered[i].id)))
  {
    hide TransitionsOf;
    hide EffectiveEnd;
    hide LinedUp;
    hide Lists.Sorted;
    assert ReadsSomePeriod(line[k], ordered, currentId, rangeStart, now);
    var j: nat :| ReadsPeriod(line[k], ordered, j, currentId, rangeStart, now);
    assert i != j ==> CycleId(ordered[i]) != CycleId(ordered[j]);
  }
}
