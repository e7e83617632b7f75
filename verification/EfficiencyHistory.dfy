/** The whole efficiency answer: periods, one event stream, and prices. */
module EfficiencyHistory {
  import opened Wrappers
  import opened Lists
  import opened PricingRules
  import opened EfficiencyPeriods
  import opened EfficiencyWorks
  import opened EfficiencyUsage
  import opened EfficiencyCost
  import opened EfficiencyStream

  datatype Share = Share(usage: Usage, quote: Quote)

  datatype Record = Record(work: Work, cycle: Share, drops: seq<Share>)

  /** The naive answer: select the events, group them by every column, price the groups. */
  ghost function NaiveShare(p: Pricing, events: seq<Event>): Share {
    Share(Fold(events, Full(p)).usage, Priced(p, Full(p), events))
  }

  ghost predicate NaiveRecord(r: Record, p: Pricing, w: Work, events: seq<Event>) {
    && r.work == w && r.cycle == NaiveShare(p, Select(events, During(w)))
    && |r.drops| == |w.transitions|
    && forall m :: 0 <= m < |r.drops| ==> r.drops[m] == NaiveShare(p, Select(events, Within(w, w.transitions[m])))
  }

  // ----- finalizing -----

  /** The columns read make no difference to a share of the events. */
  ghost predicate SharesAlike(p: Pricing, q: Projection, events: seq<Event>) {
    NaiveShare(p, events) == Share(Fold(events, q).usage, Priced(p, q, events))
  }

  lemma {:induction false} GoodSharesAlike(p: Pricing, q: Projection, events: seq<Event>)
    requires WellFormed(p.snapshot) && q.active == p.snapshot.active && (Good(events) || q == Full(p))
    ensures SharesAlike(p, q, events)
  {
    hide Good;
    SameUsage(events, q, Full(p));
    if q != Full(p) {
      ProjectionKeepsCost(p, q, events);
    }
  }

  /** A drop's events are among its period's, so the guard speaks for both. */
  lemma {:induction false} DropGood(events: seq<Event>, w: Work, t: Transition)
    requires Good(Select(events, During(w)))
    ensures Good(Select(events, Within(w, t)))
    ensures Below(EfficiencyUsage.Totals(Select(events, Within(w, t))), EfficiencyUsage.Totals(Select(events, During(w))))
  {
    if events != [] {
      var before, e := events[..|events| - 1], events[|events| - 1];
      var during, within := Select(before, During(w)), Select(before, Within(w, t));
      if During(w)(e) {
        GoodPrefix(during, e);
        DropGood(before, w, t);
        GoodSelection(during, within, e, Within(w, t)(e));
        assert Select(events, During(w)) == during + [e];
        assert Select(events, Within(w, t)) == within + if Within(w, t)(e) then [e] else [];
        assert !Within(w, t)(e) ==> Select(events, Within(w, t)) == within;
      } else {
        assert Select(events, During(w)) == during;
        assert Select(events, Within(w, t)) == within;
        DropGood(before, w, t);
      }
    }
  }

  method FinalizeShare(p: Pricing, q: Projection, a: Accumulator, ghost events: seq<Event>) returns (s: Share)
    requires a == Fold(events, q) && SharesAlike(p, q, events)
    ensures s == NaiveShare(p, events)
  {
    hide Fold;
    var quote := Finalize(PriceOf(p), a.groups);
    s := Share(a.usage, quote);
  }

  /** Prices one work's totals. */
  method FinalizeWork(p: Pricing, q: Projection, t: EfficiencyStream.Totals, w: Work, ghost events: seq<Event>) returns (r: Record)
    requires WorkCaught(t, w, events, q) && WellFormed(p.snapshot) && q.active == p.snapshot.active
    requires Good(Select(events, During(w))) || q == Full(p)
    ensures NaiveRecord(r, p, w, events)
  {
    hide Good;
    hide Fold;
    hide SharesAlike;
    hide NaiveShare;
    GoodSharesAlike(p, q, Select(events, During(w)));
    var cycle := FinalizeShare(p, q, t.cycle, Select(events, During(w)));
    var drops: seq<Share> := [];
    for m := 0 to |t.drops|
      invariant |drops| == m
      invariant forall j :: 0 <= j < m ==> drops[j] == NaiveShare(p, Select(events, Within(w, w.transitions[j])))
    {
      ghost var mine := Select(events, Within(w, w.transitions[m]));
      if q != Full(p) {
        DropGood(events, w, w.transitions[m]);
      }
      GoodSharesAlike(p, q, mine);
      var s := FinalizeShare(p, q, t.drops[m], mine);
      drops := drops + [s];
    }
    r := Record(w, cycle, drops);
  }

  // ----- the stream -----

  /** The rows the query reads: every event from the first start to the last end. */
  function InRange(start: int, end: int): Event -> bool {
    (e: Event) => start <= e.at < end
  }

  method GlobalRange(line: seq<Work>) returns (start: int, end: int)
    requires line != []
    ensures forall k :: 0 <= k < |line| ==> start <= line[k].start && line[k].end <= end
  {
    start, end := line[0].start, line[0].end;
    for k := 1 to |line|
      invariant forall j :: 0 <= j < k ==> start <= line[j].start && line[j].end <= end
    {
      if line[k].start < start {
        start := line[k].start;
      }
      if line[k].end > end {
        end := line[k].end;
      }
    }
  }

  lemma {:induction false} RowsSuffice(line: seq<Work>, events: seq<Event>, start: int, end: int, rows: seq<Event>)
    requires rows == Select(events, InRange(start, end))
    requires forall k :: 0 <= k < |line| ==> start <= line[k].start && line[k].end <= end
    ensures forall k :: 0 <= k < |line| ==> Select(rows, During(line[k])) == Select(events, During(line[k]))
    ensures forall k, m :: 0 <= k < |line| && 0 <= m < |line[k].transitions| ==>
              Select(rows, Within(line[k], line[k].transitions[m])) == Select(events, Within(line[k], line[k].transitions[m]))
  {
    forall k | 0 <= k < |line|
      ensures Select(rows, During(line[k])) == Select(events, During(line[k]))
    {
      SelectWithin(events, InRange(start, end), During(line[k]));
    }
    forall k, m | 0 <= k < |line| && 0 <= m < |line[k].transitions|
      ensures Select(rows, Within(line[k], line[k].transitions[m])) == Select(events, Within(line[k], line[k].transitions[m]))
    {
      SelectWithin(events, InRange(start, end), Within(line[k], line[k].transitions[m]));
    }
  }

  lemma {:induction false} SelectInOrder(events: seq<Event>, p: Event -> bool)
    requires InOrder(events)
    ensures InOrder(Select(events, p))
  {
    if events != [] {
      var n := |events| - 1;
      var before := Select(events[..n], p);
      SelectInOrder(events[..n], p);
      forall i | 0 <= i < |before|
        ensures before[i].at <= events[n].at
      {
        SelectMember(events[..n], p, before[i]);
        var j :| 0 <= j < n && events[..n][j] == before[i];
        assert events[j].at <= events[n].at;
      }
    }
  }

  lemma {:induction false} RowsRecord(r: Record, p: Pricing, line: seq<Work>, k: nat, rows: seq<Event>, events: seq<Event>)
    requires k < |line| && NaiveRecord(r, p, line[k], rows)
    requires forall j :: 0 <= j < |line| ==> Select(rows, During(line[j])) == Select(events, During(line[j]))
    requires forall j, m :: 0 <= j < |line| && 0 <= m < |line[j].transitions| ==>
               Select(rows, Within(line[j], line[j].transitions[m])) == Select(events, Within(line[j], line[j].transitions[m]))
    ensures NaiveRecord(r, p, line[k], events)
  {
    hide NaiveShare;
  }

  /** Streams with the projected columns; if the guard objects, once more with all of
      them. Either way the records are those of the naive join. */
  method StreamUsage(line: seq<Work>, events: seq<Event>, p: Pricing) returns (records: seq<Record>)
    requires LinedUp(line) && InOrder(events) && WellFormed(p.snapshot)
    ensures |records| == |line| && forall k :: 0 <= k < |records| ==> NaiveRecord(records[k], p, line[k], events)
  {
    hide Good;
    hide NaiveRecord;
    hide WorkCaught;
    if line == [] {
      return [];
    }
    var start, end := GlobalRange(line);
    var rows := Select(events, InRange(start, end));
    SelectInOrder(events, InRange(start, end));
    RowsSuffice(line, events, start, end, rows);
    var q := Projection(p.snapshot.active, false);
    var r := Pass(line, rows, q);
    if r.None? {
      q := Full(p);
      r := Pass(line, rows, q);
    }
    records := [];
    for k := 0 to |line|
      invariant |records| == k && forall j :: 0 <= j < k ==> NaiveRecord(records[j], p, line[j], events)
    {
      var record := FinalizeWork(p, q, r.value[k], line[k], rows);
      RowsRecord(record, p, line, k, rows, events);
      records := records + [record];
    }
  }

  // ----- the answer -----

  ghost predicate SegmentsOrdered(segmentsByCycle: map<int, seq<Segment>>) {
    forall id :: id in segmentsByCycle ==> Ordered(segmentsByCycle[id])
  }

  /** The line of shown cycles the answer is built from. */
  ghost predicate LineOf(
      line: seq<Work>, ordered: seq<Cycle>, currentId: int, rangeStart: int, now: int, segmentsByCycle: map<int, seq<Segment>>) {
    && LinedUp(line) && DistinctBy(line, WorkId)
    && (forall k :: 0 <= k < |line| ==> line[k].transitions == TransitionsOf(SegmentsOf(segmentsByCycle, line[k].id)))
    && (forall k :: 0 <= k < |line| ==> ReadsSomePeriod(line[k], ordered, currentId, rangeStart, now))
    && (forall i :: 0 <= i < |ordered| && Shown(PeriodAt(ordered, i, currentId, now), rangeStart, now) ==>
          exists k :: 0 <= k < |line| && line[k].id == ordered[i].id)
  }

  lemma {:induction false} SortedWorksLineUp(
      line: seq<Work>, works: seq<Work>, cycles: seq<Cycle>, ordered: seq<Cycle>, periods: map<int, Period>,
      currentId: int, rangeStart: int, now: int, segmentsByCycle: map<int, seq<Segment>>)
    requires DistinctBy(cycles, CycleId) && multiset(ordered) == multiset(cycles)
    requires Disjoint(ordered) && SegmentsOrdered(segmentsByCycle)
    requires PeriodsFrom(periods, ordered, 0, currentId, now)
    requires WorksFor(works, Select(cycles, IsShown(periods, rangeStart, now)), periods, now, segmentsByCycle)
    requires multiset(line) == multiset(works) && Sorted(line, WorkBefore)
    ensures LineOf(line, ordered, currentId, rangeStart, now, segmentsByCycle)
  {
    var shows := IsShown(periods, rangeStart, now);
    var shown := Select(cycles, shows);
    SameElements(line, works);
    SameElements(ordered, cycles);
    SelectDistinct(cycles, shows, CycleId);
    assert DistinctBy(works, WorkId) by {
      forall i, j | 0 <= i < j < |works|
        ensures WorkId(works[i]) != WorkId(works[j])
      {
        assert CycleId(shown[i]) != CycleId(shown[j]);
      }
    }
    DistinctKept(works, line, WorkId);
    forall k | 0 <= k < |line|
      ensures line[k].transitions == TransitionsOf(SegmentsOf(segmentsByCycle, line[k].id)) && IntervalChain(line[k].transitions)
      ensures ReadsSomePeriod(line[k], ordered, currentId, rangeStart, now)
    {
      assert line[k] in works;
      var j :| 0 <= j < |works| && works[j] == line[k];
      SelectMember(cycles, shows, shown[j]);
      assert shown[j] in ordered;
      var i :| 0 <= i < |ordered| && ordered[i] == shown[j];
      assert ReadsPeriod(line[k], ordered, i, currentId, rangeStart, now);
      TransitionsChain(SegmentsOf(segmentsByCycle, line[k].id));
    }
    WorksChain(line, ordered, currentId, rangeStart, now);
    forall i | 0 <= i < |ordered| && Shown(PeriodAt(ordered, i, currentId, now), rangeStart, now)
      ensures exists k :: 0 <= k < |line| && line[k].id == ordered[i].id
    {
      assert ordered[i] in cycles;
      SelectMember(cycles, shows, ordered[i]);
      var j :| 0 <= j < |shown| && shown[j] == ordered[i];
      assert works[j] in line;
      var k :| 0 <= k < |line| && line[k] == works[j];
      assert line[k].id == ordered[i].id;
    }
  }

  /** The current cycle is the one observed last, if the latest quota is known to be current. */
  ghost predicate IsCurrent(cycles: seq<Cycle>, hasCurrent: bool, currentId: int) {
    if !hasCurrent || cycles == [] then currentId == 0
    else exists k :: 0 <= k < |cycles| && cycles[k].id == currentId && forall i :: 0 <= i < |cycles| ==> !ObservedBefore(cycles[k], cycles[i])
  }

  /** One record for every cycle of the line, each the naive join of its effective
      period with all the events. */
  ghost predicate RecordsOf(records: seq<Record>, line: seq<Work>, events: seq<Event>, p: Pricing) {
    |records| == |line| && forall k :: 0 <= k < |records| ==> NaiveRecord(records[k], p, line[k], events)
  }

  ghost predicate IsHistory(
      records: seq<Record>, cycles: seq<Cycle>, segmentsByCycle: map<int, seq<Segment>>, events: seq<Event>,
      hasCurrent: bool, rangeStart: int, now: int, p: Pricing) {
    exists ordered, currentId, line ::
      && InObservedOrder(ordered) && multiset(ordered) == multiset(cycles) && IsCurrent(cycles, hasCurrent, currentId)
      && LineOf(line, ordered, currentId, rangeStart, now, segmentsByCycle) && RecordsOf(records, line, events, p)
  }

  /** Cycles, drops, events and prices in; one record for every shown cycle out. */
  method BuildHistory(
      cycles: seq<Cycle>, segmentsByCycle: map<int, seq<Segment>>, events: seq<Event>, hasCurrent: bool, rangeStart: int, now: int, p: Pricing)
    returns (records: seq<Record>)
    requires DistinctBy(cycles, CycleId) && forall i :: 0 <= i < |cycles| ==> cycles[i].id != 0
    requires NeverTwiceOpen(cycles) && SegmentsOrdered(segmentsByCycle) && InOrder(events) && WellFormed(p.snapshot)
    ensures IsHistory(records, cycles, segmentsByCycle, events, hasCurrent, rangeStart, now, p)
  {
    hide NaiveRecord;
    hide LineOf;
    hide LinedUp;
    hide ArePeriods;
    hide InObservedOrder;
    hide NeverTwiceOpen;
    hide Disjoint;
    var current := 0;
    if hasCurrent {
      current := LatestCycleId(cycles);
    }
    var periods := BuildCyclePeriods(cycles, current, now);
    ghost var ordered := KnownCycles(cycles, periods, current, now);
    var works := BuildWorks(cycles, periods, rangeStart, now, segmentsByCycle);
    WorkOrder(Elements(works));
    var line := SortBy(works, WorkBefore);
    SortedWorksLineUp(line, works, cycles, ordered, periods, current, rangeStart, now, segmentsByCycle);
    assert LinedUp(line) by {
      LineIsLinedUp(line, ordered, current, rangeStart, now, segmentsByCycle);
    }
    records := StreamUsage(line, events, p);
    assert RecordsOf(records, line, events, p);
  }

  lemma {:induction false} LineIsLinedUp(
      line: seq<Work>, ordered: seq<Cycle>, currentId: int, rangeStart: int, now: int, segmentsByCycle: map<int, seq<Segment>>)
    requires LineOf(line, ordered, currentId, rangeStart, now, segmentsByCycle)
    ensures LinedUp(line)
  {
  }

  lemma {:induction false} OpenKept(cycles: seq<Cycle>, ordered: seq<Cycle>)
    requires NeverTwiceOpen(cycles) && forall x :: x in ordered <==> x in cycles
    ensures NeverTwiceOpen(ordered)
  {
    forall a, b, t
      ensures !TwiceOpen(ordered, a, b, t)
    {
      if TwiceOpen(ordered, a, b, t) {
        assert OpenAt(cycles, a, t) && OpenAt(cycles, b, t) && !CutBeforeZero(cycles, a);
        assert TwiceOpen(cycles, a, b, t);
      }
    }
  }

  lemma {:induction false} KnownCycles(cycles: seq<Cycle>, periods: map<int, Period>, currentId: int, now: int) returns (ordered: seq<Cycle>)
    requires ArePeriods(periods, cycles, currentId, now) && NeverTwiceOpen(cycles)
    ensures InObservedOrder(ordered) && multiset(ordered) == multiset(cycles) && PeriodsFrom(periods, ordered, 0, currentId, now)
    ensures Disjoint(ordered) && forall i :: 0 <= i < |cycles| ==> cycles[i].id in periods
  {
    ordered :| InObservedOrder(ordered) && multiset(ordered) == multiset(cycles) && PeriodsFrom(periods, ordered, 0, currentId, now);
    SameElements(ordered, cycles);
    forall i | 0 <= i < |cycles|
      ensures cycles[i].id in periods
    {
      assert cycles[i] in ordered;
      var j :| 0 <= j < |ordered| && ordered[j] == cycles[i];
    }
    OpenKept(cycles, ordered);
    PeriodsDisjoint(ordered);
  }

  /** An event is counted in one cycle at most, and in one of its drops at most. */
  lemma EventCountedOnce(line: seq<Work>, e: Event, a: nat, b: nat, m: nat, n: nat)
    requires LinedUp(line) && a < |line| && b < |line| && During(line[a])(e) && During(line[b])(e)
    requires m < |line[a].transitions| && n < |line[b].transitions|
    requires Within(line[a], line[a].transitions[m])(e) && Within(line[b], line[b].transitions[n])(e)
    ensures a == b && m == n
  {
  }
}
