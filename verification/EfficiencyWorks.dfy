/** The cycles shown in one answer, lined up along the time line. */
module EfficiencyWorks {
  import opened Lists
  import opened EfficiencyPeriods

  /** A shown cycle with the interval its events are read from. */
  datatype Work = Work(id: int, start: int, end: int, transitions: seq<Transition>)

  predicate Shown(p: Period, rangeStart: int, now: int) {
    p.start < p.end && rangeStart <= p.end && (p.current || p.end <= now)
  }

  function WorkFor(id: int, p: Period, now: int, segments: seq<Segment>): Work {
    Work(id, p.start, if p.current then now else p.end, TransitionsOf(segments))
  }

  function SegmentsOf(segmentsByCycle: map<int, seq<Segment>>, id: int): seq<Segment> {
    if id in segmentsByCycle then segmentsByCycle[id] else []
  }

  predicate WorkBefore(a: Work, b: Work) {
    || a.start < b.start
    || (a.start == b.start && (a.end < b.end || (a.end == b.end && a.id < b.id)))
  }

  function WorkId(w: Work): int {
    w.id
  }

  function IsShown(periods: map<int, Period>, rangeStart: int, now: int): Cycle -> bool {
    (c: Cycle) => c.id in periods && Shown(periods[c.id], rangeStart, now)
  }

  /** One work for each of the cycles listed, in their order. */
  ghost predicate WorksFor(works: seq<Work>, shown: seq<Cycle>, periods: map<int, Period>, now: int, segmentsByCycle: map<int, seq<Segment>>) {
    && |works| == |shown|
    && forall k :: 0 <= k < |works| ==>
         shown[k].id in periods && works[k] == WorkFor(shown[k].id, periods[shown[k].id], now, SegmentsOf(segmentsByCycle, shown[k].id))
  }

  method BuildWorks(cycles: seq<Cycle>, periods: map<int, Period>, rangeStart: int, now: int, segmentsByCycle: map<int, seq<Segment>>)
    returns (works: seq<Work>)
    requires forall i :: 0 <= i < |cycles| ==> cycles[i].id in periods
    ensures WorksFor(works, Select(cycles, IsShown(periods, rangeStart, now)), periods, now, segmentsByCycle)
  {
    works := [];
    ghost var shows := IsShown(periods, rangeStart, now);
    for n := 0 to |cycles|
      invariant WorksFor(works, Select(cycles[..n], shows), periods, now, segmentsByCycle)
    {
      var id := cycles[n].id;
      var p := periods[id];
      SelectStep(cycles, shows, n);
      if !Shown(p, rangeStart, now) {
        continue;
      }
      var transitions := BuildTransitions(SegmentsOf(segmentsByCycle, id));
      works := works + [Work(id, p.start, if p.current then now else p.end, transitions)];
    }
    assert cycles[..|cycles|] == cycles;
  }

  lemma {:induction false} WorkOrder(works: set<Work>)
    ensures StrictOrder(WorkBefore, works)
  {
  }

  // ----- the chain -----

  /** Works in line: each ends before, or where, the next one starts. */
  ghost predicate Chain(works: seq<Work>) {
    forall a, b :: 0 <= a < b < |works| ==> works[a].end <= works[b].start
  }

  /** Every work reads from the period of one cycle. */
  ghost predicate ReadsPeriod(w: Work, ordered: seq<Cycle>, i: nat, currentId: int, rangeStart: int, now: int) {
    && i < |ordered| && ordered[i].id == w.id
    && var p := PeriodAt(ordered, i, currentId, now);
       Shown(p, rangeStart, now) && w.start == p.start && w.end == (if p.current then now else p.end)
  }

  ghost predicate ReadsSomePeriod(w: Work, ordered: seq<Cycle>, currentId: int, rangeStart: int, now: int) {
    exists i: nat :: ReadsPeriod(w, ordered, i, currentId, rangeStart, now)
  }

  lemma {:induction false} ReadsInside(w: Work, ordered: seq<Cycle>, i: nat, currentId: int, rangeStart: int, now: int, t: int)
    requires ReadsPeriod(w, ordered, i, currentId, rangeStart, now) && (w.start <= t < w.end || t == w.start)
    ensures InPeriod(ordered, i, t)
  {
    hide EffectiveEnd;
  }

  /** Periods being disjoint, the work that starts first ends before the other starts. */
  lemma {:induction false} FirstEndsFirst(
      a: Work, b: Work, ordered: seq<Cycle>, i: nat, j: nat, currentId: int, rangeStart: int, now: int)
    requires Disjoint(ordered) && i != j && a.start <= b.start
    requires ReadsPeriod(a, ordered, i, currentId, rangeStart, now) && ReadsPeriod(b, ordered, j, currentId, rangeStart, now)
    ensures a.end <= b.start
  {
    hide InPeriod;
    ReadsInside(b, ordered, j, currentId, rangeStart, now, b.start);
    if b.start < a.end {
      ReadsInside(a, ordered, i, currentId, rangeStart, now, b.start);
    }
  }

  /** Whatever the cycles overlap like, sorting the works lines them up. */
  lemma {:induction false} WorksChain(works: seq<Work>, ordered: seq<Cycle>, currentId: int, rangeStart: int, now: int)
    requires Disjoint(ordered) && Sorted(works, WorkBefore) && DistinctBy(works, WorkId)
    requires forall k :: 0 <= k < |works| ==> ReadsSomePeriod(works[k], ordered, currentId, rangeStart, now)
    ensures Chain(works)
  {
    forall a, b | 0 <= a < b < |works|
      ensures works[a].end <= works[b].start
    {
      var i: nat :| ReadsPeriod(works[a], ordered, i, currentId, rangeStart, now);
      var j: nat :| ReadsPeriod(works[b], ordered, j, currentId, rangeStart, now);
      assert WorkId(works[a]) != WorkId(works[b]);
      assert !WorkBefore(works[b], works[a]);
      FirstEndsFirst(works[a], works[b], ordered, i, j, currentId, rangeStart, now);
    }
  }
}
