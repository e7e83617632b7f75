/** Overview and activity rows built from the same usage events. */
module UsageRows {
  import opened Wrappers
  import opened Lists
  import opened RowSums
  import opened PricingRules
  import opened ActivityGrain

  datatype Event = Event(id: int, at: int, dimensions: Dimensions, failed: bool, counters: Counters)

  const HOUR := 3600 * SECOND
  const DAY := 24 * HOUR

  /** What an event adds to a row: one request, a success or a failure, and its tokens. */
  function Contribution(e: Event): Counters {
    e.counters.(requests := 1, success := if e.failed then 0 else 1, failure := if e.failed then 1 else 0)
  }

  // ----- overview -----

  datatype OverviewKey = OverviewKey(start: int, dimensions: Dimensions)

  function HourKey(e: Event): OverviewKey {
    OverviewKey(e.at / HOUR * HOUR, Canonical(e.dimensions))
  }

  function DayKey(c: Calendar): Event -> OverviewKey {
    (e: Event) => OverviewKey(c.midnight(c.dayOf(e.at)) * SECOND, Canonical(e.dimensions))
  }

  function EntriesBy<K>(events: seq<Event>, key: Event -> K): seq<Entry<K>> {
    seq(|events|, i requires 0 <= i < |events| => Entry(key(events[i]), Contribution(events[i])))
  }

  function MaxID(events: seq<Event>): int {
    if events == [] then 0
    else
      var before := MaxID(events[..|events| - 1]);
      if events[|events| - 1].id > before then events[|events| - 1].id else before
  }

  lemma {:induction false} NextEntry<K>(events: seq<Event>, key: Event -> K, n: nat)
    requires n < |events|
    ensures Collect(EntriesBy(events[..n + 1], key)) == AddTo(Collect(EntriesBy(events[..n], key)), Entry(key(events[n]), Contribution(events[n])))
  {
    var more := EntriesBy(events[..n + 1], key);
    assert more[..n] == EntriesBy(events[..n], key) && more[n] == Entry(key(events[n]), Contribution(events[n]));
  }

  /** Hourly and daily rows in one pass, and the highest event ID. */
  method BuildOverviewRows(events: seq<Event>, c: Calendar) returns (hourly: Rows<OverviewKey>, daily: Rows<OverviewKey>, maxID: int)
    ensures hourly == Collect(EntriesBy(events, HourKey)) && daily == Collect(EntriesBy(events, DayKey(c)))
    ensures maxID == MaxID(events)
  {
    hide HourKey;
    hide DayKey;
    hide Contribution;
    hourly, daily, maxID := map[], map[], 0;
    for n := 0 to |events|
      invariant hourly == Collect(EntriesBy(events[..n], HourKey)) && daily == Collect(EntriesBy(events[..n], DayKey(c)))
      invariant maxID == MaxID(events[..n])
    {
      var e := events[n];
      assert events[..n + 1][..n] == events[..n];
      NextEntry(events, HourKey, n);
      NextEntry(events, DayKey(c), n);
      hide Collect;
      if e.id > maxID {
        maxID := e.id;
      }
      hourly := AddTo(hourly, Entry(HourKey(e), Contribution(e)));
      daily := AddTo(daily, Entry(DayKey(c)(e), Contribution(e)));
    }
    assert events[..|events|] == events;
  }

  /** Pages merge: rows of all events are the rows of each part, merged in any order. */
  lemma {:induction false} OverviewPagesMerge<K>(a: seq<Event>, b: seq<Event>, key: Event -> K)
    ensures Collect(EntriesBy(a + b, key)) == Merge(Collect(EntriesBy(a, key)), Collect(EntriesBy(b, key)))
    ensures Collect(EntriesBy(a + b, key)) == Collect(EntriesBy(b + a, key))
  {
    assert EntriesBy(a + b, key) == EntriesBy(a, key) + EntriesBy(b, key);
    assert EntriesBy(b + a, key) == EntriesBy(b, key) + EntriesBy(a, key);
    CollectConcat(EntriesBy(a, key), EntriesBy(b, key));
    CollectConcat(EntriesBy(b, key), EntriesBy(a, key));
    MergeCommutes(Collect(EntriesBy(a, key)), Collect(EntriesBy(b, key)));
  }

  function EventTotals(events: seq<Event>): Counters {
    if events == [] then ZERO else Plus(EventTotals(events[..|events| - 1]), Contribution(events[|events| - 1]))
  }

  lemma {:induction false} TallyByKey<K>(events: seq<Event>, key: Event -> K)
    ensures Tally(EntriesBy(events, key)) == EventTotals(events)
  {
    if events != [] {
      var n := |events| - 1;
      TallyByKey(events[..n], key);
      assert EntriesBy(events, key)[..n] == EntriesBy(events[..n], key);
    }
  }

  /** Hourly and daily rows add up to the same totals, which are those of the events. */
  lemma {:induction false} HourlyAndDailyAgree(events: seq<Event>, c: Calendar)
    ensures Total(Collect(EntriesBy(events, HourKey))) == EventTotals(events)
    ensures Total(Collect(EntriesBy(events, DayKey(c)))) == EventTotals(events)
  {
    TotalIsTally(EntriesBy(events, HourKey));
    TotalIsTally(EntriesBy(events, DayKey(c)));
    TallyByKey(events, HourKey);
    TallyByKey(events, DayKey(c));
  }

  // ----- activity -----

  datatype ActivityKey = ActivityKey(grain: Grain, start: int, group: string)

  const GRAINS: seq<Grain> := [Short, Medium, Long, Daily]

  function Retention(g: Grain): Option<int> {
    match g
    case Short => Some(3 * DAY)
    case Medium => Some(8 * DAY)
    case Long => Some(31 * DAY)
    case _ => None
  }

  predicate Retained(g: Grain, at: int, now: int) {
    Retention(g).Some? ==> now - Retention(g).value <= at
  }

  /** The start of the storage bucket an instant belongs to; there is exactly one. */
  ghost predicate StartsBucket(c: Calendar, g: Grain, at: int, start: int)
    requires !g.Unsupported?
  {
    exists i :: StorageBucket(c, g, i).start == start && Contains(StorageBucket(c, g, i), at)
  }

  /** The rows an event goes to: one for each grain that still retains it. */
  ghost predicate EventEntries(c: Calendar, e: Event, now: int, entries: seq<Entry<ActivityKey>>, grains: seq<Grain>) {
    if grains == [] then entries == []
    else
      var g := grains[|grains| - 1];
      if g.Unsupported? || !Retained(g, e.at, now) then EventEntries(c, e, now, entries, grains[..|grains| - 1])
      else
        && entries != [] && EventEntries(c, e, now, entries[..|entries| - 1], grains[..|grains| - 1])
        && var last := entries[|entries| - 1];
           && last.counters == Contribution(e) && last.key.grain == g && last.key.group == Required(e.dimensions.apiGroupKey)
           && StartsBucket(c, g, e.at, last.key.start)
  }

  /** The contributions of all events, in order. */
  ghost predicate ActivityEntries(c: Calendar, events: seq<Event>, now: int, entries: seq<Entry<ActivityKey>>) {
    if events == [] then entries == []
    else
      var n := |events| - 1;
      exists k :: 0 <= k <= |entries| && ActivityEntries(c, events[..n], now, entries[..k]) && EventEntries(c, events[n], now, entries[k..], GRAINS)
  }

  lemma {:induction false} StartUnique(c: Calendar, g: Grain, at: int, start: int, other: int)
    requires Regular(c) && !g.Unsupported? && StartsBucket(c, g, at, start) && StartsBucket(c, g, at, other)
    ensures start == other
  {
    hide Regular;
    hide Boundary;
    var i :| StorageBucket(c, g, i).start == start && Contains(StorageBucket(c, g, i), at);
    var j :| StorageBucket(c, g, j).start == other && Contains(StorageBucket(c, g, j), at);
    BucketUnique(c, g, i, j, at);
  }

  /** Buckets being unique, so are the contributions. */
  lemma {:induction false} EventEntriesUnique(c: Calendar, e: Event, now: int, a: seq<Entry<ActivityKey>>, b: seq<Entry<ActivityKey>>, grains: seq<Grain>)
    requires Regular(c) && EventEntries(c, e, now, a, grains) && EventEntries(c, e, now, b, grains)
    ensures a == b
    decreases |grains|
  {
    hide Regular;
    hide StartsBucket;
    hide Contribution;
    hide Required;
    if grains != [] {
      var g, before := grains[|grains| - 1], grains[..|grains| - 1];
      if g.Unsupported? || !Retained(g, e.at, now) {
        EventEntriesUnique(c, e, now, a, b, before);
      } else {
        EventEntriesUnique(c, e, now, a[..|a| - 1], b[..|b| - 1], before);
        StartUnique(c, g, e.at, a[|a| - 1].key.start, b[|b| - 1].key.start);
        assert a == a[..|a| - 1] + [a[|a| - 1]] && b == b[..|b| - 1] + [b[|b| - 1]];
      }
    }
  }

  lemma {:induction false} ActivityUnique(c: Calendar, events: seq<Event>, now: int, a: seq<Entry<ActivityKey>>, b: seq<Entry<ActivityKey>>)
    requires Regular(c) && ActivityEntries(c, events, now, a) && ActivityEntries(c, events, now, b)
    ensures a == b
    decreases |events|
  {
    hide Regular;
    hide EventEntries;
    if events != [] {
      var n := |events| - 1;
      var i :| 0 <= i <= |a| && ActivityEntries(c, events[..n], now, a[..i]) && EventEntries(c, events[n], now, a[i..], GRAINS);
      var j :| 0 <= j <= |b| && ActivityEntries(c, events[..n], now, b[..j]) && EventEntries(c, events[n], now, b[j..], GRAINS);
      ActivityUnique(c, events[..n], now, a[..i], b[..j]);
      EventEntriesUnique(c, events[n], now, a[i..], b[j..], GRAINS);
      assert a == a[..i] + a[i..] && b == b[..j] + b[j..];
    }
  }

  lemma {:induction false} ActivityConcat(c: Calendar, x: seq<Event>, y: seq<Event>, now: int, a: seq<Entry<ActivityKey>>, b: seq<Entry<ActivityKey>>)
    requires ActivityEntries(c, x, now, a) && ActivityEntries(c, y, now, b)
    ensures ActivityEntries(c, x + y, now, a + b)
    decreases |y|
  {
    hide EventEntries;
    hide Regular;
    if y == [] {
      assert x + y == x && a + b == a;
    } else {
      var n := |y| - 1;
      var k :| 0 <= k <= |b| && ActivityEntries(c, y[..n], now, b[..k]) && EventEntries(c, y[n], now, b[k..], GRAINS);
      ActivityConcat(c, x, y[..n], now, a, b[..k]);
      assert (x + y)[..|x| + n] == x + y[..n] && (x + y)[|x| + n] == y[n];
      assert (a + b)[..|a| + k] == a + b[..k] && (a + b)[|a| + k..] == b[k..];
    }
  }

  lemma NoGrains(c: Calendar, e: Event, now: int)
    ensures EventEntries(c, e, now, [], GRAINS[..0])
  {
  }

  /** The next grain adds a row, or is past its retention. */
  lemma {:induction false} NextGrain(c: Calendar, e: Event, now: int, mine: seq<Entry<ActivityKey>>, n: nat)
    requires n < |GRAINS| && EventEntries(c, e, now, mine, GRAINS[..n])
    ensures !GRAINS[n].Unsupported?
    ensures !Retained(GRAINS[n], e.at, now) ==> EventEntries(c, e, now, mine, GRAINS[..n + 1])
    ensures Retained(GRAINS[n], e.at, now) ==>
              forall start :: StartsBucket(c, GRAINS[n], e.at, start) ==>
                EventEntries(c, e, now, mine + [Entry(ActivityKey(GRAINS[n], start, Required(e.dimensions.apiGroupKey)), Contribution(e))], GRAINS[..n + 1])
  {
    hide StartsBucket;
    hide Contribution;
    hide Required;
    assert GRAINS[..n + 1][..n] == GRAINS[..n];
    forall start
      ensures (mine + [Entry(ActivityKey(GRAINS[n], start, Required(e.dimensions.apiGroupKey)), Contribution(e))])[..|mine|] == mine
    {
    }
  }

  /** The rows of the grains before the `n`-th are in. */
  ghost predicate GrainsDone(c: Calendar, e: Event, now: int, n: nat, rows: Rows<ActivityKey>, seen: seq<Entry<ActivityKey>>, mine: seq<Entry<ActivityKey>>)
    requires n <= |GRAINS|
  {
    EventEntries(c, e, now, mine, GRAINS[..n]) && rows == Collect(seen + mine)
  }

  lemma {:induction false} GrainAdded(
      c: Calendar, e: Event, now: int, n: nat, rows: Rows<ActivityKey>, seen: seq<Entry<ActivityKey>>, mine: seq<Entry<ActivityKey>>,
      start: int, entry: Entry<ActivityKey>)
    requires n < |GRAINS| && GrainsDone(c, e, now, n, rows, seen, mine) && Retained(GRAINS[n], e.at, now)
    requires !GRAINS[n].Unsupported? && StartsBucket(c, GRAINS[n], e.at, start)
    requires entry == Entry(ActivityKey(GRAINS[n], start, Required(e.dimensions.apiGroupKey)), Contribution(e))
    ensures GrainsDone(c, e, now, n + 1, AddTo(rows, entry), seen, mine + [entry])
  {
    hide StartsBucket;
    hide Contribution;
    hide Required;
    hide EventEntries;
    hide AddTo;
    NextGrain(c, e, now, mine, n);
    CollectMore(seen, mine, entry);
    hide Collect;
  }

  lemma {:induction false} CollectMore(seen: seq<Entry<ActivityKey>>, mine: seq<Entry<ActivityKey>>, entry: Entry<ActivityKey>)
    ensures Collect(seen + (mine + [entry])) == AddTo(Collect(seen + mine), entry)
  {
    assert (seen + (mine + [entry]))[..|seen + mine|] == seen + mine;
    hide AddTo;
  }

  lemma {:induction false} GrainPast(c: Calendar, e: Event, now: int, n: nat, rows: Rows<ActivityKey>, seen: seq<Entry<ActivityKey>>, mine: seq<Entry<ActivityKey>>)
    requires n < |GRAINS| && GrainsDone(c, e, now, n, rows, seen, mine) && !Retained(GRAINS[n], e.at, now)
    ensures GrainsDone(c, e, now, n + 1, rows, seen, mine)
  {
    hide EventEntries;
    hide Collect;
    NextGrain(c, e, now, mine, n);
  }

  /** Where an event's row starts for a grain. */
  method BucketStart(c: Calendar, g: Grain, at: int) returns (start: int)
    requires Regular(c) && !g.Unsupported?
    ensures StartsBucket(c, g, at, start)
  {
    hide Regular;
    var bucket, number := BucketForTimestamp(c, g, at);
    start := bucket.value.start;
    assert StorageBucket(c, g, number).start == start;
  }

  /** One event's rows, grain by grain. */
  method AddEvent(c: Calendar, e: Event, now: int, rows: Rows<ActivityKey>, ghost seen: seq<Entry<ActivityKey>>)
    returns (rows': Rows<ActivityKey>, ghost mine: seq<Entry<ActivityKey>>)
    requires Regular(c) && rows == Collect(seen)
    ensures EventEntries(c, e, now, mine, GRAINS) && rows' == Collect(seen + mine)
  {
    hide Contribution;
    hide Regular;
    hide Required;
    hide EventEntries;
    hide Collect;
    hide AddTo;
    hide Retained;
    hide StartsBucket;
    var group := Required(e.dimensions.apiGroupKey);
    rows', mine := rows, [];
    NoGrains(c, e, now);
    assert seen + [] == seen;
    for n := 0 to |GRAINS|
      invariant GrainsDone(c, e, now, n, rows', seen, mine)
    {
      var g := GRAINS[n];
      if !Retained(g, e.at, now) {
        GrainPast(c, e, now, n, rows', seen, mine);
        continue;
      }
      var start := BucketStart(c, g, e.at);
      var entry := Entry(ActivityKey(g, start, group), Contribution(e));
      GrainAdded(c, e, now, n, rows', seen, mine, start, entry);
      rows' := AddTo(rows', entry);
      mine := mine + [entry];
    }
    assert GRAINS[..|GRAINS|] == GRAINS;
  }

  /** The rows collect one contribution for each event and grain that retains it. */
  ghost predicate AreActivityRows(c: Calendar, events: seq<Event>, now: int, rows: Rows<ActivityKey>) {
    exists entries :: ActivityEntries(c, events, now, entries) && rows == Collect(entries)
  }

  method BuildActivityRows(c: Calendar, events: seq<Event>, now: int) returns (rows: Rows<ActivityKey>)
    requires Regular(c)
    ensures AreActivityRows(c, events, now, rows)
  {
    hide Regular;
    hide EventEntries;
    hide Collect;
    ghost var entries: seq<Entry<ActivityKey>> := [];
    rows := map[];
    assert map[] == Collect(entries) by {
      EmptyRows();
    }
    for n := 0 to |events|
      invariant ActivityEntries(c, events[..n], now, entries) && rows == Collect(entries)
    {
      ghost var mine;
      assert events[..n + 1][..n] == events[..n];
      rows, mine := AddEvent(c, events[n], now, rows, entries);
      ghost var more := entries + mine;
      assert more[..|entries|] == entries && more[|entries|..] == mine;
      entries := more;
    }
    assert events[..|events|] == events;
  }

  lemma EmptyRows()
    ensures Collect<ActivityKey>([]) == map[]
  {
  }

  /** For one `now`, rows of all events are the rows of each part, merged in any order. */
  lemma {:induction false} ActivityPagesMerge(
      c: Calendar, x: seq<Event>, y: seq<Event>, now: int, a: Rows<ActivityKey>, b: Rows<ActivityKey>, all: Rows<ActivityKey>, swapped: Rows<ActivityKey>)
    requires Regular(c) && AreActivityRows(c, x, now, a) && AreActivityRows(c, y, now, b)
    requires AreActivityRows(c, x + y, now, all) && AreActivityRows(c, y + x, now, swapped)
    ensures all == swapped == Merge(a, b) == Merge(b, a)
  {
    hide Regular;
    hide ActivityEntries;
    hide Collect;
    var inA :| ActivityEntries(c, x, now, inA) && a == Collect(inA);
    var inB :| ActivityEntries(c, y, now, inB) && b == Collect(inB);
    MergedActivity(c, x, y, now, inA, inB, all);
    MergedActivity(c, y, x, now, inB, inA, swapped);
    MergeCommutes(a, b);
  }

  lemma {:induction false} MergedActivity(
      c: Calendar, x: seq<Event>, y: seq<Event>, now: int, a: seq<Entry<ActivityKey>>, b: seq<Entry<ActivityKey>>, all: Rows<ActivityKey>)
    requires Regular(c) && ActivityEntries(c, x, now, a) && ActivityEntries(c, y, now, b) && AreActivityRows(c, x + y, now, all)
    ensures all == Merge(Collect(a), Collect(b))
  {
    hide Regular;
    hide ActivityEntries;
    hide Collect;
    var entries :| ActivityEntries(c, x + y, now, entries) && all == Collect(entries);
    ActivityConcat(c, x, y, now, a, b);
    ActivityUnique(c, x + y, now, entries, a + b);
    CollectConcat(a, b);
  }
}
