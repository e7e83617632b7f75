/** Activity buckets: integer boundaries that tile time without gap or overlap. */
module ActivityGrain {
  import opened Wrappers

  const BLOCKS := 364
  const SECOND := 1_000_000_000
  const MEDIUM_WINDOW := 7 * 24 * 60 * 60
  const LONG_WINDOW := 30 * 24 * 60 * 60

  /** Grains as stored; anything else is refused. */
  datatype Grain = Short | Medium | Long | Daily | Unsupported

  /** A half-open interval of instants, which are nanoseconds since the epoch. */
  datatype Bucket = Bucket(start: int, end: int)

  predicate Contains(b: Bucket, t: int) {
    b.start <= t < b.end
  }

  // ----- integer division -----

  /** Division and remainder that truncate toward zero. */
  function Quotient(value: int, divisor: int): int
    requires 0 < divisor
  {
    if value >= 0 then value / divisor else -((-value) / divisor)
  }

  function Remainder(value: int, divisor: int): int
    requires 0 < divisor
  {
    value - Quotient(value, divisor) * divisor
  }

  function FloorDiv(value: int, divisor: int): int
    requires 0 < divisor
  {
    if Remainder(value, divisor) < 0 then Quotient(value, divisor) - 1 else Quotient(value, divisor)
  }

  lemma ScaleOrder(a: int, b: int, m: int)
    requires 0 < m
    ensures a <= b ==> a * m <= b * m
  {
    if a <= b {
      assert (b - a) * m >= 0;
    }
  }

  lemma DivideBetween(value: int, divisor: int, q: int)
    requires 0 < divisor && q * divisor <= value < (q + 1) * divisor
    ensures value / divisor == q
  {
    var d := value / divisor;
    assert d * divisor <= value < d * divisor + divisor;
    assert (d + 1) * divisor == d * divisor + divisor;
    ScaleOrder(d + 1, q, divisor);
    ScaleOrder(q + 1, d, divisor);
  }

  /** The correction makes it the mathematical floor on both sides of zero. */
  lemma FloorDivIsFloor(value: int, divisor: int)
    requires 0 < divisor
    ensures FloorDiv(value, divisor) * divisor <= value < (FloorDiv(value, divisor) + 1) * divisor
    ensures FloorDiv(value, divisor) == value / divisor
  {
    var q := Quotient(value, divisor);
    if value >= 0 {
      assert value == q * divisor + value % divisor;
    } else {
      assert -value == (-q) * divisor + (-value) % divisor;
      assert q * divisor == -((-q) * divisor);
    }
    assert q * divisor + Remainder(value, divisor) == value;
    assert (q - 1) * divisor == q * divisor - divisor && (q + 1) * divisor == q * divisor + divisor;
    DivideBetween(value, divisor, FloorDiv(value, divisor));
  }

  // ----- boundaries inside a window -----

  /** Boundary `i` of a window of so many seconds cut into blocks, in seconds. */
  function Offset(window: int, i: int): int {
    i * window / BLOCKS
  }

  lemma OffsetFloor(window: int, i: int)
    ensures FloorDiv(i * window, BLOCKS) == Offset(window, i)
  {
    FloorDivIsFloor(i * window, BLOCKS);
  }

  lemma OffsetGrows(window: int, i: int)
    requires BLOCKS <= window
    ensures Offset(window, i) < Offset(window, i + 1)
  {
    assert (i + 1) * window == i * window + window;
  }

  lemma {:induction false} OffsetMonotone(window: int, i: int, j: int)
    requires BLOCKS <= window && i < j
    ensures Offset(window, i) < Offset(window, j)
    decreases j - i
  {
    OffsetGrows(window, j - 1);
    if i < j - 1 {
      OffsetMonotone(window, i, j - 1);
    }
  }

  /** 364 blocks make one window, wherever they start. */
  lemma OffsetPeriod(window: int, i: int)
    ensures Offset(window, i + BLOCKS) == Offset(window, i) + window
    ensures Offset(window, 0) == 0 && Offset(window, BLOCKS) == window
  {
    assert (i + BLOCKS) * window == i * window + BLOCKS * window;
  }

  function Estimate(window: int, seconds: int): int
    requires 0 < window
  {
    seconds * BLOCKS / window
  }

  /** The estimate is the right block or the one before it. */
  lemma EstimateClose(window: int, seconds: int)
    requires BLOCKS <= window
    ensures var e := Estimate(window, seconds); Offset(window, e) <= seconds < Offset(window, e + 2)
  {
    var e := Estimate(window, seconds);
    FloorDivIsFloor(seconds * BLOCKS, window);
    assert e * window <= seconds * BLOCKS < (e + 1) * window;
    assert (e + 2) * window == (e + 1) * window + window;
  }

  lemma EstimateInWindow(window: int, seconds: int)
    requires BLOCKS <= window && 0 <= seconds < window
    ensures 0 <= Estimate(window, seconds) < BLOCKS
  {
    FloorDivIsFloor(seconds * BLOCKS, window);
    var e := Estimate(window, seconds);
    assert e * window <= seconds * BLOCKS < (e + 1) * window;
    ScaleOrder(e + 1, 0, window);
    ScaleOrder(BLOCKS, e, window);
  }

  lemma SecondsOf(t: int, boundary: int)
    ensures t < boundary * SECOND <==> t / SECOND < boundary
  {
  }

  // ----- fixed windows -----

  function FixedBoundary(window: int, i: int): int {
    FloorDiv(i * window, BLOCKS) * SECOND
  }

  function FixedBucket(window: int, i: int): Bucket {
    Bucket(FixedBoundary(window, i), FixedBoundary(window, i + 1))
  }

  /** Estimates, then corrects. Together the loops move one step at most. */
  method FixedBucketIndex(t: int, window: int) returns (index: int)
    requires BLOCKS <= window
    ensures Contains(FixedBucket(window, index), t)
    ensures index == Estimate(window, t / SECOND) || index == Estimate(window, t / SECOND) + 1
  {
    hide FloorDiv;
    hide Offset;
    ghost var e := Estimate(window, t / SECOND);
    FloorDivIsFloor(t / SECOND * BLOCKS, window);
    index := FloorDiv(t / SECOND * BLOCKS, window);
    EstimateClose(window, t / SECOND);
    FixedSeconds(t, window, e);
    FixedSeconds(t, window, e + 2);
    while t >= FixedBoundary(window, index + 1)
      invariant e <= index <= e + 1 && FixedBoundary(window, index) <= t
      decreases e + 2 - index
    {
      index := index + 1;
    }
    index := FixedStepBack(t, window, index, e);
  }

  /** The second correction, for an estimate past the instant. */
  method FixedStepBack(t: int, window: int, from: int, ghost e: int) returns (index: int)
    requires e <= from <= e + 1 && FixedBoundary(window, e) <= t < FixedBoundary(window, from + 1)
    ensures e <= index <= from && Contains(FixedBucket(window, index), t)
  {
    hide FixedBoundary;
    index := from;
    while t < FixedBoundary(window, index)
      invariant e <= index <= from && t < FixedBoundary(window, index + 1)
      decreases index - e
    {
      index := index - 1;
    }
  }

  lemma FixedSeconds(t: int, window: int, i: int)
    ensures t < FixedBoundary(window, i) <==> t / SECOND < Offset(window, i)
  {
    OffsetFloor(window, i);
    SecondsOf(t, Offset(window, i));
  }

  // ----- calendar days -----

  /** Local midnights in seconds, and the day an instant falls on. */
  datatype Calendar = Calendar(midnight: int -> int, dayOf: int -> int)

  /** Midnights follow each other by at least a second a block, through 23- and
      25-hour days, and every instant lies on its day. */
  ghost predicate Regular(c: Calendar) {
    && (forall d :: c.midnight(d) + BLOCKS <= c.midnight(d + 1))
    && forall t :: c.midnight(c.dayOf(t)) * SECOND <= t < c.midnight(c.dayOf(t) + 1) * SECOND
  }

  function DayLength(c: Calendar, d: int): int {
    c.midnight(d + 1) - c.midnight(d)
  }

  function CalendarBoundary(c: Calendar, d: int, i: int): int {
    (c.midnight(d) + FloorDiv(i * DayLength(c, d), BLOCKS)) * SECOND
  }

  function CalendarBucket(c: Calendar, d: int, i: int): Bucket {
    Bucket(CalendarBoundary(c, d, i), CalendarBoundary(c, d, i + 1))
  }

  lemma CalendarSeconds(c: Calendar, d: int, i: int, t: int)
    ensures t < CalendarBoundary(c, d, i) <==> t / SECOND - c.midnight(d) < Offset(DayLength(c, d), i)
  {
    OffsetFloor(DayLength(c, d), i);
    SecondsOf(t, c.midnight(d) + Offset(DayLength(c, d), i));
  }

  /** The block of its own day an instant belongs to. */
  method ShortBucketIndex(c: Calendar, t: int) returns (index: int)
    requires Regular(c)
    ensures 0 <= index < BLOCKS && Contains(CalendarBucket(c, c.dayOf(t), index), t)
    ensures var e := Estimate(DayLength(c, c.dayOf(t)), t / SECOND - c.midnight(c.dayOf(t))); index == e || index == e + 1
  {
    hide FloorDiv;
    hide Offset;
    var d := c.dayOf(t);
    var start := c.midnight(d);
    var window := c.midnight(d + 1) - start;
    var passed := t / SECOND - start;
    assert 0 <= passed < window by {
      SecondsOf(t, start);
      SecondsOf(t, start + window);
    }
    ghost var e := Estimate(window, passed);
    FloorDivIsFloor(passed * BLOCKS, window);
    index := FloorDiv(passed * BLOCKS, window);
    EstimateClose(window, passed);
    EstimateInWindow(window, passed);
    CalendarSeconds(c, d, e, t);
    CalendarSeconds(c, d, e + 2, t);
    CalendarSeconds(c, d, BLOCKS, t);
    OffsetPeriod(window, 0);
    while index + 1 < BLOCKS && t >= CalendarBoundary(c, d, index + 1)
      invariant e <= index <= e + 1 && index < BLOCKS && CalendarBoundary(c, d, index) <= t
      decreases e + 2 - index
    {
      index := index + 1;
    }
    index := ShortStepBack(c, d, t, index, e);
  }

  method ShortStepBack(c: Calendar, d: int, t: int, from: int, ghost e: int) returns (index: int)
    requires 0 <= e <= from <= e + 1 && CalendarBoundary(c, d, e) <= t < CalendarBoundary(c, d, from + 1)
    ensures e <= index <= from && Contains(CalendarBucket(c, d, index), t)
  {
    hide CalendarBoundary;
    index := from;
    while index > 0 && t < CalendarBoundary(c, d, index)
      invariant e <= index <= from && t < CalendarBoundary(c, d, index + 1)
      decreases index - e
    {
      index := index - 1;
    }
  }

  // ----- one line of boundaries for every grain -----

  function WindowSeconds(g: Grain): int
    requires g.Medium? || g.Long?
  {
    match g
    case Medium => MEDIUM_WINDOW
    case Long => LONG_WINDOW
  }

  /** Boundary `i` of the grain, counted over all time. */
  function Boundary(c: Calendar, g: Grain, i: int): int
    requires !g.Unsupported?
  {
    match g
    case Short => CalendarBoundary(c, i / BLOCKS, i % BLOCKS)
    case Daily => c.midnight(i) * SECOND
    case Medium => FixedBoundary(MEDIUM_WINDOW, i)
    case Long => FixedBoundary(LONG_WINDOW, i)
  }

  /** The buckets rows are stored under. */
  function StorageBucket(c: Calendar, g: Grain, i: int): Bucket
    requires !g.Unsupported?
  {
    Bucket(Boundary(c, g, i), Boundary(c, g, i + 1))
  }

  lemma CalendarGrows(c: Calendar, d: int, i: int)
    requires Regular(c)
    ensures CalendarBoundary(c, d, i) < CalendarBoundary(c, d, i + 1)
  {
    OffsetFloor(DayLength(c, d), i);
    OffsetFloor(DayLength(c, d), i + 1);
    OffsetGrows(DayLength(c, d), i);
  }

  lemma CalendarEdges(c: Calendar, d: int)
    ensures CalendarBoundary(c, d, 0) == c.midnight(d) * SECOND
    ensures CalendarBoundary(c, d, BLOCKS) == c.midnight(d + 1) * SECOND
  {
    OffsetFloor(DayLength(c, d), 0);
    OffsetFloor(DayLength(c, d), BLOCKS);
    OffsetPeriod(DayLength(c, d), 0);
  }

  /** A day's last block ends where the next day's first begins. */
  lemma ShortNext(c: Calendar, i: int)
    ensures Boundary(c, Short, i + 1) == CalendarBoundary(c, i / BLOCKS, i % BLOCKS + 1)
  {
    hide CalendarBoundary;
    if i % BLOCKS == BLOCKS - 1 {
      assert (i + 1) / BLOCKS == i / BLOCKS + 1 && (i + 1) % BLOCKS == 0;
      CalendarEdges(c, i / BLOCKS);
      CalendarEdges(c, i / BLOCKS + 1);
    } else {
      assert (i + 1) / BLOCKS == i / BLOCKS && (i + 1) % BLOCKS == i % BLOCKS + 1;
    }
  }

  lemma FixedGrows(window: int, i: int)
    requires BLOCKS <= window
    ensures FixedBoundary(window, i) < FixedBoundary(window, i + 1)
  {
    OffsetFloor(window, i);
    OffsetFloor(window, i + 1);
    OffsetGrows(window, i);
  }

  lemma BoundaryGrows(c: Calendar, g: Grain, i: int)
    requires Regular(c) && !g.Unsupported?
    ensures Boundary(c, g, i) < Boundary(c, g, i + 1)
  {
    hide CalendarBoundary;
    hide FixedBoundary;
    match g
    case Short =>
      ShortNext(c, i);
      CalendarGrows(c, i / BLOCKS, i % BLOCKS);
    case Daily =>
    case Medium =>
      FixedGrows(MEDIUM_WINDOW, i);
    case Long =>
      FixedGrows(LONG_WINDOW, i);
  }

  lemma {:induction false} BoundaryMonotone(c: Calendar, g: Grain, i: int, j: int)
    requires Regular(c) && !g.Unsupported? && i < j
    ensures Boundary(c, g, i) < Boundary(c, g, j)
    decreases j - i
  {
    hide Boundary;
    BoundaryGrows(c, g, j - 1);
    if i < j - 1 {
      BoundaryMonotone(c, g, i, j - 1);
    }
  }

  /** Storage buckets do not overlap. */
  lemma BucketUnique(c: Calendar, g: Grain, i: int, j: int, t: int)
    requires Regular(c) && !g.Unsupported?
    requires Contains(StorageBucket(c, g, i), t) && Contains(StorageBucket(c, g, j), t)
    ensures i == j
  {
    hide Boundary;
    if i + 1 < j {
      BoundaryMonotone(c, g, i + 1, j);
    } else if j + 1 < i {
      BoundaryMonotone(c, g, j + 1, i);
    }
  }

  /** 364 fixed buckets span one window exactly. */
  lemma FixedSpan(c: Calendar, g: Grain, i: int)
    requires g.Medium? || g.Long?
    ensures Boundary(c, g, i + BLOCKS) == Boundary(c, g, i) + WindowSeconds(g) * SECOND
  {
    var window := WindowSeconds(g);
    OffsetFloor(window, i);
    OffsetFloor(window, i + BLOCKS);
    OffsetPeriod(window, i);
  }

  /** `seconds` is the floor of `part` 364ths of the window. */
  predicate IsShare(seconds: int, window: int, part: int) {
    364 * seconds <= part * window < 364 * (seconds + 1)
  }

  /** Boundary `i` lies at the second below `i` 364ths of the window: of a week, of thirty
      days, or of its local day, whatever its length. */
  lemma BoundaryAt(c: Calendar, i: int)
    ensures Boundary(c, Medium, i) % 1_000_000_000 == 0 && IsShare(Boundary(c, Medium, i) / 1_000_000_000, 7 * 86_400, i)
    ensures Boundary(c, Long, i) % 1_000_000_000 == 0 && IsShare(Boundary(c, Long, i) / 1_000_000_000, 30 * 86_400, i)
    ensures Boundary(c, Daily, i) == c.midnight(i) * 1_000_000_000
    ensures var d, part := i / 364, i % 364;
            && Boundary(c, Short, i) % 1_000_000_000 == 0
            && IsShare(Boundary(c, Short, i) / 1_000_000_000 - c.midnight(d), c.midnight(d + 1) - c.midnight(d), part)
  {
    hide FloorDiv;
    hide IsShare;
    FloorIsShare(MEDIUM_WINDOW, i, 0);
    FloorIsShare(LONG_WINDOW, i, 0);
    FloorIsShare(DayLength(c, i / BLOCKS), i % BLOCKS, c.midnight(i / BLOCKS));
  }

  lemma FloorIsShare(window: int, part: int, start: int)
    ensures IsShare(FloorDiv(part * window, BLOCKS), window, part)
    ensures var at := (start + FloorDiv(part * window, BLOCKS)) * SECOND;
            at % 1_000_000_000 == 0 && at / 1_000_000_000 == start + FloorDiv(part * window, BLOCKS)
  {
    FloorDivIsFloor(part * window, BLOCKS);
    hide FloorDiv;
  }

  // ----- looking buckets up -----

  lemma ShortIndex(c: Calendar, d: int, i: int)
    requires 0 <= i < BLOCKS
    ensures StorageBucket(c, Short, d * BLOCKS + i) == CalendarBucket(c, d, i)
  {
    hide CalendarBoundary;
    var n := d * BLOCKS + i;
    assert n / BLOCKS == d && n % BLOCKS == i;
    ShortNext(c, n);
  }

  /** Every instant lies in a storage bucket, and this is the one (`at` is its number). */
  method BucketForTimestamp(c: Calendar, g: Grain, t: int) returns (r: Result<Bucket>, ghost at: int)
    requires Regular(c)
    ensures r.Err? <==> g.Unsupported?
    ensures r.Ok? ==> r.value == StorageBucket(c, g, at) && Contains(r.value, t)
  {
    hide CalendarBoundary;
    hide FixedBoundary;
    at := 0;
    match g {
      case Short =>
        var index := ShortBucketIndex(c, t);
        at := c.dayOf(t) * BLOCKS + index;
        ShortIndex(c, c.dayOf(t), index);
        r := Ok(CalendarBucket(c, c.dayOf(t), index));
      case Daily =>
        at := c.dayOf(t);
        r := Ok(Bucket(c.midnight(c.dayOf(t)) * SECOND, c.midnight(c.dayOf(t) + 1) * SECOND));
      case Unsupported =>
        r := Err;
      case _ =>
        var window := WindowSeconds(g);
        var index := FixedBucketIndex(t, window);
        at := index;
        r := Ok(FixedBucket(window, index));
    }
  }

  /** The last 364 buckets up to `end`: consecutive storage buckets, of which the last
      ends at the first boundary not before the reference. */
  ghost predicate IsWindow(c: Calendar, g: Grain, buckets: seq<Bucket>, end: int, reference: int)
    requires !g.Unsupported?
  {
    && |buckets| == BLOCKS && (forall j :: 0 <= j < BLOCKS ==> buckets[j] == StorageBucket(c, g, end - BLOCKS + j))
    && Boundary(c, g, end - 1) < reference <= Boundary(c, g, end)
  }

  ghost predicate EndsAt(c: Calendar, g: Grain, buckets: seq<Bucket>, reference: int)
    requires !g.Unsupported?
  {
    exists end :: IsWindow(c, g, buckets, end, reference)
  }

  /** Walks back bucket by bucket, across midnights. */
  method ShortWindowEndingAt(c: Calendar, reference: int) returns (buckets: seq<Bucket>)
    requires Regular(c)
    ensures EndsAt(c, Short, buckets, reference)
  {
    hide Boundary;
    var containing, at := BucketForTimestamp(c, Short, reference);
    BoundaryGrows(c, Short, at - 1);
    var cursor := containing.value.start;
    ghost var end := at;
    if reference != containing.value.start {
      cursor := containing.value.end;
      end := at + 1;
    }
    buckets := [];
    var index := BLOCKS;
    while index > 0
      invariant 0 <= index <= BLOCKS && |buckets| == BLOCKS - index && cursor == Boundary(c, Short, end - |buckets|)
      invariant forall j :: 0 <= j < |buckets| ==> buckets[j] == StorageBucket(c, Short, end - |buckets| + j)
    {
      index := index - 1;
      var bucket, before := BucketForTimestamp(c, Short, cursor - 1);
      BucketBefore(c, Short, end - |buckets|, before);
      buckets := [bucket.value] + buckets;
      cursor := bucket.value.start;
    }
    assert IsWindow(c, Short, buckets, end, reference);
  }

  lemma BucketBefore(c: Calendar, g: Grain, i: int, j: int)
    requires Regular(c) && !g.Unsupported? && Contains(StorageBucket(c, g, j), Boundary(c, g, i) - 1)
    ensures j == i - 1
  {
    hide Boundary;
    BoundaryGrows(c, g, i - 1);
    BucketUnique(c, g, i - 1, j, Boundary(c, g, i) - 1);
  }

  lemma OnItsDay(c: Calendar, t: int)
    requires Regular(c)
    ensures c.midnight(c.dayOf(t)) * SECOND <= t < c.midnight(c.dayOf(t) + 1) * SECOND
  {
  }

  lemma DailyGrows(c: Calendar, d: int)
    requires Regular(c)
    ensures c.midnight(d) < c.midnight(d + 1)
  {
  }

  lemma DailyStorage(c: Calendar, d: int)
    ensures Boundary(c, Daily, d) == c.midnight(d) * SECOND
    ensures StorageBucket(c, Daily, d) == Bucket(c.midnight(d) * SECOND, c.midnight(d + 1) * SECOND)
  {
  }

  method DailyWindowEndingAt(c: Calendar, reference: int) returns (buckets: seq<Bucket>)
    requires Regular(c)
    ensures EndsAt(c, Daily, buckets, reference)
  {
    hide Regular;
    var last := c.dayOf(reference);
    OnItsDay(c, reference);
    DailyGrows(c, last - 1);
    if reference != c.midnight(last) * SECOND {
      last := last + 1;
    }
    ghost var end := last;
    DailyStorage(c, end);
    DailyStorage(c, end - 1);
    hide Boundary;
    var start := last - BLOCKS;
    buckets := [];
    for index := 0 to BLOCKS
      invariant |buckets| == index && forall j :: 0 <= j < index ==> buckets[j] == StorageBucket(c, Daily, start + j)
    {
      DailyStorage(c, start + index);
      buckets := buckets + [Bucket(c.midnight(start + index) * SECOND, c.midnight(start + index + 1) * SECOND)];
    }
    assert IsWindow(c, Daily, buckets, end, reference);
  }

  lemma FixedStorage(c: Calendar, g: Grain, i: int)
    requires g.Medium? || g.Long?
    ensures Boundary(c, g, i) == FixedBoundary(WindowSeconds(g), i)
    ensures StorageBucket(c, g, i) == FixedBucket(WindowSeconds(g), i)
  {
    hide FixedBoundary;
  }

  method FixedWindowEndingAt(c: Calendar, g: Grain, reference: int) returns (buckets: seq<Bucket>)
    requires Regular(c) && (g.Medium? || g.Long?)
    ensures EndsAt(c, g, buckets, reference)
  {
    hide FixedBoundary;
    hide Boundary;
    var window := WindowSeconds(g);
    var last := FixedBucketIndex(reference, window);
    FixedGrows(window, last - 1);
    if reference != FixedBoundary(window, last) {
      last := last + 1;
    }
    ghost var end := last;
    FixedStorage(c, g, end - 1);
    FixedStorage(c, g, end);
    var start := last - BLOCKS;
    buckets := [];
    for offset := 0 to BLOCKS
      invariant |buckets| == offset && forall j :: 0 <= j < offset ==> buckets[j] == StorageBucket(c, g, start + j)
    {
      FixedStorage(c, g, start + offset);
      buckets := buckets + [FixedBucket(window, start + offset)];
    }
    assert IsWindow(c, g, buckets, end, reference);
  }

  method WindowEndingAt(c: Calendar, g: Grain, reference: int) returns (r: Result<seq<Bucket>>)
    requires Regular(c)
    ensures r.Err? <==> g.Unsupported?
    ensures r.Ok? ==> EndsAt(c, g, r.value, reference)
  {
    hide EndsAt;
    var buckets;
    match g {
      case Short =>
        buckets := ShortWindowEndingAt(c, reference);
      case Daily =>
        buckets := DailyWindowEndingAt(c, reference);
      case Unsupported =>
        return Err;
      case _ =>
        buckets := FixedWindowEndingAt(c, g, reference);
    }
    r := Ok(buckets);
  }

  /** The window has no gap, and reaches exactly to the aligned end. */
  lemma WindowContiguous(c: Calendar, g: Grain, buckets: seq<Bucket>, reference: int)
    requires !g.Unsupported? && EndsAt(c, g, buckets, reference)
    ensures |buckets| == BLOCKS && forall j :: 0 <= j < BLOCKS - 1 ==> buckets[j].end == buckets[j + 1].start
    ensures buckets[BLOCKS - 1].start < reference <= buckets[BLOCKS - 1].end
  {
    hide Boundary;
    var end :| IsWindow(c, g, buckets, end, reference);
    forall j | 0 <= j < BLOCKS - 1
      ensures buckets[j].end == buckets[j + 1].start
    {
      assert buckets[j] == StorageBucket(c, g, end - BLOCKS + j) && buckets[j + 1] == StorageBucket(c, g, end - BLOCKS + (j + 1));
    }
  }
}
