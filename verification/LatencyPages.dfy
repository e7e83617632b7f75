/** Pages of usage events become latency rows by hour and by day. */
module LatencyPages {
  import opened Wrappers
  import opened Choice
  import opened Varint
  import opened Records
  import opened SamplePoints
  import opened SampleSets
  import opened LatencySketch
  import opened LatencyRows
  import opened ActivityGrain
  import PricingRules
  import Text
  import Lists
  import SketchCodec
  import SampleCodec

  datatype BucketType = DayRows | HourRows

  datatype Key = Key(bucket: BucketType, start: int, group: string)

  datatype Event = Event(id: int, at: int, group: string, failed: bool, generate: Option<bool>, ttftMS: Option<int>, latencyMS: int)

  /** The local clock, and the priority of sample points. */
  datatype Setting = Setting(calendar: Calendar, hourStart: int -> int, now: int, k: nat, prio: int -> UInt64)

  /** The time that is not set, midnight of the first of January of the year 1, counted
      from the epoch like all instants here. */
  const ZERO_TIME := -62_135_596_800 * SECOND

  const HOUR_RETENTION := 3 * 24 * 3600 * SECOND
  const DAY_RETENTION_DAYS := 365

  function Cutoff(s: Setting, bucket: BucketType): int {
    match bucket
    case HourRows => s.hourStart(s.now - HOUR_RETENTION)
    case DayRows => s.calendar.midnight(s.calendar.dayOf(s.now) - (DAY_RETENTION_DAYS - 1)) * SECOND
  }

  predicate IsSample(e: Event) {
    !e.failed && e.generate == Some(true) && e.ttftMS.Some? && e.ttftMS.value > 0 && e.latencyMS > 0
  }

  /** The 64-bit fields of an event. */
  predicate Fits(e: Event) {
    e.id < TWO_63 && (e.ttftMS.Some? ==> e.ttftMS.value < TWO_63) && e.latencyMS < TWO_63
  }

  function KeysOf(s: Setting, e: Event): (keys: seq<Key>) {
    var group := PricingRules.Required(e.group);
    [Key(HourRows, s.hourStart(e.at), group), Key(DayRows, s.calendar.midnight(s.calendar.dayOf(e.at)) * SECOND, group)]
  }

  // ----- which point goes to which row -----

  datatype Placed = Placed(key: Key, point: SamplePoint)

  function Kept(s: Setting, keys: seq<Key>, point: SamplePoint): seq<Placed> {
    if keys == [] then []
    else
      var last := keys[|keys| - 1];
      Kept(s, keys[..|keys| - 1], point) + if last.start < Cutoff(s, last.bucket) then [] else [Placed(last, point)]
  }

  function PlacesOf(s: Setting, e: Event): seq<Placed> {
    if !IsSample(e) then [] else Kept(s, KeysOf(s, e), SamplePoint(e.id, s.prio(e.id), e.ttftMS.value, e.latencyMS))
  }

  function AllPlaces(s: Setting, events: seq<Event>): seq<Placed> {
    if events == [] then []
    else AllPlaces(s, events[..|events| - 1]) + PlacesOf(s, events[|events| - 1])
  }

  /** The points of one row, in order. */
  function Group(placed: seq<Placed>, key: Key): seq<SamplePoint> {
    if placed == [] then []
    else
      var last := placed[|placed| - 1];
      Group(placed[..|placed| - 1], key) + if last.key == key then [last.point] else []
  }

  /** Every point was taken by its row when it came. */
  ghost predicate Accepts(s: Setting, placed: seq<Placed>) {
    placed == [] ||
    var before, last := placed[..|placed| - 1], placed[|placed| - 1];
    Accepts(s, before) && Takes(Group(before, last.key), last.point, s.k, s.prio)
  }

  lemma GroupStep(placed: seq<Placed>, x: Placed, key: Key)
    ensures Group(placed + [x], key) == Group(placed, key) + if x.key == key then [x.point] else []
  {
    assert (placed + [x])[..|placed|] == placed;
  }

  lemma AcceptsStep(s: Setting, placed: seq<Placed>, x: Placed)
    ensures Accepts(s, placed + [x]) <==> Accepts(s, placed) && Takes(Group(placed, x.key), x.point, s.k, s.prio)
  {
    assert (placed + [x])[..|placed|] == placed;
  }

  lemma {:induction false} AcceptsPrefix(s: Setting, placed: seq<Placed>, n: nat)
    requires n <= |placed| && Accepts(s, placed)
    ensures Accepts(s, placed[..n])
    decreases |placed|
  {
    if n < |placed| {
      AcceptsPrefix(s, placed[..|placed| - 1], n);
      assert placed[..|placed| - 1][..n] == placed[..n];
    } else {
      assert placed[..n] == placed;
    }
  }

  lemma {:induction false} GroupConcat(a: seq<Placed>, b: seq<Placed>, key: Key)
    ensures Group(a + b, key) == Group(a, key) + Group(b, key)
  {
    if b == [] {
      assert a + b == a;
    } else {
      GroupConcat(a, b[..|b| - 1], key);
      assert (a + b)[..|a| + |b| - 1] == a + b[..|b| - 1];
    }
  }

  lemma {:induction false} PlacesConcat(s: Setting, a: seq<Event>, b: seq<Event>)
    ensures AllPlaces(s, a + b) == AllPlaces(s, a) + AllPlaces(s, b)
  {
    hide PlacesOf;
    if b == [] {
      assert a + b == a;
    } else {
      PlacesConcat(s, a, b[..|b| - 1]);
      assert (a + b)[..|a| + |b| - 1] == a + b[..|b| - 1];
    }
  }

  // ----- rows under construction -----

  ghost function Footprint(b: RowBuilder): set<object> {
    {b, b.ttft, b.latency, b.samples}
  }

  ghost function Objects(builders: map<Key, RowBuilder>): set<object> {
    set key, o | key in builders && o in Footprint(builders[key]) :: o
  }

  ghost predicate Apart(builders: map<Key, RowBuilder>) {
    forall a, b :: a in builders && b in builders && a != b ==> Footprint(builders[a]) !! Footprint(builders[b])
  }

  ghost predicate Tracks(b: RowBuilder, group: seq<SamplePoint>, s: Setting)
    reads b, b.ttft, b.latency, b.samples
  {
    b.Valid() && b.samples.k == s.k && b.samples.prio == s.prio && b.group == group
  }

  /** One builder for every key that occurs, `also` included, holding exactly its points. */
  ghost predicate Holds(builders: map<Key, RowBuilder>, placed: seq<Placed>, s: Setting, also: set<Key>)
    reads Objects(builders)
  {
    && Apart(builders)
    && (forall key :: key in builders <==> Group(placed, key) != [] || key in also)
    && forall key :: key in builders ==> (assert Footprint(builders[key]) <= Objects(builders); Tracks(builders[key], Group(placed, key), s))
  }

  method NewBuilder(s: Setting) returns (b: RowBuilder)
    requires 0 < s.k
    ensures Tracks(b, [], s) && fresh(Footprint(b))
  {
    b := new RowBuilder(s.k, s.prio);
  }

  method AddTo(b: RowBuilder, point: SamplePoint, ghost group: seq<SamplePoint>, s: Setting) returns (ok: bool)
    requires Tracks(b, group, s)
    requires point.priority == s.prio(point.eventID) && point.eventID < TWO_63 && point.ttftMS < TWO_63 && point.latencyMS < TWO_63
    modifies Footprint(b)
    ensures ok == Takes(group, point, s.k, s.prio)
    ensures ok ==> Tracks(b, group + [point], s)
  {
    ok := b.Add(point.eventID, point.ttftMS, point.latencyMS);
  }

  /** The builder of a key, new if there was none. */
  method BuilderFor(builders: map<Key, RowBuilder>, key: Key, ghost placed: seq<Placed>, s: Setting) returns (more: map<Key, RowBuilder>)
    requires Holds(builders, placed, s, {}) && 0 < s.k
    ensures Holds(more, placed, s, {key}) && key in more
    ensures forall o :: o in Objects(more) ==> o in Objects(builders) || fresh(o)
  {
    hide Group;
    hide Tracks;
    if key in builders {
      return builders;
    }
    var b := NewBuilder(s);
    hide Footprint;
    more := builders[key := b];
    assert Apart(more) by {
      forall k | k in builders
        ensures Footprint(builders[k]) !! Footprint(b)
      {
        assert Footprint(builders[k]) <= Objects(builders);
      }
    }
  }

  /** One point goes to its row, or the page fails. */
  method AddPlaced(builders: map<Key, RowBuilder>, x: Placed, ghost placed: seq<Placed>, s: Setting)
    returns (ok: bool, more: map<Key, RowBuilder>)
    requires Holds(builders, placed, s, {}) && 0 < s.k
    requires x.point.priority == s.prio(x.point.eventID) && x.point.eventID < TWO_63 && x.point.ttftMS < TWO_63 && x.point.latencyMS < TWO_63
    modifies Objects(builders)
    ensures ok == Takes(Group(placed, x.key), x.point, s.k, s.prio)
    ensures ok ==> Holds(more, placed + [x], s, {})
    ensures forall o :: o in Objects(more) ==> o in Objects(builders) || fresh(o)
  {
    hide Group;
    hide Tracks;
    hide Takes;
    more := BuilderFor(builders, x.key, placed, s);
    hide Footprint;
    ok := AddTo(more[x.key], x.point, Group(placed, x.key), s);
    if ok {
      forall key | key in more && key != x.key
        ensures Tracks(more[key], Group(placed, key), s)
      {
        assert Footprint(more[key]) !! Footprint(more[x.key]);
      }
      PointAdded(more, placed, x, s);
    }
  }

  lemma {:induction false} PointAdded(builders: map<Key, RowBuilder>, placed: seq<Placed>, x: Placed, s: Setting)
    requires Apart(builders) && x.key in builders && forall key :: key in builders <==> Group(placed, key) != [] || key == x.key
    requires forall key :: key in builders && key != x.key ==> Tracks(builders[key], Group(placed, key), s)
    requires Tracks(builders[x.key], Group(placed, x.key) + [x.point], s)
    ensures Holds(builders, placed + [x], s, {})
  {
    hide Tracks;
    hide Apart;
    hide Group;
    forall key
      ensures Group(placed + [x], key) == if x.key == key then Group(placed, key) + [x.point] else Group(placed, key)
    {
      GroupStep(placed, x, key);
    }
  }

  lemma KeptStep(s: Setting, keys: seq<Key>, n: nat, point: SamplePoint)
    requires n < |keys|
    ensures Kept(s, keys[..n + 1], point) ==
              Kept(s, keys[..n], point) + if keys[n].start < Cutoff(s, keys[n].bucket) then [] else [Placed(keys[n], point)]
  {
    assert keys[..n + 1][..n] == keys[..n];
  }

  lemma {:induction false} KeptPrefix(s: Setting, keys: seq<Key>, n: nat, point: SamplePoint)
    requires n <= |keys|
    ensures Kept(s, keys[..n], point) <= Kept(s, keys, point)
    decreases |keys|
  {
    if n < |keys| {
      KeptPrefix(s, keys[..|keys| - 1], n, point);
      assert keys[..|keys| - 1][..n] == keys[..n];
    } else {
      assert keys[..n] == keys;
    }
  }

  lemma AcceptsLess(s: Setting, placed: seq<Placed>, more: seq<Placed>)
    requires placed <= more && !Accepts(s, placed)
    ensures !Accepts(s, more)
  {
    assert more[..|placed|] == placed;
    if Accepts(s, more) {
      AcceptsPrefix(s, more, |placed|);
    }
  }

  /** One event goes to its hour and its day, as far as these are retained. */
  method AddEvent(builders: map<Key, RowBuilder>, e: Event, ghost placed: seq<Placed>, s: Setting)
    returns (ok: bool, more: map<Key, RowBuilder>)
    requires Holds(builders, placed, s, {}) && 0 < s.k && Fits(e) && Accepts(s, placed)
    modifies Objects(builders)
    ensures ok == Accepts(s, placed + PlacesOf(s, e))
    ensures ok ==> Holds(more, placed + PlacesOf(s, e), s, {})
    ensures forall o :: o in Objects(more) ==> o in Objects(builders) || fresh(o)
  {
    hide Holds;
    hide Accepts;
    hide Takes;
    hide Objects;
    more := builders;
    if !IsSample(e) {
      assert placed + PlacesOf(s, e) == placed;
      return true, more;
    }
    var keys, point := KeysOf(s, e), SamplePoint(e.id, s.prio(e.id), e.ttftMS.value, e.latencyMS);
    hide KeysOf;
    hide Kept;
    hide Cutoff;
    assert Kept(s, keys[..0], point) == [] by {
      KeptNone(s, keys, point);
    }
    assert placed + [] == placed;
    for n := 0 to |keys|
      invariant Holds(more, placed + Kept(s, keys[..n], point), s, {}) && Accepts(s, placed + Kept(s, keys[..n], point))
      invariant forall o :: o in Objects(more) ==> o in Objects(builders) || fresh(o)
    {
      KeptStep(s, keys, n, point);
      if keys[n].start < Cutoff(s, keys[n].bucket) {
        assert Kept(s, keys[..n + 1], point) == Kept(s, keys[..n], point);
        continue;
      }
      ghost var before, x := placed + Kept(s, keys[..n], point), Placed(keys[n], point);
      AcceptsStep(s, before, x);
      assert before + [x] == placed + Kept(s, keys[..n + 1], point);
      ok, more := AddPlaced(more, Placed(keys[n], point), before, s);
      if !ok {
        KeptPrefix(s, keys, n + 1, point);
        AcceptsLess(s, before + [x], placed + Kept(s, keys, point));
        return;
      }
    }
    assert keys[..|keys|] == keys;
    return true, more;
  }

  lemma KeptNone(s: Setting, keys: seq<Key>, point: SamplePoint)
    ensures Kept(s, keys[..0], point) == []
  {
  }

  lemma {:induction false} PlacesStep(s: Setting, events: seq<Event>, n: nat)
    requires n < |events|
    ensures AllPlaces(s, events[..n + 1]) == AllPlaces(s, events[..n]) + PlacesOf(s, events[n])
  {
    hide PlacesOf;
    assert events[..n + 1][..n] == events[..n];
  }

  lemma {:induction false} PlacesPrefix(s: Setting, events: seq<Event>, n: nat)
    requires n <= |events|
    ensures AllPlaces(s, events[..n]) <= AllPlaces(s, events)
  {
    hide AllPlaces;
    PlacesConcat(s, events[..n], events[n..]);
    assert events[..n] + events[n..] == events;
  }

  lemma NothingHeld(s: Setting)
    ensures Holds(map[], [], s, {}) && Accepts(s, []) && Objects(map[]) == {}
  {
  }

  method BuildAll(events: seq<Event>, s: Setting) returns (ok: bool, builders: map<Key, RowBuilder>)
    requires 0 < s.k && forall i :: 0 <= i < |events| ==> Fits(events[i])
    ensures ok == Accepts(s, AllPlaces(s, events))
    ensures ok ==> Holds(builders, AllPlaces(s, events), s, {})
    ensures fresh(Objects(builders))
  {
    NothingHeld(s);
    hide Holds;
    hide PlacesOf;
    hide Accepts;
    builders := map[];
    for n := 0 to |events|
      invariant Holds(builders, AllPlaces(s, events[..n]), s, {}) && Accepts(s, AllPlaces(s, events[..n]))
      invariant fresh(Objects(builders))
    {
      PlacesStep(s, events, n);
      ok, builders := AddEvent(builders, events[n], AllPlaces(s, events[..n]), s);
      if !ok {
        PlacesPrefix(s, events, n + 1);
        AcceptsLess(s, AllPlaces(s, events[..n + 1]), AllPlaces(s, events));
        return;
      }
    }
    assert events[..|events|] == events;
    return true, builders;
  }

  // ----- stored rows -----

  datatype StoredRow = StoredRow(
    key: Key, sampleCount: int, maxTTFT: int, maxLatency: int, ttft: seq<Byte>, latency: seq<Byte>, samples: seq<Byte>)

  /** A stored row whose three encodings decode to the row. */
  ghost predicate Stores(stored: StoredRow, r: Row, prio: int -> UInt64) {
    && stored.sampleCount == r.count && stored.maxTTFT == r.maxTTFT && stored.maxLatency == r.maxLatency
    && SketchCodec.Decode(stored.ttft).Ok? && SketchCodec.MapOf(SketchCodec.Decode(stored.ttft).value) == r.ttft
    && SketchCodec.Decode(stored.latency).Ok? && SketchCodec.MapOf(SketchCodec.Decode(stored.latency).value) == r.latency
    && SampleCodec.Decode(stored.samples, prio).Ok? && Ranks(SampleCodec.Decode(stored.samples, prio).value, r.kept)
  }

  /** Stored bytes hold one row only. */
  lemma StoredUnique(stored: StoredRow, a: Row, b: Row, prio: int -> UInt64)
    requires Stores(stored, a, prio) && Stores(stored, b, prio)
    ensures a == b
  {
  }

  /** One row for every key that occurs, of exactly the points placed there. */
  ghost predicate IsPage(rows: map<Key, Row>, placed: seq<Placed>, s: Setting) {
    && (forall key :: key in rows <==> Group(placed, key) != [])
    && forall key :: key in rows ==> IsRow(rows[key], Group(placed, key), s.k, s.prio)
  }

  method EncodeRow(key: Key, b: RowBuilder, ghost group: seq<SamplePoint>, s: Setting) returns (r: Result<StoredRow>, ghost row: Row)
    requires Tracks(b, group, s) && s.k <= SampleCodec.MAX_ENCODED_SAMPLE_POINTS
    ensures r.Ok? && r.value.key == key && Stores(r.value, row, s.prio) && IsRow(row, group, s.k, s.prio)
  {
    row := b.Parts();
    KeyedSize(b.samples.points, s.prio);
    var ttft := b.ttft.MarshalBinary();
    if ttft.Err? {
      return Err, row;
    }
    var latency := b.latency.MarshalBinary();
    if latency.Err? {
      return Err, row;
    }
    var samples := b.samples.MarshalBinary();
    if samples.Err? {
      return Err, row;
    }
    r := Ok(StoredRow(key, b.sampleCount, b.maxTTFT, b.maxLatency, ttft.value, latency.value, samples.value));
  }

  function StoredKey(stored: StoredRow): Key {
    stored.key
  }

  /** One stored row for every row. */
  ghost predicate StoresAll(list: seq<StoredRow>, rows: map<Key, Row>, prio: int -> UInt64) {
    && (forall x :: x in list ==> x.key in rows && Stores(x, rows[x.key], prio))
    && (forall key :: key in rows ==> exists x :: x in list && x.key == key)
    && Lists.DistinctBy(list, StoredKey)
  }

  lemma {:induction false} StoresStep(list: seq<StoredRow>, rows: map<Key, Row>, x: StoredRow, row: Row, more: seq<StoredRow>, rows': map<Key, Row>, prio: int -> UInt64)
    requires StoresAll(list, rows, prio) && x.key !in rows && Stores(x, row, prio)
    requires more == list + [x] && rows' == rows[x.key := row]
    ensures StoresAll(more, rows', prio)
  {
    hide Stores;
    DistinctStep(list, x, more);
    hide Lists.DistinctBy;
    assert x in more;
    assert forall y :: y in list ==> y in more;
  }

  lemma {:induction false} DistinctStep(list: seq<StoredRow>, x: StoredRow, more: seq<StoredRow>)
    requires Lists.DistinctBy(list, StoredKey) && (forall y :: y in list ==> y.key != x.key) && more == list + [x]
    ensures Lists.DistinctBy(more, StoredKey)
  {
    forall i, j | 0 <= i < j < |more|
      ensures StoredKey(more[i]) != StoredKey(more[j])
    {
      assert more[i] in list;
    }
  }

  predicate KeyBefore(a: Key, b: Key) {
    if a.bucket != b.bucket then a.bucket == DayRows
    else if a.start != b.start then a.start < b.start
    else Text.Compare(a.group, b.group) < 0
  }

  predicate StoredBefore(a: StoredRow, b: StoredRow) {
    KeyBefore(a.key, b.key)
  }

  ghost predicate InKeyOrder(list: seq<StoredRow>) {
    forall i, j :: 0 <= i < j < |list| ==> KeyBefore(list[i].key, list[j].key)
  }

  lemma {:induction false} KeyOrder(all: set<StoredRow>)
    ensures Lists.StrictOrder(StoredBefore, all)
  {
    hide Text.Compare;
    forall a: StoredRow, b: StoredRow
      ensures !(StoredBefore(a, b) && StoredBefore(b, a))
    {
      Text.CompareFlips(a.key.group, b.key.group);
    }
    forall a: StoredRow, b: StoredRow, c: StoredRow | !StoredBefore(b, a) && !StoredBefore(c, b)
      ensures !StoredBefore(c, a)
    {
      if a.key.bucket == b.key.bucket == c.key.bucket && a.key.start == b.key.start == c.key.start {
        Text.CompareFlips(a.key.group, b.key.group);
        Text.CompareFlips(b.key.group, c.key.group);
        Text.CompareFlips(a.key.group, c.key.group);
        Text.CompareThrough(a.key.group, b.key.group, c.key.group);
      }
    }
  }

  /** Sorting keeps one stored row for every row, and different keys leave no ties. */
  lemma {:induction false} SortedStores(list: seq<StoredRow>, sorted: seq<StoredRow>, rows: map<Key, Row>, prio: int -> UInt64)
    requires StoresAll(list, rows, prio) && multiset(sorted) == multiset(list) && Lists.Sorted(sorted, StoredBefore)
    ensures StoresAll(sorted, rows, prio) && InKeyOrder(sorted)
  {
    hide Stores;
    hide Text.Compare;
    Lists.SameElements(sorted, list);
    Lists.DistinctKept(list, sorted, StoredKey);
    forall key | key in rows
      ensures exists y :: y in sorted && y.key == key
    {
      var y :| y in list && y.key == key;
      assert y in sorted;
    }
    forall i, j | 0 <= i < j < |sorted|
      ensures KeyBefore(sorted[i].key, sorted[j].key)
    {
      assert StoredKey(sorted[i]) != StoredKey(sorted[j]) && !StoredBefore(sorted[j], sorted[i]);
      Text.CompareFlips(sorted[i].key.group, sorted[j].key.group);
    }
  }

  /** The rows encoded so far, all but those under the keys `left`. */
  ghost predicate Encoding(list: seq<StoredRow>, rows: map<Key, Row>, keys: set<Key>, left: set<Key>, placed: seq<Placed>, s: Setting) {
    && left <= keys && rows.Keys == keys - left && StoresAll(list, rows, s.prio)
    && forall key :: key in rows ==> IsRow(rows[key], Group(placed, key), s.k, s.prio)
  }

  /** Encodes the next row, in no particular order. */
  method EncodeNext(
      builders: map<Key, RowBuilder>, key: Key, list: seq<StoredRow>, left: set<Key>,
      ghost rows: map<Key, Row>, ghost placed: seq<Placed>, s: Setting)
    returns (r: Result<seq<StoredRow>>, ghost rows': map<Key, Row>)
    requires Holds(builders, placed, s, {}) && s.k <= SampleCodec.MAX_ENCODED_SAMPLE_POINTS
    requires Encoding(list, rows, builders.Keys, left, placed, s) && key in left
    ensures Holds(builders, placed, s, {})
    ensures r.Ok? && Encoding(r.value, rows', builders.Keys, left - {key}, placed, s)
  {
    hide Tracks;
    hide Group;
    hide IsRow;
    hide Stores;
    hide Apart;
    ghost var row;
    var encoded;
    encoded, row := EncodeRow(key, builders[key], Group(placed, key), s);
    if encoded.Err? {
      assert false;
      return Err, rows;
    }
    rows' := rows[key := row];
    r := Ok(list + [encoded.value]);
    StoresStep(list, rows, encoded.value, row, r.value, rows', s.prio);
    hide StoresAll;
  }

  lemma EncodedPage(list: seq<StoredRow>, rows: map<Key, Row>, builders: map<Key, RowBuilder>, placed: seq<Placed>, s: Setting)
    requires Holds(builders, placed, s, {}) && Encoding(list, rows, builders.Keys, {}, placed, s)
    ensures IsPage(rows, placed, s) && StoresAll(list, rows, s.prio)
  {
  }

  lemma EncodesNothing(keys: set<Key>, placed: seq<Placed>, s: Setting)
    ensures Encoding([], map[], keys, keys, placed, s)
  {
  }

  method EncodeRows(builders: map<Key, RowBuilder>, ghost placed: seq<Placed>, s: Setting)
    returns (r: Result<seq<StoredRow>>, ghost rows: map<Key, Row>)
    requires Holds(builders, placed, s, {}) && s.k <= SampleCodec.MAX_ENCODED_SAMPLE_POINTS
    ensures r.Ok? && IsPage(rows, placed, s) && StoresAll(r.value, rows, s.prio) && InKeyOrder(r.value)
  {
    hide Holds;
    hide Encoding;
    hide IsPage;
    hide StoresAll;
    var list: seq<StoredRow> := [];
    rows := map[];
    var left := builders.Keys;
    EncodesNothing(left, placed, s);
    while left != {}
      invariant Holds(builders, placed, s, {}) && Encoding(list, rows, builders.Keys, left, placed, s)
      decreases |left|
    {
      ghost var objects := Objects(builders);
      var key := Pick(left);
      assert objects == Objects(builders);
      var next;
      next, rows := EncodeNext(builders, key, list, left, rows, placed, s);
      if next.Err? {
        assert false;
        return Err, rows;
      }
      list := next.value;
      left := left - {key};
    }
    EncodedPage(list, rows, builders, placed, s);
    KeyOrder(Lists.Elements(list));
    var sorted := Lists.SortBy(list, StoredBefore);
    SortedStores(list, sorted, rows, s.prio);
    return Ok(sorted), rows;
  }

  /** A page of events in; stored rows in key order out, one for each hour and each day
      of each group that is still retained. The page fails as a whole, exactly when the
      time is missing or a row refuses one of its events. */
  method BuildRows(events: seq<Event>, s: Setting) returns (r: Result<seq<StoredRow>>, ghost rows: map<Key, Row>)
    requires 0 < s.k <= SampleCodec.MAX_ENCODED_SAMPLE_POINTS && forall i :: 0 <= i < |events| ==> Fits(events[i])
    ensures r.Ok? <==> s.now != ZERO_TIME && Accepts(s, AllPlaces(s, events))
    ensures r.Ok? ==> IsPage(rows, AllPlaces(s, events), s) && StoresAll(r.value, rows, s.prio) && InKeyOrder(r.value)
  {
    hide Holds;
    hide IsPage;
    rows := map[];
    if s.now == ZERO_TIME {
      return Err, rows;
    }
    var ok, builders := BuildAll(events, s);
    if !ok {
      return Err, rows;
    }
    r, rows := EncodeRows(builders, AllPlaces(s, events), s);
  }

  // ----- merging pages -----

  /** Rows with a counterpart are merged, the others taken over. */
  ghost predicate IsPageMerge(a: map<Key, Row>, b: map<Key, Row>, c: map<Key, Row>, k: nat) {
    && c.Keys == a.Keys + b.Keys
    && forall key :: key in c ==>
         if key in a && key in b then IsMerged(a[key], b[key], c[key], k)
         else c[key] == if key in a then a[key] else b[key]
  }

  lemma {:induction false} PageUnique(a: map<Key, Row>, b: map<Key, Row>, placed: seq<Placed>, s: Setting)
    requires IsPage(a, placed, s) && IsPage(b, placed, s)
    ensures a == b
  {
    hide IsRow;
    forall key | key in a
      ensures key in b && b[key] == a[key]
    {
      RowUnique(a[key], b[key], Group(placed, key), s.k, s.prio);
    }
    assert a.Keys == b.Keys;
  }

  lemma {:induction false} MergedIsPage(a: map<Key, Row>, b: map<Key, Row>, c: map<Key, Row>, x: seq<Placed>, y: seq<Placed>, s: Setting)
    requires IsPage(a, x, s) && IsPage(b, y, s) && IsPageMerge(a, b, c, s.k)
    ensures IsPage(c, x + y, s)
  {
    hide IsRow;
    hide IsMerged;
    hide Group;
    forall key
      ensures key in c <==> Group(x + y, key) != []
      ensures key in c ==> IsRow(c[key], Group(x + y, key), s.k, s.prio)
    {
      GroupConcat(x, y, key);
      if key in a && key in b {
        MergedIsRow(a[key], b[key], c[key], Group(x, key), Group(y, key), s.k, s.prio);
      } else if key in a {
        assert Group(x, key) + [] == Group(x, key);
      } else if key in b {
        assert [] + Group(y, key) == Group(y, key);
      }
    }
  }

  lemma {:induction false} PageMergeCommutes(a: map<Key, Row>, b: map<Key, Row>, c: map<Key, Row>, k: nat)
    requires IsPageMerge(a, b, c, k)
    ensures IsPageMerge(b, a, c, k)
  {
    hide IsMerged;
    forall key | key in a && key in b
      ensures IsMerged(b[key], a[key], c[key], k)
    {
      MergedCommutes(a[key], b[key], c[key], k);
    }
  }

  /** For one `now`, the rows of two pages merged key by key are the rows of all their
      events, whichever page came first. */
  lemma {:induction false} PagesMerge(
      a: map<Key, Row>, b: map<Key, Row>, merged: map<Key, Row>, all: map<Key, Row>, swapped: map<Key, Row>,
      x: seq<Event>, y: seq<Event>, s: Setting)
    requires IsPage(a, AllPlaces(s, x), s) && IsPage(b, AllPlaces(s, y), s) && IsPageMerge(a, b, merged, s.k)
    requires IsPage(all, AllPlaces(s, x + y), s) && IsPage(swapped, AllPlaces(s, y + x), s)
    ensures merged == all == swapped
  {
    hide IsPage;
    hide IsPageMerge;
    hide AllPlaces;
    PlacesConcat(s, x, y);
    PlacesConcat(s, y, x);
    MergedIsPage(a, b, merged, AllPlaces(s, x), AllPlaces(s, y), s);
    PageUnique(merged, all, AllPlaces(s, x + y), s);
    PageMergeCommutes(a, b, merged, s.k);
    MergedIsPage(b, a, merged, AllPlaces(s, y), AllPlaces(s, x), s);
    PageUnique(merged, swapped, AllPlaces(s, y + x), s);
  }

  // ----- pages of different events -----

  /** Different positive event IDs. */
  ghost predicate DifferentEvents(events: seq<Event>) {
    && (forall i :: 0 <= i < |events| ==> Fits(events[i]) && 0 < events[i].id)
    && forall i, j :: 0 <= i < j < |events| ==> events[i].id != events[j].id
  }

  lemma {:induction false} KeptMember(s: Setting, keys: seq<Key>, point: SamplePoint, x: Placed)
    requires x in Kept(s, keys, point)
    ensures x.point == point
  {
    if x in Kept(s, keys[..|keys| - 1], point) {
      KeptMember(s, keys[..|keys| - 1], point, x);
    }
  }

  /** A placed point is that of a well-formed event. */
  ghost predicate Of(s: Setting, events: seq<Event>, point: SamplePoint, i: int) {
    && 0 <= i < |events| && IsSample(events[i])
    && point == SamplePoint(events[i].id, s.prio(events[i].id), events[i].ttftMS.value, events[i].latencyMS)
  }

  lemma {:induction false} PlaceMember(s: Setting, events: seq<Event>, x: Placed) returns (i: nat)
    requires x in AllPlaces(s, events)
    ensures Of(s, events, x.point, i)
  {
    hide KeysOf;
    hide Kept;
    var n := |events| - 1;
    if x in AllPlaces(s, events[..n]) {
      i := PlaceMember(s, events[..n], x);
    } else {
      i := n;
      var e := events[n];
      KeptMember(s, KeysOf(s, e), SamplePoint(e.id, s.prio(e.id), e.ttftMS.value, e.latencyMS), x);
    }
  }

  lemma {:induction false} GroupMember(placed: seq<Placed>, key: Key, p: SamplePoint)
    requires p in Group(placed, key)
    ensures Placed(key, p) in placed
  {
    var n := |placed| - 1;
    if p in Group(placed[..n], key) {
      GroupMember(placed[..n], key, p);
    }
  }

  lemma {:induction false} OnePlaceInRow(s: Setting, e: Event, key: Key)
    ensures |Group(PlacesOf(s, e), key)| <= 1
  {
    hide Cutoff;
    if IsSample(e) {
      var keys, point := KeysOf(s, e), SamplePoint(e.id, s.prio(e.id), e.ttftMS.value, e.latencyMS);
      KeptNone(s, keys, point);
      KeptStep(s, keys, 0, point);
      KeptStep(s, keys, 1, point);
      assert keys[..2] == keys;
      hide Kept;
      var hour, day := keys[0], keys[1];
      assert hour != day;
      var first := Kept(s, keys[..1], point);
      GroupConcat(first, if day.start < Cutoff(s, day.bucket) then [] else [Placed(day, point)], key);
    }
  }

  lemma {:induction false} GroupShort(s: Setting, events: seq<Event>, key: Key)
    ensures |Group(AllPlaces(s, events), key)| <= |events|
  {
    if events != [] {
      var n := |events| - 1;
      hide Group;
      GroupShort(s, events[..n], key);
      OnePlaceInRow(s, events[n], key);
      hide PlacesOf;
      GroupConcat(AllPlaces(s, events[..n]), PlacesOf(s, events[n]), key);
    }
  }

  /** Nothing a row could refuse. */
  ghost predicate Clean(s: Setting, placed: seq<Placed>) {
    && (forall x :: x in placed ==> WellFormed(x.point, s.prio))
    && (forall x, y :: x in placed && y in placed && x.point.eventID == y.point.eventID ==> x.point == y.point)
    && forall key :: |Group(placed, key)| <= MAX_UINT64
  }

  lemma {:induction false} CleanAccepted(s: Setting, placed: seq<Placed>)
    requires Clean(s, placed)
    ensures Accepts(s, placed)
  {
    hide WellFormed;
    if placed != [] {
      var before, last := placed[..|placed| - 1], placed[|placed| - 1];
      forall key
        ensures |Group(before, key)| <= |Group(placed, key)| && (key == last.key ==> |Group(before, key)| < |Group(placed, key)|)
      {
      }
      CleanAccepted(s, before);
      assert !Contradicts(Group(before, last.key), last.point, s.k) by {
        forall q | q in Group(before, last.key) && q.eventID == last.point.eventID
          ensures q == last.point
        {
          GroupMember(before, last.key, q);
        }
      }
    }
  }

  /** No page of different events is refused. */
  lemma {:induction false} DifferentAccepted(s: Setting, events: seq<Event>)
    requires DifferentEvents(events) && |events| <= MAX_UINT64
    ensures Accepts(s, AllPlaces(s, events))
  {
    hide AllPlaces;
    hide Group;
    hide Accepts;
    var placed := AllPlaces(s, events);
    forall x | x in placed
      ensures WellFormed(x.point, s.prio)
    {
      var i := PlaceMember(s, events, x);
    }
    forall x, y | x in placed && y in placed && x.point.eventID == y.point.eventID
      ensures x.point == y.point
    {
      var i := PlaceMember(s, events, x);
      var j := PlaceMember(s, events, y);
    }
    forall key
      ensures |Group(placed, key)| <= MAX_UINT64
    {
      GroupShort(s, events, key);
    }
    CleanAccepted(s, placed);
  }
}
