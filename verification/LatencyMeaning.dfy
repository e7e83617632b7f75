/** Which events a latency row is made of. */
module LatencyMeaning {
  import opened Wrappers
  import opened Lists
  import opened Varint
  import opened SamplePoints
  import opened LatencyRows
  import opened LatencyPages
  import opened ActivityGrain
  import LogBuckets
  import opened LatencySketch
  import MapSums
  import Text

  /** A successful generation with both times measured, of the row's group and of its hour
      or day, which began no earlier than the hour of three days ago or the first of the
      last 365 days. */
  predicate Belongs(s: Setting, key: Key, e: Event) {
    && !e.failed && e.generate == Some(true) && e.ttftMS.Some? && 0 < e.ttftMS.value && 0 < e.latencyMS
    && key.group == (if Text.Trim(e.group) == "" then "unknown" else Text.Trim(e.group))
    && match key.bucket
       case HourRows => key.start == s.hourStart(e.at) && s.hourStart(s.now - 72 * 3600 * 1_000_000_000) <= key.start
       case DayRows =>
         && key.start == s.calendar.midnight(s.calendar.dayOf(e.at)) * 1_000_000_000
         && s.calendar.midnight(s.calendar.dayOf(s.now) - 364) * 1_000_000_000 <= key.start
  }

  /** The points of the events that belong to the row, in their order. */
  function RowPoints(s: Setting, key: Key, events: seq<Event>): seq<SamplePoint> {
    if events == [] then []
    else
      var e := events[|events| - 1];
      RowPoints(s, key, events[..|events| - 1])
      + if Belongs(s, key, e) then [SamplePoint(e.id, s.prio(e.id), e.ttftMS.value, e.latencyMS)] else []
  }

  /** One key, if it is still retained. */
  function Retained(s: Setting, place: Key, point: SamplePoint): seq<Placed> {
    if place.start < Cutoff(s, place.bucket) then [] else [Placed(place, point)]
  }

  lemma {:induction false} HourAndDay(s: Setting, e: Event, point: SamplePoint)
    ensures var keys := KeysOf(s, e); Kept(s, keys, point) == Retained(s, keys[0], point) + Retained(s, keys[1], point)
  {
    var keys := KeysOf(s, e);
    KeptNone(s, keys, point);
    KeptStep(s, keys, 0, point);
    KeptStep(s, keys, 1, point);
    assert keys[..2] == keys;
    hide Cutoff;
  }

  lemma {:induction false} RetainedGroup(s: Setting, place: Key, point: SamplePoint, key: Key)
    ensures Group(Retained(s, place, point), key) == if place == key && Cutoff(s, place.bucket) <= place.start then [point] else []
  {
    hide Cutoff;
    assert [Placed(place, point)][..0] == [];
  }

  lemma {:induction false} EventPoints(s: Setting, key: Key, e: Event)
    ensures Group(PlacesOf(s, e), key) ==
              if Belongs(s, key, e) then [SamplePoint(e.id, s.prio(e.id), e.ttftMS.value, e.latencyMS)] else []
  {
    hide Kept;
    hide Group;
    hide Retained;
    if IsSample(e) {
      var keys, point := KeysOf(s, e), SamplePoint(e.id, s.prio(e.id), e.ttftMS.value, e.latencyMS);
      HourAndDay(s, e, point);
      GroupConcat(Retained(s, keys[0], point), Retained(s, keys[1], point), key);
      RetainedGroup(s, keys[0], point, key);
      RetainedGroup(s, keys[1], point, key);
    } else {
      NothingPlaced(key);
    }
  }

  lemma NothingPlaced(key: Key)
    ensures Group([], key) == []
  {
  }

  /** A row is made of exactly the points of the events that belong to it. */
  lemma {:induction false} RowHoldsItsEvents(s: Setting, key: Key, events: seq<Event>)
    ensures Group(AllPlaces(s, events), key) == RowPoints(s, key, events)
  {
    if events != [] {
      var n := |events| - 1;
      RowHoldsItsEvents(s, key, events[..n]);
      EventPoints(s, key, events[n]);
      hide PlacesOf;
      hide Belongs;
      GroupConcat(AllPlaces(s, events[..n]), PlacesOf(s, events[n]), key);
      hide Group;
    }
  }

  /** The maximum of a column is one of its values, and none is larger; without values it is 0. */
  lemma {:induction false} MaxIsMaximum(values: seq<int>)
    requires forall i :: 0 <= i < |values| ==> 0 < values[i]
    ensures forall i :: 0 <= i < |values| ==> values[i] <= MaxOf(values)
    ensures if values == [] then MaxOf(values) == 0 else MaxOf(values) in values
  {
    if values != [] {
      var n := |values| - 1;
      MaxIsMaximum(values[..n]);
      assert forall i :: 0 <= i < n ==> values[..n][i] == values[i];
    }
  }

  /** A maximum of one time over the points, or 0 without points. */
  ghost predicate IsHighest(max: int, group: seq<SamplePoint>, time: SamplePoint -> int) {
    && (forall i :: 0 <= i < |group| ==> time(group[i]) <= max)
    && (if group == [] then max == 0 else exists i :: 0 <= i < |group| && time(group[i]) == max)
  }

  function InBin(time: SamplePoint -> int, key: int): SamplePoint -> bool {
    (p: SamplePoint) => 1 <= time(p) && LogBuckets.Key(time(p)) == key
  }

  /** How many points have their time in the bucket. */
  ghost predicate CountsBins(bins: Bins, group: seq<SamplePoint>, time: SamplePoint -> int) {
    forall key :: MapSums.Get(bins, key) == |Select(group, InBin(time, key))|
  }

  lemma {:induction false} ColumnMeans(group: seq<SamplePoint>, time: SamplePoint -> int, values: seq<int>)
    requires |values| == |group| && forall i :: 0 <= i < |group| ==> 1 <= values[i] && values[i] == time(group[i])
    ensures IsHighest(MaxOf(values), group, time) && CountsBins(BinsOf(values), group, time)
  {
    MaxIsMaximum(values);
    hide MaxOf;
    hide LogBuckets.Key;
    if group != [] {
      var n := |group| - 1;
      assert forall i :: 0 <= i < n ==> values[..n][i] == values[i] && group[..n][i] == group[i];
      ColumnMeans(group[..n], time, values[..n]);
      BinsCountNext(group, time, values);
    }
  }

  lemma {:induction false} BinsCountNext(group: seq<SamplePoint>, time: SamplePoint -> int, values: seq<int>)
    requires group != [] && |values| == |group| && (forall i :: 0 <= i < |group| ==> 1 <= values[i] && values[i] == time(group[i]))
    requires var n := |group| - 1; CountsBins(BinsOf(values[..n]), group[..n], time)
    ensures CountsBins(BinsOf(values), group, time)
  {
    hide LogBuckets.Key;
    var n := |group| - 1;
    forall key
      ensures MapSums.Get(BinsOf(values), key) == |Select(group, InBin(time, key))|
    {
      assert MapSums.Get(BinsOf(values[..n]), key) == |Select(group[..n], InBin(time, key))|;
    }
  }

  /** The first column of a row is of the times to the first token, the second of the
      whole times: each its maximum, and how many times lie in which bucket. */
  lemma {:induction false} RowMeans(r: Row, group: seq<SamplePoint>, k: nat, prio: int -> UInt64)
    requires IsRow(r, group, k, prio)
    ensures r.count == |group|
    ensures IsHighest(r.maxTTFT, group, (p: SamplePoint) => p.ttftMS) && CountsBins(r.ttft, group, (p: SamplePoint) => p.ttftMS)
    ensures IsHighest(r.maxLatency, group, (p: SamplePoint) => p.latencyMS) && CountsBins(r.latency, group, (p: SamplePoint) => p.latencyMS)
  {
    hide BinsOf;
    hide MaxOf;
    hide IsHighest;
    hide CountsBins;
    hide Best;
    ColumnMeans(group, (p: SamplePoint) => p.ttftMS, Ttfts(group));
    ColumnMeans(group, (p: SamplePoint) => p.latencyMS, Latencies(group));
  }
}
