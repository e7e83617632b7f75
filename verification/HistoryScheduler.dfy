/** The runner's maps and pending list, and the batches it hands to the writer. */
module HistoryScheduler {
  import opened Wrappers
  import opened Lists
  import opened HistoryTrack
  import Choice
  import Text

  /** A window's state with the position of the entry that can still grow, or -1. */
  datatype Current = Current(known: Known, pendingIndex: int)

  type Windows = map<Key, Current>
  type Tails = map<Key, Deferred>

  function Of(k: Key): Observation -> bool {
    (o: Observation) => o.key == k
  }

  predicate PointsInto(current: Windows, pending: seq<Observation>, k: Key) {
    k in current && 0 <= current[k].pendingIndex < |pending|
  }

  /** The position of the window's growing entry: its own last one, and no tail besides. */
  ghost predicate PointsAtOwn(current: Windows, stable: Tails, pending: seq<Observation>, k: Key)
    requires PointsInto(current, pending, k)
  {
    && pending[current[k].pendingIndex].key == k && k !in stable
    && forall j :: current[k].pendingIndex < j < |pending| ==> pending[j].key != k
  }

  /** The maps and the list show track `t` for window `k`. */
  ghost predicate Shows(current: Windows, stable: Tails, pending: seq<Observation>, k: Key, t: Track) {
    && t.current == (if k in current then Some(current[k].known) else None)
    && t.stable == (if k in stable then Some(stable[k]) else None)
    && (k in stable ==> stable[k].observation.key == k)
    && t.mine == Select(pending, Of(k))
    && (t.live <==> PointsInto(current, pending, k))
    && (k in current ==> -1 <= current[k].pendingIndex < |pending|)
    && (PointsInto(current, pending, k) ==> PointsAtOwn(current, stable, pending, k))
  }

  // ----- how the maps and the list follow a track -----

  lemma {:induction false} SelectUpdate<T>(s: seq<T>, i: nat, x: T, p: T -> bool)
    requires i < |s| && p(s[i]) && p(x) && forall j :: i < j < |s| ==> !p(s[j])
    ensures Select(s, p) != [] && Select(s, p)[|Select(s, p)| - 1] == s[i]
    ensures Select(s[i := x], p) == Select(s, p)[|Select(s, p)| - 1 := x]
  {
    var low, high := s[..i], s[i + 1..];
    assert s == low + [s[i]] + high && s[i := x] == low + [x] + high;
    SelectNone(high, p);
    SelectConcat(low + [s[i]], high, p);
    SelectConcat(low + [x], high, p);
    SelectConcat(low, [s[i]], p);
    SelectConcat(low, [x], p);
    SelectOne(s[i], p);
    SelectOne(x, p);
  }

  lemma {:induction false} SelectOther<T>(s: seq<T>, i: nat, x: T, p: T -> bool)
    requires i < |s| && !p(s[i]) && !p(x)
    ensures Select(s[i := x], p) == Select(s, p)
  {
    var low, high := s[..i], s[i + 1..];
    assert s == low + [s[i]] + high && s[i := x] == low + [x] + high;
    SelectConcat(low + [s[i]], high, p);
    SelectConcat(low + [x], high, p);
    SelectConcat(low, [s[i]], p);
    SelectConcat(low, [x], p);
    SelectOne(s[i], p);
    SelectOne(x, p);
  }

  lemma {:induction false} SelectAdded(pending: seq<Observation>, o: Observation, k: Key)
    ensures Select(pending + [o], Of(k)) == if o.key == k then Select(pending, Of(k)) + [o] else Select(pending, Of(k))
  {
    SelectConcat(pending, [o], Of(k));
    SelectOne(o, Of(k));
  }

  lemma {:induction false} DeferredShown(current: Windows, stable: Tails, pending: seq<Observation>, key: Key, k: Key, t: Track)
    requires Shows(current, stable, pending, k, t) && key in stable && stable[key].observation.key == key
    ensures Shows(current, stable - {key}, pending + [stable[key].observation], k, if k == key then AppendDeferred(t) else t)
  {
    hide Select;
    SelectAdded(pending, stable[key].observation, k);
  }

  /** A new entry of the window, which the state then points at. */
  lemma {:induction false} PutShown(
      current: Windows, stable: Tails, pending: seq<Observation>, o: Observation, known: Known, k: Key, t: Track, cycle: nat)
    requires Shows(current, stable, pending, k, t) && o.key !in stable
    ensures Shows(current[o.key := Current(known, |pending|)], stable, pending + [o], k,
                  if k == o.key then Put(t, o, cycle).(current := Some(known), live := true, cycle := cycle) else t)
  {
    hide Select;
    SelectAdded(pending, o, k);
  }

  /** The entry pointed at grows. */
  lemma {:induction false} TouchShown(
      current: Windows, stable: Tails, pending: seq<Observation>, key: Key, e: Observation, known: Known, k: Key, t: Track)
    requires Shows(current, stable, pending, k, t) && PointsInto(current, pending, key) && PointsAtOwn(current, stable, pending, key) && e.key == key
    ensures k == key ==> t.mine != [] && t.mine[|t.mine| - 1] == pending[current[key].pendingIndex]
    ensures var i := current[key].pendingIndex;
            Shows(current[key := Current(known, i)], stable, pending[i := e], k, if k == key then Touch(t, e).(current := Some(known)) else t)
  {
    hide Select;
    var i := current[key].pendingIndex;
    if k == key {
      SelectUpdate(pending, i, e, Of(k));
    } else {
      SelectOther(pending, i, e, Of(k));
    }
  }

  /** The tail kept in memory grows. */
  lemma {:induction false} TailShown(
      current: Windows, stable: Tails, pending: seq<Observation>, key: Key, d: Deferred, known: Known, k: Key, t: Track)
    requires Shows(current, stable, pending, k, t) && d.observation.key == key && key in current && !PointsInto(current, pending, key)
    ensures Shows(current[key := current[key].(known := known)], stable[key := d], pending, k,
                  if k == key then t.(stable := Some(d), current := Some(known)) else t)
  {
    hide Select;
  }

  lemma {:induction false} LoadShown(current: Windows, stable: Tails, pending: seq<Observation>, key: Key, known: Known, k: Key, t: Track)
    requires Shows(current, stable, pending, k, t) && key !in current
    ensures Shows(current[key := Current(known, -1)], stable, pending, k, if k == key then t.(current := Some(known)) else t)
  {
    hide Select;
  }

  // ----- the runner -----

  type Tracks = Key -> Track

  ghost predicate ShowsAll(current: Windows, stable: Tails, pending: seq<Observation>, tracks: Tracks) {
    forall k :: Shows(current, stable, pending, k, tracks(k))
  }

  function With(tracks: Tracks, key: Key, t: Track): Tracks {
    k => if k == key then t else tracks(k)
  }

  class HistoryRunner {
    var current: Windows
    var stable: Tails
    const interval: nat

    constructor (interval: nat)
      ensures current == map[] && stable == map[] && this.interval == interval
    {
      current, stable := map[], map[];
      this.interval := interval;
    }

    /** Writes the stable tail out before a change of meaning. */
    method AppendDeferred(key: Key, pending: seq<Observation>, ghost tracks: Tracks) returns (pending': seq<Observation>)
      requires ShowsAll(current, stable, pending, tracks)
      modifies this`stable
      ensures ShowsAll(current, stable, pending', With(tracks, key, HistoryTrack.AppendDeferred(tracks(key))))
      ensures key !in stable
    {
      pending' := pending;
      assert Shows(current, stable, pending, key, tracks(key));
      if key in stable {
        forall k
          ensures Shows(current, stable - {key}, pending + [stable[key].observation], k,
                        With(tracks, key, HistoryTrack.AppendDeferred(tracks(key)))(k))
        {
          DeferredShown(current, stable, pending, key, k, tracks(k));
        }
        pending' := pending + [stable[key].observation];
        stable := stable - {key};
      }
    }

    /** Appends a new cycle, a drop or a correction and moves the state on. */
    method AppendChange(known: Known, o: Observation, pending: seq<Observation>, ghost cycle: nat, ghost tracks: Tracks)
      returns (pending': seq<Observation>)
      requires ShowsAll(current, stable, pending, tracks) && o.key !in stable
      modifies this`current
      ensures var t := tracks(o.key);
              ShowsAll(current, stable, pending', With(tracks, o.key, Put(t, o, cycle).(current := Some(known), live := true, cycle := cycle)))
    {
      forall k
        ensures Shows(current[o.key := Current(known, |pending|)], stable, pending + [o], k,
                      With(tracks, o.key, Put(tracks(o.key), o, cycle).(current := Some(known), live := true, cycle := cycle))(k))
      {
        PutShown(current, stable, pending, o, known, k, tracks(k), cycle);
      }
      pending' := pending + [o];
      current := current[o.key := Current(known, |pending|)];
    }

    /** Grows the entry the window points at. */
    method TouchEntry(key: Key, e: Observation, known: Known, pending: seq<Observation>, ghost tracks: Tracks) returns (pending': seq<Observation>)
      requires ShowsAll(current, stable, pending, tracks) && PointsInto(current, pending, key) && e.key == key
      modifies this`current
      ensures tracks(key).mine != []
      ensures ShowsAll(current, stable, pending', With(tracks, key, Touch(tracks(key), e).(current := Some(known))))
    {
      var i := current[key].pendingIndex;
      assert Shows(current, stable, pending, key, tracks(key));
      TouchShown(current, stable, pending, key, e, known, key, tracks(key));
      forall k
        ensures Shows(current[key := Current(known, i)], stable, pending[i := e], k,
                      With(tracks, key, Touch(tracks(key), e).(current := Some(known)))(k))
      {
        TouchShown(current, stable, pending, key, e, known, k, tracks(k));
      }
      pending' := pending[i := e];
      current := current[key := Current(known, i)];
    }

    /** Keeps the same percentage in memory for now. */
    method MergeDeferred(o: Observation, immediate: bool, known: Known, ghost pending: seq<Observation>, ghost tracks: Tracks)
      requires ShowsAll(current, stable, pending, tracks) && o.key in current && !PointsInto(current, pending, o.key)
      modifies this`current, this`stable
      ensures var t := tracks(o.key);
              ShowsAll(current, stable, pending, With(tracks, o.key, t.(stable := Some(MergedStable(t.stable, o, immediate)), current := Some(known))))
    {
      var key := o.key;
      assert Shows(current, stable, pending, key, tracks(key));
      var d := MergedStable(if key in stable then Some(stable[key]) else None, o, immediate);
      forall k
        ensures Shows(current[key := current[key].(known := known)], stable[key := d], pending, k,
                      With(tracks, key, tracks(key).(stable := Some(d), current := Some(known)))(k))
      {
        TailShown(current, stable, pending, key, d, known, k, tracks(k));
      }
      stable := stable[key := d];
      current := current[key := current[key].(known := known)];
    }

    /** Restores a window's state unless that has failed in this batch already. */
    method Restore(key: Key, failed: set<Key>, load: Load, now: int, ghost pending: seq<Observation>, ghost tracks: Tracks)
      returns (ok: bool, failed': set<Key>)
      requires ShowsAll(current, stable, pending, tracks)
      requires forall k :: k in failed ==> load(k).Err?
      modifies this`current
      ensures forall k :: k in failed' ==> load(k).Err?
      ensures ok == Judge(tracks(key), key, load, now).Some?
      ensures !ok ==> ShowsAll(current, stable, pending, tracks)
      ensures ok ==> ShowsAll(current, stable, pending, With(tracks, key, tracks(key).(current := Judge(tracks(key), key, load, now))))
                     && key in current && current[key].known == Judge(tracks(key), key, load, now).value
    {
      assert Shows(current, stable, pending, key, tracks(key));
      ok, failed' := true, failed;
      if key !in current {
        if key in failed {
          return false, failed;
        }
        var loaded := load(key);
        if loaded.Err? {
          return false, failed + {key};
        }
        var known := Restored(loaded.value, now);
        forall k
          ensures Shows(current[key := Current(known, -1)], stable, pending, k, With(tracks, key, tracks(key).(current := Some(known)))(k))
        {
          LoadShown(current, stable, pending, key, known, k, tracks(k));
        }
        current := current[key := Current(known, -1)];
      } else {
        assert forall k :: With(tracks, key, tracks(key).(current := Judge(tracks(key), key, load, now)))(k) == tracks(k);
      }
    }

    /** A new cycle, a drop or a correction: the tail so far, then the new entry. */
    method MergeChange(pending: seq<Observation>, o: Observation, c: Known, ghost tracks: Tracks) returns (pending': seq<Observation>)
      requires ShowsAll(current, stable, pending, tracks) && Decide(c, o).Change?
      modifies this
      ensures ShowsAll(current, stable, pending', With(tracks, o.key, Step(tracks(o.key), c, o)))
    {
      hide ShowsAll;
      hide Decide;
      var known := Decide(c, o).c;
      ghost var d := HistoryTrack.AppendDeferred(tracks(o.key));
      ghost var cycle := if NewCycle(known, o) then d.cycle + 1 else d.cycle;
      pending' := AppendDeferred(o.key, pending, tracks);
      pending' := AppendChange(AfterChange(known, o), o, pending', cycle, With(tracks, o.key, d));
      SameShown(current, stable, pending',
                With(With(tracks, o.key, d), o.key, Put(d, o, cycle).(current := Some(AfterChange(known, o)), live := true, cycle := cycle)),
                With(tracks, o.key, Step(tracks(o.key), c, o)));
    }

    /** A reset calibrated at the same moment: in the entry if it can still grow,
        otherwise in an entry of its own. */
    method MergeCalibration(pending: seq<Observation>, o: Observation, c: Known, ghost tracks: Tracks) returns (pending': seq<Observation>)
      requires ShowsAll(current, stable, pending, tracks) && Decide(c, o).Calibrate?
      modifies this
      ensures ShowsAll(current, stable, pending', With(tracks, o.key, Step(tracks(o.key), c, o)))
    {
      hide ShowsAll;
      hide Decide;
      var key, known := o.key, Decide(c, o).c;
      ghost var d := HistoryTrack.AppendDeferred(tracks(key));
      ghost var deferred, shown := With(tracks, key, d), tracks;
      pending' := AppendDeferred(key, pending, tracks);
      LiveShown(current, stable, pending', key, deferred);
      if PointsInto(current, pending', key) {
        var e := Calibrated(pending'[current[key].pendingIndex], o);
        shown := With(deferred, key, Touch(d, e).(current := Some(known)));
        pending' := TouchEntry(key, e, known, pending', deferred);
      } else {
        var e := o.(percent := c.percent);
        shown := With(deferred, key, Put(d, e, d.cycle).(current := Some(known), live := true, cycle := d.cycle));
        pending' := AppendChange(known, e, pending', d.cycle, deferred);
      }
      SameShown(current, stable, pending', shown, With(tracks, key, Step(tracks(key), c, o)));
    }

    /** The same percentage once more: in the entry if it can still grow, otherwise in
        the tail kept in memory. */
    method MergeExtension(pending: seq<Observation>, o: Observation, c: Known, ghost tracks: Tracks)
      returns (pending': seq<Observation>, materialized: bool)
      requires ShowsAll(current, stable, pending, tracks) && Decide(c, o).Extend? && o.key in current && 1 <= o.count
      modifies this
      ensures ShowsAll(current, stable, pending', With(tracks, o.key, Step(tracks(o.key), c, o)))
      ensures materialized <==> Step(tracks(o.key), c, o).mine != tracks(o.key).mine
    {
      hide ShowsAll;
      hide Decide;
      var key, updated, known := o.key, Decide(c, o).updated, Decide(c, o).c.(last := o.last);
      ghost var t, shown := tracks(key), tracks;
      LiveShown(current, stable, pending, key, tracks);
      if PointsInto(current, pending, key) {
        var e := Extended(pending[current[key].pendingIndex], o, updated);
        shown := With(tracks, key, Touch(t, e).(current := Some(known)));
        pending' := TouchEntry(key, e, known, pending, tracks);
        materialized := true;
      } else {
        shown := With(tracks, key, t.(stable := Some(MergedStable(t.stable, o, updated || o.authoritative)), current := Some(known)));
        MergeDeferred(o, updated || o.authoritative, known, pending, tracks);
        pending', materialized := pending, false;
      }
      SameShown(current, stable, pending', shown, With(tracks, key, Step(t, c, o)));
      StepReaches(t, c, o);
    }

    /** Merges one observation. Its window's track takes one step, every other window's
        state and entries stay as they are. */
    method MergeObservation(pending: seq<Observation>, failed: set<Key>, o: Observation, load: Load, now: int, ghost tracks: Tracks)
      returns (pending': seq<Observation>, failed': set<Key>, materialized: bool)
      requires ShowsAll(current, stable, pending, tracks)
      requires forall k :: k in failed ==> load(k).Err?
      modifies this
      ensures forall k :: k in failed' ==> load(k).Err?
      ensures ShowsAll(current, stable, pending', With(tracks, o.key, Receive(tracks(o.key), o, load, now)))
      ensures materialized <==> Writes(tracks(o.key), o, load, now)
    {
      hide ShowsAll;
      hide Decide;
      pending', failed', materialized := pending, failed, false;
      var key := o.key;
      ghost var t, shown := tracks(key), tracks;
      if WellFormed(o) {
        var ok;
        ok, failed' := Restore(key, failed, load, now, pending, tracks);
        if ok {
          var c := current[key].known;
          ghost var restored := With(tracks, key, t.(current := Some(c)));
          StepIgnoresCurrent(t, c, o);
          StepReaches(t, c, o);
          match Decide(c, o) {
            case Drop =>
            case Change(_) =>
              pending' := MergeChange(pending, o, c, restored);
              materialized := true;
            case Calibrate(_) =>
              pending' := MergeCalibration(pending, o, c, restored);
              materialized := true;
            case Extend(_, _) =>
              pending', materialized := MergeExtension(pending, o, c, restored);
          }
          shown := With(restored, key, Step(t.(current := Some(c)), c, o));
          if Decide(c, o).Drop? {
            SameShown(current, stable, pending', restored, shown);
          }
        }
      }
      SameShown(current, stable, pending', shown, With(tracks, key, Receive(t, o, load, now)));
    }
  }

  /** A change or a calibration always reaches the entries, an extension if the last one
      can still grow. */
  lemma StepReaches(t: Track, c: Known, o: Observation)
    requires 1 <= o.count
    ensures Step(t, c, o).mine != t.mine <==>
              var d := Decide(c, o);
              d.Change? || d.Calibrate? || (d.Extend? && Live(t))
  {
    hide Decide;
    var d := HistoryTrack.AppendDeferred(t);
    assert |t.mine| <= |d.mine|;
    if Decide(c, o).Calibrate? && Live(d) && |d.mine| == |t.mine| {
      var i := |t.mine| - 1;
      assert Step(t, c, o).mine[i].count != t.mine[i].count;
    } else if Decide(c, o).Extend? && Live(t) {
      var i := |t.mine| - 1;
      assert Step(t, c, o).mine[i].count != t.mine[i].count;
    }
  }

  /** A step does not depend on how the state it is judged by got there. */
  lemma StepIgnoresCurrent(t: Track, c: Known, o: Observation)
    ensures Step(t, c, o) == Step(t.(current := Some(c)), c, o)
  {
    hide Decide;
    hide MergedStable;
    hide Extended;
    hide Calibrated;
    hide AfterChange;
    hide NewCycle;
    assert HistoryTrack.AppendDeferred(t.(current := Some(c))) == HistoryTrack.AppendDeferred(t).(current := Some(c));
  }

  lemma SameShown(current: Windows, stable: Tails, pending: seq<Observation>, a: Tracks, b: Tracks)
    requires ShowsAll(current, stable, pending, a) && forall k :: a(k) == b(k)
    ensures ShowsAll(current, stable, pending, b)
  {
  }

  /** Whether a window's last entry can grow is the same question for state and track. */
  lemma {:induction false} LiveShown(current: Windows, stable: Tails, pending: seq<Observation>, key: Key, tracks: Tracks)
    requires ShowsAll(current, stable, pending, tracks)
    ensures Live(tracks(key)) <==> PointsInto(current, pending, key)
    ensures Live(tracks(key)) ==> tracks(key).mine[|tracks(key).mine| - 1] == pending[current[key].pendingIndex] && pending[current[key].pendingIndex].key == key
  {
    assert Shows(current, stable, pending, key, tracks(key));
    if PointsInto(current, pending, key) {
      var i := current[key].pendingIndex;
      SelectUpdate(pending, i, pending[i], Of(key));
    }
  }
}
