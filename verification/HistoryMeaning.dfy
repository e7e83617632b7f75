/** What an observation does to its window, said in percentages, times and resets. */
module HistoryMeaning {
  import opened Wrappers
  import opened Lists
  import opened HistoryTrack

  // ----- one observation -----

  /** The same window length, and resets at most two minutes apart. */
  predicate SameReset(c: Known, o: Observation) {
    c.window == o.window && -120_000_000_000 <= c.resetAt - o.resetAt <= 120_000_000_000
  }

  /** A reset to be taken over from a repeated percentage: absolute for relative, or any
      other one on authority. */
  predicate NewReset(c: Known, o: Observation) {
    || (c.source == "relative" && o.source == "absolute")
    || (o.authoritative && (c.source != o.source || c.resetAt != o.resetAt))
  }

  predicate TrustedRise(c: Known, o: Observation) {
    o.percent > c.percent && o.authoritative
  }

  /** The cycle has a tail already, and the observation is of its last moment. */
  predicate SameMoment(c: Known, o: Observation) {
    c.found && SameReset(c, o) && c.hasTail && o.last == c.last && !TrustedRise(c, o)
  }

  /** The percentage of the tail, seen once more. */
  predicate Repeats(c: Known, o: Observation) {
    c.found && SameReset(c, o) && c.hasTail && c.last < o.last && o.percent == c.percent
  }

  /** Older than the tail; of a cycle that would reset earlier; an untrusted rise; or of
      the last moment, with no new reset. */
  predicate Ignored(c: Known, o: Observation) {
    c.found &&
    (|| (c.hasTail && o.last < c.last)
     || (c.window == o.window && !SameReset(c, o) && o.resetAt < c.resetAt)
     || (SameReset(c, o) && c.hasTail && c.last < o.last && o.percent > c.percent && !o.authoritative)
     || (SameMoment(c, o) && !NewReset(c, o)))
  }

  /** What is known afterwards: time and percentage, and which reset is kept. */
  function KnownAfter(c: Known, o: Observation): Known {
    if Ignored(c, o) then c
    else if c.found && SameReset(c, o) then
      var keeps := (SameMoment(c, o) || Repeats(c, o)) && !NewReset(c, o);
      Known(true, o.window, if keeps then c.source else o.source, if keeps then c.resetAt else o.resetAt, true,
            if SameMoment(c, o) then c.percent else o.percent, o.last, c.materializedAt)
    else Known(true, o.window, o.source, o.resetAt, true, o.percent, o.last, 0)
  }

  function Waiting(t: Track): seq<Observation> {
    if t.stable.Some? then [t.stable.value.observation] else []
  }

  predicate CanGrow(t: Track) {
    t.live && t.mine != []
  }

  /** The last entry takes one more observation in. */
  function Grown(e: Observation, o: Observation, reset: bool): Observation {
    Observation(e.key, e.window, if reset then o.source else e.source, if reset then o.resetAt else e.resetAt, e.percent,
                e.first, o.last, e.count + o.count, e.authoritative || o.authoritative)
  }

  /** The entries afterwards: as before; the last one grown; or a new one, behind the tail
      that waited. */
  function EntriesAfter(t: Track, c: Known, o: Observation): seq<Observation> {
    if Ignored(c, o) then t.mine
    else if Repeats(c, o) then
      if CanGrow(t) then t.mine[..|t.mine| - 1] + [Grown(t.mine[|t.mine| - 1], o, NewReset(c, o))] else t.mine
    else if SameMoment(c, o) then
      var all := t.mine + Waiting(t);
      if t.live && all != [] then
        var e := all[|all| - 1];
        all[..|all| - 1] + [Grown(e, o, true).(last := e.last)]
      else all + [o.(percent := c.percent)]
    else t.mine + Waiting(t) + [o]
  }

  /** The tail that waits afterwards: only a repeated percentage leaves one that no entry takes in. */
  function TailAfter(t: Track, c: Known, o: Observation): Option<Deferred> {
    if Ignored(c, o) || (Repeats(c, o) && CanGrow(t)) then t.stable
    else if Repeats(c, o) then
      var immediate := NewReset(c, o) || o.authoritative;
      match t.stable
      case None => Some(Deferred(o, immediate))
      case Some(d) =>
        var e := d.observation;
        Some(Deferred(Grown(e, o, o.authoritative || (e.source == "relative" && o.source == "absolute")), d.immediate || immediate))
    else None
  }

  /** Whether the observation opens a cycle. */
  predicate OpensCycle(c: Known, o: Observation) {
    !Ignored(c, o) && !(c.found && SameReset(c, o))
  }

  ghost predicate ReceivedAs(t: Track, c: Known, o: Observation, r: Track) {
    && r.current == Some(KnownAfter(c, o)) && r.mine == EntriesAfter(t, c, o) && r.stable == TailAfter(t, c, o)
    && r.cycle == (if OpensCycle(c, o) then t.cycle + 1 else t.cycle)
    && (r.live <==> t.live || (!Ignored(c, o) && !Repeats(c, o)))
  }

  /** The state an observation is judged by: the one in memory, or else the stored one,
      stamped if it has a tail. */
  function Before(t: Track, k: Key, load: Load, now: int): Option<Known> {
    if t.current.Some? then t.current
    else if load(k).Err? then None
    else if load(k).value.found && load(k).value.hasTail then Some(load(k).value.(materializedAt := now))
    else Some(load(k).value)
  }

  lemma {:induction false} StepMeans(t: Track, c: Known, o: Observation)
    ensures ReceivedAs(t, c, o, Step(t, c, o))
  {
    DecidedAs(c, o);
    if Decide(c, o).Drop? {
      assert Ignored(c, o);
    } else if Decide(c, o).Extend? {
      ExtendMeans(t, c, o);
    } else if Decide(c, o).Calibrate? {
      CalibrateMeans(t, c, o);
    } else {
      ChangeMeans(t, c, o);
    }
  }

  lemma {:induction false} DecidedAs(c: Known, o: Observation)
    ensures Decide(c, o).Drop? <==> Ignored(c, o)
    ensures Decide(c, o).Extend? <==> Repeats(c, o)
    ensures Decide(c, o).Calibrate? <==> SameMoment(c, o) && !Ignored(c, o)
  {
  }

  lemma {:induction false} ExtendMeans(t: Track, c: Known, o: Observation)
    requires Decide(c, o).Extend?
    ensures ReceivedAs(t, c, o, Step(t, c, o))
  {
    DecidedAs(c, o);
    assert Decide(c, o).updated == NewReset(c, o);
  }

  lemma {:induction false} DeferredWaits(t: Track)
    ensures var d := AppendDeferred(t); d.mine == t.mine + Waiting(t) && d.stable == None && d.live == t.live && d.current == t.current && d.cycle == t.cycle
  {
  }

  lemma {:induction false} CalibrateMeans(t: Track, c: Known, o: Observation)
    requires Decide(c, o).Calibrate?
    ensures ReceivedAs(t, c, o, Step(t, c, o))
  {
    DecidedAs(c, o);
    DeferredWaits(t);
    hide AppendDeferred;
  }

  lemma {:induction false} ChangeMeans(t: Track, c: Known, o: Observation)
    requires Decide(c, o).Change?
    ensures ReceivedAs(t, c, o, Step(t, c, o))
  {
    DecidedAs(c, o);
    DeferredWaits(t);
    hide AppendDeferred;
  }

  /** One observation, whatever it is: state, entries, tail and cycle afterwards. */
  lemma {:induction false} ReceiveMeans(t: Track, o: Observation, load: Load, now: int)
    ensures !WellFormed(o) ==> Receive(t, o, load, now) == t
    ensures Before(t, o.key, load, now).None? ==> Receive(t, o, load, now) == t
    ensures WellFormed(o) && Before(t, o.key, load, now).Some? ==>
              ReceivedAs(t, Before(t, o.key, load, now).value, o, Receive(t, o, load, now))
  {
    hide Step;
    hide ReceivedAs;
    if WellFormed(o) && Before(t, o.key, load, now).Some? {
      StepMeans(t, Before(t, o.key, load, now).value, o);
    }
  }

  /** What makes an observation well formed. */
  lemma WellFormedMeans(o: Observation)
    ensures WellFormed(o) <==>
              && |o.key.authIndex| > 0 && |o.key.quotaKey| > 0 && 0 < o.window <= 9_223_372_036 && o.resetAt != 0
              && 0 <= o.percent <= 100 && o.count > 0 && o.first != 0 && o.last != 0 && o.first <= o.last
  {
  }

  /** A well-formed observation leaves known state, entries and tail all unchanged exactly
      when it is ignored. */
  lemma {:induction false} UnchangedExactly(t: Track, c: Known, o: Observation, load: Load, now: int)
    requires WellFormed(o) && t.current == Some(c)
    ensures var r := Receive(t, o, load, now);
            r.current == t.current && r.mine == t.mine && r.stable == t.stable <==> Ignored(c, o)
  {
    ReceiveMeans(t, o, load, now);
    var r := Receive(t, o, load, now);
    hide Receive;
    if !Ignored(c, o) && !Repeats(c, o) {
      if SameMoment(c, o) {
        CalibrationShows(t, c, o);
      } else {
        assert |r.mine| > |t.mine|;
      }
    }
  }

  lemma {:induction false} CalibrationShows(t: Track, c: Known, o: Observation)
    requires SameMoment(c, o) && !Ignored(c, o) && 1 <= o.count
    ensures EntriesAfter(t, c, o) != t.mine
  {
    var all := t.mine + Waiting(t);
    if t.live && all != [] && |all| == |t.mine| {
      assert EntriesAfter(t, c, o)[|all| - 1].count != t.mine[|all| - 1].count;
    }
  }

  // ----- a run of ordinary observations in one cycle -----

  /** Untrusted single moments at rising times behind the tail, all of its cycle. */
  ghost predicate Ordinary(c: Known, observations: seq<Observation>) {
    && (forall i :: 0 <= i < |observations| ==>
          && WellFormed(observations[i]) && !observations[i].authoritative && observations[i].first == observations[i].last
          && observations[i].window == c.window && c.last < observations[i].last && Near(observations[i].resetAt, c.resetAt))
    && forall i, j :: 0 <= i < j < |observations| ==> observations[i].last < observations[j].last && Near(observations[i].resetAt, observations[j].resetAt)
  }

  predicate Near(a: int, b: int) {
    -120_000_000_000 <= a - b <= 120_000_000_000
  }

  /** The lowest of the percentages, the start included. */
  function Lowest(start: int, observations: seq<Observation>): int {
    if observations == [] then start
    else
      var before, last := Lowest(start, observations[..|observations| - 1]), observations[|observations| - 1].percent;
      if last < before then last else before
  }

  lemma {:induction false} LowestIsMinimum(start: int, observations: seq<Observation>)
    ensures Lowest(start, observations) <= start && forall i :: 0 <= i < |observations| ==> Lowest(start, observations) <= observations[i].percent
    ensures Lowest(start, observations) == start || exists i :: 0 <= i < |observations| && observations[i].percent == Lowest(start, observations)
  {
    if observations != [] {
      var n := |observations| - 1;
      LowestIsMinimum(start, observations[..n]);
      assert forall i :: 0 <= i < n ==> observations[..n][i] == observations[i];
    }
  }

  /** The observations below the start and all before them. */
  function Falls(start: int, observations: seq<Observation>): seq<Observation> {
    if observations == [] then []
    else
      var before, last := observations[..|observations| - 1], observations[|observations| - 1];
      Falls(start, before) + if last.percent < Lowest(start, before) then [last] else []
  }

  /** Before any fall the start was seen again. */
  ghost predicate SeenAgain(start: int, observations: seq<Observation>) {
    exists i :: 0 <= i < |observations| && observations[i].percent == start && Falls(start, observations[..i]) == []
  }

  /** The new entries: the tail that waited, if any, and one for each fall. */
  ghost predicate ShowsFalls(mine: seq<Observation>, start: int, waited: bool, falls: seq<Observation>) {
    var at := if waited then 1 else 0;
    && |mine| == at + |falls| && (waited ==> mine[0].percent == start)
    && forall i :: 0 <= i < |falls| ==> mine[at + i].percent == falls[i].percent && mine[at + i].first == falls[i].first
  }

  ghost predicate RunsAs(t: Track, c: Known, observations: seq<Observation>, r: Track) {
    var falls, waited := Falls(c.percent, observations), t.stable.Some? || SeenAgain(c.percent, observations);
    && r.current.Some? && r.current.value.found && r.current.value.hasTail && r.current.value.window == c.window
    && r.current.value.percent == Lowest(c.percent, observations) && r.cycle == t.cycle
    && (if falls == [] then r.mine == [] && !r.live && (r.stable.Some? <==> waited) && (r.stable.Some? ==> r.stable.value.observation.percent == c.percent)
        else r.live && r.stable.None? && ShowsFalls(r.mine, c.percent, waited, falls))
  }

  /** The reset known is one of those seen, and the time no later than the last. */
  ghost predicate Within(c: Known, observations: seq<Observation>, k: Known) {
    && (k.resetAt == c.resetAt || exists i :: 0 <= i < |observations| && k.resetAt == observations[i].resetAt)
    && (if observations == [] then k.last == c.last else k.last <= observations[|observations| - 1].last)
  }

  lemma {:induction false} OrdinaryPrefix(c: Known, observations: seq<Observation>, n: nat)
    requires Ordinary(c, observations) && n <= |observations|
    ensures Ordinary(c, observations[..n])
  {
  }

  lemma {:induction false} SameResetWithin(c: Known, observations: seq<Observation>, k: Known)
    requires Ordinary(c, observations) && observations != []
    requires k.window == c.window && Within(c, observations[..|observations| - 1], k)
    ensures SameReset(k, observations[|observations| - 1]) && k.last < observations[|observations| - 1].last
  {
    var n := |observations| - 1;
    if k.resetAt != c.resetAt {
      var i :| 0 <= i < n && k.resetAt == observations[..n][i].resetAt;
      assert Near(observations[i].resetAt, observations[n].resetAt);
    }
  }

  lemma {:induction false} SeenAgainStep(start: int, observations: seq<Observation>)
    requires observations != []
    ensures var before, last := observations[..|observations| - 1], observations[|observations| - 1];
            SeenAgain(start, observations) <==> SeenAgain(start, before) || (last.percent == start && Falls(start, before) == [])
  {
    var n := |observations| - 1;
    var before := observations[..n];
    assert forall i :: 0 <= i < n ==> before[i] == observations[i] && before[..i] == observations[..i];
    hide Falls;
    if SeenAgain(start, before) {
      var i :| 0 <= i < |before| && before[i].percent == start && Falls(start, before[..i]) == [];
      assert observations[i].percent == start && Falls(start, observations[..i]) == [];
    }
    if SeenAgain(start, observations) {
      var i :| 0 <= i < |observations| && observations[i].percent == start && Falls(start, observations[..i]) == [];
      assert i < n ==> before[i].percent == start && Falls(start, before[..i]) == [];
    }
  }

  /** After the run the percentage known is the lowest of the start and all seen, and the
      new entries are the falls, behind the tail that waited. */
  lemma {:induction false} RunMeans(t: Track, c: Known, observations: seq<Observation>, load: Load, now: int)
    requires t.current == Some(c) && c.found && c.hasTail && t.mine == [] && !t.live && Ordinary(c, observations)
    requires t.stable.Some? ==> t.stable.value.observation.percent == c.percent
    ensures RunsAs(t, c, observations, RunTrack(t, observations, load, now))
    ensures Within(c, observations, RunTrack(t, observations, load, now).current.value)
  {
    if observations != [] {
      var n := |observations| - 1;
      var before, o := observations[..n], observations[n];
      OrdinaryPrefix(c, observations, n);
      RunMeans(t, c, before, load, now);
      var was := RunTrack(t, before, load, now);
      var k := was.current.value;
      SameResetWithin(c, observations, k);
      ReceiveMeans(was, o, load, now);
      SeenAgainStep(c.percent, observations);
      RunStep(t, c, observations, was, Receive(was, o, load, now));
    }
  }

  lemma {:induction false} NoFalls(start: int, observations: seq<Observation>)
    ensures Falls(start, observations) == [] <==> Lowest(start, observations) == start
    ensures Lowest(start, observations) <= start
  {
    if observations != [] {
      NoFalls(start, observations[..|observations| - 1]);
    }
  }

  /** One more observation behind those before. */
  ghost predicate NextOf(c: Known, t: Track, observations: seq<Observation>, was: Track, r: Track) {
    && observations != []
    && var before, o := observations[..|observations| - 1], observations[|observations| - 1];
       && RunsAs(t, c, before, was) && Within(c, before, was.current.value) && !o.authoritative && o.window == c.window && o.first == o.last
       && SameReset(was.current.value, o) && was.current.value.last < o.last && ReceivedAs(was, was.current.value, o, r)
       && (SeenAgain(c.percent, observations) <==> SeenAgain(c.percent, before) || (o.percent == c.percent && Falls(c.percent, before) == []))
       && (Falls(c.percent, before) == [] <==> Lowest(c.percent, before) == c.percent) && Lowest(c.percent, before) <= c.percent
  }

  lemma {:induction false} WithinStep(c: Known, t: Track, observations: seq<Observation>, was: Track, r: Track)
    requires NextOf(c, t, observations, was, r)
    ensures r.current.Some? && Within(c, observations, r.current.value)
  {
    hide ShowsFalls;
    hide SeenAgain;
    hide Falls;
    hide EntriesAfter;
    hide TailAfter;
    var n := |observations| - 1;
    var k := was.current.value;
    if k.resetAt != c.resetAt {
      var i :| 0 <= i < n && k.resetAt == observations[..n][i].resetAt;
      assert k.resetAt == observations[i].resetAt;
    }
  }

  lemma {:induction false} RiseStep(c: Known, t: Track, observations: seq<Observation>, was: Track, r: Track)
    requires NextOf(c, t, observations, was, r) && observations[|observations| - 1].percent > was.current.value.percent
    ensures RunsAs(t, c, observations, r)
  {
    hide SeenAgain;
    hide Within;
    assert Ignored(was.current.value, observations[|observations| - 1]);
    hide ShowsFalls;
  }

  lemma {:induction false} RepeatStep(c: Known, t: Track, observations: seq<Observation>, was: Track, r: Track)
    requires NextOf(c, t, observations, was, r) && observations[|observations| - 1].percent == was.current.value.percent
    ensures RunsAs(t, c, observations, r)
  {
    hide SeenAgain;
    hide Within;
    assert Repeats(was.current.value, observations[|observations| - 1]) && !Ignored(was.current.value, observations[|observations| - 1]);
  }

  lemma {:induction false} FallStep(c: Known, t: Track, observations: seq<Observation>, was: Track, r: Track)
    requires NextOf(c, t, observations, was, r) && observations[|observations| - 1].percent < was.current.value.percent
    ensures RunsAs(t, c, observations, r)
  {
    hide SeenAgain;
    hide Within;
    var k, o := was.current.value, observations[|observations| - 1];
    assert !Repeats(k, o) && !Ignored(k, o) && !SameMoment(k, o);
  }

  lemma {:induction false} RunStep(t: Track, c: Known, observations: seq<Observation>, was: Track, r: Track)
    requires observations != [] && Ordinary(c, observations)
    requires var before, o := observations[..|observations| - 1], observations[|observations| - 1];
             && RunsAs(t, c, before, was) && Within(c, before, was.current.value)
             && SameReset(was.current.value, o) && was.current.value.last < o.last && ReceivedAs(was, was.current.value, o, r)
             && (SeenAgain(c.percent, observations) <==> SeenAgain(c.percent, before) || (o.percent == c.percent && Falls(c.percent, before) == []))
    ensures RunsAs(t, c, observations, r) && Within(c, observations, r.current.value)
  {
    assert was.current.Some?;
    hide RunsAs;
    hide Within;
    hide SeenAgain;
    hide Falls;
    hide Lowest;
    hide ReceivedAs;
    var n := |observations| - 1;
    NoFalls(c.percent, observations[..n]);
    assert NextOf(c, t, observations, was, r);
    WithinStep(c, t, observations, was, r);
    if observations[n].percent > was.current.value.percent {
      RiseStep(c, t, observations, was, r);
    } else if observations[n].percent == was.current.value.percent {
      RepeatStep(c, t, observations, was, r);
    } else {
      FallStep(c, t, observations, was, r);
    }
  }
}
