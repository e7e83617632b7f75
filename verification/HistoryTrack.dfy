/** What the quota history runner does with the observations of one account window. */
module HistoryTrack {
  import opened Wrappers
  import opened Lists

  const ZERO_TIME := 0
  const RESET_TOLERANCE := 120_000_000_000
  const MAX_WINDOW_SECONDS := 0x7FFF_FFFF_FFFF_FFFF / 1_000_000_000

  datatype Key = Key(provider: string, authIndex: string, role: string, quotaKey: string)

  datatype Observation = Observation(
    key: Key, window: int, source: string, resetAt: int, percent: int, first: int, last: int, count: int, authoritative: bool)

  /** The current cycle of a window, as restored or as last accepted. */
  datatype Known = Known(
    found: bool, window: int, source: string, resetAt: int, hasTail: bool, percent: int, last: int, materializedAt: int)

  /** A stable tail kept in memory, and whether it must be written at once. */
  datatype Deferred = Deferred(observation: Observation, immediate: bool)

  predicate WellFormed(o: Observation) {
    && o.key.authIndex != "" && o.key.quotaKey != ""
    && 0 < o.window <= MAX_WINDOW_SECONDS && o.resetAt != ZERO_TIME && 0 <= o.percent <= 100 && 1 <= o.count
    && o.first != ZERO_TIME && o.last != ZERO_TIME && o.first <= o.last
  }

  predicate SameCycle(c: Known, o: Observation) {
    c.window == o.window && -RESET_TOLERANCE <= c.resetAt - o.resetAt <= RESET_TOLERANCE
  }

  function KnownFrom(o: Observation): Known {
    Known(true, o.window, o.source, o.resetAt, true, o.percent, o.last, ZERO_TIME)
  }

  // ----- the decision -----

  /** What becomes of an observation; the state carried has its reset brought up to date. */
  datatype Decision =
    | Drop
    | Change(c: Known)
    | Calibrate(c: Known)
    | Extend(c: Known, updated: bool)

  function ResetUpdated(c: Known, o: Observation): bool {
    || (c.source == "relative" && o.source == "absolute")
    || (o.authoritative && (c.source != o.source || c.resetAt != o.resetAt))
  }

  function Decide(c: Known, o: Observation): Decision {
    if !c.found then Change(c)
    else if c.window != o.window then
      if c.hasTail && o.last < c.last then Drop else Change(c)
    else if !SameCycle(c, o) then
      if (c.hasTail && o.last < c.last) || o.resetAt < c.resetAt then Drop else Change(c)
    else if c.hasTail && o.last < c.last then Drop
    else
      var updated := ResetUpdated(c, o);
      var c' := if updated then c.(source := o.source, resetAt := o.resetAt) else c;
      if c.hasTail && o.percent > c.percent && o.authoritative then Change(c')
      else if c.hasTail && o.last == c.last then
        if updated then Calibrate(c') else Drop
      else if c.hasTail && o.percent > c.percent then Drop
      else if c.hasTail && o.percent == c.percent then Extend(c', updated)
      else Change(c')
  }

  // ----- one window's track through a batch -----

  /** The window's state together with its own entries of the batch, each with the
      number of the cycle it belongs to. `live` says the last entry can still grow. */
  datatype Track = Track(
    current: Option<Known>, stable: Option<Deferred>, mine: seq<Observation>, live: bool, cycle: nat, cycles: seq<nat>)

  function Put(t: Track, o: Observation, cycle: nat): Track {
    t.(mine := t.mine + [o], cycles := t.cycles + [cycle])
  }

  function AppendDeferred(t: Track): Track {
    match t.stable
    case None => t
    case Some(d) => Put(t, d.observation, t.cycle).(stable := None)
  }

  predicate NewCycle(c: Known, o: Observation) {
    !c.found || c.window != o.window || !SameCycle(c, o)
  }

  function AfterChange(c: Known, o: Observation): Known {
    if NewCycle(c, o) then KnownFrom(o)
    else c.(hasTail := true, percent := o.percent, last := o.last, source := o.source, resetAt := o.resetAt)
  }

  function AppendChange(t: Track, c: Known, o: Observation): Track {
    var cycle := if NewCycle(c, o) then t.cycle + 1 else t.cycle;
    Put(t, o, cycle).(current := Some(AfterChange(c, o)), live := true, cycle := cycle)
  }

  function Calibrated(e: Observation, o: Observation): Observation {
    e.(source := o.source, resetAt := o.resetAt, count := e.count + o.count, authoritative := e.authoritative || o.authoritative)
  }

  function Extended(e: Observation, o: Observation, updated: bool): Observation {
    e.(source := if updated then o.source else e.source, resetAt := if updated then o.resetAt else e.resetAt,
       last := o.last, count := e.count + o.count, authoritative := e.authoritative || o.authoritative)
  }

  function MergedStable(d: Option<Deferred>, o: Observation, immediate: bool): Deferred {
    match d
    case None => Deferred(o, immediate)
    case Some(d) =>
      var e := d.observation;
      var reset := o.authoritative || (e.source == "relative" && o.source == "absolute");
      Deferred(Extended(e, o, reset), d.immediate || immediate)
  }

  /** Replaces the window's last entry. */
  function Touch(t: Track, e: Observation): Track
    requires t.mine != []
  {
    t.(mine := t.mine[|t.mine| - 1 := e])
  }

  predicate Live(t: Track) {
    t.live && t.mine != []
  }

  function Step(t: Track, c: Known, o: Observation): Track {
    match Decide(c, o)
    case Drop => t.(current := Some(c))
    case Change(c') => AppendChange(AppendDeferred(t), c', o)
    case Calibrate(c') =>
      var d := AppendDeferred(t);
      if Live(d) then Touch(d, Calibrated(d.mine[|d.mine| - 1], o)).(current := Some(c'))
      else Put(d, o.(percent := c.percent), d.cycle).(current := Some(c'), live := true)
    case Extend(c', updated) =>
      if Live(t) then Touch(t, Extended(t.mine[|t.mine| - 1], o, updated)).(current := Some(c'.(last := o.last)))
      else t.(stable := Some(MergedStable(t.stable, o, updated || o.authoritative)), current := Some(c'.(last := o.last)))
  }

  /** Restoring from the database, which a batch attempts once for each window. */
  type Load = Key -> Result<Known>

  function Restored(c: Known, now: int): Known {
    if c.found && c.hasTail then c.(materializedAt := now) else c
  }

  /** The state an observation is judged against, if there is one. */
  function Judge(t: Track, k: Key, load: Load, now: int): Option<Known> {
    match t.current
    case Some(c) => Some(c)
    case None =>
      match load(k)
      case Err => None
      case Ok(c) => Some(Restored(c, now))
  }

  function Receive(t: Track, o: Observation, load: Load, now: int): Track {
    if !WellFormed(o) then t
    else
      match Judge(t, o.key, load, now)
      case None => t
      case Some(c) => Step(t, c, o)
  }

  predicate Accepted(t: Track, o: Observation, load: Load, now: int) {
    WellFormed(o) && Judge(t, o.key, load, now).Some? && !Decide(Judge(t, o.key, load, now).value, o).Drop?
  }

  /** The observation reaches the entries of the batch: one is put or grows. */
  predicate Writes(t: Track, o: Observation, load: Load, now: int) {
    Receive(t, o, load, now).mine != t.mine
  }

  /** All of one window's observations, in turn. */
  function RunTrack(t: Track, observations: seq<Observation>, load: Load, now: int): Track {
    if observations == [] then t
    else Receive(RunTrack(t, observations[..|observations| - 1], load, now), observations[|observations| - 1], load, now)
  }

  /** How many single observations were accepted on the way. */
  function AcceptedCount(t: Track, observations: seq<Observation>, load: Load, now: int): int {
    if observations == [] then 0
    else
      var before, o := observations[..|observations| - 1], observations[|observations| - 1];
      AcceptedCount(t, before, load, now) + if Accepted(RunTrack(t, before, load, now), o, load, now) then o.count else 0
  }

  // ----- conservation -----

  function Counts(entries: seq<Observation>): int {
    if entries == [] then 0 else Counts(entries[..|entries| - 1]) + entries[|entries| - 1].count
  }

  function StableCount(d: Option<Deferred>): int {
    match d
    case None => 0
    case Some(d) => d.observation.count
  }

  function Held(t: Track): int {
    Counts(t.mine) + StableCount(t.stable)
  }

  lemma {:induction false} CountsPut(t: Track, o: Observation, cycle: nat)
    ensures Counts(Put(t, o, cycle).mine) == Counts(t.mine) + o.count
  {
    assert (t.mine + [o])[..|t.mine|] == t.mine;
  }

  lemma {:induction false} CountsTouch(t: Track, e: Observation)
    requires t.mine != []
    ensures Counts(Touch(t, e).mine) == Counts(t.mine) - t.mine[|t.mine| - 1].count + e.count
  {
    var n := |t.mine| - 1;
    assert t.mine[n := e][..n] == t.mine[..n];
  }

  lemma {:induction false} DeferredHeld(t: Track)
    ensures Held(AppendDeferred(t)) == Held(t) && AppendDeferred(t).stable == None
  {
    hide Counts;
    if t.stable.Some? {
      CountsPut(t, t.stable.value.observation, t.cycle);
    }
  }

  lemma {:induction false} StepCounts(t: Track, c: Known, o: Observation)
    ensures Held(Step(t, c, o)) == Held(t) + if Decide(c, o).Drop? then 0 else o.count
  {
    hide Decide;
    hide Counts;
    var d := AppendDeferred(t);
    DeferredHeld(t);
    match Decide(c, o)
    case Drop =>
    case Change(c') =>
      CountsPut(d, o, if NewCycle(c', o) then d.cycle + 1 else d.cycle);
    case Calibrate(c') =>
      if Live(d) {
        CountsTouch(d, Calibrated(d.mine[|d.mine| - 1], o));
      } else {
        CountsPut(d, o.(percent := c.percent), d.cycle);
      }
    case Extend(c', updated) =>
      if Live(t) {
        CountsTouch(t, Extended(t.mine[|t.mine| - 1], o, updated));
      }
  }

  /** Every accepted single observation is in an entry or in the stable tail, once. */
  lemma {:induction false} CountsConserved(t: Track, observations: seq<Observation>, load: Load, now: int)
    ensures Held(RunTrack(t, observations, load, now)) == Held(t) + AcceptedCount(t, observations, load, now)
  {
    if observations != [] {
      var before, o := observations[..|observations| - 1], observations[|observations| - 1];
      CountsConserved(t, before, load, now);
      var was := RunTrack(t, before, load, now);
      if WellFormed(o) && Judge(was, o.key, load, now).Some? {
        StepCounts(was, Judge(was, o.key, load, now).value, o);
      }
    }
  }

  // ----- order -----

  /** Entries follow each other in time and meet at most at their ends. */
  ghost predicate Segments(entries: seq<Observation>) {
    && (forall i :: 0 <= i < |entries| ==> entries[i].first <= entries[i].last)
    && forall i, j :: 0 <= i < j < |entries| ==> entries[i].last <= entries[j].first
  }

  /** Inside a cycle the percentage rises only to an authoritative entry. */
  ghost predicate RisesTrusted(entries: seq<Observation>, cycles: seq<nat>)
    requires |entries| == |cycles|
  {
    forall i :: 0 < i < |entries| && cycles[i - 1] == cycles[i] && entries[i - 1].percent < entries[i].percent ==> entries[i].authoritative
  }

  ghost predicate CyclesGrow(cycles: seq<nat>, cycle: nat) {
    (forall i :: 0 <= i < |cycles| ==> cycles[i] <= cycle) && forall i, j :: 0 <= i < j < |cycles| ==> cycles[i] <= cycles[j]
  }

  /** Up to where entries may reach: the start of the stable tail, or the last time accepted. */
  function Limit(t: Track): int {
    match t.stable
    case Some(d) => d.observation.first
    case None => if t.current.Some? then t.current.value.last else 0
  }

  ghost predicate TailKnown(t: Track) {
    t.current.Some? && t.current.value.found && t.current.value.hasTail
  }

  /** A tail continues what is known: same percentage, ending at the last time accepted. */
  ghost predicate Continues(e: Observation, c: Known) {
    e.percent == c.percent && e.last == c.last && e.first <= e.last
  }

  ghost predicate Coherent(t: Track) {
    && |t.mine| == |t.cycles| && Segments(t.mine) && RisesTrusted(t.mine, t.cycles) && CyclesGrow(t.cycles, t.cycle)
    && (t.mine != [] ==> TailKnown(t) && t.mine[|t.mine| - 1].last <= Limit(t))
    && (t.mine != [] && t.cycles[|t.mine| - 1] == t.cycle ==> t.mine[|t.mine| - 1].percent == t.current.value.percent)
    && (t.live ==> t.mine != [] && t.stable.None? && t.cycles[|t.mine| - 1] == t.cycle && Continues(t.mine[|t.mine| - 1], t.current.value))
    && (t.stable.Some? ==> TailKnown(t) && Continues(t.stable.value.observation, t.current.value))
  }

  lemma {:induction false} SegmentsPut(t: Track, o: Observation, cycle: nat)
    requires |t.mine| == |t.cycles| && Segments(t.mine) && RisesTrusted(t.mine, t.cycles) && CyclesGrow(t.cycles, t.cycle)
    requires t.cycle <= cycle && o.first <= o.last
    requires t.mine != [] ==> t.mine[|t.mine| - 1].last <= o.first
    requires t.mine != [] && t.cycles[|t.mine| - 1] == cycle && t.mine[|t.mine| - 1].percent < o.percent ==> o.authoritative
    ensures var p := Put(t, o, cycle);
            |p.mine| == |p.cycles| && Segments(p.mine) && RisesTrusted(p.mine, p.cycles) && CyclesGrow(p.cycles, cycle)
  {
  }

  lemma {:induction false} SegmentsTouch(t: Track, e: Observation)
    requires t.mine != [] && |t.mine| == |t.cycles| && Segments(t.mine) && RisesTrusted(t.mine, t.cycles)
    requires var was := t.mine[|t.mine| - 1];
             e.first == was.first && was.last <= e.last && e.percent == was.percent && (was.authoritative ==> e.authoritative)
    ensures Segments(Touch(t, e).mine) && RisesTrusted(Touch(t, e).mine, t.cycles)
  {
  }

  /** Writing the stable tail out keeps everything in order. */
  lemma {:induction false} DeferredCoherent(t: Track)
    requires Coherent(t)
    ensures var d := AppendDeferred(t);
            Coherent(d) && d.stable == None && d.current == t.current && d.cycle == t.cycle && d.live == t.live
  {
    hide Segments;
    hide RisesTrusted;
    hide CyclesGrow;
    match t.stable
    case None =>
    case Some(e) =>
      SegmentsPut(t, e.observation, t.cycle);
  }

  /** Appending an entry that the state then continues. */
  lemma {:induction false} AppendCoherent(d: Track, o: Observation, c: Known, cycle: nat)
    requires Coherent(d) && d.stable == None && d.cycle <= cycle && Continues(o, c) && c.found && c.hasTail
    requires d.mine != [] ==> d.current.Some? && d.current.value.last <= o.first
    requires d.mine != [] && d.cycle == cycle && d.current.value.percent < o.percent ==> o.authoritative
    ensures Coherent(Put(d, o, cycle).(current := Some(c), live := true, cycle := cycle))
  {
    hide Segments;
    hide RisesTrusted;
    hide CyclesGrow;
    if d.mine != [] {
      LastCycle(d);
    }
    SegmentsPut(d, o, cycle);
  }

  lemma LastCycle(d: Track)
    requires CyclesGrow(d.cycles, d.cycle) && d.cycles != []
    ensures d.cycles[|d.cycles| - 1] <= d.cycle
  {
  }

  /** Growing the last entry along with the state. */
  lemma {:induction false} TouchCoherent(d: Track, e: Observation, c: Known)
    requires Coherent(d) && d.stable == None && Live(d) && c.found && c.hasTail && Continues(e, c)
    requires var was := d.mine[|d.mine| - 1];
             e.first == was.first && was.last <= e.last && e.percent == was.percent && (was.authoritative ==> e.authoritative)
    ensures Coherent(Touch(d, e).(current := Some(c)))
  {
    hide Segments;
    hide RisesTrusted;
    hide CyclesGrow;
    SegmentsTouch(d, e);
  }

  /** The decision never looks back in time. */
  lemma {:induction false} DecideForward(c: Known, o: Observation)
    requires !Decide(c, o).Drop? && c.found && c.hasTail
    ensures c.last <= o.last
    ensures Decide(c, o).Change? ==> (NewCycle(Decide(c, o).c, o) || o.percent <= c.percent || o.authoritative)
    ensures Decide(c, o).Change? ==> Decide(c, o).c.found && Decide(c, o).c.hasTail
    ensures Decide(c, o).Extend? ==> o.percent == c.percent
    ensures Decide(c, o).Calibrate? ==> o.last == c.last
    ensures !Decide(c, o).Change? ==> var c' := Decide(c, o).c; c'.percent == c.percent && c'.last == c.last && c'.found && c'.hasTail
  {
  }

  lemma {:induction false} OnlyChangeWithoutTail(c: Known, o: Observation)
    requires !(c.found && c.hasTail) && !Decide(c, o).Drop?
    ensures Decide(c, o).Change?
  {
  }

  /** The decision is about the track's own state, and the observation is one moment. */
  ghost predicate Judged(t: Track, c: Known, o: Observation) {
    Coherent(t) && WellFormed(o) && o.first == o.last && (t.current.Some? ==> t.current.value == c)
  }

  lemma {:induction false} ChangeCoherent(t: Track, c: Known, o: Observation)
    requires Judged(t, c, o) && Decide(c, o).Change?
    ensures Coherent(Step(t, c, o))
  {
    var d, c' := AppendDeferred(t), Decide(c, o).c;
    assert c.found && c.hasTail ==> c.last <= o.last && (NewCycle(c', o) || o.percent <= c.percent || o.authoritative) by {
      if c.found && c.hasTail {
        DecideForward(c, o);
      }
    }
    hide Decide;
    hide SameCycle;
    DeferredCoherent(t);
    assert d.mine != [] ==> d.current == Some(c) && c.found && c.hasTail;
    hide Coherent;
    hide Segments;
    hide RisesTrusted;
    hide CyclesGrow;
    AppendCoherent(d, o, AfterChange(c', o), if NewCycle(c', o) then d.cycle + 1 else d.cycle);
  }

  lemma {:induction false} CalibrateCoherent(t: Track, c: Known, o: Observation)
    requires Judged(t, c, o) && Decide(c, o).Calibrate?
    ensures Coherent(Step(t, c, o))
  {
    var d, c' := AppendDeferred(t), Decide(c, o).c;
    assert c.last == o.last && c'.percent == c.percent && c'.last == c.last && c'.found && c'.hasTail;
    DeferredCoherent(t);
    assert d.mine != [] ==> d.current == Some(c);
    hide Decide;
    if Live(d) {
      assert Continues(d.mine[|d.mine| - 1], c);
      hide Coherent;
      TouchCoherent(d, Calibrated(d.mine[|d.mine| - 1], o), c');
    } else {
      hide Coherent;
      AppendCoherent(d, o.(percent := c.percent), c', d.cycle);
    }
  }

  lemma {:induction false} ExtendCoherent(t: Track, c: Known, o: Observation)
    requires Judged(t, c, o) && Decide(c, o).Extend?
    ensures Coherent(Step(t, c, o))
  {
    var c' := Decide(c, o).c;
    assert o.percent == c.percent && c.last <= o.last && c'.percent == c.percent && c'.found && c'.hasTail;
    hide Decide;
    if Live(t) {
      assert t.stable == None && Continues(t.mine[|t.mine| - 1], c);
      hide Coherent;
      TouchCoherent(t, Extended(t.mine[|t.mine| - 1], o, Decide(c, o).updated), c'.(last := o.last));
    } else {
      hide Segments;
      hide RisesTrusted;
      hide CyclesGrow;
    }
  }

  /** One observation keeps the track coherent. */
  lemma {:induction false} StepCoherent(t: Track, c: Known, o: Observation)
    requires Judged(t, c, o)
    ensures Coherent(Step(t, c, o))
  {
    match Decide(c, o)
    case Drop =>
      assert t.current.Some? ==> Step(t, c, o) == t;
    case Change(_) =>
      ChangeCoherent(t, c, o);
    case Calibrate(_) =>
      CalibrateCoherent(t, c, o);
    case Extend(_, _) =>
      ExtendCoherent(t, c, o);
  }

  /** However a window's observations arrive, its entries stay in order and rise inside
      a cycle only on authority. */
  lemma {:induction false} RunCoherent(t: Track, observations: seq<Observation>, load: Load, now: int)
    requires Coherent(t) && forall i :: 0 <= i < |observations| ==> observations[i].first == observations[i].last
    ensures Coherent(RunTrack(t, observations, load, now))
  {
    if observations != [] {
      var before, o := observations[..|observations| - 1], observations[|observations| - 1];
      RunCoherent(t, before, load, now);
      var was := RunTrack(t, before, load, now);
      if WellFormed(o) && Judge(was, o.key, load, now).Some? {
        hide Coherent;
        StepCoherent(was, Judge(was, o.key, load, now).value, o);
      }
    }
  }

  // ----- from one batch to the next -----

  /** Nothing in the track reaches back behind `floor`. */
  ghost predicate Above(t: Track, floor: int) {
    && TailKnown(t) && floor <= t.current.value.last
    && (forall i :: 0 <= i < |t.mine| ==> floor <= t.mine[i].first)
    && (t.stable.Some? ==> floor <= t.stable.value.observation.first)
  }

  lemma {:induction false} StepAbove(t: Track, o: Observation, floor: int)
    requires Above(t, floor) && o.first == o.last
    ensures Above(Step(t, t.current.value, o), floor)
  {
    var c := t.current.value;
    assert !Decide(c, o).Drop? ==> floor <= o.first;
    assert !Decide(c, o).Drop? && !Decide(c, o).Change? ==> Decide(c, o).c.last == c.last && Decide(c, o).c.found && Decide(c, o).c.hasTail;
    assert Decide(c, o).Change? ==> Decide(c, o).c.found && Decide(c, o).c.hasTail;
    hide Decide;
  }

  /** Entries of a batch start where the last one ended, or later. */
  lemma {:induction false} RunAbove(t: Track, observations: seq<Observation>, load: Load, now: int, floor: int)
    requires Above(t, floor) && forall i :: 0 <= i < |observations| ==> observations[i].first == observations[i].last
    ensures Above(RunTrack(t, observations, load, now), floor)
  {
    if observations != [] {
      var before, o := observations[..|observations| - 1], observations[|observations| - 1];
      RunAbove(t, before, load, now, floor);
      hide Step;
      StepAbove(RunTrack(t, before, load, now), o, floor);
    }
  }
}
