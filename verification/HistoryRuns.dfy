/** What a whole batch, and a run of batches, guarantees for every window. */
module HistoryRuns {
  import opened Wrappers
  import opened Lists
  import opened Text
  import opened HistoryTrack
  import opened HistoryScheduler
  import opened HistoryBatch

  /** The batch's effect on one window, whose candidates are `observations` and whose
      entries in the writer's list are `mine`; `due` says its tail was collected. */
  ghost predicate WindowHandled(before: Track, observations: seq<Observation>, load: Load, now: int, mine: seq<Observation>, due: bool) {
    var after := RunTrack(before, observations, load, now);
    && (due ==> after.stable.Some?)
    && mine == after.mine + (if due then [after.stable.value.observation] else [])
    && Segments(mine)
    && |mine| == |CyclesOf(after, due)| && RisesTrusted(mine, CyclesOf(after, due))
    && Counts(mine) + (if due then 0 else StableCount(after.stable)) == StableCount(before.stable) + AcceptedCount(before, observations, load, now)
  }

  function CyclesOf(t: Track, due: bool): seq<nat> {
    t.cycles + if due then [t.cycle] else []
  }

  ghost predicate Sorted(candidates: seq<Observation>, sorted: seq<Observation>) {
    sorted == SortedBy(candidates, ByRank(CandidateRank)) && multiset(sorted) == multiset(candidates)
  }

  lemma {:induction false} DueEntry(t: Track)
    requires Coherent(t) && t.stable.Some?
    ensures var mine := t.mine + [t.stable.value.observation];
            Segments(mine) && RisesTrusted(mine, t.cycles + [t.cycle]) && Counts(mine) == Counts(t.mine) + t.stable.value.observation.count
  {
    hide Segments;
    hide RisesTrusted;
    hide CyclesGrow;
    SegmentsPut(t, t.stable.value.observation, t.cycle);
    CountsPut(t, t.stable.value.observation, t.cycle);
  }

  lemma {:induction false} SettledWindow(after: Track, mine: seq<Observation>, due: bool)
    requires Coherent(after) && (due ==> after.stable.Some?)
    requires mine == after.mine + (if due then [after.stable.value.observation] else [])
    ensures Segments(mine) && |mine| == |CyclesOf(after, due)| && RisesTrusted(mine, CyclesOf(after, due))
    ensures Counts(mine) + (if due then 0 else StableCount(after.stable)) == Held(after)
  {
    hide Segments;
    hide RisesTrusted;
    hide CyclesGrow;
    hide Counts;
    if due {
      DueEntry(after);
    } else {
      assert mine == after.mine && CyclesOf(after, due) == after.cycles;
    }
  }

  lemma {:induction false} HeldAtStart(before: Track)
    requires before.mine == []
    ensures Held(before) == StableCount(before.stable)
  {
  }

  lemma {:induction false} HandledWindow(before: Track, observations: seq<Observation>, load: Load, now: int, mine: seq<Observation>, due: bool)
    requires Coherent(before) && before.mine == [] && SingleMoments(observations)
    requires due ==> RunTrack(before, observations, load, now).stable.Some?
    requires var after := RunTrack(before, observations, load, now);
             mine == after.mine + (if due then [after.stable.value.observation] else [])
    ensures WindowHandled(before, observations, load, now, mine, due)
  {
    hide Coherent;
    hide Counts;
    hide Held;
    hide StableCount;
    hide RunTrack;
    hide AcceptedCount;
    hide Segments;
    hide RisesTrusted;
    HeldAtStart(before);
    RunCoherent(before, observations, load, now);
    CountsConserved(before, observations, load, now);
    SettledWindow(RunTrack(before, observations, load, now), mine, due);
  }

  lemma {:induction false} MomentsSelected(candidates: seq<Observation>, p: Observation -> bool)
    requires SingleMoments(candidates)
    ensures SingleMoments(Select(candidates, p))
  {
    var some := Select(candidates, p);
    forall i | 0 <= i < |some|
      ensures some[i].first == some[i].last
    {
      SelectMember(candidates, p, some[i]);
      var j :| 0 <= j < |candidates| && candidates[j] == some[i];
    }
  }

  lemma {:induction false} MomentsSorted(candidates: seq<Observation>, sorted: seq<Observation>)
    requires SingleMoments(candidates) && multiset(sorted) == multiset(candidates)
    ensures SingleMoments(sorted)
  {
    SameElements(candidates, sorted);
    forall i | 0 <= i < |sorted|
      ensures sorted[i].first == sorted[i].last
    {
      assert sorted[i] in candidates;
      var j :| 0 <= j < |candidates| && candidates[j] == sorted[i];
    }
  }

  predicate SameButStamp(a: Known, b: Known) {
    a.(materializedAt := 0) == b.(materializedAt := 0)
  }

  /** A window between batches, seen from the track that ended the batch. */
  ghost predicate Rests(current: Windows, stable: Tails, k: Key, t: Track) {
    && Coherent(t)
    && (k in current ==> current[k].pendingIndex == -1 && t.current.Some? && SameButStamp(current[k].known, t.current.value))
    && (k in stable ==> k in current && t.stable.Some? && stable[k].observation == t.stable.value.observation && stable[k].observation.key == k)
  }

  lemma {:induction false} BecomesIdle(current: Windows, stable: Tails, tracks: Tracks)
    requires forall k :: Rests(current, stable, k, tracks(k))
    ensures Idle(current, stable)
  {
    forall k
      ensures Shows(current, stable, [], k, BeginOf(current, stable)(k)) && Coherent(BeginOf(current, stable)(k))
    {
      assert Rests(current, stable, k, tracks(k));
    }
  }

  /** The maps after the merge, with tails possibly marked. */
  ghost predicate Gathered(current: Windows, stable: Tails, pending: seq<Observation>, tracks: Tracks) {
    forall k :: Coherent(tracks(k)) && ShownUnmarked(current, stable, pending, k, tracks(k))
  }

  ghost predicate ShownUnmarked(current: Windows, stable: Tails, pending: seq<Observation>, k: Key, t: Track) {
    exists was: Tails :: SameTails(was, stable) && Shows(current, was, pending, k, t)
  }

  lemma {:induction false} GatheredWindow(current: Windows, stable: Tails, pending: seq<Observation>, tracks: Tracks, k: Key)
    requires Gathered(current, stable, pending, tracks)
    ensures Select(pending, Of(k)) == tracks(k).mine && Coherent(tracks(k))
    ensures k in stable <==> tracks(k).stable.Some?
    ensures k in stable ==> k in current && stable[k].observation == tracks(k).stable.value.observation && stable[k].observation.key == k
    ensures k in current <==> tracks(k).current.Some?
    ensures k in current ==> current[k].known == tracks(k).current.value && -1 <= current[k].pendingIndex < |pending|
    ensures k in current && current[k].pendingIndex != -1 ==> Written(pending, k)
  {
    hide Select;
    hide Segments;
    hide RisesTrusted;
    hide CyclesGrow;
    assert ShownUnmarked(current, stable, pending, k, tracks(k));
    var was: Tails :| SameTails(was, stable) && Shows(current, was, pending, k, tracks(k));
    if k in current && current[k].pendingIndex != -1 {
      assert pending[current[k].pendingIndex].key == k;
    }
  }

  lemma {:induction false} WrittenSorted(pending: seq<Observation>, list: seq<Observation>, k: Key)
    requires multiset(list) == multiset(pending)
    ensures Written(list, k) <==> Written(pending, k)
  {
    SameElements(list, pending);
    if Written(list, k) {
      var i :| 0 <= i < |list| && list[i].key == k;
      assert list[i] in pending;
    }
    if Written(pending, k) {
      var i :| 0 <= i < |pending| && pending[i].key == k;
      assert pending[i] in list;
    }
  }

  lemma {:induction false} WrittenLonger(pending: seq<Observation>, more: seq<Observation>, k: Key, tail: seq<Observation>)
    requires Select(more, Of(k)) == Select(pending, Of(k)) + tail && Written(pending, k)
    ensures Written(more, k)
  {
    var i :| 0 <= i < |pending| && pending[i].key == k;
    SelectMember(pending, Of(k), pending[i]);
    assert pending[i] in Select(more, Of(k));
    SelectMember(more, Of(k), pending[i]);
  }

  lemma {:induction false} TailWritten(pending: seq<Observation>, more: seq<Observation>, k: Key, tail: Observation)
    requires Select(more, Of(k)) == Select(pending, Of(k)) + [tail]
    ensures Written(more, k)
  {
    assert (Select(pending, Of(k)) + [tail])[|Select(pending, Of(k))|] == tail;
    assert tail in Select(more, Of(k));
    SelectMember(more, Of(k), tail);
  }

  /** Where the flush leaves the windows, whichever way it ends. */
  lemma {:induction false} FlushRests(
      current: Windows, stable: Tails, pending: seq<Observation>, tracks: Tracks, more: seq<Observation>, keys: set<Key>,
      list: seq<Observation>, now: int, writeOk: bool, current': Windows, stable': Tails)
    requires Gathered(current, stable, pending, tracks) && multiset(list) == multiset(more)
    requires forall k :: Select(more, Of(k)) == Select(pending, Of(k)) + TailOf(stable, keys, k)
    requires more == [] ==> pending == [] && current' == current && stable' == stable
    requires more != [] && writeOk ==> Settled(current, stable, current', stable', list, keys, now)
    requires more != [] && !writeOk ==> Forgotten(current, stable, current', stable', list)
    ensures Idle(current', stable')
  {
    forall k
      ensures Rests(current', stable', k, tracks(k))
    {
      hide Coherent;
      hide Select;
      GatheredWindow(current, stable, pending, tracks, k);
      WrittenSorted(more, list, k);
      if k in current && current[k].pendingIndex != -1 {
        WrittenLonger(pending, more, k, TailOf(stable, keys, k));
      }
    }
    BecomesIdle(current', stable', tracks);
  }

  /** The next batch starts from where this one left the window. */
  ghost predicate Carries(next: Track, after: Track, due: bool) {
    && (next.current.Some? <==> after.current.Some?)
    && (next.current.Some? ==> SameButStamp(next.current.value, after.current.value))
    && (next.stable.Some? <==> after.stable.Some? && !due)
    && (next.stable.Some? ==> next.stable.value.observation == after.stable.value.observation)
  }

  lemma {:induction false} FlushCarries(
      current: Windows, stable: Tails, pending: seq<Observation>, tracks: Tracks, more: seq<Observation>, keys: set<Key>,
      list: seq<Observation>, now: int, current': Windows, stable': Tails, k: Key)
    requires Gathered(current, stable, pending, tracks) && keys <= stable.Keys
    requires more == [] ==> keys == {} && current' == current && stable' == stable
    requires more != [] ==> Settled(current, stable, current', stable', list, keys, now)
    ensures Carries(BeginOf(current', stable')(k), tracks(k), k in keys)
  {
    hide Gathered;
    GatheredWindow(current, stable, pending, tracks, k);
  }

  /** Two batches in a row that were both written: the window's entries still follow
      each other and meet at most at their ends. */
  lemma {:induction false} BatchesChain(
      first: Track, one: seq<Observation>, mine: seq<Observation>, due: bool, second: Track, two: seq<Observation>, more: seq<Observation>, due': bool,
      load: Load, load': Load, now: int, now': int)
    requires Coherent(first) && first.mine == [] && SingleMoments(one) && SingleMoments(two)
    requires Coherent(second) && second.mine == [] && Carries(second, RunTrack(first, one, load, now), due)
    requires WindowHandled(first, one, load, now, mine, due) && WindowHandled(second, two, load', now', more, due')
    ensures Segments(mine + more)
  {
    var after := RunTrack(first, one, load, now);
    hide RunTrack;
    hide AcceptedCount;
    hide Counts;
    hide RisesTrusted;
    RunCoherent(first, one, load, now);
    if mine != [] {
      var floor := mine[|mine| - 1].last;
      assert TailKnown(after);
      assert Above(second, floor);
      RunAbove(second, two, load', now', floor);
      SegmentsJoin(mine, more, floor);
    } else {
      assert mine + more == more;
    }
  }

  lemma {:induction false} SegmentsJoin(a: seq<Observation>, b: seq<Observation>, floor: int)
    requires Segments(a) && Segments(b) && a != [] && floor == a[|a| - 1].last
    requires forall i :: 0 <= i < |b| ==> floor <= b[i].first
    ensures Segments(a + b)
  {
  }

  // ----- which tails are written -----

  /** The window's tail is due once the candidates are merged: it was marked, its cohort
      was written to, or the window was last written an interval ago. */
  ghost predicate TailDue(begin: Tracks, sorted: seq<Observation>, load: Load, now: int, interval: nat, k: Key) {
    var t := AfterOf(begin, sorted, load, now)(k);
    && t.stable.Some?
    && (|| t.stable.value.immediate || CohortWritten(begin, sorted, load, now, CohortOf(k, t.stable.value))
        || t.current.None? || t.current.value.materializedAt == ZERO_TIME || now >= t.current.value.materializedAt + interval)
  }

  /** A tail is written with a due one of its cohort; all tails are when shutting down. */
  ghost predicate TailWrittenOut(begin: Tracks, sorted: seq<Observation>, load: Load, now: int, interval: nat, all: bool, k: Key) {
    var after := AfterOf(begin, sorted, load, now);
    && after(k).stable.Some?
    && exists j :: after(j).stable.Some? && CohortOf(j, after(j).stable.value) == CohortOf(k, after(k).stable.value)
                   && (all || TailDue(begin, sorted, load, now, interval, j))
  }

  /** Shutting down leaves no tail behind. */
  lemma ShutdownWritesAll(begin: Tracks, sorted: seq<Observation>, load: Load, now: int, interval: nat, k: Key)
    ensures TailWrittenOut(begin, sorted, load, now, interval, true, k) <==> AfterOf(begin, sorted, load, now)(k).stable.Some?
  {
  }

  ghost predicate Marked(merged: Tails, stable: Tails, cohorts: set<Cohort>) {
    && SameTails(merged, stable)
    && forall k :: k in stable ==> stable[k].immediate == (merged[k].immediate || CohortOf(k, stable[k]) in cohorts)
  }

  lemma {:induction false} MarkedDue(
      begin: Tracks, sorted: seq<Observation>, load: Load, now: int, interval: nat, current: Windows, merged: Tails, stable: Tails,
      pending: seq<Observation>, cohorts: set<Cohort>, k: Key)
    requires ShowsAll(current, merged, pending, AfterOf(begin, sorted, load, now)) && Marked(merged, stable, cohorts)
    requires forall c :: c in cohorts <==> CohortWritten(begin, sorted, load, now, c)
    ensures k in stable <==> AfterOf(begin, sorted, load, now)(k).stable.Some?
    ensures k in stable ==> CohortOf(k, stable[k]) == CohortOf(k, AfterOf(begin, sorted, load, now)(k).stable.value)
    ensures k in stable ==> (IsDue(current, stable, k, now, interval) <==> TailDue(begin, sorted, load, now, interval, k))
  {
    hide AfterOf;
    hide CohortWritten;
    assert Shows(current, merged, pending, k, AfterOf(begin, sorted, load, now)(k));
  }

  /** The tails collected are exactly those. */
  lemma {:induction false} CollectedTails(
      begin: Tracks, sorted: seq<Observation>, load: Load, now: int, interval: nat, all: bool, current: Windows, merged: Tails, stable: Tails,
      pending: seq<Observation>, cohorts: set<Cohort>)
    requires ShowsAll(current, merged, pending, AfterOf(begin, sorted, load, now)) && Marked(merged, stable, cohorts)
    requires forall c :: c in cohorts <==> CohortWritten(begin, sorted, load, now, c)
    ensures forall k :: k in DueKeys(current, stable, now, interval, all) <==> TailWrittenOut(begin, sorted, load, now, interval, all, k)
  {
    forall k
      ensures k in stable <==> AfterOf(begin, sorted, load, now)(k).stable.Some?
      ensures k in stable ==> CohortOf(k, stable[k]) == CohortOf(k, AfterOf(begin, sorted, load, now)(k).stable.value)
      ensures k in stable ==> (IsDue(current, stable, k, now, interval) <==> TailDue(begin, sorted, load, now, interval, k))
    {
      MarkedDue(begin, sorted, load, now, interval, current, merged, stable, pending, cohorts, k);
    }
    hide AfterOf;
    hide ShowsAll;
    hide CohortOf;
    hide TailDue;
    hide IsDue;
  }

  /** Merges the candidates and marks the tails of the cohorts written to. */
  method MergeAndMark(state: HistoryRunner, sorted: seq<Observation>, load: Load, now: int, ghost all: bool) returns (pending: seq<Observation>)
    requires Idle(state.current, state.stable) && SingleMoments(sorted)
    modifies state
    ensures var begin := BeginOf(old(state.current), old(state.stable));
            && Gathered(state.current, state.stable, pending, AfterOf(begin, sorted, load, now)) && TailsOwned(state.stable)
            && forall k :: k in DueKeys(state.current, state.stable, now, state.interval, all) <==> TailWrittenOut(begin, sorted, load, now, state.interval, all, k)
  {
    hide Idle;
    hide TailWrittenOut;
    hide CohortWritten;
    hide DueKeys;
    hide ShowsAll;
    hide Gathered;
    hide AfterOf;
    hide BeginOf;
    ghost var begin := BeginOf(state.current, state.stable);
    IdleCoherent(state.current, state.stable);
    var cohorts;
    pending, cohorts := MergeAll(state, sorted, load, now);
    ghost var merged := state.stable;
    MarkCohorts(state, cohorts);
    Gather(begin, sorted, load, now, state.current, merged, state.stable, pending);
    OwnedTails(state.current, state.stable, pending, AfterOf(begin, sorted, load, now));
    CollectedTails(begin, sorted, load, now, state.interval, all, state.current, merged, state.stable, pending, cohorts);
  }

  /** The runner's step for one batch of verified candidates. */
  method ProcessBatch(state: HistoryRunner, candidates: seq<Observation>, load: Load, now: int, all: bool, writeOk: bool)
    returns (list: seq<Observation>, ghost sorted: seq<Observation>, ghost keys: set<Key>)
    requires Idle(state.current, state.stable) && SingleMoments(candidates)
    modifies state
    ensures Sorted(candidates, sorted) && Idle(state.current, state.stable)
    ensures forall k :: WindowHandled(BeginOf(old(state.current), old(state.stable))(k), Select(sorted, Of(k)), load, now, Select(list, Of(k)), k in keys)
    ensures forall k :: k in keys <==> TailWrittenOut(BeginOf(old(state.current), old(state.stable)), sorted, load, now, state.interval, all, k)
    ensures writeOk ==> forall k :: Carries(BeginOf(state.current, state.stable)(k),
                                            RunTrack(BeginOf(old(state.current), old(state.stable))(k), Select(sorted, Of(k)), load, now), k in keys)
  {
    hide Select;
    hide Idle;
    hide Carries;
    hide RunTrack;
    hide WindowHandled;
    hide TailWrittenOut;
    hide DueKeys;
    hide Gathered;
    hide Settled;
    hide Forgotten;
    hide TailOf;
    ghost var begin := BeginOf(state.current, state.stable);
    RankIsOrder(CandidateRank, Elements(candidates));
    var ordered := SortBy(candidates, ByRank(CandidateRank));
    sorted := ordered;
    ghost var tracks := AfterOf(begin, sorted, load, now);
    IdleCoherent(state.current, state.stable);
    MomentsSorted(candidates, sorted);
    var pending := MergeAndMark(state, ordered, load, now, all);
    var more, due := AppendDue(state, pending, now, all);
    keys := due;
    ghost var c, s := state.current, state.stable;
    list := Flush(state, more, due, now, writeOk);
    FlushRests(c, s, pending, tracks, more, keys, list, now, writeOk, state.current, state.stable);
    forall k
      ensures WindowHandled(begin(k), Select(sorted, Of(k)), load, now, Select(list, Of(k)), k in keys)
    {
      ListedWindow(begin, sorted, load, now, c, s, pending, more, list, keys, k);
    }
    if writeOk {
      forall k
        ensures Carries(BeginOf(state.current, state.stable)(k), tracks(k), k in keys)
      {
        FlushCarries(c, s, pending, tracks, more, keys, list, now, state.current, state.stable, k);
      }
    }
  }

  lemma {:induction false} IdleCoherent(current: Windows, stable: Tails)
    requires Idle(current, stable)
    ensures forall k :: Coherent(BeginOf(current, stable)(k))
  {
  }

  lemma {:induction false} Gather(
      begin: Tracks, sorted: seq<Observation>, load: Load, now: int, current: Windows, merged: Tails, stable: Tails, pending: seq<Observation>)
    requires (forall k :: Coherent(begin(k))) && SingleMoments(sorted)
    requires ShowsAll(current, merged, pending, AfterOf(begin, sorted, load, now)) && SameTails(merged, stable)
    ensures Gathered(current, stable, pending, AfterOf(begin, sorted, load, now))
  {
    hide Coherent;
    hide Shows;
    forall k
      ensures Coherent(AfterOf(begin, sorted, load, now)(k)) && Shows(current, merged, pending, k, AfterOf(begin, sorted, load, now)(k))
    {
      MomentsSelected(sorted, Of(k));
      RunCoherent(begin(k), Select(sorted, Of(k)), load, now);
    }
  }

  lemma {:induction false} OwnedTails(current: Windows, stable: Tails, pending: seq<Observation>, tracks: Tracks)
    requires Gathered(current, stable, pending, tracks)
    ensures TailsOwned(stable)
  {
    hide Gathered;
    forall k | k in stable
      ensures stable[k].observation.key == k
    {
      GatheredWindow(current, stable, pending, tracks, k);
    }
  }

  /** What the writer's list holds for one window. */
  lemma {:induction false} ListedWindow(
      begin: Tracks, sorted: seq<Observation>, load: Load, now: int, current: Windows, stable: Tails, pending: seq<Observation>,
      more: seq<Observation>, list: seq<Observation>, keys: set<Key>, k: Key)
    requires SingleMoments(sorted) && Gathered(current, stable, pending, AfterOf(begin, sorted, load, now)) && keys <= stable.Keys
    requires Coherent(begin(k)) && begin(k).mine == []
    requires Select(more, Of(k)) == Select(pending, Of(k)) + TailOf(stable, keys, k)
    requires list == SortedBy(more, ByRank(EntryRank))
    ensures WindowHandled(begin(k), Select(sorted, Of(k)), load, now, Select(list, Of(k)), k in keys)
  {
    hide Gathered;
    hide Coherent;
    hide RunTrack;
    hide Select;
    var mine, observations := Select(more, Of(k)), Select(sorted, Of(k));
    GatheredWindow(current, stable, pending, AfterOf(begin, sorted, load, now), k);
    MomentsSelected(sorted, Of(k));
    HandledWindow(begin(k), observations, load, now, mine, k in keys);
    SortKeepsWindow(more, k);
  }
}
