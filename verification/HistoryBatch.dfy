/** One batch: merge the candidates, collect the tails that are due, write once. */
module HistoryBatch {
  import opened Wrappers
  import opened Lists
  import opened Text
  import opened HistoryTrack
  import opened HistoryScheduler
  import Choice

  // ----- what one batch does to a window -----

  function BeginOf(current: Windows, stable: Tails): Tracks {
    k => Track(if k in current then Some(current[k].known) else None, if k in stable then Some(stable[k]) else None, [], false, 0, [])
  }

  /** Between batches: nothing is pointed at, and every tail continues its window. */
  ghost predicate Idle(current: Windows, stable: Tails) {
    ShowsAll(current, stable, [], BeginOf(current, stable)) && forall k :: Coherent(BeginOf(current, stable)(k))
  }

  /** Every window's track after its own candidates, as if it were alone. */
  function AfterOf(begin: Tracks, candidates: seq<Observation>, load: Load, now: int): Tracks {
    k => RunTrack(begin(k), Select(candidates, Of(k)), load, now)
  }

  ghost predicate SingleMoments(candidates: seq<Observation>) {
    forall i :: 0 <= i < |candidates| ==> candidates[i].first == candidates[i].last
  }

  lemma {:induction false} NextCandidate(begin: Tracks, candidates: seq<Observation>, n: nat, load: Load, now: int, k: Key)
    requires n < |candidates|
    ensures var o, before := candidates[n], AfterOf(begin, candidates[..n], load, now);
            AfterOf(begin, candidates[..n + 1], load, now)(k) == With(before, o.key, Receive(before(o.key), o, load, now))(k)
  {
    hide Receive;
    SelectStep(candidates, Of(k), n);
    var before := Select(candidates[..n], Of(k));
    if candidates[n].key == k {
      assert (before + [candidates[n]])[..|before|] == before;
    } else {
      assert Select(candidates[..n + 1], Of(k)) == before;
    }
  }

  /** The windows answered for an account at one moment. */
  datatype Cohort = Cohort(provider: string, authIndex: string, last: int)

  function CandidateCohort(o: Observation): Cohort {
    Cohort(o.key.provider, o.key.authIndex, o.last)
  }

  /** The candidate reaches the entries of the batch when its turn comes. */
  ghost predicate WritesAt(begin: Tracks, candidates: seq<Observation>, n: int, load: Load, now: int) {
    && 0 <= n < |candidates|
    && Writes(AfterOf(begin, candidates[..n], load, now)(candidates[n].key), candidates[n], load, now)
  }

  /** Some candidate of the cohort does. */
  ghost predicate CohortWritten(begin: Tracks, candidates: seq<Observation>, load: Load, now: int, c: Cohort) {
    exists n :: WritesAt(begin, candidates, n, load, now) && CandidateCohort(candidates[n]) == c
  }

  lemma {:induction false} NextCohort(begin: Tracks, candidates: seq<Observation>, n: nat, load: Load, now: int, c: Cohort)
    requires n < |candidates|
    ensures CohortWritten(begin, candidates[..n + 1], load, now, c) <==>
              || CohortWritten(begin, candidates[..n], load, now, c)
              || (WritesAt(begin, candidates, n, load, now) && CandidateCohort(candidates[n]) == c)
  {
    hide AfterOf;
    hide Writes;
    var less, more := candidates[..n], candidates[..n + 1];
    forall i | 0 <= i < n
      ensures less[..i] == more[..i] && less[i] == more[i] == candidates[i]
      ensures WritesAt(begin, less, i, load, now) <==> WritesAt(begin, more, i, load, now)
    {
    }
    assert more[..n] == candidates[..n] && more[n] == candidates[n];
    assert WritesAt(begin, more, n, load, now) <==> WritesAt(begin, candidates, n, load, now);
    if CohortWritten(begin, less, load, now, c) {
      var i :| WritesAt(begin, less, i, load, now) && CandidateCohort(less[i]) == c;
      assert WritesAt(begin, more, i, load, now) && CandidateCohort(more[i]) == c;
    }
    if CohortWritten(begin, more, load, now, c) {
      var i :| WritesAt(begin, more, i, load, now) && CandidateCohort(more[i]) == c;
      assert i < n ==> WritesAt(begin, less, i, load, now) && CandidateCohort(less[i]) == c;
    }
  }

  lemma NoCohort(begin: Tracks, candidates: seq<Observation>, load: Load, now: int)
    ensures forall c :: !CohortWritten(begin, candidates[..0], load, now, c)
  {
  }

  /** Windows do not disturb each other: the batch does to each what its own candidates
      alone would do. */
  method MergeAll(state: HistoryRunner, candidates: seq<Observation>, load: Load, now: int)
    returns (pending: seq<Observation>, cohorts: set<Cohort>)
    requires Idle(state.current, state.stable)
    modifies state
    ensures ShowsAll(state.current, state.stable, pending, AfterOf(BeginOf(old(state.current), old(state.stable)), candidates, load, now))
    ensures forall c :: c in cohorts <==> CohortWritten(BeginOf(old(state.current), old(state.stable)), candidates, load, now, c)
  {
    hide ShowsAll;
    hide Receive;
    hide Writes;
    hide CohortWritten;
    pending, cohorts := [], {};
    var failed: set<Key> := {};
    ghost var begin := BeginOf(state.current, state.stable);
    SameShown(state.current, state.stable, [], begin, AfterOf(begin, candidates[..0], load, now));
    NoCohort(begin, candidates, load, now);
    for n := 0 to |candidates|
      invariant forall k :: k in failed ==> load(k).Err?
      invariant ShowsAll(state.current, state.stable, pending, AfterOf(begin, candidates[..n], load, now))
      invariant forall c :: c in cohorts <==> CohortWritten(begin, candidates[..n], load, now, c)
    {
      var o := candidates[n];
      ghost var before := AfterOf(begin, candidates[..n], load, now);
      var materialized;
      pending, failed, materialized := state.MergeObservation(pending, failed, o, load, now, before);
      forall c
        ensures CohortWritten(begin, candidates[..n + 1], load, now, c) <==>
                  CohortWritten(begin, candidates[..n], load, now, c) || (materialized && CandidateCohort(o) == c)
      {
        NextCohort(begin, candidates, n, load, now, c);
      }
      if materialized {
        cohorts := cohorts + {CandidateCohort(o)};
      }
      forall k
        ensures With(before, o.key, Receive(before(o.key), o, load, now))(k) == AfterOf(begin, candidates[..n + 1], load, now)(k)
      {
        NextCandidate(begin, candidates, n, load, now, k);
      }
      SameShown(state.current, state.stable, pending, With(before, o.key, Receive(before(o.key), o, load, now)),
                AfterOf(begin, candidates[..n + 1], load, now));
    }
    assert candidates[..|candidates|] == candidates;
  }

  // ----- trusted answers replace headers -----

  predicate IsTrusted(o: Observation) {
    o.authoritative
  }

  predicate ValidKey(k: Key) {
    k.authIndex != "" && k.quotaKey != ""
  }

  /** A header observation that no trusted answer for its window replaces. */
  function IsFreeHeader(trustedKeys: set<Key>): Observation -> bool {
    (o: Observation) => !o.authoritative && o.key !in trustedKeys
  }

  method SplitPreferred(candidates: seq<Observation>) returns (trusted: seq<Observation>, headers: seq<Observation>, ghost trustedKeys: set<Key>)
    ensures trusted == Select(candidates, IsTrusted) && headers == Select(candidates, IsFreeHeader(trustedKeys))
    ensures forall k :: k in trustedKeys <==> ValidKey(k) && exists i :: 0 <= i < |candidates| && candidates[i].authoritative && candidates[i].key == k
  {
    trusted, headers := [], [];
    var keys: set<Key> := {};
    for n := 0 to |candidates|
      invariant trusted == Select(candidates[..n], IsTrusted)
      invariant forall k :: k in keys <==> ValidKey(k) && exists i :: 0 <= i < n && candidates[i].authoritative && candidates[i].key == k
    {
      SelectStep(candidates, IsTrusted, n);
      if candidates[n].authoritative {
        trusted := trusted + [candidates[n]];
        if ValidKey(candidates[n].key) {
          keys := keys + {candidates[n].key};
        }
      }
    }
    assert candidates[..|candidates|] == candidates;
    trustedKeys := keys;
    for n := 0 to |candidates|
      invariant headers == Select(candidates[..n], IsFreeHeader(keys))
    {
      SelectStep(candidates, IsFreeHeader(keys), n);
      if !candidates[n].authoritative && candidates[n].key !in keys {
        headers := headers + [candidates[n]];
      }
    }
  }

  /** A window is judged by its trusted answers alone if there are any, and otherwise by
      all its headers. */
  lemma {:induction false} PreferredWindow(candidates: seq<Observation>, trustedKeys: set<Key>, k: Key)
    requires ValidKey(k)
    requires k in trustedKeys <==> exists i :: 0 <= i < |candidates| && candidates[i].authoritative && candidates[i].key == k
    ensures Select(Select(candidates, IsTrusted) + Select(candidates, IsFreeHeader(trustedKeys)), Of(k)) ==
              if k in trustedKeys then Select(Select(candidates, IsTrusted), Of(k)) else Select(candidates, Of(k))
  {
    var trusted, headers := Select(candidates, IsTrusted), Select(candidates, IsFreeHeader(trustedKeys));
    SelectConcat(trusted, headers, Of(k));
    if k in trustedKeys {
      forall i | 0 <= i < |headers|
        ensures !Of(k)(headers[i])
      {
        SelectMember(candidates, IsFreeHeader(trustedKeys), headers[i]);
      }
      SelectNone(headers, Of(k));
    } else {
      forall i | 0 <= i < |trusted|
        ensures !Of(k)(trusted[i])
      {
        SelectMember(candidates, IsTrusted, trusted[i]);
        var j :| 0 <= j < |candidates| && candidates[j] == trusted[i];
      }
      SelectNone(trusted, Of(k));
      FreeWindow(candidates, trustedKeys, k);
    }
  }

  lemma {:induction false} FreeWindow(candidates: seq<Observation>, trustedKeys: set<Key>, k: Key)
    requires k !in trustedKeys && forall i :: 0 <= i < |candidates| ==> !(candidates[i].authoritative && candidates[i].key == k)
    ensures Select(Select(candidates, IsFreeHeader(trustedKeys)), Of(k)) == Select(candidates, Of(k))
  {
    if candidates != [] {
      var n := |candidates| - 1;
      var before, o := Select(candidates[..n], IsFreeHeader(trustedKeys)), candidates[n];
      FreeWindow(candidates[..n], trustedKeys, k);
      if IsFreeHeader(trustedKeys)(o) {
        assert (before + [o])[..|before|] == before;
      } else {
        assert Select(candidates, IsFreeHeader(trustedKeys)) == before;
        assert o.key != k;
      }
    }
  }

  // ----- cohorts and due tails -----

  function CohortOf(k: Key, d: Deferred): Cohort {
    Cohort(k.provider, k.authIndex, d.observation.last)
  }

  /** Only marks may differ: the same tails with the same observations. */
  ghost predicate SameTails(a: Tails, b: Tails) {
    a.Keys == b.Keys && forall k :: k in a ==> a[k].observation == b[k].observation
  }

  /** A tail whose cohort was written to in this batch must not wait. */
  method MarkCohorts(state: HistoryRunner, cohorts: set<Cohort>)
    modifies state`stable
    ensures SameTails(old(state.stable), state.stable)
    ensures forall k :: k in state.stable ==>
              state.stable[k].immediate == (old(state.stable)[k].immediate || CohortOf(k, state.stable[k]) in cohorts)
  {
    var left := state.stable.Keys;
    while left != {}
      invariant left <= state.stable.Keys && SameTails(old(state.stable), state.stable)
      invariant forall k :: k in state.stable ==>
                  state.stable[k].immediate == (old(state.stable)[k].immediate || (k !in left && CohortOf(k, state.stable[k]) in cohorts))
      decreases |left|
    {
      var k := Choice.Pick(left);
      if CohortOf(k, state.stable[k]) in cohorts {
        state.stable := state.stable[k := state.stable[k].(immediate := true)];
      }
      left := left - {k};
    }
  }

  /** The tail must be written now, or its last write is an interval ago. */
  predicate IsDue(current: Windows, stable: Tails, k: Key, now: int, interval: nat)
    requires k in stable
  {
    stable[k].immediate || k !in current || current[k].known.materializedAt == ZERO_TIME || now >= current[k].known.materializedAt + interval
  }

  /** The tails due, and with each the other tail of its cohort. */
  function DueKeys(current: Windows, stable: Tails, now: int, interval: nat, all: bool): set<Key> {
    set k | k in stable && exists j :: j in stable && CohortOf(j, stable[j]) == CohortOf(k, stable[k]) && (all || IsDue(current, stable, j, now, interval)) :: k
  }

  function KeyRank(k: Key): Rank {
    Rank([k.authIndex, k.role], 0)
  }

  function Itself(k: Key): Key {
    k
  }

  method DueCohorts(state: HistoryRunner, now: int, all: bool) returns (cohorts: set<Cohort>)
    ensures forall c :: c in cohorts <==> exists j :: j in state.stable && CohortOf(j, state.stable[j]) == c
                                                 && (all || IsDue(state.current, state.stable, j, now, state.interval))
  {
    cohorts := {};
    var left := state.stable.Keys;
    while left != {}
      invariant left <= state.stable.Keys
      invariant forall c :: c in cohorts <==> exists j :: j in state.stable && j !in left && CohortOf(j, state.stable[j]) == c
                                                 && (all || IsDue(state.current, state.stable, j, now, state.interval))
      decreases |left|
    {
      var k := Choice.Pick(left);
      if all || IsDue(state.current, state.stable, k, now, state.interval) {
        cohorts := cohorts + {CohortOf(k, state.stable[k])};
      }
      left := left - {k};
    }
  }

  method DueTails(state: HistoryRunner, now: int, all: bool) returns (keys: seq<Key>)
    ensures DistinctBy(keys, Itself) && Elements(keys) == DueKeys(state.current, state.stable, now, state.interval, all)
  {
    var cohorts := DueCohorts(state, now, all);
    keys := [];
    var left := state.stable.Keys;
    while left != {}
      invariant left <= state.stable.Keys && DistinctBy(keys, Itself)
      invariant forall k :: k in keys <==> k in state.stable && k !in left && CohortOf(k, state.stable[k]) in cohorts
      decreases |left|
    {
      var k := Choice.Pick(left);
      if CohortOf(k, state.stable[k]) in cohorts {
        keys := keys + [k];
      }
      left := left - {k};
    }
  }

  function TailOf(stable: Tails, keys: set<Key>, k: Key): seq<Observation> {
    if k in stable && k in keys then [stable[k].observation] else []
  }

  ghost predicate TailsOwned(stable: Tails) {
    forall k :: k in stable ==> stable[k].observation.key == k
  }

  lemma {:induction false} SortedKeys(keys: seq<Key>, sorted: seq<Key>)
    requires DistinctBy(keys, Itself) && multiset(sorted) == multiset(keys)
    ensures DistinctBy(sorted, Itself) && Elements(sorted) == Elements(keys)
  {
    SameElements(keys, sorted);
    DistinctKept(keys, sorted, Itself);
  }

  method AppendTails(stable: Tails, keys: seq<Key>, pending: seq<Observation>) returns (pending': seq<Observation>)
    requires TailsOwned(stable) && DistinctBy(keys, Itself) && forall i :: 0 <= i < |keys| ==> keys[i] in stable
    ensures |pending'| == |pending| + |keys|
    ensures forall k :: Select(pending', Of(k)) == Select(pending, Of(k)) + TailOf(stable, Elements(keys), k)
  {
    hide Select;
    hide TailOf;
    pending' := pending;
    forall k
      ensures Select(pending, Of(k)) == Select(pending, Of(k)) + TailOf(stable, Elements(keys[..0]), k)
    {
      NoTail(stable, keys, k);
    }
    for n := 0 to |keys|
      invariant |pending'| == |pending| + n
      invariant forall k :: Select(pending', Of(k)) == Select(pending, Of(k)) + TailOf(stable, Elements(keys[..n]), k)
    {
      var tail := stable[keys[n]].observation;
      forall k
        ensures Select(pending' + [tail], Of(k)) == Select(pending, Of(k)) + TailOf(stable, Elements(keys[..n + 1]), k)
      {
        SelectAdded(pending', tail, k);
        TailAdded(stable, keys, n, k);
      }
      pending' := pending' + [tail];
    }
    assert keys[..|keys|] == keys;
  }

  lemma NoTail(stable: Tails, keys: seq<Key>, k: Key)
    ensures TailOf(stable, Elements(keys[..0]), k) == []
  {
  }

  /** Puts the due tails behind what is pending, accounts and roles in order. */
  method AppendDue(state: HistoryRunner, pending: seq<Observation>, now: int, all: bool) returns (pending': seq<Observation>, keys: set<Key>)
    requires TailsOwned(state.stable)
    ensures keys == DueKeys(state.current, state.stable, now, state.interval, all) && keys <= state.stable.Keys
    ensures forall k :: Select(pending', Of(k)) == Select(pending, Of(k)) + TailOf(state.stable, keys, k)
    ensures pending' == [] ==> pending == [] && keys == {}
  {
    hide TailOf;
    var due := DueTails(state, now, all);
    RankIsOrder(KeyRank, Elements(due));
    var sorted := SortBy(due, ByRank(KeyRank));
    SortedKeys(due, sorted);
    keys := Elements(sorted);
    forall i | 0 <= i < |sorted|
      ensures sorted[i] in state.stable
    {
      assert sorted[i] in keys;
    }
    pending' := AppendTails(state.stable, sorted, pending);
  }

  lemma {:induction false} TailAdded(stable: Tails, sorted: seq<Key>, n: nat, k: Key)
    requires n < |sorted| && DistinctBy(sorted, Itself) && sorted[n] in stable
    ensures TailOf(stable, Elements(sorted[..n + 1]), k) ==
              if k == sorted[n] then [stable[k].observation] else TailOf(stable, Elements(sorted[..n]), k)
    ensures TailOf(stable, Elements(sorted[..n]), sorted[n]) == []
  {
    assert sorted[..n + 1] == sorted[..n] + [sorted[n]];
    assert sorted[n] !in sorted[..n];
  }

  // ----- one write -----

  function EntryRank(o: Observation): Rank {
    Rank([o.key.provider, o.key.authIndex, o.key.role], o.first)
  }

  function CandidateRank(o: Observation): Rank {
    Rank([o.key.provider, o.key.authIndex, o.key.role], o.last)
  }

  lemma LaterNotBefore(a: Observation, b: Observation)
    requires a.key == b.key && a.first <= b.first
    ensures !ByRank(EntryRank)(b, a)
  {
    assert EntryRank(a).names == EntryRank(b).names;
    assert !RankBefore(EntryRank(b), EntryRank(a));
    assert ByRank(EntryRank)(b, a) == RankBefore(EntryRank(b), EntryRank(a));
  }

  /** Sorting the list for the writer keeps each window's entries as they are. */
  lemma {:induction false} SortKeepsWindow(pending: seq<Observation>, k: Key)
    requires Segments(Select(pending, Of(k)))
    ensures Select(SortedBy(pending, ByRank(EntryRank)), Of(k)) == Select(pending, Of(k))
  {
    var mine := Select(pending, Of(k));
    RankIsOrder(EntryRank, Elements(pending));
    forall i, j | 0 <= i < j < |mine|
      ensures !ByRank(EntryRank)(mine[j], mine[i])
    {
      SelectMember(pending, Of(k), mine[i]);
      SelectMember(pending, Of(k), mine[j]);
      assert mine[i].first <= mine[i].last <= mine[j].first;
      LaterNotBefore(mine[i], mine[j]);
    }
    SortKeepsOrder(pending, ByRank(EntryRank), Of(k), Elements(pending));
  }

  predicate Written(list: seq<Observation>, k: Key) {
    exists i :: 0 <= i < |list| && list[i].key == k
  }

  /** After a write: due tails are gone, every pointer is gone, and the windows written
      to remember when. */
  ghost predicate Settled(current: Windows, stable: Tails, current': Windows, stable': Tails, list: seq<Observation>, keys: set<Key>, now: int) {
    && stable' == stable - keys
    && current'.Keys == current.Keys
    && forall k :: k in current ==> current'[k] == Current(if Written(list, k) then current[k].known.(materializedAt := now) else current[k].known, -1)
  }

  /** After a failed write: the windows in the list are forgotten. */
  ghost predicate Forgotten(current: Windows, stable: Tails, current': Windows, stable': Tails, list: seq<Observation>) {
    && (forall k :: k in current' <==> k in current && !Written(list, k))
    && (forall k :: k in current' ==> current'[k] == current[k])
    && (forall k :: k in stable' <==> k in stable && !Written(list, k))
    && (forall k :: k in stable' ==> stable'[k] == stable[k])
  }

  method Forget(state: HistoryRunner, list: seq<Observation>)
    modifies state
    ensures Forgotten(old(state.current), old(state.stable), state.current, state.stable, list)
  {
    assert list[..0] == [];
    for n := 0 to |list|
      invariant Forgotten(old(state.current), old(state.stable), state.current, state.stable, list[..n])
    {
      WrittenStep(list, n);
      state.current := state.current - {list[n].key};
      state.stable := state.stable - {list[n].key};
    }
    assert list[..|list|] == list;
  }

  lemma {:induction false} WrittenStep(list: seq<Observation>, n: nat)
    requires n < |list|
    ensures forall k :: Written(list[..n + 1], k) <==> Written(list[..n], k) || k == list[n].key
  {
    var less, more := list[..n], list[..n + 1];
    assert more[n] == list[n] && forall i :: 0 <= i < n ==> more[i] == less[i];
    forall k | Written(less, k) || k == list[n].key
      ensures Written(more, k)
    {
      if Written(less, k) {
        var i :| 0 <= i < |less| && less[i].key == k;
        assert more[i].key == k;
      } else {
        assert more[n].key == k;
      }
    }
  }

  ghost predicate Stamped(current: Windows, current': Windows, list: seq<Observation>, now: int) {
    && current'.Keys == current.Keys
    && forall k :: k in current ==> current'[k].known == if Written(list, k) then current[k].known.(materializedAt := now) else current[k].known
  }

  method Stamp(state: HistoryRunner, list: seq<Observation>, now: int)
    modifies state`current
    ensures Stamped(old(state.current), state.current, list, now)
  {
    assert list[..0] == [];
    for n := 0 to |list|
      invariant Stamped(old(state.current), state.current, list[..n], now)
    {
      WrittenStep(list, n);
      var k := list[n].key;
      if k in state.current {
        var c := state.current[k];
        state.current := state.current[k := Current(c.known.(materializedAt := now), -1)];
      }
    }
    assert list[..|list|] == list;
  }

  method ClearPointers(state: HistoryRunner)
    modifies state`current
    ensures state.current.Keys == old(state.current).Keys
    ensures forall k :: k in state.current ==> state.current[k] == Current(old(state.current)[k].known, -1)
  {
    var left := state.current.Keys;
    while left != {}
      invariant left <= state.current.Keys == old(state.current).Keys
      invariant forall k :: k in state.current ==> state.current[k].known == old(state.current)[k].known
      invariant forall k :: k in state.current && k !in left ==> state.current[k].pendingIndex == -1
      decreases |left|
    {
      var k := Choice.Pick(left);
      state.current := state.current[k := state.current[k].(pendingIndex := -1)];
      left := left - {k};
    }
  }

  /** Hands the list to the writer in one call and settles or forgets what it held. */
  method Flush(state: HistoryRunner, pending: seq<Observation>, keys: set<Key>, now: int, writeOk: bool) returns (list: seq<Observation>)
    modifies state
    ensures list == SortedBy(pending, ByRank(EntryRank)) && multiset(list) == multiset(pending)
    ensures pending == [] ==> unchanged(state)
    ensures pending != [] && writeOk ==> Settled(old(state.current), old(state.stable), state.current, state.stable, list, keys, now)
    ensures pending != [] && !writeOk ==> Forgotten(old(state.current), old(state.stable), state.current, state.stable, list)
  {
    if pending == [] {
      return [];
    }
    RankIsOrder(EntryRank, Elements(pending));
    list := SortBy(pending, ByRank(EntryRank));
    if !writeOk {
      Forget(state, list);
      return;
    }
    state.stable := state.stable - keys;
    Stamp(state, list, now);
    ClearPointers(state);
  }
}
