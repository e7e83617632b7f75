/** What holds of the refresh tasks over every interleaving. */
module RefreshSafety {
  import opened Wrappers
  import opened Runs
  import opened RefreshProtocol

  // ----- the invariant -----

  /** A record is settled at most once, and whoever owns it has it still to settle. */
  ghost predicate RecordOk(r: Record) {
    && r.settled <= 1
    && (IsActive(r) ==> r.settled == 0 && r.expiresAt == 0)
    && (r.owner != Nobody ==> IsActive(r))
  }

  ghost predicate TasksOk(t: Tasks) {
    && Indexed(t)
    && (forall id :: 0 <= id < |t.records| ==> RecordOk(t.records[id]))
    && (forall id :: 0 <= id < |t.records| && Holds(t, id) && IsActive(t.records[id]) ==> t.records[id].owner != Nobody)
  }

  ghost predicate Distinct(list: seq<nat>) {
    forall i, j :: 0 <= i < j < |list| ==> list[i] != list[j]
  }

  /** A dispatcher's list: different queued records that are its own. */
  ghost predicate ListOk(t: Tasks, d: int, list: seq<nat>) {
    && Distinct(list)
    && forall i :: 0 <= i < |list| ==> list[i] < |t.records| && t.records[list[i]].owner == ByDispatcher(d) && t.records[list[i]].status == Queued
  }

  ghost predicate DispatchersOk(t: Tasks, dispatchers: map<int, Dispatcher>) {
    && (forall d :: d in dispatchers ==> ListOk(t, d, dispatchers[d].list) && (dispatchers[d].phase.Holding? ==> dispatchers[d].list != []))
    && forall id :: 0 <= id < |t.records| && t.records[id].owner.ByDispatcher? ==>
         t.records[id].owner.dispatcher in dispatchers && id in dispatchers[t.records[id].owner.dispatcher].list
  }

  ghost predicate WorkerOk(t: Tasks, w: int, worker: Worker) {
    !worker.work.Cooling? ==>
      && worker.task < |t.records| && t.records[worker.task].owner == ByWorker(w)
      && t.records[worker.task].status == if worker.work.Starting? then Queued else Running
  }

  ghost predicate WorkersOk(t: Tasks, workers: map<int, Worker>) {
    && (forall w :: w in workers ==> WorkerOk(t, w, workers[w]))
    && forall id :: 0 <= id < |t.records| && t.records[id].owner.ByWorker? ==>
         var w := t.records[id].owner.worker; w in workers && workers[w].task == id && !workers[w].work.Cooling?
  }

  ghost function Holders(dispatchers: map<int, Dispatcher>): set<int> {
    set d | d in dispatchers && dispatchers[d].phase.Holding?
  }

  /** Every token out is held by a live worker or by a dispatcher about to start one. */
  ghost predicate TokensOk(v: World, limit: nat) {
    v.tokens == |v.workers| + |Holders(v.dispatchers)| && v.tokens <= limit
  }

  ghost predicate Inv(v: World, limit: nat) {
    TasksOk(v.tasks) && DispatchersOk(v.tasks, v.dispatchers) && WorkersOk(v.tasks, v.workers) && TokensOk(v, limit)
  }

  // ----- tokens -----

  lemma MapSize<V>(m: map<int, V>)
    ensures |m| == |m.Keys|
  {
  }

  lemma HoldersUpdate(dispatchers: map<int, Dispatcher>, d: int, x: Dispatcher)
    ensures var was, now := d in dispatchers && dispatchers[d].phase.Holding?, x.phase.Holding?;
            |Holders(dispatchers[d := x])| == |Holders(dispatchers)| + (if now then 1 else 0) - (if was then 1 else 0)
  {
    var before, after := Holders(dispatchers), Holders(dispatchers[d := x]);
    HoldersOf(dispatchers, d, x);
    hide Holders;
    SetWith(before, d);
    SetWith(after, d);
  }

  lemma HoldersOf(dispatchers: map<int, Dispatcher>, d: int, x: Dispatcher)
    ensures d in Holders(dispatchers) <==> d in dispatchers && dispatchers[d].phase.Holding?
    ensures d in Holders(dispatchers[d := x]) <==> x.phase.Holding?
    ensures Holders(dispatchers[d := x]) - {d} == Holders(dispatchers) - {d}
  {
    forall e | e != d
      ensures e in Holders(dispatchers[d := x]) <==> e in Holders(dispatchers)
    {
    }
  }

  lemma SetWith(s: set<int>, d: int)
    ensures |s| == |s - {d}| + if d in s then 1 else 0
  {
    if d in s {
      assert s == (s - {d}) + {d};
    } else {
      assert s - {d} == s;
    }
  }

  lemma HoldersRemove(dispatchers: map<int, Dispatcher>, d: int)
    requires d in dispatchers && !dispatchers[d].phase.Holding?
    ensures Holders(dispatchers - {d}) == Holders(dispatchers)
  {
  }

  lemma WorkersGrow(workers: map<int, Worker>, w: int, x: Worker)
    ensures |workers[w := x]| == |workers| + if w in workers then 0 else 1
  {
    MapSize(workers);
    MapSize(workers[w := x]);
    assert workers[w := x].Keys == workers.Keys + {w};
  }

  lemma WorkersShrink(workers: map<int, Worker>, w: int)
    requires w in workers
    ensures |workers - {w}| == |workers| - 1
  {
    MapSize(workers);
    MapSize(workers - {w});
    assert (workers - {w}).Keys == workers.Keys - {w};
  }

  lemma {:induction false} DispatcherTokens(v: World, a: Action, limit: nat)
    requires TokensOk(v, limit) && Enabled(v, a, limit)
    requires a.Open? || a.EnsureTask? || a.Launch? || a.TakeToken? || a.Cancel? || a.FailNext? || a.Close?
    ensures TokensOk(Act(v, a, limit), limit)
  {
    hide Holders;
    match a
    case Open(d) => HoldersUpdate(v.dispatchers, d, Dispatcher(Collecting, []));
    case EnsureTask(d, auth, kind) =>
      HoldersUpdate(v.dispatchers, d, Dispatcher(Collecting, v.dispatchers[d].list + [|v.tasks.records|]));
    case Launch(d, started) => HoldersUpdate(v.dispatchers, d, v.dispatchers[d].(phase := if started then Dispatching else Failing));
    case TakeToken(d) => HoldersUpdate(v.dispatchers, d, v.dispatchers[d].(phase := Holding));
    case Cancel(d) => HoldersUpdate(v.dispatchers, d, v.dispatchers[d].(phase := Failing));
    case FailNext(d, _, _) => HoldersUpdate(v.dispatchers, d, Dispatcher(Failing, v.dispatchers[d].list[1..]));
    case Close(d) => HoldersRemove(v.dispatchers, d);
  }

  lemma {:induction false} SpawnTokens(v: World, d: int, w: int, started: bool, limit: nat)
    requires TokensOk(v, limit) && Enabled(v, Spawn(d, w, started), limit)
    ensures TokensOk(Act(v, Spawn(d, w, started), limit), limit)
  {
    hide Holders;
    if started {
      HoldersUpdate(v.dispatchers, d, Dispatcher(Dispatching, v.dispatchers[d].list[1..]));
      WorkersGrow(v.workers, w, Worker(v.dispatchers[d].list[0], Starting));
    } else {
      HoldersUpdate(v.dispatchers, d, v.dispatchers[d].(phase := Failing));
    }
  }

  lemma {:induction false} WorkerTokens(v: World, a: Action, limit: nat)
    requires TokensOk(v, limit) && Enabled(v, a, limit)
    requires a.Begin? || a.Complete? || a.Fail? || a.Drop? || a.Exit?
    ensures TokensOk(Act(v, a, limit), limit)
  {
    hide Holders;
    match a
    case Begin(w) =>
      WorkersGrow(v.workers, w, v.workers[w].(work := Calling));
      WorkersGrow(v.workers, w, v.workers[w].(work := Cooling));
    case Complete(w, _, _) => WorkersGrow(v.workers, w, v.workers[w].(work := Cooling));
    case Fail(w, _, _) => WorkersGrow(v.workers, w, v.workers[w].(work := Cooling));
    case Drop(w) => WorkersGrow(v.workers, w, v.workers[w].(work := Cooling));
    case Exit(w) => WorkersShrink(v.workers, w);
  }

  lemma {:induction false} OtherTokens(v: World, a: Action, limit: nat)
    requires TokensOk(v, limit) && Enabled(v, a, limit) && (a.Expire? || a.ExpireOne? || a.ClearSettled? || a.Header?)
    ensures TokensOk(Act(v, a, limit), limit)
  {
    hide Holders;
    hide MergeHeader;
    hide Without;
  }

  lemma {:induction false} StepTokens(v: World, a: Action, limit: nat)
    requires TokensOk(v, limit) && Enabled(v, a, limit)
    ensures TokensOk(Act(v, a, limit), limit)
  {
    hide TokensOk;
    hide Act;
    hide Enabled;
    if a.Spawn? {
      SpawnTokens(v, a.d, a.w, a.started, limit);
    } else if a.Begin? || a.Complete? || a.Fail? || a.Drop? || a.Exit? {
      WorkerTokens(v, a, limit);
    } else if a.Expire? || a.ExpireOne? || a.ClearSettled? || a.Header? {
      OtherTokens(v, a, limit);
    } else {
      DispatcherTokens(v, a, limit);
    }
  }

  // ----- records -----

  /** All but the tokens. */
  ghost predicate Owned(v: World) {
    TasksOk(v.tasks) && DispatchersOk(v.tasks, v.dispatchers) && WorkersOk(v.tasks, v.workers)
  }

  /** Records leave the map; nothing else changes. */
  lemma {:induction false} RemoveKeeps(v: World, gone: set<string>)
    requires Owned(v)
    ensures Owned(v.(tasks := Without(v.tasks, gone)))
  {
  }

  /** A new record, in the map under its account. */
  lemma {:induction false} AddKeeps(t: Tasks, r: Record, dispatchers: map<int, Dispatcher>, workers: map<int, Worker>, d: int)
    requires TasksOk(t) && DispatchersOk(t, dispatchers) && WorkersOk(t, workers) && RecordOk(r)
    requires r.owner == Nobody || (r.owner == ByDispatcher(d) && d in dispatchers && r.status == Queued)
    requires IsActive(r) ==> r.owner != Nobody
    ensures var t' := Tasks(t.records + [r], t.byAuth[r.auth := |t.records|]);
            && TasksOk(t') && WorkersOk(t', workers)
            && (r.owner == Nobody ==> DispatchersOk(t', dispatchers))
            && (r.owner == ByDispatcher(d) && !dispatchers[d].phase.Holding? ==>
                  DispatchersOk(t', dispatchers[d := dispatchers[d].(list := dispatchers[d].list + [|t.records|])]))
  {
    var n, t' := |t.records|, Tasks(t.records + [r], t.byAuth[r.auth := |t.records|]);
    assert t'.records[n] == r && forall id :: 0 <= id < n ==> t'.records[id] == t.records[id];
    assert TasksOk(t') by {
      forall id | 0 <= id < n && Holds(t', id)
        ensures Holds(t, id)
      {
      }
    }
    if r.owner == ByDispatcher(d) {
      var list := dispatchers[d].list + [n];
      assert ListOk(t', d, list);
      assert list[|list| - 1] == n;
    }
  }

  /** One record changes; it stays under its account. */
  lemma {:induction false} UpdateTasks(t: Tasks, id: nat, r: Record)
    requires TasksOk(t) && id < |t.records| && RecordOk(r) && r.auth == t.records[id].auth
    requires Holds(t, id) && IsActive(r) ==> r.owner != Nobody
    ensures TasksOk(Update(t, id, r))
  {
    var t' := Update(t, id, r);
    assert forall k :: 0 <= k < |t.records| ==> (Holds(t', k) <==> Holds(t, k));
  }

  /** The first of a dispatcher's records is settled, or passes to another owner. */
  lemma {:induction false} PopDispatchers(t: Tasks, dispatchers: map<int, Dispatcher>, d: int, r: Record, phase: Phase)
    requires DispatchersOk(t, dispatchers) && d in dispatchers && dispatchers[d].list != [] && !r.owner.ByDispatcher? && !phase.Holding?
    ensures DispatchersOk(Update(t, dispatchers[d].list[0], r), dispatchers[d := Dispatcher(phase, dispatchers[d].list[1..])])
  {
    var list, id := dispatchers[d].list, dispatchers[d].list[0];
    var t' := Update(t, id, r);
    PopOwn(t, d, list, r);
    forall e | e in dispatchers && e != d
      ensures ListOk(t', e, dispatchers[e].list)
    {
      PopOther(t, e, dispatchers[e].list, d, list, r);
    }
    hide ListOk;
  }

  lemma {:induction false} PopOwn(t: Tasks, d: int, list: seq<nat>, r: Record)
    requires ListOk(t, d, list) && list != [] && !r.owner.ByDispatcher?
    ensures ListOk(Update(t, list[0], r), d, list[1..])
  {
    assert forall i :: 0 <= i < |list| - 1 ==> list[1..][i] == list[i + 1];
    assert forall k :: k in list ==> k == list[0] || k in list[1..];
  }

  lemma {:induction false} PopOther(t: Tasks, e: int, other: seq<nat>, d: int, list: seq<nat>, r: Record)
    requires ListOk(t, e, other) && ListOk(t, d, list) && list != [] && e != d && !r.owner.ByDispatcher?
    ensures ListOk(Update(t, list[0], r), e, other)
  {
  }

  /** A worker's record changes; no dispatcher had it. */
  lemma {:induction false} WorkerDispatchers(t: Tasks, dispatchers: map<int, Dispatcher>, id: nat, r: Record)
    requires DispatchersOk(t, dispatchers) && id < |t.records| && !t.records[id].owner.ByDispatcher? && !r.owner.ByDispatcher?
    ensures DispatchersOk(Update(t, id, r), dispatchers)
  {
    forall e | e in dispatchers
      ensures ListOk(Update(t, id, r), e, dispatchers[e].list)
    {
      assert ListOk(t, e, dispatchers[e].list);
    }
  }

  /** A worker moves on, and its record with it. */
  lemma {:induction false} WorkerMoves(t: Tasks, workers: map<int, Worker>, w: int, work: Work, r: Record)
    requires WorkersOk(t, workers) && w in workers && !workers[w].work.Cooling?
    requires (work.Cooling? && r.owner == Nobody) || (work.Calling? && r.owner == ByWorker(w) && r.status == Running)
    ensures WorkersOk(Update(t, workers[w].task, r), workers[w := workers[w].(work := work)])
  {
    var id := workers[w].task;
    assert WorkerOk(t, w, workers[w]);
    forall x | x in workers && x != w
      ensures WorkerOk(Update(t, id, r), x, workers[x])
    {
      assert WorkerOk(t, x, workers[x]);
    }
  }

  /** A record no worker has changes owner, possibly to a new worker. */
  lemma {:induction false} RecordMoves(t: Tasks, workers: map<int, Worker>, id: nat, r: Record, w: int)
    requires WorkersOk(t, workers) && id < |t.records| && !t.records[id].owner.ByWorker?
    ensures r.owner == Nobody ==> WorkersOk(Update(t, id, r), workers)
    ensures r.owner == ByWorker(w) && r.status == Queued && w !in workers ==> WorkersOk(Update(t, id, r), workers[w := Worker(id, Starting)])
  {
    forall x | x in workers
      ensures WorkerOk(Update(t, id, r), x, workers[x])
    {
      assert WorkerOk(t, x, workers[x]);
    }
  }

  /** A dispatcher changes phase only. */
  lemma {:induction false} PhaseKeeps(v: World, d: int, phase: Phase)
    requires Owned(v) && d in v.dispatchers && (phase.Holding? ==> v.dispatchers[d].list != [])
    ensures Owned(WithDispatcher(v, d, v.dispatchers[d].(phase := phase), v.tasks))
  {
    hide ListOk;
  }

  /** The record a worker leaves behind: settled if the map still held it. */
  ghost predicate Left(t: Tasks, id: nat, t': Tasks) {
    && id < |t.records| && exists r: Record :: t' == Update(t, id, r) && LeftAs(t, id, r)
  }

  ghost predicate LeftAs(t: Tasks, id: nat, r: Record)
    requires id < |t.records|
  {
    && r.owner == Nobody && r.auth == t.records[id].auth
    && (Holds(t, id) ==> !IsActive(r) && r.settled == t.records[id].settled + 1)
    && (!Holds(t, id) ==> r == t.records[id].(owner := Nobody))
  }

  lemma {:induction false} SettleLeaves(t: Tasks, id: nat, t': Tasks)
    requires id < |t.records|
    requires (exists result, now :: t' == Own(MarkCompleted(t, id, result, now), id, Nobody)) || (exists now, ttl :: t' == Own(MarkFailed(t, id, now, ttl), id, Nobody))
    ensures Left(t, id, t')
  {
    if result, now :| t' == Own(MarkCompleted(t, id, result, now), id, Nobody) {
      var r := MarkCompleted(t, id, result, now).records[id].(owner := Nobody);
      assert t' == Update(t, id, r);
    } else {
      var now, ttl :| t' == Own(MarkFailed(t, id, now, ttl), id, Nobody);
      var r := MarkFailed(t, id, now, ttl).records[id].(owner := Nobody);
      assert t' == Update(t, id, r);
    }
  }

  lemma {:induction false} WorkerSettles(v: World, w: int, t': Tasks)
    requires Owned(v) && AtWork(v, w, Calling) && Left(v.tasks, v.workers[w].task, t')
    ensures Owned(WithWorker(v, w, Cooling, t'))
  {
    var id := v.workers[w].task;
    var r: Record :| t' == Update(v.tasks, id, r) && LeftAs(v.tasks, id, r);
    assert WorkerOk(v.tasks, w, v.workers[w]);
    assert RecordOk(v.tasks.records[id]);
    hide DispatchersOk;
    hide WorkersOk;
    hide TasksOk;
    UpdateTasks(v.tasks, id, r);
    WorkerDispatchers(v.tasks, v.dispatchers, id, r);
    WorkerMoves(v.tasks, v.workers, w, Cooling, r);
  }

  lemma {:induction false} DispatcherSettles(v: World, d: int, t': Tasks)
    requires Owned(v) && InPhase(v, d, Failing) && v.dispatchers[d].list != [] && Left(v.tasks, v.dispatchers[d].list[0], t')
    ensures Owned(WithDispatcher(v, d, Dispatcher(Failing, v.dispatchers[d].list[1..]), t'))
  {
    var id := v.dispatchers[d].list[0];
    var r: Record :| t' == Update(v.tasks, id, r) && LeftAs(v.tasks, id, r);
    assert ListOk(v.tasks, d, v.dispatchers[d].list);
    assert RecordOk(v.tasks.records[id]);
    hide DispatchersOk;
    hide WorkersOk;
    hide TasksOk;
    UpdateTasks(v.tasks, id, r);
    PopDispatchers(v.tasks, v.dispatchers, d, r, Failing);
    RecordMoves(v.tasks, v.workers, id, r, 0);
  }

  lemma {:induction false} SpawnKeeps(v: World, d: int, w: int)
    requires Owned(v) && InPhase(v, d, Holding) && v.dispatchers[d].list != [] && w !in v.workers
    ensures Owned(Act(v, Spawn(d, w, true), v.tokens + 1))
  {
    var id := v.dispatchers[d].list[0];
    assert ListOk(v.tasks, d, v.dispatchers[d].list);
    assert RecordOk(v.tasks.records[id]);
    var r := v.tasks.records[id].(owner := ByWorker(w));
    hide DispatchersOk;
    hide WorkersOk;
    hide TasksOk;
    UpdateTasks(v.tasks, id, r);
    PopDispatchers(v.tasks, v.dispatchers, d, r, Dispatching);
    RecordMoves(v.tasks, v.workers, id, r, w);
  }

  lemma {:induction false} BeginKeeps(v: World, w: int)
    requires Owned(v) && AtWork(v, w, Starting)
    ensures Owned(Act(v, Begin(w), v.tokens))
  {
    var id := v.workers[w].task;
    assert WorkerOk(v.tasks, w, v.workers[w]);
    assert RecordOk(v.tasks.records[id]);
    var runs := CanRun(v.tasks, id);
    assert runs <==> Holds(v.tasks, id);
    var r := if runs then v.tasks.records[id].(status := Running) else v.tasks.records[id].(owner := Nobody);
    hide DispatchersOk;
    hide WorkersOk;
    hide TasksOk;
    UpdateTasks(v.tasks, id, r);
    WorkerDispatchers(v.tasks, v.dispatchers, id, r);
    WorkerMoves(v.tasks, v.workers, w, if runs then Calling else Cooling, r);
  }

  lemma {:induction false} DropKeeps(v: World, w: int)
    requires Owned(v) && AtWork(v, w, Calling)
    ensures Owned(Act(v, Drop(w), v.tokens))
  {
    var id := v.workers[w].task;
    assert WorkerOk(v.tasks, w, v.workers[w]);
    assert RecordOk(v.tasks.records[id]);
    var auth, r := v.tasks.records[id].auth, v.tasks.records[id].(owner := Nobody);
    var gone := if Holds(v.tasks, id) then {auth} else {};
    RemoveKeeps(v, gone);
    var t := Without(v.tasks, gone);
    assert !Holds(t, id);
    assert Delete(v.tasks, id) == t;
    hide DispatchersOk;
    hide WorkersOk;
    hide TasksOk;
    UpdateTasks(t, id, r);
    WorkerDispatchers(t, v.dispatchers, id, r);
    WorkerMoves(t, v.workers, w, Cooling, r);
  }

  lemma {:induction false} CloseKeeps(v: World, d: int)
    requires Owned(v) && d in v.dispatchers && v.dispatchers[d].list == []
    ensures Owned(v.(dispatchers := v.dispatchers - {d}))
  {
    hide ListOk;
  }

  lemma {:induction false} ExitKeeps(v: World, w: int)
    requires Owned(v) && AtWork(v, w, Cooling)
    ensures Owned(v.(workers := v.workers - {w}))
  {
    hide WorkerOk;
  }

  lemma {:induction false} OpenKeeps(v: World, d: int)
    requires Owned(v) && d !in v.dispatchers
    ensures Owned(WithDispatcher(v, d, Dispatcher(Collecting, []), v.tasks))
  {
    assert ListOk(v.tasks, d, []);
    hide ListOk;
  }

  lemma {:induction false} EnsureKeeps(v: World, d: int, auth: string, kind: string)
    requires Owned(v) && InPhase(v, d, Collecting)
    ensures Owned(Act(v, EnsureTask(d, auth, kind), v.tokens))
  {
    hide DispatchersOk;
    hide WorkersOk;
    hide TasksOk;
    hide HasActive;
    AddKeeps(v.tasks, NewRecord(auth, kind, ByDispatcher(d)), v.dispatchers, v.workers, d);
  }

  lemma {:induction false} HeaderKeeps(v: World, auth: string, kind: string, observedAt: nat, result: int)
    requires Owned(v)
    ensures Owned(v.(tasks := MergeHeader(v.tasks, auth, kind, observedAt, result)))
  {
    hide DispatchersOk;
    hide WorkersOk;
    hide TasksOk;
    hide HeaderAdmitted;
    AddKeeps(v.tasks, Record(auth, kind, Completed, Some(result), observedAt, 0, 0, Nobody), v.dispatchers, v.workers, 0);
  }

  lemma {:induction false} StepOwned(v: World, a: Action, limit: nat)
    requires Owned(v) && Enabled(v, a, limit)
    ensures Owned(Act(v, a, limit))
  {
    hide Owned;
    match a
    case Open(d) => OpenKeeps(v, d);
    case EnsureTask(d, auth, kind) => EnsureKeeps(v, d, auth, kind);
    case Launch(d, started) => PhaseKeeps(v, d, if started then Dispatching else Failing);
    case TakeToken(d) => PhaseKeeps(v, d, Holding); OwnedTokens(WithDispatcher(v, d, v.dispatchers[d].(phase := Holding), v.tasks), v.tokens + 1);
    case Spawn(d, w, started) =>
      if started {
        SpawnKeeps(v, d, w);
      } else {
        PhaseKeeps(v, d, Failing);
        OwnedTokens(WithDispatcher(v, d, v.dispatchers[d].(phase := Failing), v.tasks), if v.tokens > 0 then v.tokens - 1 else 0);
      }
    case Cancel(d) => PhaseKeeps(v, d, Failing);
    case FailNext(d, now, ttl) =>
      var id := v.dispatchers[d].list[0];
      FirstInRange(v, d);
      var t' := Own(MarkFailed(v.tasks, id, now, ttl), id, Nobody);
      SettleLeaves(v.tasks, id, t');
      DispatcherSettles(v, d, t');
    case Close(d) => CloseKeeps(v, d);
    case Begin(w) => BeginKeeps(v, w);
    case Complete(w, result, now) =>
      var id := v.workers[w].task;
      CallInRange(v, w);
      var t' := Own(MarkCompleted(v.tasks, id, result, now), id, Nobody);
      SettleLeaves(v.tasks, id, t');
      WorkerSettles(v, w, t');
    case Fail(w, now, ttl) =>
      var id := v.workers[w].task;
      CallInRange(v, w);
      var t' := Own(MarkFailed(v.tasks, id, now, ttl), id, Nobody);
      SettleLeaves(v.tasks, id, t');
      WorkerSettles(v, w, t');
    case Drop(w) => DropKeeps(v, w);
    case Exit(w) => ExitKeeps(v, w); OwnedTokens(v.(workers := v.workers - {w}), if v.tokens > 0 then v.tokens - 1 else 0);
    case Expire(now) => RemoveKeeps(v, ExpiredKeys(v.tasks, now));
    case ExpireOne(auth, now) => RemoveKeeps(v, ExpiredKeys(v.tasks, now) * {auth});
    case ClearSettled => RemoveKeeps(v, SettledKeys(v.tasks));
    case Header(auth, kind, observedAt, result) => HeaderKeeps(v, auth, kind, observedAt, result);
  }

  lemma OwnedTokens(v: World, tokens: nat)
    requires Owned(v)
    ensures Owned(v.(tokens := tokens))
  {
  }

  lemma FirstInRange(v: World, d: int)
    requires Owned(v) && d in v.dispatchers && v.dispatchers[d].list != []
    ensures v.dispatchers[d].list[0] < |v.tasks.records|
  {
    assert ListOk(v.tasks, d, v.dispatchers[d].list);
  }

  lemma CallInRange(v: World, w: int)
    requires Owned(v) && AtWork(v, w, Calling)
    ensures v.workers[w].task < |v.tasks.records| && v.tasks.records[v.workers[w].task].owner == ByWorker(w) && v.tasks.records[v.workers[w].task].status == Running
  {
    assert WorkerOk(v.tasks, w, v.workers[w]);
  }

  lemma {:induction false} InvStep(v: World, a: Action, limit: nat)
    requires Inv(v, limit) && Enabled(v, a, limit)
    ensures Inv(Act(v, a, limit), limit)
  {
    hide Act;
    hide Enabled;
    hide TokensOk;
    StepTokens(v, a, limit);
    StepOwned(v, a, limit);
  }

  lemma {:induction false} RunInv(limit: nat, actions: seq<Action>, v: World)
    requires Run(limit, actions, v)
    ensures Inv(v, limit)
  {
    var inv := (x: World) => Inv(x, limit);
    assert inv(IDLE) by {
      assert Holders(IDLE.dispatchers) == {};
    }
    forall before, a, after | inv(before) && Stepped(limit)(before, a, after)
      ensures inv(after)
    {
      hide Inv;
      hide Act;
      InvStep(before, a, limit);
    }
    PathInvariant(Stepped(limit), inv, IDLE, actions, v);
  }

  // ----- what follows -----

  /** Tokens out equal live workers and dispatchers about to start one, within the limit. */
  lemma {:induction false} TokensBounded(limit: nat, actions: seq<Action>, v: World)
    requires Run(limit, actions, v)
    ensures v.tokens == |v.workers| + |Holders(v.dispatchers)| && |v.workers| <= limit
  {
    RunInv(limit, actions, v);
  }

  /** No record is settled twice. */
  lemma {:induction false} SettledOnce(limit: nat, actions: seq<Action>, v: World, id: nat)
    requires Run(limit, actions, v) && id < |v.tasks.records|
    ensures v.tasks.records[id].settled <= 1
  {
    RunInv(limit, actions, v);
    assert RecordOk(v.tasks.records[id]);
  }

  /** When every dispatcher and worker is gone, no task is left queued or running. */
  lemma {:induction false} NothingStuck(limit: nat, actions: seq<Action>, v: World, auth: string)
    requires Run(limit, actions, v) && v.dispatchers == map[] && v.workers == map[]
    ensures !HasActive(v.tasks, auth)
  {
    RunInv(limit, actions, v);
    if HasActive(v.tasks, auth) {
      ActiveHasOwner(v, limit, auth);
    }
  }

  lemma {:induction false} ActiveHasOwner(v: World, limit: nat, auth: string)
    requires Inv(v, limit) && HasActive(v.tasks, auth)
    ensures v.dispatchers != map[] || v.workers != map[]
  {
    var id := v.tasks.byAuth[auth];
    assert Holds(v.tasks, id);
    var r := v.tasks.records[id];
    assert r.owner.ByDispatcher? ==> r.owner.dispatcher in v.dispatchers;
    assert r.owner.ByWorker? ==> r.owner.worker in v.workers;
  }

  /** The workers' steps. */
  ghost predicate IsWorkerStep(a: Action, w: int) {
    a == Begin(w) || a == Drop(w) || a == Exit(w) || ((a.Complete? || a.Fail?) && a.w == w)
  }

  /** A worker changes no record but the one it was given, and writes an outcome only
      into a record it has itself set running. */
  lemma {:induction false} WorkerWritesOwn(v: World, a: Action, w: int, limit: nat, id: nat)
    requires Inv(v, limit) && Enabled(v, a, limit) && IsWorkerStep(a, w) && id < |v.tasks.records|
    ensures |Act(v, a, limit).tasks.records| == |v.tasks.records|
    ensures id != v.workers[w].task ==> Act(v, a, limit).tasks.records[id] == v.tasks.records[id]
    ensures Act(v, a, limit).tasks.records[id].settled != v.tasks.records[id].settled ==>
              v.tasks.records[id].status == Running && v.tasks.records[id].owner == ByWorker(w) && Holds(v.tasks, id)
  {
    if AtWork(v, w, Calling) {
      CallInRange(v, w);
    }
  }

  /** What becomes of the record a worker or dispatcher has in hand. */
  ghost predicate OutcomeOf(a: Action, held: bool, was: Record, r: Record, entry: bool) {
    match a
    case Begin(_) => entry == held && r == was.(status := if held && was.status.Queued? then Running else was.status, owner := r.owner)
    case Complete(_, result, now) =>
      entry == held && r == if held then Record(was.auth, was.kind, Completed, Some(result), now, was.expiresAt, was.settled + 1, Nobody)
                            else was.(owner := Nobody)
    case Fail(_, now, ttl) =>
      entry == held && r == if held then Record(was.auth, was.kind, Failed, was.result, now, now + ttl, was.settled + 1, Nobody)
                            else was.(owner := Nobody)
    case FailNext(_, now, ttl) =>
      entry == held && r == if held then Record(was.auth, was.kind, Failed, was.result, now, now + ttl, was.settled + 1, Nobody)
                            else was.(owner := Nobody)
    case Drop(_) => !entry && r == was.(owner := Nobody)
    case _ => true
  }

  /** A worker that begins sets its queued record running and goes on to the provider,
      or cools down at once; its answer, its failure or its removal is what is recorded, and
      only while the map still holds this very record. */
  lemma {:induction false} OutcomeWritten(v: World, a: Action, limit: nat, id: nat)
    requires Enabled(v, a, limit) && id < |v.tasks.records|
    requires match a
             case Begin(w) => v.workers[w].task == id
             case Complete(w, _, _) => v.workers[w].task == id
             case Fail(w, _, _) => v.workers[w].task == id
             case Drop(w) => v.workers[w].task == id
             case FailNext(d, _, _) => v.dispatchers[d].list[0] == id
             case _ => false
    ensures var v' := Act(v, a, limit);
            && |v'.tasks.records| == |v.tasks.records|
            && OutcomeOf(a, Holds(v.tasks, id), v.tasks.records[id], v'.tasks.records[id], Holds(v'.tasks, id))
            && (a.Begin? ==> v'.workers[a.w].work == if Holds(v.tasks, id) && v.tasks.records[id].status.Queued? then Calling else Cooling)
  {
  }

  /** A queued or running task leaves the map, without having been settled, only to a
      header of another type or because its own worker drops it as unsupported. */
  lemma {:induction false} ActiveDisplaced(v: World, a: Action, limit: nat, auth: string)
    requires Inv(v, limit) && Enabled(v, a, limit) && HasActive(v.tasks, auth)
    requires var id, v' := v.tasks.byAuth[auth], Act(v, a, limit);
             !(Holds(v'.tasks, id) && v'.tasks.records[id].auth == auth)
    ensures var r := v.tasks.records[v.tasks.byAuth[auth]];
            || (a.Header? && a.auth == auth && a.kind != r.kind)
            || (a.Drop? && v.workers[a.w].task == v.tasks.byAuth[auth])
  {
    if a.Drop? {
      DropDisplaces(v, a.w, limit, auth);
      hide Act;
    } else if a.Header? {
      HeaderDisplaces(v, a.auth, a.kind, a.observedAt, a.result, limit, auth);
      hide Act;
    } else {
      hide Act;
      StaysHeld(v, a, limit, auth);
    }
  }

  lemma {:induction false} DropDisplaces(v: World, w: int, limit: nat, auth: string)
    requires Inv(v, limit) && Enabled(v, Drop(w), limit) && HasActive(v.tasks, auth)
    ensures var id, t := v.tasks.byAuth[auth], Act(v, Drop(w), limit).tasks;
            v.workers[w].task == id || (Holds(t, id) && t.records[id].auth == auth)
  {
    assert Indexed(v.tasks);
    CallInRange(v, w);
  }

  lemma {:induction false} HeaderDisplaces(v: World, other: string, kind: string, observedAt: nat, result: int, limit: nat, auth: string)
    requires Inv(v, limit) && HasActive(v.tasks, auth)
    ensures var id, t := v.tasks.byAuth[auth], Act(v, Header(other, kind, observedAt, result), limit).tasks;
            (other == auth && kind != v.tasks.records[id].kind) || (Holds(t, id) && t.records[id].auth == auth)
  {
    assert Indexed(v.tasks);
  }

  /** The account's entry stays, and no record changes its account. */
  ghost predicate EntryStays(t: Tasks, t': Tasks, auth: string) {
    && (auth in t.byAuth ==> auth in t'.byAuth && t'.byAuth[auth] == t.byAuth[auth])
    && |t.records| <= |t'.records| && forall id :: 0 <= id < |t.records| ==> t'.records[id].auth == t.records[id].auth
  }

  lemma {:induction false} SettlingStays(t: Tasks, id: nat, owner: Owner, result: int, now: nat, ttl: nat, auth: string)
    ensures EntryStays(t, Own(t, id, owner), auth) && EntryStays(t, MarkRunning(t, id), auth)
    ensures EntryStays(t, Own(MarkCompleted(t, id, result, now), id, owner), auth)
    ensures EntryStays(t, Own(MarkFailed(t, id, now, ttl), id, owner), auth)
  {
    MarkingStays(t, id, result, now, ttl, auth);
    OwnStays(t, id, owner, auth);
    OwnStays(MarkCompleted(t, id, result, now), id, owner, auth);
    OwnStays(MarkFailed(t, id, now, ttl), id, owner, auth);
    hide Own;
    hide MarkCompleted;
    hide MarkFailed;
  }

  lemma OwnStays(t: Tasks, id: nat, owner: Owner, auth: string)
    ensures EntryStays(t, Own(t, id, owner), auth)
  {
  }

  lemma MarkingStays(t: Tasks, id: nat, result: int, now: nat, ttl: nat, auth: string)
    ensures EntryStays(t, MarkRunning(t, id), auth)
    ensures EntryStays(t, MarkCompleted(t, id, result, now), auth) && EntryStays(t, MarkFailed(t, id, now, ttl), auth)
  {
  }

  lemma EnsureStays(t: Tasks, other: string, kind: string, owner: Owner, auth: string)
    requires HasActive(t, auth)
    ensures EntryStays(t, Ensure(t, other, kind, owner), auth)
  {
  }

  lemma WithoutStays(t: Tasks, gone: set<string>, auth: string)
    requires auth !in gone
    ensures EntryStays(t, Without(t, gone), auth)
  {
  }

  lemma {:induction false} EntryHeld(t: Tasks, t': Tasks, auth: string)
    requires Indexed(t) && auth in t.byAuth && EntryStays(t, t', auth)
    ensures Holds(t', t.byAuth[auth]) && t'.records[t.byAuth[auth]].auth == auth
  {
  }

  /** Actions on phases and tokens leave the tasks as they are. */
  lemma {:induction false} TasksUntouched(v: World, a: Action, limit: nat)
    requires Enabled(v, a, limit) && (a.Open? || a.Launch? || a.TakeToken? || a.Cancel? || a.Close? || a.Exit?)
    ensures Act(v, a, limit).tasks == v.tasks
  {
  }

  lemma {:induction false} DispatcherStays(v: World, a: Action, limit: nat, auth: string)
    requires Enabled(v, a, limit) && HasActive(v.tasks, auth) && (a.EnsureTask? || a.Spawn? || a.FailNext?)
    ensures EntryStays(v.tasks, Act(v, a, limit).tasks, auth)
  {
    hide Own;
    hide MarkFailed;
    hide EntryStays;
    NothingChanged(v.tasks, auth);
    match a
    case EnsureTask(d, other, kind) => EnsureStays(v.tasks, other, kind, ByDispatcher(d), auth);
    case Spawn(d, w, started) => OwnStays(v.tasks, v.dispatchers[d].list[0], ByWorker(w), auth);
    case FailNext(d, now, ttl) => SettlingStays(v.tasks, v.dispatchers[d].list[0], Nobody, 0, now, ttl, auth);
  }

  lemma {:induction false} WorkerStays(v: World, a: Action, limit: nat, auth: string)
    requires Enabled(v, a, limit) && (a.Begin? || a.Complete? || a.Fail?)
    ensures EntryStays(v.tasks, Act(v, a, limit).tasks, auth)
  {
    hide Own;
    hide MarkRunning;
    hide MarkCompleted;
    hide MarkFailed;
    hide EntryStays;
    match a
    case Begin(w) => SettlingStays(v.tasks, v.workers[w].task, Nobody, 0, 0, 0, auth);
    case Complete(w, result, now) => SettlingStays(v.tasks, v.workers[w].task, Nobody, result, now, 0, auth);
    case Fail(w, now, ttl) => SettlingStays(v.tasks, v.workers[w].task, Nobody, 0, now, ttl, auth);
  }

  lemma {:induction false} CleanupStays(v: World, a: Action, limit: nat, auth: string)
    requires TasksOk(v.tasks) && Enabled(v, a, limit) && HasActive(v.tasks, auth) && (a.Expire? || a.ExpireOne? || a.ClearSettled?)
    ensures EntryStays(v.tasks, Act(v, a, limit).tasks, auth)
  {
    ActiveNotGone(v.tasks, auth);
    hide Without;
    hide ExpiredKeys;
    hide SettledKeys;
    hide EntryStays;
    match a
    case Expire(now) => WithoutStays(v.tasks, ExpiredKeys(v.tasks, now), auth);
    case ExpireOne(other, now) => WithoutStays(v.tasks, ExpiredKeys(v.tasks, now) * {other}, auth);
    case ClearSettled => WithoutStays(v.tasks, SettledKeys(v.tasks), auth);
  }

  /** Of the other actions none takes an active task out of the map. */
  lemma {:induction false} StaysHeld(v: World, a: Action, limit: nat, auth: string)
    requires Inv(v, limit) && Enabled(v, a, limit) && HasActive(v.tasks, auth) && !a.Drop? && !a.Header?
    ensures var id, t := v.tasks.byAuth[auth], Act(v, a, limit).tasks; Holds(t, id) && t.records[id].auth == auth
  {
    ActiveNotGone(v.tasks, auth);
    NothingChanged(v.tasks, auth);
    hide Act;
    hide Enabled;
    hide EntryStays;
    if a.EnsureTask? || a.Spawn? || a.FailNext? {
      DispatcherStays(v, a, limit, auth);
    } else if a.Begin? || a.Complete? || a.Fail? {
      WorkerStays(v, a, limit, auth);
    } else if a.Expire? || a.ExpireOne? || a.ClearSettled? {
      CleanupStays(v, a, limit, auth);
    } else {
      TasksUntouched(v, a, limit);
    }
    EntryHeld(v.tasks, Act(v, a, limit).tasks, auth);
  }

  lemma NothingChanged(t: Tasks, auth: string)
    ensures EntryStays(t, t, auth)
  {
  }

  lemma {:induction false} ActiveNotGone(t: Tasks, auth: string)
    requires TasksOk(t) && HasActive(t, auth)
    ensures Indexed(t) && auth in t.byAuth && auth !in SettledKeys(t) && forall now :: auth !in ExpiredKeys(t, now)
  {
    assert RecordOk(t.records[t.byAuth[auth]]);
  }
}
