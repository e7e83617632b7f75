/** Quota refresh tasks: requests, dispatchers, workers, headers and cleanup sharing one
    task map. */
module RefreshProtocol {
  import opened Wrappers
  import opened Runs

  datatype Status = Queued | Running | Completed | Failed

  /** Who will still settle a record. */
  datatype Owner = Nobody | ByDispatcher(dispatcher: int) | ByWorker(worker: int)

  /** A task record; its number in the list of records is its identity. `expiresAt` and
      `refreshedAt` are 0 while unset, and `settled` counts its terminal transitions. */
  datatype Record = Record(
    auth: string, kind: string, status: Status, result: Option<int>, refreshedAt: nat, expiresAt: nat, settled: nat, owner: Owner)

  predicate IsActive(r: Record) {
    r.status.Queued? || r.status.Running?
  }

  datatype Tasks = Tasks(records: seq<Record>, byAuth: map<string, nat>)

  ghost predicate Indexed(t: Tasks) {
    forall a :: a in t.byAuth ==> t.byAuth[a] < |t.records| && t.records[t.byAuth[a]].auth == a
  }

  /** The map still holds this very record. */
  predicate Holds(t: Tasks, id: nat) {
    id < |t.records| && t.records[id].auth in t.byAuth && t.byAuth[t.records[id].auth] == id
  }

  function Update(t: Tasks, id: nat, r: Record): Tasks
    requires id < |t.records|
  {
    t.(records := t.records[id := r])
  }

  // ----- the critical sections -----

  function HasActive(t: Tasks, auth: string): bool {
    auth in t.byAuth && t.byAuth[auth] < |t.records| && IsActive(t.records[t.byAuth[auth]])
  }

  function NewRecord(auth: string, kind: string, owner: Owner): Record {
    Record(auth, kind, Queued, None, 0, 0, 0, owner)
  }

  /** A new queued task, unless one is queued or running already. */
  function Ensure(t: Tasks, auth: string, kind: string, owner: Owner): Tasks {
    if HasActive(t, auth) then t
    else Tasks(t.records + [NewRecord(auth, kind, owner)], t.byAuth[auth := |t.records|])
  }

  predicate CanRun(t: Tasks, id: nat) {
    Holds(t, id) && t.records[id].status == Queued
  }

  function MarkRunning(t: Tasks, id: nat): Tasks {
    if CanRun(t, id) then Update(t, id, t.records[id].(status := Running)) else t
  }

  function MarkCompleted(t: Tasks, id: nat, result: int, now: nat): Tasks {
    if Holds(t, id) then
      var r := t.records[id];
      Update(t, id, r.(status := Completed, result := Some(result), refreshedAt := now, settled := r.settled + 1))
    else t
  }

  function MarkFailed(t: Tasks, id: nat, now: nat, ttl: nat): Tasks {
    if Holds(t, id) then
      var r := t.records[id];
      Update(t, id, r.(status := Failed, refreshedAt := now, expiresAt := now + ttl, settled := r.settled + 1))
    else t
  }

  function Delete(t: Tasks, id: nat): Tasks {
    if Holds(t, id) then t.(byAuth := t.byAuth - {t.records[id].auth}) else t
  }

  predicate Expired(r: Record, now: nat) {
    r.expiresAt != 0 && r.expiresAt <= now
  }

  function Without(t: Tasks, gone: set<string>): Tasks {
    t.(byAuth := t.byAuth - gone)
  }

  function ExpiredKeys(t: Tasks, now: nat): set<string> {
    set a | a in t.byAuth && t.byAuth[a] < |t.records| && Expired(t.records[t.byAuth[a]], now)
  }

  function SettledKeys(t: Tasks): set<string> {
    set a | a in t.byAuth && t.byAuth[a] < |t.records| && !IsActive(t.records[t.byAuth[a]])
  }

  /** An active task of the same type, or a completed one no older, keeps a header out. */
  predicate HeaderAdmitted(t: Tasks, auth: string, kind: string, observedAt: nat) {
    auth in t.byAuth && t.byAuth[auth] < |t.records| ==>
      var r := t.records[t.byAuth[auth]];
      && !(IsActive(r) && r.kind == kind)
      && !(r.kind == kind && r.status == Completed && r.refreshedAt != 0 && observedAt <= r.refreshedAt)
  }

  function MergeHeader(t: Tasks, auth: string, kind: string, observedAt: nat, result: int): Tasks {
    if HeaderAdmitted(t, auth, kind, observedAt) then
      Tasks(t.records + [Record(auth, kind, Completed, Some(result), observedAt, 0, 0, Nobody)], t.byAuth[auth := |t.records|])
    else t
  }

  // ----- the parties -----

  /** A request collects its tasks; its dispatcher then hands them to workers one by one,
      or fails what is left. */
  datatype Phase = Collecting | Dispatching | Holding | Failing

  datatype Dispatcher = Dispatcher(phase: Phase, list: seq<nat>)

  /** A worker about to start, calling the provider, or cooling down. */
  datatype Work = Starting | Calling | Cooling

  datatype Worker = Worker(task: nat, work: Work)

  datatype World = World(tasks: Tasks, dispatchers: map<int, Dispatcher>, workers: map<int, Worker>, tokens: nat)

  datatype Action =
    | Open(d: int)
    | EnsureTask(d: int, auth: string, kind: string)
    | Launch(d: int, started: bool)
    | TakeToken(d: int)
    | Spawn(d: int, w: int, started: bool)
    | Cancel(d: int)
    | FailNext(d: int, now: nat, ttl: nat)
    | Close(d: int)
    | Begin(w: int)
    | Complete(w: int, result: int, now: nat)
    | Fail(w: int, now: nat, ttl: nat)
    | Drop(w: int)
    | Exit(w: int)
    | Expire(now: nat)
    | ExpireOne(auth: string, now: nat)
    | ClearSettled
    | Header(auth: string, kind: string, observedAt: nat, result: int)

  ghost predicate InPhase(v: World, d: int, phase: Phase) {
    d in v.dispatchers && v.dispatchers[d].phase == phase
  }

  ghost predicate AtWork(v: World, w: int, work: Work) {
    w in v.workers && v.workers[w].work == work
  }

  ghost predicate Enabled(v: World, a: Action, limit: nat) {
    match a
    case Open(d) => d !in v.dispatchers
    case EnsureTask(d, _, _) => InPhase(v, d, Collecting)
    case Launch(d, _) => InPhase(v, d, Collecting) && v.dispatchers[d].list != []
    case TakeToken(d) => InPhase(v, d, Dispatching) && v.dispatchers[d].list != [] && v.tokens < limit
    case Spawn(d, w, _) => InPhase(v, d, Holding) && v.dispatchers[d].list != [] && w !in v.workers
    case Cancel(d) => InPhase(v, d, Dispatching)
    case FailNext(d, now, _) => InPhase(v, d, Failing) && v.dispatchers[d].list != [] && 0 < now
    case Close(d) => d in v.dispatchers && v.dispatchers[d].list == [] && !v.dispatchers[d].phase.Holding?
    case Begin(w) => AtWork(v, w, Starting)
    case Complete(w, _, now) => AtWork(v, w, Calling) && 0 < now
    case Fail(w, now, _) => AtWork(v, w, Calling) && 0 < now
    case Drop(w) => AtWork(v, w, Calling)
    case Exit(w) => AtWork(v, w, Cooling)
    case _ => true
  }

  /** A record changes hands, or is left to nobody. */
  function Own(t: Tasks, id: nat, owner: Owner): Tasks {
    if id < |t.records| then Update(t, id, t.records[id].(owner := owner)) else t
  }

  function WithWorker(v: World, w: int, work: Work, tasks: Tasks): World
    requires w in v.workers
  {
    v.(tasks := tasks, workers := v.workers[w := v.workers[w].(work := work)])
  }

  function WithDispatcher(v: World, d: int, dispatcher: Dispatcher, tasks: Tasks): World {
    v.(tasks := tasks, dispatchers := v.dispatchers[d := dispatcher])
  }

  ghost function Act(v: World, a: Action, limit: nat): World
    requires Enabled(v, a, limit)
  {
    match a
    case Open(d) => WithDispatcher(v, d, Dispatcher(Collecting, []), v.tasks)
    case EnsureTask(d, auth, kind) =>
      if HasActive(v.tasks, auth) then v
      else WithDispatcher(v, d, Dispatcher(Collecting, v.dispatchers[d].list + [|v.tasks.records|]), Ensure(v.tasks, auth, kind, ByDispatcher(d)))
    case Launch(d, started) => WithDispatcher(v, d, v.dispatchers[d].(phase := if started then Dispatching else Failing), v.tasks)
    case TakeToken(d) => WithDispatcher(v, d, v.dispatchers[d].(phase := Holding), v.tasks).(tokens := v.tokens + 1)
    case Spawn(d, w, started) =>
      var list := v.dispatchers[d].list;
      if started then
        WithDispatcher(v, d, Dispatcher(Dispatching, list[1..]), Own(v.tasks, list[0], ByWorker(w))).(workers := v.workers[w := Worker(list[0], Starting)])
      else WithDispatcher(v, d, v.dispatchers[d].(phase := Failing), v.tasks).(tokens := if v.tokens > 0 then v.tokens - 1 else 0)
    case Cancel(d) => WithDispatcher(v, d, v.dispatchers[d].(phase := Failing), v.tasks)
    case FailNext(d, now, ttl) =>
      var list := v.dispatchers[d].list;
      WithDispatcher(v, d, Dispatcher(Failing, list[1..]), Own(MarkFailed(v.tasks, list[0], now, ttl), list[0], Nobody))
    case Close(d) => v.(dispatchers := v.dispatchers - {d})
    case Begin(w) =>
      var id := v.workers[w].task;
      if CanRun(v.tasks, id) then WithWorker(v, w, Calling, MarkRunning(v.tasks, id))
      else WithWorker(v, w, Cooling, Own(v.tasks, id, Nobody))
    case Complete(w, result, now) =>
      var id := v.workers[w].task;
      WithWorker(v, w, Cooling, Own(MarkCompleted(v.tasks, id, result, now), id, Nobody))
    case Fail(w, now, ttl) =>
      var id := v.workers[w].task;
      WithWorker(v, w, Cooling, Own(MarkFailed(v.tasks, id, now, ttl), id, Nobody))
    case Drop(w) =>
      var id := v.workers[w].task;
      WithWorker(v, w, Cooling, Own(Delete(v.tasks, id), id, Nobody))
    case Exit(w) => v.(workers := v.workers - {w}, tokens := if v.tokens > 0 then v.tokens - 1 else 0)
    case Expire(now) => v.(tasks := Without(v.tasks, ExpiredKeys(v.tasks, now)))
    case ExpireOne(auth, now) => v.(tasks := Without(v.tasks, ExpiredKeys(v.tasks, now) * {auth}))
    case ClearSettled => v.(tasks := Without(v.tasks, SettledKeys(v.tasks)))
    case Header(auth, kind, observedAt, result) => v.(tasks := MergeHeader(v.tasks, auth, kind, observedAt, result))
  }

  ghost predicate Step(v: World, a: Action, v': World, limit: nat) {
    Enabled(v, a, limit) && v' == Act(v, a, limit)
  }

  const IDLE := World(Tasks([], map[]), map[], map[], 0)

  ghost function Stepped(limit: nat): Relation<World, Action> {
    (v, a, v') => Step(v, a, v', limit)
  }

  /** A run from the start: any interleaving of the actions. */
  ghost predicate Run(limit: nat, actions: seq<Action>, v: World) {
    Path(Stepped(limit), IDLE, actions, v)
  }
}
