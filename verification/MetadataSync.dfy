/** The metadata sync loop: channels, a debounce timer, and requesters beside it. */
module MetadataSync {
  import opened Runs

  /** The debounce timer: absent, running, fired, or fired and taken. */
  datatype Timer = Absent | Armed(due: nat) | Fired | Taken

  datatype Cause = ByConnection | ByInterval | ByRefresh

  /** Where the loop stands between its steps. `saw` is the last request read before a
      debounced sync was decided on. */
  datatype Phase =
    | Waiting
    | Connecting
    | Arming
    | Draining
    | Deciding
    | Starting(cause: Cause, saw: nat)
    | Syncing(cause: Cause)
    | Done

  /** `lastRequest` is 0 until a request is recorded. `unserved` says a request has been
      recorded since the last sync began, `everConnected` that ingest has connected. */
  datatype World = World(
    now: nat, notifications: bool, activated: bool, lastRequest: nat, refreshToken: bool, connectedToken: bool,
    timer: Timer, phase: Phase, requesters: set<int>, unserved: bool, everConnected: bool)

  datatype Action =
    | Tick
    | Fire
    | Record(id: int, upstream: bool)
    | Send(id: int)
    | SetMode(notifications: bool)
    | Connected
    | TakeConnected
    | Activate
    | Interval
    | TakeRefresh
    | Arm
    | TakeTimer
    | DrainOne
    | DrainDone
    | Decide
    | StartSync
    | FinishSync
    | Cancel

  /** How long a debounced sync still has to wait. */
  function Delay(lastRequest: nat, now: nat, debounce: nat): nat {
    if lastRequest == 0 then debounce
    else if lastRequest + debounce < now then 0
    else lastRequest + debounce - now
  }

  ghost predicate Enabled(v: World, a: Action) {
    match a
    case Fire => v.timer.Armed? && v.timer.due <= v.now
    case Record(id, _) => id !in v.requesters
    case Send(id) => id in v.requesters
    case TakeConnected => v.phase.Waiting? && v.connectedToken
    case Activate => v.phase.Connecting?
    case Interval => v.phase.Waiting?
    case TakeRefresh => v.phase.Waiting? && v.refreshToken
    case Arm => v.phase.Arming?
    case TakeTimer => v.phase.Waiting? && v.timer.Fired?
    case DrainOne => v.phase.Draining? && v.refreshToken
    case DrainDone => v.phase.Draining? && !v.refreshToken
    case Decide => v.phase.Deciding?
    case StartSync => v.phase.Starting?
    case FinishSync => v.phase.Syncing?
    case Cancel => v.phase.Waiting? || v.phase.Starting?
    case _ => true
  }

  function RecordRequest(v: World, id: int, upstream: bool): World {
    var heard := v.(notifications := v.notifications || upstream);
    if v.activated then heard.(lastRequest := v.now, requesters := v.requesters + {id}, unserved := true) else heard
  }

  ghost function Act(v: World, a: Action, debounce: nat): World
    requires Enabled(v, a)
  {
    match a
    case Tick => v.(now := v.now + 1)
    case Fire => v.(timer := Fired)
    case Record(id, upstream) => RecordRequest(v, id, upstream)
    case Send(id) => v.(refreshToken := true, requesters := v.requesters - {id})
    case SetMode(on) => v.(notifications := on)
    case Connected => v.(connectedToken := true, everConnected := true)
    case TakeConnected => v.(connectedToken := false, phase := Connecting)
    case Activate => v.(activated := true, phase := Starting(ByConnection, 0))
    case Interval => v.(phase := if v.activated && !v.notifications then Starting(ByInterval, 0) else Waiting)
    case TakeRefresh => v.(refreshToken := false, phase := Arming)
    case Arm => v.(timer := Armed(v.now + Delay(v.lastRequest, v.now, debounce)), phase := Waiting)
    case TakeTimer => v.(timer := Taken, phase := Draining)
    case DrainOne => v.(refreshToken := false)
    case DrainDone => v.(phase := Deciding)
    case Decide =>
      var delay := Delay(v.lastRequest, v.now, debounce);
      if delay > 0 then v.(timer := Armed(v.now + delay), phase := Waiting) else v.(phase := Starting(ByRefresh, v.lastRequest))
    case StartSync => v.(phase := Syncing(v.phase.cause), unserved := false)
    case FinishSync => v.(phase := Waiting, timer := if v.phase.cause.ByRefresh? then Absent else v.timer)
    case Cancel => v.(phase := Done)
  }

  ghost function Stepped(debounce: nat): Relation<World, Action> {
    (v, a, v') => Enabled(v, a) && v' == Act(v, a, debounce)
  }

  const START := World(1, false, false, 0, false, false, Absent, Waiting, {}, false, false)

  ghost predicate Run(debounce: nat, actions: seq<Action>, v: World) {
    Path(Stepped(debounce), START, actions, v)
  }

  // ----- the invariant -----

  /** The loop is busy with a timer that has gone off. */
  predicate AtTimer(p: Phase) {
    p.Draining? || p.Deciding? || (p.Starting? && p.cause.ByRefresh?) || (p.Syncing? && p.cause.ByRefresh?)
  }

  /** Something is under way that leads to another sync. */
  predicate UnderWay(v: World) {
    || v.refreshToken || v.requesters != {} || v.timer.Armed? || v.timer.Fired?
    || v.phase.Arming? || v.phase.Draining? || v.phase.Deciding? || v.phase.Starting?
  }

  ghost predicate Inv(v: World, debounce: nat) {
    && 1 <= v.now && v.lastRequest <= v.now
    && (v.activated || v.connectedToken || v.phase.Connecting? ==> v.everConnected)
    && (v.refreshToken || v.requesters != {} || !v.timer.Absent? || v.phase.Arming? || v.phase.Starting? || v.phase.Syncing? ==> v.activated)
    && (!v.phase.Done? ==> (v.timer.Taken? <==> AtTimer(v.phase)))
    && (v.timer.Armed? ==> v.timer.due <= v.now + debounce)
    && (v.phase.Starting? && v.phase.cause.ByRefresh? ==> v.phase.saw != 0 && v.phase.saw + debounce <= v.now)
    && (v.unserved && !v.phase.Done? ==> UnderWay(v))
    && (v.unserved ==> v.lastRequest != 0)
  }

  /** The clock, the requesters, and ingest. */
  lemma {:induction false} OutsideStep(v: World, a: Action, debounce: nat)
    requires 0 < debounce && Inv(v, debounce) && Enabled(v, a)
    requires a.Tick? || a.Fire? || a.Record? || a.Send? || a.SetMode? || a.Connected?
    ensures Inv(Act(v, a, debounce), debounce)
  {
    hide Delay;
  }

  /** The loop waiting, and what it wakes up to. */
  lemma {:induction false} WakingStep(v: World, a: Action, debounce: nat)
    requires 0 < debounce && Inv(v, debounce) && Enabled(v, a)
    requires a.TakeConnected? || a.Activate? || a.Interval? || a.TakeRefresh? || a.TakeTimer? || a.Cancel?
    ensures Inv(Act(v, a, debounce), debounce)
  {
    hide Delay;
  }

  /** The timer's branch and the sync. */
  lemma {:induction false} WorkingStep(v: World, a: Action, debounce: nat)
    requires 0 < debounce && Inv(v, debounce) && Enabled(v, a)
    requires a.Arm? || a.DrainOne? || a.DrainDone? || a.Decide? || a.StartSync? || a.FinishSync?
    ensures Inv(Act(v, a, debounce), debounce)
  {
  }

  lemma {:induction false} InvStep(v: World, a: Action, debounce: nat)
    requires 0 < debounce && Inv(v, debounce) && Enabled(v, a)
    ensures Inv(Act(v, a, debounce), debounce)
  {
    hide Inv;
    hide Act;
    hide Enabled;
    if a.Tick? || a.Fire? || a.Record? || a.Send? || a.SetMode? || a.Connected? {
      OutsideStep(v, a, debounce);
    } else if a.TakeConnected? || a.Activate? || a.Interval? || a.TakeRefresh? || a.TakeTimer? || a.Cancel? {
      WakingStep(v, a, debounce);
    } else {
      WorkingStep(v, a, debounce);
    }
  }

  lemma {:induction false} RunInv(debounce: nat, actions: seq<Action>, v: World)
    requires 0 < debounce && Run(debounce, actions, v)
    ensures Inv(v, debounce)
  {
    var inv := (x: World) => Inv(x, debounce);
    forall before, a, after | inv(before) && Stepped(debounce)(before, a, after)
      ensures inv(after)
    {
      hide Inv;
      hide Act;
      InvStep(before, a, debounce);
    }
    PathInvariant(Stepped(debounce), inv, START, actions, v);
  }

  // ----- what follows -----

  /** No refresh is lost: while the loop lives, a request recorded since the last sync
      began has a token in the channel, a timer running or fired, a requester about to
      send, or the loop already acting on one. */
  lemma {:induction false} NothingLost(debounce: nat, actions: seq<Action>, v: World)
    requires 0 < debounce && Run(debounce, actions, v) && v.unserved && !v.phase.Done?
    ensures UnderWay(v)
  {
    RunInv(debounce, actions, v);
  }

  /** Nor does the loop get stuck over it: unless it is waiting for a timer that is due
      within the debounce period, or for a requester, it can move on by itself. */
  lemma {:induction false} NeverStuck(debounce: nat, actions: seq<Action>, v: World)
    requires 0 < debounce && Run(debounce, actions, v) && v.unserved && !v.phase.Done?
    ensures v.requesters != {} || (v.timer.Armed? && v.timer.due <= v.now + debounce)
            || exists a :: a !in {Tick, Connected} && !a.Record? && !a.SetMode? && !a.Cancel? && a != Interval && Enabled(v, a)
  {
    RunInv(debounce, actions, v);
    if v.requesters == {} && !v.timer.Armed? {
      var a := NextMove(v);
      assert Enabled(v, a);
    }
  }

  function NextMove(v: World): Action {
    match v.phase
    case Waiting => if v.refreshToken then TakeRefresh else TakeTimer
    case Connecting => Activate
    case Arming => Arm
    case Draining => if v.refreshToken then DrainOne else DrainDone
    case Deciding => Decide
    case Starting(_, _) => StartSync
    case Syncing(_) => FinishSync
    case Done => Tick
  }

  /** No sync begins before ingest has connected once. */
  lemma {:induction false} NoSyncBeforeConnection(debounce: nat, actions: seq<Action>, v: World)
    requires 0 < debounce && Run(debounce, actions, v) && Enabled(v, StartSync)
    ensures v.activated && v.everConnected
  {
    RunInv(debounce, actions, v);
  }

  /** A debounced sync begins only when the quiet period after the last request it saw
      has passed, and it answers every request recorded before it began. */
  lemma {:induction false} QuietBeforeSync(debounce: nat, actions: seq<Action>, v: World)
    requires 0 < debounce && Run(debounce, actions, v) && Enabled(v, StartSync) && v.phase.cause.ByRefresh?
    ensures v.phase.saw != 0 && v.phase.saw + debounce <= v.now && !Act(v, StartSync, debounce).unserved
  {
    RunInv(debounce, actions, v);
  }

  // ----- the runner's own steps -----

  /** The runner's fields, its two one-element channels and its timer. */
  class Runner {
    var notifications: bool
    var activated: bool
    var lastRequest: nat
    var refreshToken: bool
    var connectedToken: bool
    var timer: Timer
    const debounce: nat

    constructor (debounce: nat)
      ensures !notifications && !activated && lastRequest == 0 && !refreshToken && !connectedToken && timer == Absent
      ensures this.debounce == if debounce == 0 then 1_000_000_000 else debounce
    {
      notifications, activated, lastRequest, refreshToken, connectedToken, timer := false, false, 0, false, false, Absent;
      this.debounce := if debounce == 0 then 1_000_000_000 else debounce;
    }

    /** The fields agree with the protocol's state. */
    ghost predicate Mirrors(v: World)
      reads this
    {
      && notifications == v.notifications && activated == v.activated && lastRequest == v.lastRequest
      && refreshToken == v.refreshToken && connectedToken == v.connectedToken && timer == v.timer
    }

    /** The critical section of a request; the caller sends a token only if this says so. */
    method RecordRefreshRequest(upstream: bool, now: nat, ghost v: World, ghost id: int) returns (changed: bool, active: bool)
      requires Mirrors(v) && v.now == now && id !in v.requesters
      modifies this
      ensures Mirrors(RecordRequest(v, id, upstream)) && active == v.activated
      ensures changed == (upstream && !v.notifications)
      ensures active <==> id in RecordRequest(v, id, upstream).requesters
    {
      changed := false;
      if upstream {
        changed := !notifications;
        notifications := true;
      }
      active := activated;
      if active {
        lastRequest := now;
      }
    }

    /** A full channel already says all there is to say. */
    method SendRefresh(ghost v: World, ghost id: int)
      requires Mirrors(v) && Enabled(v, Send(id))
      modifies this`refreshToken
      ensures Mirrors(Act(v, Send(id), debounce))
    {
      if !refreshToken {
        refreshToken := true;
      }
    }

    method RefreshDebounceDelay(now: nat) returns (delay: nat)
      ensures delay == Delay(lastRequest, now, debounce)
    {
      if lastRequest == 0 {
        return debounce;
      }
      var due := lastRequest + debounce;
      return if due < now then 0 else due - now;
    }

    /** The branch of a refresh token: arm the timer, or start it over. */
    method OnRefresh(now: nat, ghost v: World)
      requires Mirrors(v) && v.now == now && Enabled(v, Arm)
      modifies this`timer
      ensures Mirrors(Act(v, Arm, debounce))
    {
      var delay := RefreshDebounceDelay(now);
      timer := Armed(now + delay);
    }

    method DrainRefreshRequests(ghost v: World)
      requires Mirrors(v) && v.phase.Draining?
      modifies this`refreshToken
      ensures Mirrors(v.(refreshToken := false)) && !refreshToken
    {
      while refreshToken
        invariant Mirrors(v.(refreshToken := refreshToken))
        decreases refreshToken
      {
        refreshToken := false;
      }
    }

    /** The decision after draining: wait for the rest of the quiet period, or sync. */
    method OnDebounce(now: nat, ghost v: World) returns (sync: bool)
      requires Mirrors(v) && v.now == now && Enabled(v, Decide)
      modifies this`timer
      ensures Mirrors(Act(v, Decide, debounce)) && (sync <==> Act(v, Decide, debounce).phase.Starting?)
    {
      var delay := RefreshDebounceDelay(now);
      if delay > 0 {
        timer := Armed(now + delay);
        return false;
      }
      return true;
    }
  }
}
