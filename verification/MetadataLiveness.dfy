/** A requested sync does begin: left alone, the loop gets there within the debounce period. */
module MetadataLiveness {
  import opened Runs
  import opened MetadataSync
  import Choice

  /** The clock, the timer, a requester that sends, and the loop's own steps: no new
      request, no change of mode, no connection, no shutdown. */
  predicate Calm(a: Action) {
    a.Tick? || a.Fire? || a.Send? || a.Activate? || a.TakeRefresh? || a.Arm? || a.TakeTimer? || a.DrainOne? || a.DrainDone? || a.Decide?
    || a.StartSync? || a.FinishSync?
  }

  /** The quiet period will be over when the loop next decides. */
  predicate Ripe(v: World, debounce: nat) {
    match v.phase
    case Syncing(_) => false
    case Draining => v.lastRequest + debounce <= v.now
    case Deciding => v.lastRequest + debounce <= v.now
    case Waiting =>
      if v.refreshToken then true
      else (match v.timer
            case Fired => v.lastRequest + debounce <= v.now
            case Armed(due) => v.lastRequest + debounce <= due
            case _ => true)
    case _ => true
  }

  /** How far the loop has come. */
  function Stage(v: World): nat {
    match v.phase
    case Starting(_, _) => 0
    case Deciding => 1
    case Connecting => 1
    case Draining => 2
    case Waiting => if v.refreshToken then 5 else if v.timer.Fired? then 3 else if v.timer.Armed? then 4 else 6
    case Arming => 7
    case Syncing(_) => 7
    case Done => 0
  }

  /** Instants until the timer is due. */
  function Ticks(v: World): nat {
    if v.timer.Armed? && v.now < v.timer.due then v.timer.due - v.now else 0
  }

  /** Requesters and tokens still to come. */
  function Tokens(v: World): nat {
    2 * |v.requesters| + if v.refreshToken then 1 else 0
  }

  predicate Closer(w: World, v: World, debounce: nat) {
    || (Ripe(w, debounce) && !Ripe(v, debounce))
    || (Ripe(w, debounce) == Ripe(v, debounce) &&
        (|| Tokens(w) < Tokens(v)
         || (Tokens(w) == Tokens(v) && (Stage(w) < Stage(v) || (Stage(w) == Stage(v) && Ticks(w) < Ticks(v))))))
  }

  /** Nothing is planned for later than the deadline. */
  ghost predicate Pending(v: World, debounce: nat, deadline: nat) {
    && Inv(v, debounce) && v.unserved && !v.phase.Done?
    && v.now <= deadline && v.lastRequest + debounce <= deadline && (v.timer.Armed? ==> v.timer.due <= deadline)
  }

  /** The loop's next move; it waits for a requester only if nothing else is to come. */
  function NextCalm(v: World, requester: int): Action {
    match v.phase
    case Waiting =>
      if v.refreshToken then TakeRefresh
      else (match v.timer
            case Fired => TakeTimer
            case Armed(due) => if due <= v.now then Fire else Tick
            case _ => Send(requester))
    case Connecting => Activate
    case Arming => Arm
    case Draining => if v.refreshToken then DrainOne else DrainDone
    case Deciding => Decide
    case Starting(_, _) => StartSync
    case Syncing(_) => FinishSync
    case Done => Tick
  }

  lemma {:induction false} CalmPending(v: World, a: Action, debounce: nat, deadline: nat)
    requires 0 < debounce && Pending(v, debounce, deadline) && Enabled(v, a) && Calm(a) && (a.Tick? ==> v.timer.Armed? && v.now < v.timer.due)
    ensures var w := Act(v, a, debounce);
            w.now <= deadline && (!w.unserved || Pending(w, debounce, deadline))
  {
    InvStep(v, a, debounce);
    hide Inv;
  }

  lemma {:induction false} CalmCloser(v: World, a: Action, debounce: nat, deadline: nat)
    requires 0 < debounce && Pending(v, debounce, deadline) && Enabled(v, a) && exists requester :: a == NextCalm(v, requester)
    ensures var w := Act(v, a, debounce);
            !w.unserved || Closer(w, v, debounce)
  {
  }

  lemma {:induction false} CalmStep(v: World, debounce: nat, deadline: nat) returns (a: Action, w: World)
    requires 0 < debounce && Pending(v, debounce, deadline)
    ensures Enabled(v, a) && Calm(a) && w == Act(v, a, debounce) && w.now <= deadline
    ensures !w.unserved || (Pending(w, debounce, deadline) && Closer(w, v, debounce))
  {
    hide Act;
    hide Closer;
    var requester := 0;
    if v.requesters != {} {
      requester := Choice.SomeElement(v.requesters);
    }
    a := NextCalm(v, requester);
    w := Act(v, a, debounce);
    CalmPending(v, a, debounce, deadline);
    CalmCloser(v, a, debounce, deadline);
  }

  lemma {:induction false} StepsOn(v: World, debounce: nat, deadline: nat) returns (actions: seq<Action>, w: World)
    requires 0 < debounce && Pending(v, debounce, deadline)
    ensures Path(Stepped(debounce), v, actions, w) && (forall a :: a in actions ==> Calm(a)) && !w.unserved && w.now <= deadline
    decreases if Ripe(v, debounce) then 0 else 1, Tokens(v), Stage(v), Ticks(v)
  {
    hide Pending;
    hide Act;
    hide Enabled;
    hide Ripe;
    hide Stage;
    hide Ticks;
    hide Tokens;
    hide Calm;
    var a, next := CalmStep(v, debounce, deadline);
    PathOne(Stepped(debounce), v, a, next);
    if !next.unserved {
      return [a], next;
    }
    var rest, last := StepsOn(next, debounce, deadline);
    PathConcat(Stepped(debounce), v, [a], next, rest, last);
    return [a] + rest, last;
  }

  /** From every world that can be reached with a request not yet served, the loop left
      alone begins a sync, no later than a debounce period from now. */
  lemma {:induction false} SyncBegins(debounce: nat, before: seq<Action>, v: World) returns (actions: seq<Action>, w: World)
    requires 0 < debounce && Run(debounce, before, v) && v.unserved && !v.phase.Done?
    ensures Path(Stepped(debounce), v, actions, w) && (forall a :: a in actions ==> Calm(a)) && !w.unserved && w.now <= v.now + debounce
  {
    RunInv(debounce, before, v);
    actions, w := StepsOn(v, debounce, v.now + debounce);
  }
}
