/** The runner as an object: mutex-guarded fields changed by its critical sections,
    and turns that drive the database page by page. Each method is tied to the
    protocol step or steps it carries out. */
module UsageRunner {
  import opened Runs
  import opened Wrappers
  import opened RollupStore
  import opened RunnerProtocol

  /** The database the runner works on. Whether a load, the inbox or a write succeeds
      is up to the environment. */
  class Database {
    var store: Store

    constructor (store: Store)
      ensures this.store == store
    {
      this.store := store;
    }

    method LoadEventPage(after: int, target: int) returns (page: seq<int>)
      ensures page == Page(store.events, after, target, EVENT_PAGE_SIZE)
    {
      page := Page(store.events, after, target, EVENT_PAGE_SIZE);
    }

    /** One transaction: rows and cursor, or nothing. */
    method ApplyPage(k: Rollup, expected: int, page: seq<int>) returns (ok: bool)
      modifies this
      ensures store == Apply(old(store), k, expected, page)
      ensures ok == (store != old(store))
    {
      if page == [] || LastID(page) <= expected || store.cursors.Get(k) != expected {
        return false;
      }
      store := Apply(store, k, expected, page);
      AppliedDiffers(old(store), k, expected, page);
      return true;
    }
  }

  lemma AppliedDiffers(db: Store, k: Rollup, expected: int, page: seq<int>)
    requires page != [] && expected < LastID(page) && db.cursors.Get(k) == expected
    ensures Apply(db, k, expected, page) != db
  {
    assert Apply(db, k, expected, page).cursors.Get(k) == LastID(page);
  }

  /** The rollup turn when nobody interferes: load, write, load, write, ... */
  function Drive(db: Store, t: Turn, loads: Three<bool>, outcomes: Three<Outcome>): (Store, Turn)
    decreases if t.Rolling? then 4 - t.pages.at else 0, if t.Rolling? && t.pages.page == [] then 1 else 0
  {
    if !t.Rolling? || t.pages.at > 3 then (db, t)
    else
      var p := t.pages;
      if p.at == 3 then (db, FinishPages(p))
      else if p.page == [] then Drive(db, LoadPage(db, p, loads.Get(Nth(p.at))), loads, outcomes)
      else
        var (next, turn) := WritePage(db, p, outcomes.Get(Nth(p.at)));
        Drive(next, turn, loads, outcomes)
  }

  function TurnResult(target: int, failed: bool, deferred: bool, reached: bool, loaded: bool, before: nat): Turn {
    if failed then Failed(Rollups) else Rolled(target, reached && !deferred, loaded, deferred, before)
  }

  datatype InboxCheck = InboxEmpty | InboxHolds | InboxUnknown

  /** What the identity page reports: how far it got and whether that was the end. */
  datatype Batch = Batch(reachedEnd: bool, lastIdentityID: int)

  /** What a rollup turn goes on with once it has tried to read the cursors. */
  function CursorsRead(db: Store, target: int, readOk: bool): Turn {
    if readOk then ReadCursors(db, target) else Failed(Rollups)
  }

  /** A turn nobody interferes with, and the bookkeeping behind it. */
  function UndisturbedTurn(
      r: Runner, db: Store, inbox: InboxCheck, readOk: bool, loads: Three<bool>, outcomes: Three<Outcome>, batch: Option<Batch>): (Runner, Store) {
    match NextRunnable(r)
    case None => (r, db)
    case Some(kind) =>
      if inbox == InboxHolds then (r, db)
      else if inbox == InboxUnknown then (AdvanceAfterFailure(r, kind), db)
      else if kind == Rollups then
        var (next, turn) := Drive(db, CursorsRead(db, r.activeTarget, readOk), loads, outcomes);
        (if turn.Rolled? then FinishRollups(r, r.activeTarget, turn.reachedTarget) else AdvanceAfterFailure(r, Rollups), next)
      else
        (match batch
         case None => AdvanceAfterFailure(r, Identity)
         case Some(b) => FinishIdentity(r, if r.afterID == 0 then r.targetGen else r.scanGen, b.reachedEnd, b.lastIdentityID), db)
  }

  class UsageAggregationRunner {
    var nextKind: Kind
    var startupTargetLoaded: bool
    var activeRound: bool
    var activeTargetEventID: int
    var rollupsReachedTarget: bool
    var pendingTargetEventID: int
    var identityAfterID: int
    var identityTargetGeneration: nat
    var identityScanGeneration: nat

    ghost function View(): Runner
      reads this
    {
      Runner(nextKind, startupTargetLoaded, activeRound, activeTargetEventID, rollupsReachedTarget, pendingTargetEventID,
             identityAfterID, identityTargetGeneration, identityScanGeneration)
    }

    constructor ()
      ensures View() == INITIAL
    {
      nextKind, startupTargetLoaded, activeRound, activeTargetEventID, rollupsReachedTarget, pendingTargetEventID := Rollups, false, false, 0, false, 0;
      identityAfterID, identityTargetGeneration, identityScanGeneration := 0, 1, 0;
    }

    /** Raises the pending target to the largest committed ID. */
    method NotifyUsageEventsCommitted(events: seq<int>)
      modifies this
      ensures View() == NotifyEvents(old(View()), MaxID(events))
      ensures old(View()).pending <= View().pending && (View().pending == old(View()).pending || View().pending in events)
      ensures forall i :: 0 <= i < |events| && 0 < events[i] ==> events[i] <= View().pending
    {
      MaxIDIsLargest(events);
      var maxEventID := 0;
      for i := 0 to |events|
        invariant maxEventID == MaxID(events[..i])
      {
        if events[i] > maxEventID {
          maxEventID := events[i];
        }
        assert events[..i + 1][..i] == events[..i];
      }
      assert events[..|events|] == events;
      if maxEventID <= 0 {
        return;
      }
      if maxEventID > pendingTargetEventID {
        pendingTargetEventID := maxEventID;
      }
      identityTargetGeneration := identityTargetGeneration + 1;
    }

    method NotifyUsageIdentitiesChanged()
      modifies this
      ensures View() == NotifyIdentities(old(View()))
    {
      identityTargetGeneration := identityTargetGeneration + 1;
    }

    /** The second critical section of the startup; a later call finds it done. */
    method EnsureStartupTarget(targetEventID: int)
      modifies this
      ensures View() == StoreStartup(old(View()), targetEventID)
    {
      if startupTargetLoaded {
        return;
      }
      startupTargetLoaded := true;
      activeRound := true;
      activeTargetEventID := targetEventID;
      rollupsReachedTarget := targetEventID == 0;
      if pendingTargetEventID <= targetEventID {
        pendingTargetEventID := 0;
      }
    }

    method FreezePendingTarget()
      modifies this
      ensures View() == Freeze(old(View()))
    {
      if pendingTargetEventID <= 0 {
        return;
      }
      if activeRound && pendingTargetEventID <= activeTargetEventID {
        pendingTargetEventID := 0;
        return;
      }
      activeRound := true;
      activeTargetEventID := pendingTargetEventID;
      pendingTargetEventID := 0;
      rollupsReachedTarget := false;
    }

    method NextRunnableKind() returns (kind: Option<Kind>)
      ensures kind == NextRunnable(View())
    {
      var identityPending := identityAfterID != 0 || identityScanGeneration < identityTargetGeneration;
      if activeRound && identityPending {
        return Some(nextKind);
      }
      if activeRound {
        return Some(Rollups);
      }
      if identityPending {
        return Some(Identity);
      }
      return None;
    }

    method CompleteRollupRoundIfReady()
      modifies this
      ensures View() == CompleteRound(old(View()))
    {
      if !activeRound || !rollupsReachedTarget {
        return;
      }
      var completedTarget := activeTargetEventID;
      activeRound := false;
      activeTargetEventID := 0;
      rollupsReachedTarget := false;
      if pendingTargetEventID <= completedTarget {
        pendingTargetEventID := 0;
      }
    }

    method EndRollupsTurn(targetEventID: int, reachedTarget: bool)
      modifies this
      ensures View() == FinishRollups(old(View()), targetEventID, reachedTarget)
    {
      nextKind := Identity;
      if activeRound && activeTargetEventID == targetEventID && reachedTarget {
        rollupsReachedTarget := true;
      }
      CompleteRollupRoundIfReady();
    }

    method EndIdentityTurn(passGeneration: nat, reachedEnd: bool, lastIdentityID: int)
      modifies this
      ensures View() == FinishIdentity(old(View()), passGeneration, reachedEnd, lastIdentityID)
    {
      nextKind := Rollups;
      if reachedEnd {
        identityAfterID := 0;
        identityScanGeneration := passGeneration;
      } else {
        identityAfterID := lastIdentityID;
        identityScanGeneration := passGeneration;
      }
    }

    method AdvanceAfterFailedTurn(kind: Kind)
      modifies this
      ensures View() == AdvanceAfterFailure(old(View()), kind)
    {
      nextKind := if kind == Rollups then Identity else Rollups;
    }

    /** Loads one page for all three rollups and applies it to each in its own
        transaction; a rollup that fails does not stop the others, the inbox does. */
    method RunSharedRollupsPage(db: Database, targetEventID: int, loadOk: bool, outcomes: Three<Outcome>) returns (turn: Turn)
      requires Equal(db.store.cursors) && !AllReached(db.store.cursors, targetEventID)
      modifies db
      ensures (db.store, turn) == Drive(old(db.store), ReadCursors(old(db.store), targetEventID), Three(loadOk, loadOk, loadOk), outcomes)
    {
      ghost var loads := Three(loadOk, loadOk, loadOk);
      var before := LeftAll(db.store, targetEventID);
      var cursor := db.store.cursors.overview;
      ghost var snap := db.store.cursors;
      var page := db.LoadEventPage(cursor, targetEventID);
      if !loadOk || page == [] {
        return Failed(Rollups);
      }
      var processed, failed := false, false;
      var at: nat := 0;
      while at < 3
        invariant at <= 3
        invariant Drive(db.store, Rolling(Pages(targetEventID, snap, true, page, at, true, processed, failed, before)), loads, outcomes)
               == Drive(old(db.store), ReadCursors(old(db.store), targetEventID), loads, outcomes)
      {
        var k := Nth(at);
        var outcome := outcomes.Get(k);
        if outcome == InboxError {
          return Failed(Rollups);
        }
        if outcome == InboxWaits {
          return TurnResult(targetEventID, failed, true, false, true, before);
        }
        var ok := false;
        if outcome == ApplyOk {
          ok := db.ApplyPage(k, cursor, page);
        }
        if ok {
          processed := true;
        } else {
          failed := true;
        }
        at := at + 1;
      }
      return TurnResult(targetEventID, failed, false, LastID(page) >= targetEventID, true, before);
    }

    /** Brings rollups that lag apart forward one page each; those at the target are
        skipped. */
    method RunFallbackRollupsPages(db: Database, targetEventID: int, loads: Three<bool>, outcomes: Three<Outcome>) returns (turn: Turn)
      requires !Equal(db.store.cursors) && !AllReached(db.store.cursors, targetEventID)
      modifies db
      ensures (db.store, turn) == Drive(old(db.store), ReadCursors(old(db.store), targetEventID), loads, outcomes)
    {
      hide Apply;
      hide Page;
      var before := LeftAll(db.store, targetEventID);
      var snapshot := db.store.cursors;
      var loaded, processed, failed := false, false, false;
      var at: nat := 0;
      while at < 3
        invariant at <= 3
        invariant Drive(db.store, Rolling(Pages(targetEventID, snapshot, false, [], at, loaded, processed, failed, before)), loads, outcomes)
               == Drive(old(db.store), ReadCursors(old(db.store), targetEventID), loads, outcomes)
      {
        var k := Nth(at);
        if snapshot.Get(k) < targetEventID {
          var page := db.LoadEventPage(snapshot.Get(k), targetEventID);
          if !loads.Get(k) || page == [] {
            failed := true;
          } else {
            loaded := true;
            assert Drive(db.store, Rolling(Pages(targetEventID, snapshot, false, page, at, loaded, processed, failed, before)), loads, outcomes)
                == Drive(old(db.store), ReadCursors(old(db.store), targetEventID), loads, outcomes);
            var outcome := outcomes.Get(k);
            if outcome == InboxError {
              assert Drive(db.store, Failed(Rollups), loads, outcomes) == (db.store, Failed(Rollups));
              return Failed(Rollups);
            }
            if outcome == InboxWaits {
              turn := TurnResult(targetEventID, failed, true, false, loaded, before);
              assert Drive(db.store, turn, loads, outcomes) == (db.store, turn);
              return;
            }
            var ok := false;
            if outcome == ApplyOk {
              ok := db.ApplyPage(k, snapshot.Get(k), page);
            }
            if ok {
              snapshot := snapshot.With(k, LastID(page));
              processed := true;
            } else {
              failed := true;
            }
          }
        }
        at := at + 1;
      }
      return TurnResult(targetEventID, failed, false, AllReached(snapshot, targetEventID), loaded, before);
    }

    method RunRollupsTurn(db: Database, targetEventID: int, readOk: bool, loads: Three<bool>, outcomes: Three<Outcome>) returns (turn: Turn)
      modifies db
      ensures (db.store, turn) == Drive(old(db.store), CursorsRead(old(db.store), targetEventID, readOk),
                                        if Equal(old(db.store).cursors) then Three(loads.overview, loads.overview, loads.overview) else loads, outcomes)
    {
      if !readOk {
        return Failed(Rollups);
      }
      if AllReached(db.store.cursors, targetEventID) {
        return Rolled(targetEventID, true, false, false, LeftAll(db.store, targetEventID));
      }
      if Equal(db.store.cursors) {
        turn := RunSharedRollupsPage(db, targetEventID, loads.overview, outcomes);
      } else {
        turn := RunFallbackRollupsPages(db, targetEventID, loads, outcomes);
      }
    }

    /** One scheduled turn: the kind whose turn it is, unless the inbox wants the
        writer; a failed turn passes the turn on. */
    method RunPreparedOnce(db: Database, inbox: InboxCheck, readOk: bool, loads: Three<bool>, outcomes: Three<Outcome>, batch: Option<Batch>)
      requires Equal(db.store.cursors) ==> loads.activity == loads.latency == loads.overview
      modifies this, db
      ensures (View(), db.store) == UndisturbedTurn(old(View()), old(db.store), inbox, readOk, loads, outcomes, batch)
    {
      var next := NextRunnableKind();
      var targetEventID, afterID := activeTargetEventID, identityAfterID;
      var passGeneration := if afterID == 0 then identityTargetGeneration else identityScanGeneration;
      if next.None? || inbox == InboxHolds {
        return;
      }
      if inbox == InboxUnknown {
        AdvanceAfterFailedTurn(next.value);
        return;
      }
      if next.value == Rollups {
        var turn := RunRollupsTurn(db, targetEventID, readOk, loads, outcomes);
        if turn.Rolled? {
          EndRollupsTurn(targetEventID, turn.reachedTarget);
        } else {
          AdvanceAfterFailedTurn(Rollups);
        }
      } else {
        match batch
        case None => AdvanceAfterFailedTurn(Identity);
        case Some(b) => EndIdentityTurn(passGeneration, b.reachedEnd, b.lastIdentityID);
      }
    }
  }

  // ----- the turn as a run of the protocol -----

  /** A step of the runner that succeeds, and of nobody else. */
  predicate Smooth(a: Action) {
    match a
    case FreezePending => true
    case Begin => true
    case Snapshot(ok) => ok
    case Load(ok) => ok
    case Write(outcome) => outcome == ApplyOk
    case Finish => true
    case ScanPage(ok, _) => ok
    case End => true
    case _ => false
  }

  const ALL_LOADED := Three(true, true, true)
  const ALL_APPLIED := Three(ApplyOk, ApplyOk, ApplyOk)

  /** What is left of a turn under way: rollups, and whether the page at hand is missing. */
  predicate Shorter(t: Turn, p: Pages) {
    t.Rolling? ==> t.pages.at <= 3 && (t.pages.at > p.at || (t.pages.at == p.at && t.pages.page != [] && p.page == []))
  }

  /** The next step of an undisturbed turn, as the function has it. */
  function DriveNext(db: Store, p: Pages, loads: Three<bool>, outcomes: Three<Outcome>): (Store, Turn)
    requires p.at <= 3
  {
    if p.at == 3 then (db, FinishPages(p))
    else if p.page == [] then (db, LoadPage(db, p, loads.Get(Nth(p.at))))
    else WritePage(db, p, outcomes.Get(Nth(p.at)))
  }

  lemma {:induction false} DriveUnfolds(db: Store, p: Pages, loads: Three<bool>, outcomes: Three<Outcome>)
    requires p.at <= 3
    ensures var next := DriveNext(db, p, loads, outcomes);
            Drive(db, Rolling(p), loads, outcomes) == Drive(next.0, next.1, loads, outcomes) && Shorter(next.1, p)
  {
    hide Apply;
    hide Page;
  }

  lemma {:induction false} DriveStops(db: Store, t: Turn, loads: Three<bool>, outcomes: Three<Outcome>)
    requires !t.Rolling?
    ensures Drive(db, t, loads, outcomes) == (db, t)
  {
  }

  lemma {:induction false} DriveSteps(w: World, loads: Three<bool>, outcomes: Three<Outcome>) returns (a: Action, next: World)
    requires w.turn.Rolling? && w.turn.pages.at <= 3
    ensures Stepped(w, a, next) && (next.db, next.turn) == DriveNext(w.db, w.turn.pages, loads, outcomes)
    ensures next.r == w.r && next.identities == w.identities && next.h == w.h.(clock := next.h.clock)
    ensures loads == ALL_LOADED && outcomes == ALL_APPLIED ==> Smooth(a)
  {
    hide Apply;
    hide LoadPage;
    hide WritePage;
    hide FinishPages;
    var p := w.turn.pages;
    a := if p.at == 3 then Finish else if p.page == [] then Load(loads.Get(Nth(p.at))) else Write(outcomes.Get(Nth(p.at)));
    next := Step(w, a);
  }

  /** A turn driven without interference is a run of the protocol, so everything that
      holds over runs holds of it. */
  lemma {:induction false} DriveIsRun(w: World, loads: Three<bool>, outcomes: Three<Outcome>) returns (actions: seq<Action>, w': World)
    requires w.turn.Rolling? ==> w.turn.pages.at <= 3
    ensures Run(w, actions, w')
    ensures (w'.db, w'.turn) == Drive(w.db, w.turn, loads, outcomes)
    ensures w'.r == w.r && w'.identities == w.identities && w'.h == w.h.(clock := w'.h.clock)
    ensures loads == ALL_LOADED && outcomes == ALL_APPLIED ==> forall a :: a in actions ==> Smooth(a)
    decreases if w.turn.Rolling? then 4 - w.turn.pages.at else 0, if w.turn.Rolling? && w.turn.pages.page == [] then 1 else 0
  {
    hide Drive;
    hide DriveNext;
    hide Stepped;
    hide Smooth;
    if !w.turn.Rolling? {
      DriveStops(w.db, w.turn, loads, outcomes);
      return [], w;
    }
    DriveUnfolds(w.db, w.turn.pages, loads, outcomes);
    var a, next := DriveSteps(w, loads, outcomes);
    var rest, last := DriveIsRun(next, loads, outcomes);
    PathOne(Stepped, w, a, next);
    PathConcat(Stepped, w, [a], next, rest, last);
    return [a] + rest, last;
  }

  /** The turn is over, for the target it was started with. */
  predicate EndedFor(t: Turn, target: int) {
    (t.Rolled? && t.goal == target) || t == Failed(Rollups)
  }

  lemma {:induction false} DriveEnds(db: Store, t: Turn, loads: Three<bool>, outcomes: Three<Outcome>, target: int)
    requires EndedFor(t, target) || (t.Rolling? && t.pages.at <= 3 && t.pages.target == target)
    ensures EndedFor(Drive(db, t, loads, outcomes).1, target)
    decreases if t.Rolling? then 4 - t.pages.at else 0, if t.Rolling? && t.pages.page == [] then 1 else 0
  {
    if t.Rolling? {
      var p := t.pages;
      if p.at < 3 {
        if p.page == [] {
          DriveEnds(db, LoadPage(db, p, loads.Get(Nth(p.at))), loads, outcomes, target);
        } else {
          var (next, turn) := WritePage(db, p, outcomes.Get(Nth(p.at)));
          DriveEnds(next, turn, loads, outcomes, target);
        }
      }
    }
  }

  /** The identity page of a turn, as the table has it. */
  function ScannedBatch(w: World, scanOk: bool, pageSize: nat): Option<Batch> {
    if !scanOk then None
    else
      var rows := Page(w.identities, w.r.afterID, LastID(w.identities), pageSize);
      Some(Batch(|rows| < pageSize, if rows == [] then w.r.afterID else LastID(rows)))
  }

  /** The kind of the turn is chosen, and the inbox looked at. */
  lemma {:induction false} OpenTurn(w: World, a: Action) returns (actions: seq<Action>, w': World)
    requires w.turn.Idle? && w.r.startupLoaded && NextRunnable(w.r).Some? && Enabled(BegunWorld(w), a)
    ensures Run(w, actions, w') && w' == Step(BegunWorld(w), a) && actions == [Begin] + [a]
  {
    PathOne(Stepped, w, Begin, BegunWorld(w));
    w' := Step(BegunWorld(w), a);
    PathExtend(Stepped, w, [Begin], BegunWorld(w), a, w');
    actions := [Begin] + [a];
  }

  ghost function BegunWorld(w: World): World
    requires w.turn.Idle? && w.r.startupLoaded && NextRunnable(w.r).Some?
  {
    Step(w, Begin)
  }

  lemma {:induction false} CloseTurn(w0: World, actions: seq<Action>, w: World) returns (closed: seq<Action>, w': World)
    requires Run(w0, actions, w) && (w.turn.Rolled? || w.turn.Scanned? || w.turn.Failed?)
    ensures Run(w0, closed, w') && w'.turn.Idle? && w'.db == w.db && w' == Step(w, End) && closed == actions + [End]
    ensures w'.r == match w.turn
                    case Rolled(goal, reached, _, _, _) => FinishRollups(w.r, goal, reached)
                    case Scanned(gen, reachedEnd, lastID, _, _) => FinishIdentity(w.r, gen, reachedEnd, lastID)
                    case Failed(kind) => AdvanceAfterFailure(w.r, kind)
                    case _ => w.r
  {
    w' := Step(w, End);
    PathExtend(Stepped, w0, actions, w, End, w');
    closed := actions + [End];
  }

  /** A rollup turn, from the cursors it reads, or fails to read, to its end. */
  lemma {:induction false} RollupTurnIsRun(w: World, readOk: bool, loads: Three<bool>, outcomes: Three<Outcome>) returns (actions: seq<Action>, w': World)
    requires w.turn.Idle? && w.r.startupLoaded && NextRunnable(w.r) == Some(Rollups)
    ensures Run(w, actions, w') && w'.turn.Idle?
    ensures (w'.r, w'.db) == UndisturbedTurn(w.r, w.db, InboxEmpty, readOk, loads, outcomes, None)
  {
    var starting, started := OpenTurn(w, Snapshot(readOk));
    assert started.r == w.r && started.db == w.db && started.turn == CursorsRead(w.db, w.r.activeTarget, readOk);
    var driving, driven := DriveIsRun(started, loads, outcomes);
    DriveEnds(started.db, started.turn, loads, outcomes, w.r.activeTarget);
    hide Drive;
    PathConcat(Stepped, w, starting, started, driving, driven);
    actions, w' := CloseTurn(w, starting + driving, driven);
  }

  /** An identity turn: one page scanned, or not. */
  lemma {:induction false} IdentityTurnIsRun(w: World, scanOk: bool, pageSize: nat) returns (actions: seq<Action>, w': World)
    requires w.turn.Idle? && w.r.startupLoaded && NextRunnable(w.r) == Some(Identity) && 0 < pageSize
    ensures Run(w, actions, w') && w'.turn.Idle? && w'.db == w.db
    ensures w'.r == match ScannedBatch(w, scanOk, pageSize)
                    case None => AdvanceAfterFailure(w.r, Identity)
                    case Some(b) => FinishIdentity(w.r, if w.r.afterID == 0 then w.r.targetGen else w.r.scanGen, b.reachedEnd, b.lastIdentityID)
  {
    hide Page;
    var begun, after := OpenTurn(w, ScanPage(scanOk, pageSize));
    actions, w' := CloseTurn(w, begun, after);
  }

  /** A turn given up to the inbox, or failed over it. */
  lemma {:induction false} InboxTurnIsRun(w: World, failed: bool) returns (actions: seq<Action>, w': World)
    requires w.turn.Idle? && w.r.startupLoaded && NextRunnable(w.r).Some?
    ensures Run(w, actions, w') && w'.turn.Idle? && w'.db == w.db
    ensures w'.r == if failed then AdvanceAfterFailure(w.r, NextRunnable(w.r).value) else w.r
  {
    var begun, after := OpenTurn(w, if failed then InboxFailed else InboxBusy);
    if failed {
      actions, w' := CloseTurn(w, begun, after);
    } else {
      actions, w' := begun, after;
    }
  }

  /** Whatever the turn, what the object does undisturbed is a run of the protocol. */
  lemma {:induction false} TurnIsRun(
      w: World, inbox: InboxCheck, readOk: bool, loads: Three<bool>, outcomes: Three<Outcome>, scanOk: bool, pageSize: nat)
    returns (actions: seq<Action>, w': World)
    requires w.turn.Idle? && w.r.startupLoaded && 0 < pageSize
    ensures Run(w, actions, w') && w'.turn.Idle?
    ensures (w'.r, w'.db) == UndisturbedTurn(w.r, w.db, inbox, readOk, loads, outcomes, ScannedBatch(w, scanOk, pageSize))
  {
    hide Drive;
    hide ScannedBatch;
    if NextRunnable(w.r).None? {
      return [], w;
    } else if inbox != InboxEmpty {
      actions, w' := InboxTurnIsRun(w, inbox == InboxUnknown);
    } else if NextRunnable(w.r) == Some(Rollups) {
      actions, w' := RollupTurnIsRun(w, readOk, loads, outcomes);
    } else {
      assert NextRunnable(w.r).value.Identity?;
      actions, w' := IdentityTurnIsRun(w, scanOk, pageSize);
    }
  }
}
