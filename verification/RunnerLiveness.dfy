/** The runner comes to rest: undisturbed, it brings every rollup to its target and ends
    its rounds. */
module RunnerLiveness {
  import opened Runs
  import opened Wrappers
  import opened RollupStore
  import opened RunnerProtocol
  import opened RunnerSafety
  import opened UsageRunner

  // ----- the end of a round -----

  /** When a turn ends with the goal of the round reached, the round is over, and only a
      target above the goal can be pending. */
  lemma {:induction false} ReachedRoundEnds(w: World)
    requires w.turn.Rolled? && w.turn.reachedTarget && w.r.activeRound && w.turn.goal == w.r.activeTarget
    ensures var r := Step(w, End).r;
            && !r.activeRound && !r.reached && r.activeTarget == 0
            && (if w.r.pending <= w.turn.goal then r.pending == 0 else r.pending == w.r.pending)
            && r.startupLoaded == w.r.startupLoaded
  {
  }

  /** A turn that falls short leaves the round as it was, and its turn to the other kind. */
  lemma {:induction false} UnreachedRoundStays(w: World)
    requires w.turn.Rolled? && !w.turn.reachedTarget && w.r.activeRound && !w.r.reached
    ensures Step(w, End).r == w.r.(nextKind := Identity)
  {
  }

  lemma {:induction false} MarkedRoundEnds(w: World)
    requires w.turn.Rolled? && w.r.activeRound && w.r.reached
    ensures var r := Step(w, End).r;
            && !r.activeRound && r.startupLoaded == w.r.startupLoaded
            && r.pending == if w.r.pending <= w.r.activeTarget then 0 else w.r.pending
  {
  }

  // ----- targets are events -----

  /** An event, or no target at all. */
  predicate Known(events: seq<int>, id: int) {
    id == 0 || id in events
  }

  ghost predicate TargetsKnown(w: World) {
    && Known(w.db.events, w.r.activeTarget) && Known(w.db.events, w.r.pending)
    && (w.turn.Starting? ==> Known(w.db.events, w.turn.loadedTarget))
  }

  lemma {:induction false} KnownStep(w: World, a: Action)
    requires TargetsKnown(w) && Enabled(w, a)
    ensures TargetsKnown(Step(w, a))
  {
    match a {
      case Commit(more) => assert forall id :: id in w.db.events ==> id in w.db.events + more;
      case EventsCommitted(ids) => MaxIDIsLargest(ids);
      case QueryTarget =>
      case StoreTarget =>
      case FreezePending =>
      case IdentitiesChanged =>
      case End =>
      case _ =>
        TargetsUntouched(w, a);
        hide Step;
    }
  }

  /** The other steps touch neither events nor targets. */
  lemma {:induction false} TargetsUntouched(w: World, a: Action)
    requires Enabled(w, a)
    requires !(a.Commit? || a.EventsCommitted? || a.IdentitiesChanged? || a.QueryTarget? || a.StoreTarget? || a.FreezePending? || a.End?)
    ensures Step(w, a).r == w.r && Step(w, a).db.events == w.db.events && (Step(w, a).turn.Starting? ==> Step(w, a).turn == w.turn)
  {
    hide Page;
    hide LeftAll;
    ReadCursorsRolls(w.db, if w.turn.Begun? then w.turn.target else 0);
    if w.turn.Rolling? && w.turn.pages.at <= 3 {
      PagesRoll(w.db, w.turn.pages, if a.Load? then a.loadOk else true, if a.Write? then a.outcome else ApplyOk);
    }
    hide ReadCursors;
    hide LoadPage;
    hide FinishPages;
  }

  /** What holds of every world that can be reached. */
  ghost predicate Steady(w: World) {
    Inv(w) && TargetsKnown(w)
  }

  lemma {:induction false} StaysSteady(w: World, actions: seq<Action>, w': World)
    requires Steady(w) && Run(w, actions, w')
    ensures Steady(w')
  {
    forall before, a, after | Steady(before) && Stepped(before, a, after)
      ensures Steady(after)
    {
      hide Inv;
      hide TargetsKnown;
      InvStep(before, a, after);
      KnownStep(before, a);
    }
    PathInvariant(Stepped, Steady, w, actions, w');
  }

  lemma {:induction false} ReachedSteady(w0: World, actions: seq<Action>, w: World)
    requires Initial(w0) && Run(w0, actions, w)
    ensures Steady(w)
  {
    InitialInv(w0);
    StaysSteady(w0, actions, w);
  }

  // ----- a turn in which nothing fails -----

  /** Nothing has failed so far: what the turn took down is still so in the database. */
  ghost predicate GoesWell(db: Store, p: Pages, target: int, before: nat) {
    && !p.failed && p.target == target && p.before == before && p.at <= 3
    && (forall j: nat :: p.at <= j < 3 ==> db.cursors.Get(Nth(j)) == p.snap.Get(Nth(j)))
    && (if p.shared then SharedWell(db, p, target) else ApartWell(db, p, target))
  }

  ghost predicate SharedWell(db: Store, p: Pages, target: int) {
    && Equal(p.snap) && p.snap.overview < target
    && (if p.page == [] then p.at == 0 else p.page == Page(db.events, p.snap.overview, target, EVENT_PAGE_SIZE) && p.loaded)
  }

  ghost predicate ApartWell(db: Store, p: Pages, target: int) {
    && (p.page != [] ==> p.at < 3 && p.page == Page(db.events, p.snap.Get(Nth(p.at)), target, EVENT_PAGE_SIZE) && p.loaded)
    && (p.loaded || forall j: nat :: j < p.at ==> target <= p.snap.Get(Nth(j)))
  }

  /** The turn is over and well done: something was loaded, or nothing was left to load. */
  ghost predicate DoneWell(t: Turn, target: int, before: nat) {
    t.Rolled? && t.goal == target && !t.deferred && t.leftBefore == before && (t.loadedPage || t.reachedTarget)
  }

  /** Up to an existing target there is always a page to load. */
  lemma {:induction false} PageThere(events: seq<int>, cursor: int, target: int)
    requires Growing(events) && target in events && cursor < target
    ensures var page := Page(events, cursor, target, EVENT_PAGE_SIZE); page != [] && cursor < LastID(page)
  {
    PageIsInterval(events, cursor, target, EVENT_PAGE_SIZE);
    BetweenMember(events, cursor, target, target);
  }

  lemma {:induction false} LoadGoesWell(db: Store, p: Pages, target: int, before: nat)
    requires Growing(db.events) && target in db.events && GoesWell(db, p, target, before) && p.at < 3 && p.page == []
    ensures var t := LoadPage(db, p, true); t.Rolling? && GoesWell(db, t.pages, target, before)
  {
    var cursor := if p.shared then p.snap.overview else p.snap.Get(Nth(p.at));
    if cursor < target {
      PageThere(db.events, cursor, target);
    }
    hide Page;
  }

  /** A page applied from the matching cursor moves that cursor alone. */
  lemma {:induction false} Applied(db: Store, k: Rollup, cursor: int, page: seq<int>)
    requires page != [] && cursor < LastID(page) && db.cursors.Get(k) == cursor
    ensures var next := Apply(db, k, cursor, page);
            && next != db && next.events == db.events && next.cursors.Get(k) == LastID(page)
            && forall j :: j != k ==> next.cursors.Get(j) == db.cursors.Get(j)
  {
  }

  lemma {:induction false} WriteGoesWell(db: Store, p: Pages, target: int, before: nat)
    requires Growing(db.events) && target in db.events && GoesWell(db, p, target, before) && p.at < 3 && p.page != []
    ensures var (next, t) := WritePage(db, p, ApplyOk); next.events == db.events && t.Rolling? && GoesWell(next, t.pages, target, before)
  {
    var k, cursor := Nth(p.at), p.snap.Get(Nth(p.at));
    PageIsInterval(db.events, cursor, target, EVENT_PAGE_SIZE);
    assert p.page == Page(db.events, cursor, target, EVENT_PAGE_SIZE);
    hide Page;
    Applied(db, k, cursor, p.page);
    hide Apply;
    hide LastID;
    assert forall j: nat :: j < 3 && j != p.at ==> Nth(j) != k;
    if p.shared {
      SharedOn(db, Apply(db, k, cursor, p.page), p, target, before);
    } else {
      ApartOn(db, Apply(db, k, cursor, p.page), p, LastID(p.page), target, before);
    }
  }

  lemma {:induction false} SharedOn(db: Store, next: Store, p: Pages, target: int, before: nat)
    requires GoesWell(db, p, target, before) && p.at < 3 && p.page != [] && p.shared && next.events == db.events
    requires forall j :: j != Nth(p.at) ==> next.cursors.Get(j) == db.cursors.Get(j)
    ensures GoesWell(next, Advance(p.(processed := true)), target, before)
  {
    hide Page;
    assert forall j: nat :: p.at < j < 3 ==> Nth(j) != Nth(p.at);
  }

  lemma {:induction false} ApartOn(db: Store, next: Store, p: Pages, last: int, target: int, before: nat)
    requires GoesWell(db, p, target, before) && p.at < 3 && p.page != [] && !p.shared && next.events == db.events
    requires forall j :: j != Nth(p.at) ==> next.cursors.Get(j) == db.cursors.Get(j)
    ensures GoesWell(next, Advance(p.(processed := true, snap := p.snap.With(Nth(p.at), last))), target, before)
  {
    hide Page;
    assert forall j: nat :: p.at < j < 3 ==> Nth(j) != Nth(p.at);
  }

  lemma {:induction false} FinishGoesWell(db: Store, p: Pages, target: int, before: nat)
    requires GoesWell(db, p, target, before) && p.at == 3
    ensures DoneWell(FinishPages(p), target, before)
  {
    assert Nth(0) == Overview && Nth(1) == Activity && Nth(2) == Latency;
    hide Page;
  }

  lemma {:induction false} DriveGoesWell(db: Store, p: Pages, target: int, before: nat)
    requires Growing(db.events) && target in db.events && GoesWell(db, p, target, before)
    ensures var (next, t) := Drive(db, Rolling(p), ALL_LOADED, ALL_APPLIED); next.events == db.events && DoneWell(t, target, before)
    decreases 4 - p.at, if p.page == [] then 1 else 0
  {
    hide GoesWell;
    hide DoneWell;
    hide LoadPage;
    hide WritePage;
    GoesWithin(db, p, target, before);
    DriveUnfolds(db, p, ALL_LOADED, ALL_APPLIED);
    assert forall k :: ALL_LOADED.Get(k) && ALL_APPLIED.Get(k) == ApplyOk;
    if p.at == 3 {
      FinishGoesWell(db, p, target, before);
      DriveStops(db, FinishPages(p), ALL_LOADED, ALL_APPLIED);
    } else if p.page == [] {
      LoadGoesWell(db, p, target, before);
      hide Drive;
      DriveGoesWell(db, LoadPage(db, p, true).pages, target, before);
    } else {
      WriteGoesWell(db, p, target, before);
      hide Drive;
      var (next, t) := WritePage(db, p, ApplyOk);
      DriveGoesWell(next, t.pages, target, before);
    }
  }

  lemma GoesWithin(db: Store, p: Pages, target: int, before: nat)
    requires GoesWell(db, p, target, before)
    ensures p.at <= 3
  {
  }

  /** From the cursors to the end of the turn. */
  lemma {:induction false} TurnGoesWell(db: Store, target: int)
    requires Growing(db.events) && (target in db.events || AllReached(db.cursors, target))
    ensures var (next, t) := Drive(db, ReadCursors(db, target), ALL_LOADED, ALL_APPLIED);
            next.events == db.events && DoneWell(t, target, LeftAll(db, target))
  {
    var t := ReadCursors(db, target);
    hide LeftAll;
    if AllReached(db.cursors, target) {
      DriveStops(db, t, ALL_LOADED, ALL_APPLIED);
    } else {
      assert GoesWell(db, t.pages, target, LeftAll(db, target));
      hide Drive;
      DriveGoesWell(db, t.pages, target, LeftAll(db, target));
    }
  }

  // ----- turns of a round -----

  /** The runner is between turns, and the round is on. */
  ghost predicate OnRound(w: World) {
    Steady(w) && w.turn.Idle? && w.r.startupLoaded && w.r.activeRound
  }

  ghost predicate RoundOver(w: World, w': World) {
    && Steady(w') && w'.turn.Idle? && w'.r.startupLoaded && !w'.r.activeRound && w'.db.events == w.db.events
    && w'.r.pending == if w.r.pending <= w.r.activeTarget then 0 else w.r.pending
  }

  ghost predicate AllSmooth(actions: seq<Action>) {
    forall a :: a in actions ==> Smooth(a)
  }

  ghost predicate RoundGoesOn(w: World, w': World) {
    && OnRound(w') && w'.db.events == w.db.events && w'.r.activeTarget == w.r.activeTarget && w'.r.pending == w.r.pending
  }

  /** Up to the end of its turn the runner stays as it was. */
  lemma {:induction false} RollupDriven(w: World) returns (actions: seq<Action>, driven: World)
    requires OnRound(w) && NextRunnable(w.r) == Some(Rollups)
    ensures Run(w, actions, driven) && AllSmooth(actions) && Steady(driven)
    ensures driven.r == w.r && driven.db.events == w.db.events && DoneWell(driven.turn, w.r.activeTarget, LeftAll(w.db, w.r.activeTarget))
  {
    hide Inv;
    hide TargetsKnown;
    hide Drive;
    hide LeftAll;
    hide DoneWell;
    hide ReadCursors;
    var target := w.r.activeTarget;
    var starting, started := OpenTurn(w, Snapshot(true));
    assert started.r == w.r && started.db == w.db && started.turn == ReadCursors(w.db, target);
    CursorsInRange(w.db, target);
    var driving, last := DriveIsRun(started, ALL_LOADED, ALL_APPLIED);
    SteadyTarget(w);
    TurnGoesWell(w.db, target);
    hide Steady;
    PathConcat(Stepped, w, starting, started, driving, last);
    StaysSteady(w, starting + driving, last);
    actions, driven := starting + driving, last;
    hide Run;
  }

  lemma CursorsInRange(db: Store, target: int)
    ensures ReadCursors(db, target).Rolling? ==> ReadCursors(db, target).pages.at <= 3
  {
  }

  lemma {:induction false} RollupTurn(w: World) returns (actions: seq<Action>, w': World)
    requires OnRound(w) && NextRunnable(w.r) == Some(Rollups)
    ensures Run(w, actions, w') && AllSmooth(actions)
    ensures RoundOver(w, w') || (RoundGoesOn(w, w') && LeftAll(w'.db, w.r.activeTarget) < LeftAll(w.db, w.r.activeTarget))
  {
    hide Inv;
    hide TargetsKnown;
    hide LeftAll;
    hide Run;
    hide Step;
    var driving, driven := RollupDriven(w);
    if !driven.turn.reachedTarget {
      SteadyTurn(driven);
    }
    hide Steady;
    actions, w' := CloseTurn(w, driving, driven);
    StaysSteady(w, actions, w');
    if driven.r.reached {
      MarkedRoundEnds(driven);
    } else if driven.turn.reachedTarget {
      ReachedRoundEnds(driven);
    } else {
      UnreachedRoundStays(driven);
    }
  }

  /** What a reachable world says of its target, and of a turn just ended. */
  lemma {:induction false} SteadyTarget(w: World)
    requires Steady(w)
    ensures Growing(w.db.events) && (w.r.activeTarget in w.db.events || AllReached(w.db.cursors, w.r.activeTarget))
  {
    CursorsNotNegative(w.db);
    assert 0 <= w.db.cursors.Get(Overview) && 0 <= w.db.cursors.Get(Activity) && 0 <= w.db.cursors.Get(Latency);
  }

  lemma {:induction false} SteadyTurn(w: World)
    requires Steady(w) && w.turn.Rolled? && !w.turn.deferred && w.turn.loadedPage
    ensures LeftAll(w.db, w.turn.goal) < w.turn.leftBefore
  {
  }

  lemma {:induction false} IdentityTurn(w: World) returns (actions: seq<Action>, w': World)
    requires OnRound(w) && NextRunnable(w.r) == Some(Identity)
    ensures Run(w, actions, w') && AllSmooth(actions) && RoundGoesOn(w, w') && w'.r.nextKind == Rollups && w'.db == w.db
  {
    hide Inv;
    hide TargetsKnown;
    hide Page;
    var begun, after := OpenTurn(w, ScanPage(true, EVENT_PAGE_SIZE));
    actions, w' := CloseTurn(w, begun, after);
    StaysSteady(w, actions, w');
    hide Run;
  }

  /** Undisturbed, a round comes to its end: what is left before its target shrinks with
      every rollup turn, and between two of them lies one identity turn at most. */
  lemma {:induction false} RoundEnds(w: World) returns (actions: seq<Action>, w': World)
    requires OnRound(w)
    ensures Run(w, actions, w') && AllSmooth(actions) && RoundOver(w, w')
    decreases LeftAll(w.db, w.r.activeTarget), if w.r.nextKind == Identity then 1 else 0
  {
    hide Steady;
    hide LeftAll;
    hide Run;
    var turn, next;
    if NextRunnable(w.r) == Some(Rollups) {
      turn, next := RollupTurn(w);
      if RoundOver(w, next) {
        return turn, next;
      }
    } else {
      assert NextRunnable(w.r).value.Identity?;
      turn, next := IdentityTurn(w);
    }
    var rest, last := RoundEnds(next);
    RunsTogether(w, turn, next, rest, last);
    return turn + rest, last;
  }

  lemma {:induction false} RunsTogether(w: World, one: seq<Action>, w1: World, two: seq<Action>, w2: World)
    requires Run(w, one, w1) && Run(w1, two, w2) && AllSmooth(one) && AllSmooth(two)
    ensures Run(w, one + two, w2) && AllSmooth(one + two)
  {
    PathConcat(Stepped, w, one, w1, two, w2);
  }

  /** Nothing is left to do for the rollups. */
  ghost predicate AtRest(w: World) {
    w.turn.Idle? && w.r.startupLoaded && !w.r.activeRound && w.r.pending == 0
  }

  /** From every world that can be reached, between turns and started up, turns that
      succeed undisturbed bring the runner to rest, without another event committed. */
  lemma {:induction false} ComesToRest(w0: World, before: seq<Action>, w: World) returns (actions: seq<Action>, w': World)
    requires Initial(w0) && Run(w0, before, w) && w.turn.Idle? && w.r.startupLoaded
    ensures Run(w, actions, w') && AllSmooth(actions) && AtRest(w') && w'.db.events == w.db.events
  {
    hide LeftAll;
    ReachedSteady(w0, before, w);
    hide Steady;
    actions, w' := [], w;
    if w.r.activeRound {
      actions, w' := RoundEnds(w);
    }
    PendingKnown(w');
    if w'.r.pending != 0 {
      var frozen, round := FreezeTarget(w');
      var rest, last := RoundEnds(round);
      RunsTogether(w', frozen, round, rest, last);
      RunsTogether(w, actions, w', frozen + rest, last);
      return actions + (frozen + rest), last;
    }
  }

  lemma PendingKnown(w: World)
    requires Steady(w)
    ensures 0 <= w.r.pending
  {
  }

  lemma {:induction false} FreezeTarget(w: World) returns (actions: seq<Action>, w': World)
    requires Steady(w) && w.turn.Idle? && w.r.startupLoaded && !w.r.activeRound && 0 < w.r.pending
    ensures Run(w, actions, w') && AllSmooth(actions) && OnRound(w') && w'.r.pending == 0 && w'.db == w.db && 0 <= w'.r.activeTarget
  {
    hide Inv;
    hide TargetsKnown;
    w' := Step(w, FreezePending);
    actions := [FreezePending];
    PathOne(Stepped, w, FreezePending, w');
    StaysSteady(w, actions, w');
    hide Run;
  }

  lemma {:induction false} NotifiedGrows(w: World, a: Action)
    requires Enabled(w, a)
    ensures w.h.notified <= Step(w, a).h.notified
  {
    hide Apply;
    hide Page;
    hide ReadCursors;
    hide LoadPage;
    hide WritePage;
    hide FinishPages;
  }

  lemma {:induction false} NotifiedStays(w: World, actions: seq<Action>, w': World)
    requires Run(w, actions, w')
    ensures w.h.notified <= w'.h.notified
  {
    var inv := (x: World) => w.h.notified <= x.h.notified;
    forall before, a, after | inv(before) && Stepped(before, a, after)
      ensures inv(after)
    {
      NotifiedGrows(before, a);
    }
    PathInvariant(Stepped, inv, w, actions, w');
  }

  // ----- identities -----

  /** Identities the pass under way has not reached. */
  ghost function IdentitiesLeft(w: World): nat {
    |Between(w.identities, w.r.afterID, LastID(w.identities))|
  }

  /** Another pass must follow the one under way. */
  function PassesLeft(r: Runner): nat {
    if r.afterID != 0 && r.scanGen < r.targetGen then 1 else 0
  }

  ghost predicate Scanning(w: World, w': World) {
    && AtRest(w') && w'.db == w.db && w'.identities == w.identities && w'.h.notified == w.h.notified
    && w'.r.targetGen == w.r.targetGen
  }

  /** A page shorter than asked for was the last of its pass; otherwise less is left. */
  lemma {:induction false} PageScanned(identities: seq<int>, after: int, size: nat)
    requires Growing(identities) && 0 <= after && 0 < size
    ensures var last := LastID(identities);
            var rows := Page(identities, after, last, size);
            |rows| == size ==> 0 < LastID(rows) && |Between(identities, LastID(rows), last)| < |Between(identities, after, last)|
  {
    var last := LastID(identities);
    var rows := Page(identities, after, last, size);
    PageIsInterval(identities, after, last, size);
    hide Page;
    if |rows| == size {
      BetweenSplit(identities, after, LastID(rows), last);
    }
  }

  lemma SteadyIdentities(w: World)
    requires Steady(w)
    ensures Growing(w.identities) && 0 <= w.r.afterID
  {
  }

  /** One more page of identities: the pass ends, or less of it is left. */
  lemma {:induction false} IdentityTurnAtRest(w: World) returns (actions: seq<Action>, w': World)
    requires Steady(w) && AtRest(w) && IdentityPending(w.r)
    ensures Run(w, actions, w') && AllSmooth(actions) && Steady(w') && Scanning(w, w')
    ensures || !IdentityPending(w'.r) || PassesLeft(w'.r) < PassesLeft(w.r)
            || (PassesLeft(w'.r) == PassesLeft(w.r) && IdentitiesLeft(w') < IdentitiesLeft(w))
  {
    hide Inv;
    hide TargetsKnown;
    hide Page;
    hide LastID;
    SteadyIdentities(w);
    PageScanned(w.identities, w.r.afterID, EVENT_PAGE_SIZE);
    var begun, after := OpenTurn(w, ScanPage(true, EVENT_PAGE_SIZE));
    actions, w' := CloseTurn(w, begun, after);
    StaysSteady(w, actions, w');
    hide Steady;
    hide Run;
  }

  lemma {:induction false} IdentitiesEnd(w: World) returns (actions: seq<Action>, w': World)
    requires Steady(w) && AtRest(w)
    ensures Run(w, actions, w') && AllSmooth(actions) && Scanning(w, w') && !IdentityPending(w'.r)
    decreases PassesLeft(w.r), IdentitiesLeft(w), if IdentityPending(w.r) then 1 else 0
  {
    hide Steady;
    hide Run;
    hide IdentitiesLeft;
    hide PassesLeft;
    if IdentityPending(w.r) {
      var turn, next := IdentityTurnAtRest(w);
      var rest, last;
      if IdentityPending(next.r) {
        rest, last := IdentitiesEnd(next);
        RunsTogether(w, turn, next, rest, last);
        return turn + rest, last;
      }
      return turn, next;
    }
    NoRun(w);
    return [], w;
  }

  lemma NoRun(w: World)
    ensures Run(w, [], w) && AllSmooth([])
  {
  }

  /** Nothing is left to do at all. */
  lemma {:induction false} ComesToFullRest(w0: World, before: seq<Action>, w: World) returns (actions: seq<Action>, w': World)
    requires Initial(w0) && Run(w0, before, w) && w.turn.Idle? && w.r.startupLoaded
    ensures Run(w, actions, w') && AllSmooth(actions) && AtRest(w') && NextRunnable(w'.r) == None && w'.db.events == w.db.events
  {
    hide Run;
    var rolling, rest := ComesToRest(w0, before, w);
    ReachedSteady(w0, before, w);
    StaysSteady(w, rolling, rest);
    hide Steady;
    var scanning, last := IdentitiesEnd(rest);
    RunsTogether(w, rolling, rest, scanning, last);
    return rolling + scanning, last;
  }

  /** And then every event notified before is in all three rollups, once, and every
      identity known at the last notice has been aggregated since. */
  lemma {:induction false} RestMeansCovered(w0: World, before: seq<Action>, w: World) returns (actions: seq<Action>, w': World)
    requires Initial(w0) && Run(w0, before, w) && w.turn.Idle? && w.r.startupLoaded
    ensures Run(w, actions, w') && AllSmooth(actions) && AtRest(w') && NextRunnable(w'.r) == None && w'.db.events == w.db.events
    ensures forall k: Rollup, id :: id in w.db.events && id <= w.h.notified ==> w'.db.contents.Get(k)[id] == 1
    ensures AllAggregated(w')
  {
    actions, w' := ComesToFullRest(w0, before, w);
    NotifiedStays(w, actions, w');
    PathConcat(Stepped, w0, before, w, actions, w');
    forall k: Rollup, id | id in w.db.events && id <= w.h.notified
      ensures w'.db.contents.Get(k)[id] == 1
    {
      QuietMeansCovered(w0, before + actions, w', k, id);
    }
    IdentitiesCovered(w0, before + actions, w');
  }

  /** Every identity known at the last notice has been aggregated after it. */
  ghost predicate AllAggregated(w: World) {
    w.h.knownAtNotice <= |w.identities|
    && forall i :: 0 <= i < w.h.knownAtNotice ==> w.identities[i] in w.h.aggregatedAt && w.h.lastNotice < w.h.aggregatedAt[w.identities[i]]
  }

  lemma {:induction false} IdentitiesCovered(w0: World, actions: seq<Action>, w: World)
    requires Initial(w0) && Run(w0, actions, w) && !IdentityPending(w.r)
    ensures AllAggregated(w)
  {
    hide Run;
    if 0 < w.h.knownAtNotice {
      QuietMeansScanned(w0, actions, w, w.h.knownAtNotice - 1);
    }
    forall i: nat | i < w.h.knownAtNotice
      ensures i < |w.identities| && w.identities[i] in w.h.aggregatedAt && w.h.lastNotice < w.h.aggregatedAt[w.identities[i]]
    {
      QuietMeansScanned(w0, actions, w, i);
    }
  }
}
