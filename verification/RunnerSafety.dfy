/** What every step of the runner protocol keeps, and what follows for whole runs. */
module RunnerSafety {
  import opened Runs
  import opened Wrappers
  import opened RollupStore
  import opened RunnerProtocol

  // ----- pages in hand -----

  /** The rollup whose snapshot cursor the page in hand was loaded from. */
  function PageOwner(p: Pages): Rollup {
    if p.shared then Overview else Nth(p.at)
  }

  ghost predicate SnapBehind(db: Store, snap: Three<int>) {
    forall k: Rollup :: 0 <= snap.Get(k) <= db.cursors.Get(k)
  }

  ghost predicate PageInHand(db: Store, p: Pages) {
    && (p.page != [] ==> PageCurrent(db, p.snap.Get(PageOwner(p)), p.page) && LastID(p.page) <= p.target && p.loaded)
    && (p.shared ==> Equal(p.snap) && (0 < p.at ==> p.page != []))
    && (!p.shared && p.at == 3 ==> p.page == [])
  }

  /** Without a failure a shared page has gone into every rollup passed, and a
      fallback turn that loaded nothing has passed only rollups at the target. */
  ghost predicate PassedDone(db: Store, p: Pages) {
    && (p.shared && !p.failed ==> forall j: nat :: j < p.at ==> LastID(p.page) <= db.cursors.Get(Nth(j)))
    && (!p.shared && !p.failed && !p.loaded ==> forall j: nat :: j < p.at ==> p.target <= p.snap.Get(Nth(j)))
    && (!p.failed && !p.loaded ==> !AllReached(p.snap, p.target))
  }

  ghost predicate LeftLowered(db: Store, p: Pages) {
    && LeftAll(db, p.target) <= p.before
    && (p.processed ==> LeftAll(db, p.target) < p.before)
    && (p.loaded && !p.failed && (p.page == [] || (p.shared && 0 < p.at)) ==> p.processed)
  }

  ghost predicate PagesOk(db: Store, p: Pages) {
    p.at <= 3 && p.target <= LastID(db.events)
    && SnapBehind(db, p.snap) && PageInHand(db, p) && PassedDone(db, p) && LeftLowered(db, p)
  }

  ghost predicate TurnOk(db: Store, t: Turn) {
    match t
    case Starting(target) => 0 <= target <= LastID(db.events)
    case Begun(_, target, _, _, _) => target <= LastID(db.events)
    case Rolling(p) => PagesOk(db, p)
    case Rolled(goal, reached, loaded, deferred, before) =>
      && goal <= LastID(db.events)
      && (reached ==> AllReached(db.cursors, goal))
      && (loaded && !deferred ==> LeftAll(db, goal) < before)
      && (!loaded && !deferred ==> AllReached(db.cursors, goal))
    case _ => true
  }

  /** Each rollup is exact up to its cursor, and the turn's view of the database is
      not ahead of it. */
  ghost predicate StoreInv(w: World) {
    ExactlyOnce(w.db) && Growing(w.identities) && w.r.activeTarget <= LastID(w.db.events) && TurnOk(w.db, w.turn)
  }

  /** Cursors only grow, so what a turn has seen stays behind them. */
  ghost predicate Grown(db: Store, next: Store) {
    && next.events == db.events
    && forall k: Rollup :: db.cursors.Get(k) <= next.cursors.Get(k)
  }

  lemma ApplyGrows(db: Store, k: Rollup, expected: int, page: seq<int>, target: int)
    requires ExactlyOnce(db) && PageCurrent(db, expected, page)
    ensures var next := Apply(db, k, expected, page); ExactlyOnce(next) && Grown(db, next)
    ensures LeftAll(Apply(db, k, expected, page), target) <= LeftAll(db, target)
  {
    ApplyKeeps(db, k, expected, page);
    var next := Apply(db, k, expected, page);
    if next != db {
      LeftShrinks(db, k, expected, page, target);
    }
  }

  lemma LeftShrinks(db: Store, k: Rollup, expected: int, page: seq<int>, target: int)
    requires ExactlyOnce(db) && PageCurrent(db, expected, page)
    ensures LeftAll(Apply(db, k, expected, page), target) <= LeftAll(db, target)
  {
    if Apply(db, k, expected, page) != db {
      BetweenShorter(db.events, expected, LastID(page), target);
    }
  }

  lemma BetweenShorter(events: seq<int>, a: int, b: int, c: int)
    requires Growing(events) && a <= b
    ensures |Between(events, b, c)| <= |Between(events, a, c)|
  {
    if b <= c {
      BetweenSplit(events, a, b, c);
    } else {
      NothingBetween(events, b, c);
    }
  }

  lemma {:induction false} NothingBetween(events: seq<int>, a: int, b: int)
    requires b <= a
    ensures Between(events, a, b) == []
  {
    if events != [] {
      NothingBetween(events[1..], a, b);
    }
  }

  lemma GrownKeepsTurn(db: Store, next: Store, t: Turn)
    requires TurnOk(db, t) && Grown(db, next)
    requires forall target :: LeftAll(next, target) <= LeftAll(db, target)
    ensures TurnOk(next, t)
  {
    match t
    case Rolling(p) =>
      assert SnapBehind(next, p.snap);
      assert forall j: nat :: j < p.at ==> db.cursors.Get(Nth(j)) <= next.cursors.Get(Nth(j));
    case Rolled(goal, reached, loaded, deferred, before) =>
      assert db.cursors.Get(Overview) <= next.cursors.Get(Overview);
      assert db.cursors.Get(Activity) <= next.cursors.Get(Activity);
      assert db.cursors.Get(Latency) <= next.cursors.Get(Latency);
    case _ =>
  }

  lemma CommitKeepsTurn(db: Store, more: seq<int>, t: Turn)
    requires ExactlyOnce(db) && Follows(db.events, more) && TurnOk(db, t)
    ensures TurnOk(db.(events := db.events + more), t)
  {
    AppendGrows(db.events, more);
    match t
    case Rolling(p) =>
      CommitKeepsPage(db, more, p.snap.Get(PageOwner(p)), p.page);
      CommitKeepsLeft(db, more, p.target);
    case Rolled(goal, _, _, _, _) =>
      CommitKeepsLeft(db, more, goal);
    case _ =>
  }

  // ----- steps of a rollup turn -----

  lemma SnapshotOk(db: Store, target: int)
    requires ExactlyOnce(db) && target <= LastID(db.events)
    ensures TurnOk(db, ReadCursors(db, target))
  {
    assert forall k: Rollup :: CursorExact(db, k) ==> 0 <= db.cursors.Get(k);
  }

  lemma LoadOk(db: Store, p: Pages, ok: bool)
    requires ExactlyOnce(db) && PagesOk(db, p) && p.at < 3 && p.page == []
    ensures TurnOk(db, LoadPage(db, p, ok))
  {
    var cursor := p.snap.Get(PageOwner(p));
    var page := Page(db.events, cursor, p.target, EVENT_PAGE_SIZE);
    FreshPageCurrent(db, cursor, p.target, EVENT_PAGE_SIZE);
    PageIsInterval(db.events, cursor, p.target, EVENT_PAGE_SIZE);
    if p.shared {
      assert p.at == 0;
    } else if cursor >= p.target {
      SkipOk(db, p);
    } else if !ok || page == [] {
      FailOk(db, p);
    }
  }

  lemma SkipOk(db: Store, p: Pages)
    requires PagesOk(db, p) && p.at < 3 && !p.shared && p.page == [] && p.target <= p.snap.Get(Nth(p.at))
    ensures PagesOk(db, Advance(p))
  {
  }

  /** A rollup that failed is passed; the turn will end as a failure. */
  lemma FailOk(db: Store, p: Pages)
    requires PagesOk(db, p) && p.at < 3 && (p.shared ==> p.page != [])
    ensures PagesOk(db, Advance(p.(failed := true)))
  {
  }

  lemma WriteOk(db: Store, p: Pages, outcome: Outcome)
    requires ExactlyOnce(db) && PagesOk(db, p) && p.at < 3 && p.page != []
    ensures var (next, turn) := WritePage(db, p, outcome);
            ExactlyOnce(next) && Grown(db, next) && TurnOk(next, turn)
  {
    hide ExactlyOnce;
    hide LeftAll;
    FailOk(db, p);
    if outcome == ApplyOk {
      var k := Nth(p.at);
      assert p.snap.Get(k) == p.snap.Get(PageOwner(p));
      ApplyKeeps(db, k, p.snap.Get(k), p.page);
      ApplyProgress(db, k, p.snap.Get(k), p.page, p.target);
      if Apply(db, k, p.snap.Get(k), p.page) != db {
        AppliedOk(db, p);
      }
    }
  }

  lemma AppliedOk(db: Store, p: Pages)
    requires ExactlyOnce(db) && PagesOk(db, p) && p.at < 3 && p.page != []
    requires Apply(db, Nth(p.at), p.snap.Get(Nth(p.at)), p.page) != db
    requires Grown(db, Apply(db, Nth(p.at), p.snap.Get(Nth(p.at)), p.page))
    requires LeftAll(Apply(db, Nth(p.at), p.snap.Get(Nth(p.at)), p.page), p.target) < LeftAll(db, p.target)
    ensures var next := Apply(db, Nth(p.at), p.snap.Get(Nth(p.at)), p.page);
            PagesOk(next, Advance(if p.shared then p.(processed := true)
                                  else p.(processed := true, snap := p.snap.With(Nth(p.at), LastID(p.page)))))
  {
    var k := Nth(p.at);
    var next := Apply(db, k, p.snap.Get(k), p.page);
    var q := if p.shared then p.(processed := true) else p.(processed := true, snap := p.snap.With(k, LastID(p.page)));
    assert next.cursors.Get(k) == LastID(p.page);
    assert SnapBehind(next, q.snap) by {
      forall j: Rollup
        ensures 0 <= q.snap.Get(j) <= next.cursors.Get(j)
      {
        assert 0 <= p.snap.Get(j) <= db.cursors.Get(j);
      }
    }
    assert PassedDone(next, Advance(q)) by {
      if p.shared && !p.failed {
        forall j: nat | j < p.at + 1
          ensures LastID(p.page) <= next.cursors.Get(Nth(j))
        {
          if j < p.at {
            assert LastID(p.page) <= db.cursors.Get(Nth(j));
          }
        }
      }
    }
  }

  lemma FinishOk(db: Store, p: Pages)
    requires ExactlyOnce(db) && PagesOk(db, p) && p.at == 3
    ensures TurnOk(db, FinishPages(p))
  {
    if !p.failed {
      assert Nth(0) == Overview && Nth(1) == Activity && Nth(2) == Latency;
      if p.shared {
        assert LastID(p.page) <= db.cursors.Get(Nth(0)) && LastID(p.page) <= db.cursors.Get(Nth(1)) && LastID(p.page) <= db.cursors.Get(Nth(2));
      } else {
        assert p.snap.Get(Overview) <= db.cursors.Get(Overview);
        assert p.snap.Get(Activity) <= db.cursors.Get(Activity);
        assert p.snap.Get(Latency) <= db.cursors.Get(Latency);
      }
    }
  }

  /** The store stays exact, what the turn knows of it stays true, and it only grows. */
  ghost predicate StoreKept(w: World, next: World) {
    && ExactlyOnce(next.db) && Growing(next.identities) && TurnOk(next.db, next.turn)
    && LastID(w.db.events) <= LastID(next.db.events)
    && forall k: Rollup :: w.db.cursors.Get(k) <= next.db.cursors.Get(k)
  }

  lemma {:induction false} OtherWriterKeeps(w: World, k: Rollup, target: int)
    requires StoreInv(w)
    ensures StoreKept(w, w.(db := Apply(w.db, k, w.db.cursors.Get(k), Page(w.db.events, w.db.cursors.Get(k), target, EVENT_PAGE_SIZE))))
  {
    var cursor := w.db.cursors.Get(k);
    var page := Page(w.db.events, cursor, target, EVENT_PAGE_SIZE);
    FreshPageCurrent(w.db, cursor, target, EVENT_PAGE_SIZE);
    forall t
      ensures LeftAll(Apply(w.db, k, cursor, page), t) <= LeftAll(w.db, t)
    {
      ApplyGrows(w.db, k, cursor, page, t);
    }
    ApplyKeeps(w.db, k, cursor, page);
    GrownKeepsTurn(w.db, Apply(w.db, k, cursor, page), w.turn);
    hide TurnOk;
    hide Apply;
    hide Page;
  }

  /** The environment's steps. */
  lemma {:induction false} OutsideStep(w: World, a: Action)
    requires StoreInv(w) && Enabled(w, a) && (a.Commit? || a.AddIdentities? || a.OtherWriter?)
    ensures StoreKept(w, Step(w, a))
  {
    hide TurnOk;
    hide Apply;
    hide Page;
    match a
    case Commit(more) =>
      CommitKeeps(w.db, more);
      AppendGrows(w.db.events, more);
      CommitKeepsTurn(w.db, more, w.turn);
    case AddIdentities(more) => AppendGrows(w.identities, more);
    case OtherWriter(k, target) =>
      hide StoreKept;
      OtherWriterKeeps(w, k, target);
      KeptIgnoresHistory(w, w.(db := Apply(w.db, k, w.db.cursors.Get(k), Page(w.db.events, w.db.cursors.Get(k), target, EVENT_PAGE_SIZE))), Step(w, a).h);
  }

  lemma KeptIgnoresHistory(w: World, next: World, h: History)
    requires StoreKept(w, next)
    ensures StoreKept(w, next.(h := h))
  {
  }

  /** The steps of a rollup turn. */
  lemma {:induction false} RollupStep(w: World, a: Action)
    requires StoreInv(w) && Enabled(w, a) && (a.QueryTarget? || a.Snapshot? || a.Load? || a.Write? || a.Finish?)
    ensures StoreKept(w, Step(w, a))
  {
    hide PagesOk;
    hide ReadCursors;
    hide LoadPage;
    hide WritePage;
    hide FinishPages;
    match a
    case QueryTarget => LastNotNegative(w.db.events);
    case Snapshot(ok) => SnapshotOk(w.db, w.turn.target);
    case Load(ok) => LoadOk(w.db, w.turn.pages, ok);
    case Write(outcome) => WriteOk(w.db, w.turn.pages, outcome);
    case Finish => FinishOk(w.db, w.turn.pages);
  }

  /** All others leave the database and the identities alone. */
  lemma {:induction false} BookkeepingStep(w: World, a: Action)
    requires StoreInv(w) && Enabled(w, a)
    requires !(a.Commit? || a.AddIdentities? || a.OtherWriter? || a.QueryTarget? || a.Snapshot? || a.Load? || a.Write? || a.Finish?)
    ensures StoreKept(w, Step(w, a))
  {
    hide PagesOk;
    hide Page;
    hide ExactlyOnce;
    hide Growing;
  }

  lemma {:induction false} StoreStep(w: World, a: Action)
    requires StoreInv(w) && Enabled(w, a)
    ensures StoreKept(w, Step(w, a))
  {
    hide StoreInv;
    hide StoreKept;
    hide Step;
    hide Enabled;
    if a.Commit? || a.AddIdentities? || a.OtherWriter? {
      OutsideStep(w, a);
    } else if a.QueryTarget? || a.Snapshot? || a.Load? || a.Write? || a.Finish? {
      RollupStep(w, a);
    } else {
      BookkeepingStep(w, a);
    }
  }

  lemma LastNotNegative(events: seq<int>)
    requires Growing(events)
    ensures 0 <= LastID(events)
  {
  }

  // ----- targets -----

  ghost predicate AllCursorsReach(db: Store, id: int) {
    forall k: Rollup :: id <= db.cursors.Get(k)
  }

  /** Every notified event is still pending, inside the active target, or behind all
      three cursors; a round is marked done only when its target has been reached. */
  ghost predicate TargetInv(w: World) {
    && 0 <= w.r.pending <= LastID(w.db.events) && 0 <= w.r.activeTarget <= LastID(w.db.events)
    && w.h.notified <= LastID(w.db.events)
    && (w.r.activeRound ==> w.r.startupLoaded)
    && (!w.r.activeRound ==> w.r.activeTarget == 0 && !w.r.reached)
    && (w.r.reached ==> AllCursorsReach(w.db, w.r.activeTarget))
    && (w.h.notified <= w.r.pending || (w.r.startupLoaded && (w.h.notified <= w.r.activeTarget || AllCursorsReach(w.db, w.h.notified))))
  }

  lemma AllReachedMeans(db: Store, target: int)
    ensures AllReached(db.cursors, target) <==> AllCursorsReach(db, target)
  {
    if AllCursorsReach(db, target) {
      assert target <= db.cursors.Get(Overview) && target <= db.cursors.Get(Activity) && target <= db.cursors.Get(Latency);
    }
  }

  /** Only the store has moved on, and with it the cursors. */
  lemma {:induction false} TargetsStay(w: World, next: World)
    requires TargetInv(w) && StoreKept(w, next) && next.r == w.r && next.h.notified == w.h.notified
    ensures TargetInv(next)
  {
    hide ExactlyOnce;
    hide Growing;
    hide TurnOk;
    assert forall id :: AllCursorsReach(w.db, id) ==> AllCursorsReach(next.db, id);
  }

  lemma {:induction false} NoticeTargets(w: World, ids: seq<int>)
    requires StoreInv(w) && TargetInv(w) && Enabled(w, EventsCommitted(ids))
    ensures TargetInv(Step(w, EventsCommitted(ids)))
  {
    hide TurnOk;
    MaxIDIsLargest(ids);
    if MaxID(ids) > 0 {
      LastIsLargest(w.db.events, MaxID(ids));
    }
    hide ExactlyOnce;
    hide Growing;
  }

  lemma {:induction false} EndTargets(w: World)
    requires StoreInv(w) && TargetInv(w) && Enabled(w, End)
    ensures TargetInv(Step(w, End))
  {
    if w.turn.Rolled? {
      AllReachedMeans(w.db, w.turn.goal);
      EndRollupsKeepsTargets(w);
    }
    hide ExactlyOnce;
    hide Growing;
  }

  lemma {:induction false} TargetStep(w: World, a: Action)
    requires StoreInv(w) && TargetInv(w) && Enabled(w, a)
    ensures TargetInv(Step(w, a))
  {
    StoreStep(w, a);
    hide StoreKept;
    match a {
      case EventsCommitted(ids) => NoticeTargets(w, ids);
      case StoreTarget =>
        CursorsNotNegative(w.db);
        hide ExactlyOnce;
        hide Growing;
      case IdentitiesChanged =>
        hide ExactlyOnce;
        hide Growing;
        hide TurnOk;
      case FreezePending =>
        hide ExactlyOnce;
        hide Growing;
        hide TurnOk;
      case End => EndTargets(w);
      case _ =>
        RunnerUntouched(w, a);
        hide Step;
        TargetsStay(w, Step(w, a));
    }
  }

  /** The other steps change none of the runner's targets. */
  lemma {:induction false} RunnerUntouched(w: World, a: Action)
    requires Enabled(w, a) && !(a.EventsCommitted? || a.StoreTarget? || a.FreezePending? || a.End? || a.IdentitiesChanged?)
    ensures Step(w, a).r == w.r && Step(w, a).h.notified == w.h.notified
  {
    hide Apply;
    hide Page;
    hide ReadCursors;
    hide LoadPage;
    hide WritePage;
    hide FinishPages;
  }

  lemma CursorsNotNegative(db: Store)
    requires ExactlyOnce(db)
    ensures AllCursorsReach(db, 0)
  {
    assert forall k: Rollup :: CursorExact(db, k) ==> 0 <= db.cursors.Get(k);
  }

  lemma EndRollupsKeepsTargets(w: World)
    requires TargetInv(w) && w.turn.Rolled? && (w.turn.reachedTarget ==> AllCursorsReach(w.db, w.turn.goal))
    ensures TargetInv(EndTurn(w))
  {
    var target := w.r.activeTarget;
    assert forall id :: id <= target && AllCursorsReach(w.db, target) ==> AllCursorsReach(w.db, id);
  }

  // ----- identity scans -----

  ghost predicate AggregatedSince(h: History, id: int, time: nat) {
    id in h.aggregatedAt && time <= h.aggregatedAt[id]
  }

  /** All identities up to `upTo` have been aggregated since `time`. */
  ghost predicate CoveredSince(identities: seq<int>, h: History, upTo: int, time: nat) {
    forall i :: 0 <= i < |identities| && identities[i] <= upTo ==> AggregatedSince(h, identities[i], time)
  }

  /** The scan that started at `start` with the generation `gen` began after the last
      notice, if no newer generation has been asked for. */
  ghost predicate ScanIsRecent(w: World, gen: nat, start: nat) {
    gen <= w.r.targetGen && (gen == w.r.targetGen ==> w.h.lastNotice < start)
  }

  ghost predicate IdentityInv(w: World) {
    && w.r.scanGen <= w.r.targetGen && 1 <= w.r.targetGen && 0 <= w.r.afterID
    && w.h.lastNotice < w.h.clock && w.h.knownAtNotice <= |w.identities|
    && w.h.scanStart <= w.h.clock && w.h.finishedStart <= w.h.clock
    && (w.r.afterID != 0 ==>
          && 0 < w.r.scanGen && ScanIsRecent(w, w.r.scanGen, w.h.scanStart)
          && CoveredSince(w.identities, w.h, w.r.afterID, w.h.scanStart)
          && w.r.afterID <= LastID(w.identities))
    && (w.r.afterID == 0 && 0 < w.r.scanGen ==>
          && ScanIsRecent(w, w.r.scanGen, w.h.finishedStart))
    && FinishedCovered(w)
    && (w.turn.Begun? && w.turn.kind == Identity ==> BegunScanOk(w))
    && (w.turn.Scanned? ==> ScannedOk(w))
  }

  ghost predicate FinishedCovered(w: World) {
    && w.h.finishedCovered <= |w.identities|
    && (forall i :: 0 <= i < w.h.finishedCovered ==> AggregatedSince(w.h, w.identities[i], w.h.finishedStart))
    && (w.h.lastNotice < w.h.finishedStart ==> w.h.knownAtNotice <= w.h.finishedCovered)
  }

  ghost predicate BegunScanOk(w: World)
    requires w.turn.Begun?
  {
    && w.turn.after == w.r.afterID && 0 < w.turn.passGen && w.turn.start <= w.h.clock
    && ScanIsRecent(w, w.turn.passGen, w.turn.start)
    && CoveredSince(w.identities, w.h, w.turn.after, w.turn.start)
  }

  ghost predicate ScannedOk(w: World)
    requires w.turn.Scanned?
  {
    && 0 < w.turn.scanGen && ScanIsRecent(w, w.turn.scanGen, w.turn.scanStart)
    && w.turn.covered <= |w.identities| && w.turn.scanStart <= w.h.clock
    && (w.h.lastNotice < w.turn.scanStart ==> w.h.knownAtNotice <= w.turn.covered)
    && (w.turn.reachedEnd ==> forall i :: 0 <= i < w.turn.covered ==> AggregatedSince(w.h, w.identities[i], w.turn.scanStart))
    && (!w.turn.reachedEnd ==> 0 < w.turn.lastID <= LastID(w.identities) && CoveredSince(w.identities, w.h, w.turn.lastID, w.turn.scanStart))
  }

  /** Aggregating more identities at the present keeps what is known of the past. */
  lemma MarkKeeps(h: History, ids: seq<int>, now: nat, id: int, time: nat)
    requires AggregatedSince(h, id, time) && time <= now
    ensures AggregatedSince(h.(aggregatedAt := Mark(h.aggregatedAt, ids, now)), id, time)
  {
  }

  lemma ScanKeeps(w: World, size: nat)
    requires Growing(w.identities) && IdentityInv(w) && w.turn.Begun? && w.turn.kind == Identity && 0 < size
    ensures ScannedOk(Scan(w, size))
  {
    var t, ids := w.turn, w.identities;
    var rows := Page(ids, t.after, LastID(ids), size);
    var next := Scan(w, size);
    var lastID := next.turn.lastID;
    PageIsInterval(ids, t.after, LastID(ids), size);
    BetweenMembers(ids, t.after, LastID(ids));
    forall i | 0 <= i < |ids| && (ids[i] <= lastID || |rows| < size)
      ensures AggregatedSince(next.h, ids[i], t.start)
    {
      LastIsLargest(ids, ids[i]);
      if ids[i] <= t.after {
        assert AggregatedSince(w.h, ids[i], t.start);
        MarkKeeps(w.h, rows, w.h.clock, ids[i], t.start);
      } else {
        PageHolds(ids, t.after, LastID(ids), size, ids[i]);
        assert ids[i] in rows;
      }
    }
    if |rows| >= size {
      LastIn(rows);
    }
  }

  /** A page holds every event up to its last ID, and every event if it is short. */
  lemma PageHolds(events: seq<int>, after: int, target: int, limit: nat, id: int)
    requires Growing(events) && 0 < limit && id in events && after < id <= target
    requires var page := Page(events, after, target, limit); |page| < limit || (page != [] && id <= LastID(page))
    ensures id in Page(events, after, target, limit)
  {
    var page := Page(events, after, target, limit);
    BetweenMembers(events, after, target);
    if |page| == limit {
      PageIsInterval(events, after, target, limit);
      BetweenMembers(events, after, LastID(page));
    }
  }

  lemma NoticeKeeps(w: World, r: Runner, maxID: int)
    requires IdentityInv(w) && r == w.r.(pending := r.pending, targetGen := w.r.targetGen + 1)
    ensures IdentityInv(Tick(Noticed(w, r, maxID), w))
  {
  }

  ghost function Tick(next: World, w: World): World {
    next.(h := next.h.(clock := w.h.clock + 1))
  }

  lemma AddIdentitiesKeeps(w: World, more: seq<int>)
    requires IdentityInv(w) && Growing(w.identities) && Follows(w.identities, more)
    ensures IdentityInv(Tick(w.(identities := w.identities + more), w))
  {
    var next := w.(identities := w.identities + more);
    AppendGrows(w.identities, more);
    assert forall i :: 0 <= i < |w.identities| ==> next.identities[i] == w.identities[i];
    CoveredStays(w.identities, more, w.h, w.r.afterID, w.h.scanStart);
    if w.turn.Begun? && w.turn.kind == Identity {
      CoveredStays(w.identities, more, w.h, w.turn.after, w.turn.start);
    }
    if w.turn.Scanned? && !w.turn.reachedEnd {
      CoveredStays(w.identities, more, w.h, w.turn.lastID, w.turn.scanStart);
    }
  }

  lemma CoveredStays(identities: seq<int>, more: seq<int>, h: History, upTo: int, time: nat)
    requires Follows(identities, more) && upTo <= LastID(identities) && CoveredSince(identities, h, upTo, time)
    ensures CoveredSince(identities + more, h, upTo, time)
  {
  }

  lemma BeginKeeps(w: World)
    requires IdentityInv(w) && w.turn.Idle? && NextRunnable(w.r).Some? && Growing(w.identities)
    ensures IdentityInv(Tick(BeginTurn(w), w))
  {
    assert forall i :: 0 <= i < |w.identities| ==> 0 < w.identities[i];
  }

  lemma ScanStepKeeps(w: World, size: nat)
    requires Growing(w.identities) && IdentityInv(w) && w.turn.Begun? && w.turn.kind == Identity && 0 < size
    ensures IdentityInv(Tick(Scan(w, size), w))
  {
    ScanKeeps(w, size);
    var rows := Page(w.identities, w.turn.after, LastID(w.identities), size);
    forall id, time: nat | AggregatedSince(w.h, id, time) && time <= w.h.clock
      ensures AggregatedSince(Scan(w, size).h, id, time)
    {
      MarkKeeps(w.h, rows, w.h.clock, id, time);
    }
  }

  lemma EndKeeps(w: World)
    requires IdentityInv(w) && (w.turn.Rolled? || w.turn.Scanned? || w.turn.Failed?)
    ensures IdentityInv(Tick(EndTurn(w), w))
  {
  }

  /** Steps that touch neither the scan fields nor the identities keep the invariant. */
  lemma OthersKeep(w: World, next: World)
    requires IdentityInv(w) && next.identities == w.identities && next.h == w.h.(notified := next.h.notified)
    requires next.r.afterID == w.r.afterID && next.r.scanGen == w.r.scanGen && next.r.targetGen == w.r.targetGen
    requires next.turn == w.turn || !(next.turn.Scanned? || (next.turn.Begun? && next.turn.kind == Identity))
    ensures IdentityInv(Tick(next, w))
  {
  }

  /** Those that are no notices, scans or ends. */
  lemma {:induction false} OthersUntouched(w: World, a: Action)
    requires Enabled(w, a) && IdentityInv(w)
    requires !(a.AddIdentities? || a.EventsCommitted? || a.IdentitiesChanged? || a.Begin? || a.End? || (a.ScanPage? && a.scanOk))
    ensures IdentityInv(Step(w, a))
  {
    hide IdentityInv;
    hide Apply;
    hide Page;
    hide ReadCursors;
    hide LoadPage;
    hide WritePage;
    hide FinishPages;
    ReadCursorsRolls(w.db, if w.turn.Begun? then w.turn.target else 0);
    if w.turn.Rolling? && w.turn.pages.at <= 3 {
      PagesRoll(w.db, w.turn.pages, if a.Load? then a.loadOk else true, if a.Write? then a.outcome else ApplyOk);
    }
    OthersKeep(w, Act(w, a));
  }

  /** The steps of a rollup turn stay within it. */
  lemma ReadCursorsRolls(db: Store, target: int)
    ensures ReadCursors(db, target).Rolled? || ReadCursors(db, target).Rolling?
  {
  }

  lemma PagesRoll(db: Store, p: Pages, ok: bool, outcome: Outcome)
    requires p.at <= 3
    ensures var t := LoadPage(db, p, ok); t.Rolled? || t.Rolling? || t.Failed?
    ensures var t := WritePage(db, p, outcome).1; t.Rolled? || t.Rolling? || t.Failed?
    ensures var t := FinishPages(p); t.Rolled? || t.Failed?
  {
    hide Apply;
    hide Page;
  }

  lemma {:induction false} IdentityStep(w: World, a: Action)
    requires StoreInv(w) && IdentityInv(w) && Enabled(w, a)
    ensures IdentityInv(Step(w, a))
  {
    hide IdentityInv;
    match a
    case AddIdentities(more) => AddIdentitiesKeeps(w, more);
    case EventsCommitted(ids) =>
      if MaxID(ids) > 0 {
        NoticeKeeps(w, NotifyEvents(w.r, MaxID(ids)), MaxID(ids));
      } else {
        OthersKeep(w, w);
      }
    case IdentitiesChanged => NoticeKeeps(w, NotifyIdentities(w.r), 0);
    case Begin => BeginKeeps(w);
    case ScanPage(ok, size) =>
      if ok {
        ScanStepKeeps(w, size);
      } else {
        OthersUntouched(w, a);
      }
    case End => EndKeeps(w);
    case _ => OthersUntouched(w, a);
  }

  // ----- turn taking -----

  /** After any turn that was not given up at once to the inbox it is the other
      kind's turn. */
  ghost predicate TurnInv(w: World) {
    w.h.lastTurn.Some? ==> w.r.nextKind == Other(w.h.lastTurn.value)
  }

  lemma TurnStep(w: World, a: Action)
    requires TurnInv(w) && Enabled(w, a)
    ensures TurnInv(Step(w, a))
  {
  }

  // ----- whole runs -----

  ghost predicate Inv(w: World) {
    StoreInv(w) && TargetInv(w) && IdentityInv(w) && TurnInv(w)
  }

  lemma InitialInv(w: World)
    requires Initial(w)
    ensures Inv(w)
  {
    LastNotNegative(w.db.events);
  }

  lemma InvStep(w: World, a: Action, next: World)
    requires Inv(w) && Stepped(w, a, next)
    ensures Inv(next)
  {
    StoreStep(w, a);
    TargetStep(w, a);
    IdentityStep(w, a);
    TurnStep(w, a);
  }

  lemma RunInv(w0: World, actions: seq<Action>, w: World)
    requires Initial(w0) && Run(w0, actions, w)
    ensures Inv(w)
  {
    InitialInv(w0);
    forall before, a, after | Inv(before) && Stepped(before, a, after)
      ensures Inv(after)
    {
      InvStep(before, a, after);
    }
    PathInvariant(Stepped, Inv, w0, actions, w);
  }

  /** In every reachable world each rollup holds every event up to its own cursor
      exactly once and nothing else. */
  lemma EveryEventOnce(w0: World, actions: seq<Action>, w: World, k: Rollup, id: int)
    requires Initial(w0) && Run(w0, actions, w)
    ensures w.db.contents.Get(k)[id] == if id in w.db.events && id <= w.db.cursors.Get(k) then 1 else 0
  {
    RunInv(w0, actions, w);
    assert CursorExact(w.db, k);
    CountedOnce(w.db.events, w.db.cursors.Get(k), id);
  }

  lemma {:induction false} CountedOnce(events: seq<int>, cursor: int, id: int)
    requires Growing(events)
    ensures multiset(Between(events, 0, cursor))[id] == if id in events && id <= cursor then 1 else 0
  {
    if events != [] {
      var rest := Between(events[1..], 0, cursor);
      CountedOnce(events[1..], cursor, id);
      assert events == [events[0]] + events[1..];
      var head := if 0 < events[0] <= cursor then [events[0]] else [];
      assert Between(events, 0, cursor) == head + rest;
      hide Between;
      assert multiset(head + rest)[id] == multiset(head)[id] + multiset(rest)[id];
      assert id in events[1..] ==> events[0] < id;
    }
  }

  /** When the runner has loaded its startup target and has neither an active round
      nor a pending target, every notified event is in all three rollups, once. */
  lemma QuietMeansCovered(w0: World, actions: seq<Action>, w: World, k: Rollup, id: int)
    requires Initial(w0) && Run(w0, actions, w)
    requires w.r.startupLoaded && !w.r.activeRound && w.r.pending == 0
    requires id in w.db.events && id <= w.h.notified
    ensures w.db.contents.Get(k)[id] == 1
  {
    RunInv(w0, actions, w);
    EveryEventOnce(w0, actions, w, k, id);
    LastIsLargest(w.db.events, id);
    assert 0 < id;
    assert AllCursorsReach(w.db, w.h.notified);
    assert w.h.notified <= w.db.cursors.Get(k);
  }

  /** When no identity work is pending, every identity known at the last notice has
      been aggregated after it. */
  lemma QuietMeansScanned(w0: World, actions: seq<Action>, w: World, i: nat)
    requires Initial(w0) && Run(w0, actions, w)
    requires !IdentityPending(w.r) && i < w.h.knownAtNotice
    ensures i < |w.identities| && AggregatedSince(w.h, w.identities[i], w.h.lastNotice + 1)
  {
    RunInv(w0, actions, w);
    assert AggregatedSince(w.h, w.identities[i], w.h.finishedStart);
  }

  /** While both kinds have work, the next turn is of the other kind than the last. */
  lemma TurnsAlternate(w0: World, actions: seq<Action>, w: World)
    requires Initial(w0) && Run(w0, actions, w)
    requires w.turn.Idle? && w.r.activeRound && IdentityPending(w.r) && w.h.lastTurn.Some?
    ensures Enabled(w, Begin) && Step(w, Begin).turn.kind == Other(w.h.lastTurn.value)
  {
    RunInv(w0, actions, w);
  }

  /** A rollup turn that ends well without yielding to the inbox has lowered the
      number of events left before its target, unless nothing was left. */
  lemma TurnsProgress(w0: World, actions: seq<Action>, w: World)
    requires Initial(w0) && Run(w0, actions, w)
    requires w.turn.Rolled? && !w.turn.deferred
    ensures if w.turn.loadedPage then LeftAll(w.db, w.turn.goal) < w.turn.leftBefore
            else AllCursorsReach(w.db, w.turn.goal)
  {
    RunInv(w0, actions, w);
    AllReachedMeans(w.db, w.turn.goal);
  }
}
