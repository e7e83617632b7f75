/** The aggregation runner as a protocol: its critical sections, the database steps
    of a turn between them, and everything that may happen in between. */
module RunnerProtocol {
  import opened Runs
  import opened Wrappers
  import opened RollupStore

  const EVENT_PAGE_SIZE := 1000

  datatype Kind = Rollups | Identity

  function Other(k: Kind): Kind {
    if k == Rollups then Identity else Rollups
  }

  // ----- the runner's fields and its critical sections -----

  datatype Runner = Runner(
    nextKind: Kind,
    startupLoaded: bool,
    activeRound: bool,
    activeTarget: int,
    reached: bool,
    pending: int,
    afterID: int,
    targetGen: nat,
    scanGen: nat
  )

  const INITIAL := Runner(Rollups, false, false, 0, false, 0, 0, 1, 0)

  function Max(a: int, b: int): int {
    if a < b then b else a
  }

  function MaxID(ids: seq<int>): int {
    if ids == [] then 0 else Max(MaxID(ids[..|ids| - 1]), ids[|ids| - 1])
  }

  /** The largest of the IDs, if one is positive. */
  lemma {:induction false} MaxIDIsLargest(ids: seq<int>)
    ensures MaxID(ids) == 0 || MaxID(ids) in ids
    ensures 0 <= MaxID(ids) && forall i :: 0 <= i < |ids| ==> ids[i] <= MaxID(ids)
  {
    if ids != [] {
      MaxIDIsLargest(ids[..|ids| - 1]);
    }
  }

  function NotifyEvents(r: Runner, maxID: int): Runner {
    if maxID <= 0 then r else r.(pending := Max(r.pending, maxID), targetGen := r.targetGen + 1)
  }

  function NotifyIdentities(r: Runner): Runner {
    r.(targetGen := r.targetGen + 1)
  }

  function StoreStartup(r: Runner, target: int): Runner {
    if r.startupLoaded then r
    else
      r.(startupLoaded := true, activeRound := true, activeTarget := target, reached := target == 0,
         pending := if r.pending <= target then 0 else r.pending)
  }

  function Freeze(r: Runner): Runner {
    if r.pending <= 0 then r
    else if r.activeRound && r.pending <= r.activeTarget then r.(pending := 0)
    else r.(activeRound := true, activeTarget := r.pending, pending := 0, reached := false)
  }

  predicate IdentityPending(r: Runner) {
    r.afterID != 0 || r.scanGen < r.targetGen
  }

  function NextRunnable(r: Runner): Option<Kind> {
    if r.activeRound && IdentityPending(r) then Some(r.nextKind)
    else if r.activeRound then Some(Rollups)
    else if IdentityPending(r) then Some(Identity)
    else None
  }

  function CompleteRound(r: Runner): Runner {
    if !r.activeRound || !r.reached then r
    else r.(activeRound := false, activeTarget := 0, reached := false,
            pending := if r.pending <= r.activeTarget then 0 else r.pending)
  }

  function FinishRollups(r: Runner, target: int, reachedTarget: bool): Runner {
    var turned := r.(nextKind := Identity);
    CompleteRound(if r.activeRound && r.activeTarget == target && reachedTarget then turned.(reached := true) else turned)
  }

  function FinishIdentity(r: Runner, passGen: nat, reachedEnd: bool, lastID: int): Runner {
    r.(nextKind := Rollups, afterID := if reachedEnd then 0 else lastID, scanGen := passGen)
  }

  function AdvanceAfterFailure(r: Runner, kind: Kind): Runner {
    r.(nextKind := Other(kind))
  }

  // ----- a turn between the critical sections -----

  datatype Turn =
    | Idle
    | Starting(loadedTarget: int)
    | Begun(kind: Kind, target: int, after: int, passGen: nat, start: nat)
    | Rolling(pages: Pages)
    | Rolled(goal: int, reachedTarget: bool, loadedPage: bool, deferred: bool, leftBefore: nat)
    | Scanned(scanGen: nat, reachedEnd: bool, lastID: int, scanStart: nat, covered: nat)
    | Failed(failedKind: Kind)

  /** A rollup turn under way: the cursor snapshot it read, the page in hand, and the
      rollup it is at. A shared turn keeps one page for all three. */
  datatype Pages = Pages(target: int, snap: Three<int>, shared: bool, page: seq<int>, at: nat, loaded: bool, processed: bool, failed: bool, before: nat)

  datatype Outcome = InboxError | InboxWaits | BuildError | ApplyError | ApplyOk

  function Nth(at: nat): Rollup {
    if at == 0 then Overview else if at == 1 then Activity else Latency
  }

  predicate AllReached(cursors: Three<int>, target: int) {
    cursors.overview >= target && cursors.activity >= target && cursors.latency >= target
  }

  predicate Equal(cursors: Three<int>) {
    cursors.overview == cursors.activity && cursors.activity == cursors.latency
  }

  function ReadCursors(db: Store, target: int): Turn {
    if AllReached(db.cursors, target) then Rolled(target, true, false, false, LeftAll(db, target))
    else Rolling(Pages(target, db.cursors, Equal(db.cursors), [], 0, false, false, false, LeftAll(db, target)))
  }

  function Advance(p: Pages): Pages {
    p.(at := p.at + 1, page := if p.shared then p.page else [])
  }

  /** Loads the shared page once, or the page of the rollup at hand; a rollup that
      has reached the target is skipped. */
  function LoadPage(db: Store, p: Pages, ok: bool): Turn {
    if p.shared then
      var page := Page(db.events, p.snap.overview, p.target, EVENT_PAGE_SIZE);
      if !ok || page == [] then Failed(Rollups) else Rolling(p.(page := page, loaded := true))
    else
      var cursor := p.snap.Get(Nth(p.at));
      if cursor >= p.target then Rolling(Advance(p))
      else
        var page := Page(db.events, cursor, p.target, EVENT_PAGE_SIZE);
        if !ok || page == [] then Rolling(Advance(p.(failed := true))) else Rolling(p.(page := page, loaded := true))
  }

  /** Builds and applies the page in hand to the rollup at hand, unless the inbox
      takes the writer first. */
  function WritePage(db: Store, p: Pages, outcome: Outcome): (Store, Turn) {
    match outcome
    case InboxError => (db, Failed(Rollups))
    case InboxWaits =>
      (db, if p.failed then Failed(Rollups) else Rolled(p.target, false, p.loaded, true, p.before))
    case BuildError => (db, Rolling(Advance(p.(failed := true))))
    case ApplyError => (db, Rolling(Advance(p.(failed := true))))
    case ApplyOk =>
      var k := Nth(p.at);
      var next := Apply(db, k, p.snap.Get(k), p.page);
      if next == db then (db, Rolling(Advance(p.(failed := true))))
      else if p.shared then (next, Rolling(Advance(p.(processed := true))))
      else (next, Rolling(Advance(p.(processed := true, snap := p.snap.With(k, LastID(p.page))))))
  }

  /** A turn reads the next thousand events, or all that are left before its target. */
  lemma PageOfThousand(db: Store, p: Pages)
    requires LoadPage(db, p, true).Rolling? && LoadPage(db, p, true).pages.page != []
    ensures var cursor := if p.shared then p.snap.overview else p.snap.Get(Nth(p.at));
            var left := Between(db.events, cursor, p.target);
            LoadPage(db, p, true).pages.page == if |left| <= 1000 then left else left[..1000]
  {
  }

  function FinishPages(p: Pages): Turn {
    if p.failed then Failed(Rollups)
    else Rolled(p.target, if p.shared then LastID(p.page) >= p.target else AllReached(p.snap, p.target), p.loaded, false, p.before)
  }

  // ----- the world -----

  /** What a maintainer wants to know about a run but the program does not store:
      the step count, the largest event notified or found at startup, the time of the last notice and how
      many identities existed then, when the scan under way and the last finished scan
      started, when each identity was last aggregated, and the last turn taken. */
  datatype History = History(
    clock: nat,
    notified: int,
    lastNotice: nat,
    knownAtNotice: nat,
    scanStart: nat,
    finishedStart: nat,
    finishedCovered: nat,
    aggregatedAt: map<int, nat>,
    lastTurn: Option<Kind>
  )

  datatype World = World(db: Store, identities: seq<int>, r: Runner, turn: Turn, h: History)

  datatype Action =
    | Commit(more: seq<int>)
    | AddIdentities(moreIDs: seq<int>)
    | EventsCommitted(ids: seq<int>)
    | IdentitiesChanged
    | OtherWriter(k: Rollup, otherTarget: int)
    | QueryTarget
    | StoreTarget
    | FreezePending
    | Begin
    | InboxBusy
    | InboxFailed
    | Snapshot(snapshotOk: bool)
    | Load(loadOk: bool)
    | Write(outcome: Outcome)
    | Finish
    | ScanPage(scanOk: bool, pageSize: nat)
    | End

  /** The guards under which the environment and the runner's goroutine take a step. */
  ghost predicate Enabled(w: World, a: Action) {
    match a
    case Commit(more) => Follows(w.db.events, more)
    case AddIdentities(more) => Follows(w.identities, more)
    case EventsCommitted(ids) => forall id <- ids :: id in w.db.events
    case IdentitiesChanged => true
    case OtherWriter(_, target) => target <= LastID(w.db.events)
    case QueryTarget => w.turn.Idle? && !w.r.startupLoaded
    case StoreTarget => w.turn.Starting?
    case FreezePending => w.turn.Idle? && w.r.startupLoaded
    case Begin => w.turn.Idle? && w.r.startupLoaded && NextRunnable(w.r).Some?
    case InboxBusy => w.turn.Begun?
    case InboxFailed => w.turn.Begun?
    case Snapshot(_) => w.turn.Begun? && w.turn.kind == Rollups
    case Load(_) => w.turn.Rolling? && w.turn.pages.at < 3 && w.turn.pages.page == []
    case Write(_) => w.turn.Rolling? && w.turn.pages.at < 3 && w.turn.pages.page != []
    case Finish => w.turn.Rolling? && w.turn.pages.at == 3
    case ScanPage(_, size) => w.turn.Begun? && w.turn.kind == Identity && 0 < size
    case End => w.turn.Rolled? || w.turn.Scanned? || w.turn.Failed?
  }

  function Mark(at: map<int, nat>, ids: seq<int>, now: nat): map<int, nat> {
    at + map id | id in ids :: now
  }

  function Noticed(w: World, r: Runner, maxID: int): World {
    w.(r := r, h := w.h.(lastNotice := w.h.clock, knownAtNotice := |w.identities|, notified := Max(w.h.notified, maxID)))
  }

  /** One page of the identity table behind `after`. */
  function Scan(w: World, size: nat): World
    requires w.turn.Begun?
  {
    var t := w.turn;
    var rows := Page(w.identities, t.after, LastID(w.identities), size);
    w.(turn := Scanned(t.passGen, |rows| < size, if rows == [] then t.after else LastID(rows), t.start, |w.identities|),
       h := w.h.(aggregatedAt := Mark(w.h.aggregatedAt, rows, w.h.clock)))
  }

  function BeginTurn(w: World): World
    requires NextRunnable(w.r).Some?
  {
    var kind := NextRunnable(w.r).value;
    var anew := kind == Identity && w.r.afterID == 0;
    w.(turn := Begun(kind, w.r.activeTarget, w.r.afterID,
                     if anew then w.r.targetGen else w.r.scanGen,
                     if anew then w.h.clock else w.h.scanStart))
  }

  function EndTurn(w: World): World {
    match w.turn
    case Rolled(goal, reached, _, _, _) =>
      w.(r := FinishRollups(w.r, goal, reached), turn := Idle, h := w.h.(lastTurn := Some(Rollups)))
    case Scanned(gen, reachedEnd, lastID, start, covered) =>
      w.(r := FinishIdentity(w.r, gen, reachedEnd, lastID), turn := Idle,
         h := if reachedEnd then w.h.(lastTurn := Some(Identity), finishedStart := start, finishedCovered := covered)
              else w.h.(lastTurn := Some(Identity), scanStart := start))
    case Failed(kind) =>
      w.(r := AdvanceAfterFailure(w.r, kind), turn := Idle, h := w.h.(lastTurn := Some(kind)))
    case _ => w
  }

  ghost function Act(w: World, a: Action): World
    requires Enabled(w, a)
  {
    match a
    case Commit(more) => w.(db := w.db.(events := w.db.events + more))
    case AddIdentities(more) => w.(identities := w.identities + more)
    case EventsCommitted(ids) => if MaxID(ids) <= 0 then w else Noticed(w, NotifyEvents(w.r, MaxID(ids)), MaxID(ids))
    case IdentitiesChanged => Noticed(w, NotifyIdentities(w.r), 0)
    case OtherWriter(k, target) =>
      w.(db := Apply(w.db, k, w.db.cursors.Get(k), Page(w.db.events, w.db.cursors.Get(k), target, EVENT_PAGE_SIZE)))
    case QueryTarget => w.(turn := Starting(LastID(w.db.events)))
    case StoreTarget =>
      w.(r := StoreStartup(w.r, w.turn.loadedTarget), turn := Idle,
         h := if w.r.startupLoaded then w.h else w.h.(notified := Max(w.h.notified, w.turn.loadedTarget)))
    case FreezePending => w.(r := Freeze(w.r))
    case Begin => BeginTurn(w)
    case InboxBusy => w.(turn := Idle)
    case InboxFailed => w.(turn := Failed(w.turn.kind))
    case Snapshot(ok) => w.(turn := if ok then ReadCursors(w.db, w.turn.target) else Failed(Rollups))
    case Load(ok) => w.(turn := LoadPage(w.db, w.turn.pages, ok))
    case Write(outcome) => var (db, turn) := WritePage(w.db, w.turn.pages, outcome); w.(db := db, turn := turn)
    case Finish => w.(turn := FinishPages(w.turn.pages))
    case ScanPage(ok, size) => if ok then Scan(w, size) else w.(turn := Failed(Identity))
    case End => EndTurn(w)
  }

  ghost function Step(w: World, a: Action): World
    requires Enabled(w, a)
  {
    var next := Act(w, a);
    next.(h := next.h.(clock := w.h.clock + 1))
  }

  /** A process starts over any database that earlier processes have left. */
  ghost predicate Initial(w: World) {
    && w.r == INITIAL && w.turn.Idle?
    && w.h == History(1, 0, 0, |w.identities|, 0, 0, 0, map[], None)
    && ExactlyOnce(w.db) && Growing(w.identities)
  }

  ghost predicate Stepped(w: World, a: Action, next: World) {
    Enabled(w, a) && next == Step(w, a)
  }

  /** The protocol can go from `w0` to `w` by `actions`. */
  ghost predicate Run(w0: World, actions: seq<Action>, w: World) {
    Path(Stepped, w0, actions, w)
  }
}
