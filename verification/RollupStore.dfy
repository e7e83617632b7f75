/** What the runner may rely on from the database: committed events with growing
    IDs, sorted bounded pages, and an apply that takes effect only from the cursor
    it was computed for. */
module RollupStore {
  datatype Rollup = Overview | Activity | Latency

  datatype Three<T> = Three(overview: T, activity: T, latency: T) {
    function Get(k: Rollup): T {
      match k
      case Overview => overview
      case Activity => activity
      case Latency => latency
    }

    function With(k: Rollup, v: T): (r: Three<T>)
      ensures r.Get(k) == v && forall j :: j != k ==> r.Get(j) == Get(j)
    {
      match k
      case Overview => this.(overview := v)
      case Activity => this.(activity := v)
      case Latency => this.(latency := v)
    }
  }

  /** Committed event IDs, the cursor of each rollup, and for each rollup the events
      whose contribution its rows hold. */
  datatype Store = Store(events: seq<int>, cursors: Three<int>, contents: Three<multiset<int>>)

  ghost predicate Growing(events: seq<int>) {
    && (forall i :: 0 <= i < |events| ==> 0 < events[i])
    && (forall i, j :: 0 <= i < j < |events| ==> events[i] < events[j])
  }

  function LastID(events: seq<int>): int {
    if events == [] then 0 else events[|events| - 1]
  }

  /** The events with IDs in (after, target], in order. */
  function Between(events: seq<int>, after: int, target: int): seq<int> {
    if events == [] then []
    else (if after < events[0] <= target then [events[0]] else []) + Between(events[1..], after, target)
  }

  /** At most `limit` of them. */
  function Page(events: seq<int>, after: int, target: int, limit: nat): (page: seq<int>)
    ensures |page| <= limit
  {
    var rows := Between(events, after, target);
    if |rows| <= limit then rows else rows[..limit]
  }

  /** Rows and cursor move together, or not at all. */
  function Apply(db: Store, k: Rollup, expected: int, page: seq<int>): Store {
    if page != [] && expected < LastID(page) && db.cursors.Get(k) == expected then
      db.(cursors := db.cursors.With(k, LastID(page)), contents := db.contents.With(k, db.contents.Get(k) + multiset(page)))
    else db
  }

  // ----- pages and prefixes -----

  ghost predicate Contains(events: seq<int>, id: int) {
    id in events
  }

  lemma {:induction false} BetweenMember(events: seq<int>, after: int, target: int, id: int)
    ensures id in Between(events, after, target) <==> id in events && after < id <= target
  {
    if events != [] {
      BetweenMember(events[1..], after, target, id);
      assert id in events <==> id == events[0] || id in events[1..];
    }
  }

  lemma {:induction false} BetweenMembers(events: seq<int>, after: int, target: int)
    requires Growing(events)
    ensures Growing(Between(events, after, target))
    ensures forall id :: id in Between(events, after, target) <==> id in events && after < id <= target
  {
    forall id
      ensures id in Between(events, after, target) <==> id in events && after < id <= target
    {
      BetweenMember(events, after, target, id);
    }
    if events != [] {
      var rest := Between(events[1..], after, target);
      BetweenMembers(events[1..], after, target);
      GrowingCons(events, rest);
    }
  }

  lemma GrowingCons(events: seq<int>, rest: seq<int>)
    requires Growing(events) && events != [] && Growing(rest) && forall id :: id in rest ==> id in events[1..]
    ensures Growing([events[0]] + rest)
  {
    assert forall i :: 0 <= i < |rest| ==> rest[i] in rest;
  }

  lemma {:induction false} BetweenSplit(events: seq<int>, a: int, b: int, c: int)
    requires Growing(events) && a <= b <= c
    ensures Between(events, a, c) == Between(events, a, b) + Between(events, b, c)
  {
    if events != [] {
      var id, rest := events[0], events[1..];
      BetweenSplit(rest, a, b, c);
      if b < id {
        BetweenEmpty(rest, a, b);
      }
      SplitHere(if a < id <= c then [id] else [], if a < id <= b then [id] else [], if b < id <= c then [id] else [],
                Between(rest, a, b), Between(rest, b, c));
    }
  }

  lemma SplitHere(all: seq<int>, left: seq<int>, right: seq<int>, low: seq<int>, high: seq<int>)
    requires all == left + right && (right != [] ==> low == [])
    ensures all + (low + high) == (left + low) + (right + high)
  {
    if right == [] {
      assert all == left;
      assert right + high == high;
    }
  }

  lemma {:induction false} BetweenEmpty(events: seq<int>, a: int, b: int)
    requires forall i :: 0 <= i < |events| ==> b < events[i]
    ensures Between(events, a, b) == []
  {
    if events != [] {
      BetweenEmpty(events[1..], a, b);
    }
  }

  /** New events behind all others do not change what lies before them. */
  lemma {:induction false} BetweenAppend(events: seq<int>, more: seq<int>, a: int, b: int)
    requires forall i :: 0 <= i < |more| ==> b < more[i]
    ensures Between(events + more, a, b) == Between(events, a, b)
  {
    if events == [] {
      assert events + more == more;
      BetweenEmpty(more, a, b);
    } else {
      assert (events + more)[1..] == events[1..] + more;
      BetweenAppend(events[1..], more, a, b);
    }
  }

  lemma {:induction false} SortedPrefix(rows: seq<int>, n: nat, a: int)
    requires Growing(rows) && 0 < n <= |rows|
    requires forall i :: 0 <= i < |rows| ==> a < rows[i]
    ensures Between(rows, a, rows[n - 1]) == rows[..n]
    decreases n
  {
    var last := rows[n - 1];
    assert rows == [rows[0]] + rows[1..];
    if n == 1 {
      BetweenEmpty(rows[1..], a, last);
    } else {
      assert rows[1..][n - 2] == last;
      SortedPrefix(rows[1..], n - 1, a);
      assert rows[..n] == [rows[0]] + rows[1..][..n - 1];
    }
  }

  lemma {:induction false} BetweenOfBetween(events: seq<int>, a: int, b: int, c: int)
    requires b <= c
    ensures Between(Between(events, a, c), a, b) == Between(events, a, b)
  {
    if events != [] {
      BetweenOfBetween(events[1..], a, b, c);
      var head := if a < events[0] <= c then [events[0]] else [];
      var rest := Between(events[1..], a, c);
      if head != [] {
        assert (head + rest)[1..] == rest;
      } else {
        assert head + rest == rest;
      }
    }
  }

  lemma LastIn(rows: seq<int>)
    requires rows != []
    ensures LastID(rows) in rows
  {
  }

  /** A page is exactly the events between the cursor it starts from and its own
      last ID, which stays within the target. */
  lemma PageIsInterval(events: seq<int>, after: int, target: int, limit: nat)
    requires Growing(events) && 0 < limit
    ensures var page := Page(events, after, target, limit);
            page != [] ==> page == Between(events, after, LastID(page)) && after < LastID(page) <= target && LastID(page) in events
    ensures Page(events, after, target, limit) == [] <==> Between(events, after, target) == []
    ensures |Page(events, after, target, limit)| < limit ==> Page(events, after, target, limit) == Between(events, after, target)
  {
    var rows, page := Between(events, after, target), Page(events, after, target, limit);
    if page != [] {
      var n, last := |page|, LastID(page);
      assert page == rows[..n] && last == rows[n - 1];
      assert last in events && after < last <= target && Growing(rows) && forall i :: 0 <= i < |rows| ==> after < rows[i] by {
        BetweenMembers(events, after, target);
        assert forall i :: 0 <= i < |rows| ==> rows[i] in rows;
      }
      assert Between(rows, after, last) == page by {
        SortedPrefix(rows, n, after);
      }
      BetweenOfBetween(events, after, last, target);
    }
  }

  // ----- the store invariant -----

  /** Each rollup holds the contribution of every event up to its cursor exactly once. */
  ghost predicate ExactlyOnce(db: Store) {
    && Growing(db.events)
    && forall k: Rollup :: CursorExact(db, k)
  }

  ghost predicate CursorExact(db: Store, k: Rollup) {
    && 0 <= db.cursors.Get(k) <= LastID(db.events)
    && db.contents.Get(k) == multiset(Between(db.events, 0, db.cursors.Get(k)))
  }

  /** A page loaded earlier for cursor `after` still is what follows `after`. */
  ghost predicate PageCurrent(db: Store, after: int, page: seq<int>) {
    page != [] ==>
      && after < LastID(page) <= LastID(db.events)
      && page == Between(db.events, after, LastID(page))
  }

  lemma LastIsLargest(events: seq<int>, id: int)
    requires Growing(events) && id in events
    ensures id <= LastID(events)
  {
  }

  lemma FreshPageCurrent(db: Store, after: int, target: int, limit: nat)
    requires Growing(db.events) && 0 < limit
    ensures PageCurrent(db, after, Page(db.events, after, target, limit))
  {
    PageIsInterval(db.events, after, target, limit);
    var page := Page(db.events, after, target, limit);
    if page != [] {
      LastIsLargest(db.events, LastID(page));
    }
  }

  lemma ApplyKeeps(db: Store, k: Rollup, expected: int, page: seq<int>)
    requires ExactlyOnce(db) && PageCurrent(db, expected, page)
    ensures ExactlyOnce(Apply(db, k, expected, page))
    ensures Apply(db, k, expected, page).events == db.events
    ensures forall j: Rollup :: db.cursors.Get(j) <= Apply(db, k, expected, page).cursors.Get(j)
  {
    var after := Apply(db, k, expected, page);
    if page != [] && expected < LastID(page) && db.cursors.Get(k) == expected {
      assert CursorExact(db, k);
      PrefixGrows(db.events, expected, page);
      assert CursorExact(after, k);
      forall j: Rollup
        ensures CursorExact(after, j)
      {
        assert CursorExact(db, j);
      }
    }
  }

  lemma PrefixGrows(events: seq<int>, expected: int, page: seq<int>)
    requires Growing(events) && 0 <= expected < LastID(page) && page == Between(events, expected, LastID(page))
    ensures multiset(Between(events, 0, LastID(page))) == multiset(Between(events, 0, expected)) + multiset(page)
  {
    BetweenSplit(events, 0, expected, LastID(page));
  }

  ghost predicate Follows(events: seq<int>, more: seq<int>) {
    Growing(more) && forall i :: 0 <= i < |more| ==> LastID(events) < more[i]
  }

  lemma AppendGrows(events: seq<int>, more: seq<int>)
    requires Growing(events) && Follows(events, more)
    ensures Growing(events + more) && LastID(events) <= LastID(events + more)
  {
    assert forall i :: 0 <= i < |events| ==> events[i] in events;
  }

  lemma CommitKeeps(db: Store, more: seq<int>)
    requires ExactlyOnce(db) && Follows(db.events, more)
    ensures ExactlyOnce(db.(events := db.events + more))
  {
    AppendGrows(db.events, more);
    forall k: Rollup
      ensures CursorExact(db.(events := db.events + more), k)
    {
      assert CursorExact(db, k);
      BetweenAppend(db.events, more, 0, db.cursors.Get(k));
    }
  }

  lemma CommitKeepsPage(db: Store, more: seq<int>, after: int, page: seq<int>)
    requires Growing(db.events) && Follows(db.events, more) && PageCurrent(db, after, page)
    ensures PageCurrent(db.(events := db.events + more), after, page)
  {
    if page != [] {
      AppendGrows(db.events, more);
      BetweenAppend(db.events, more, after, LastID(page));
    }
  }

  /** Events a rollup still has to take in before `target`. */
  function Left(db: Store, k: Rollup, target: int): nat {
    |Between(db.events, db.cursors.Get(k), target)|
  }

  function LeftAll(db: Store, target: int): nat {
    Left(db, Overview, target) + Left(db, Activity, target) + Left(db, Latency, target)
  }

  /** A page that is applied lowers what is left by its length. */
  lemma ApplyProgress(db: Store, k: Rollup, expected: int, page: seq<int>, target: int)
    requires ExactlyOnce(db) && PageCurrent(db, expected, page) && (page != [] ==> LastID(page) <= target)
    ensures LeftAll(Apply(db, k, expected, page), target) <= LeftAll(db, target)
    ensures Apply(db, k, expected, page) != db ==>
              LeftAll(Apply(db, k, expected, page), target) + |page| == LeftAll(db, target) && 0 < |page|
  {
    if Apply(db, k, expected, page) != db {
      BetweenSplit(db.events, expected, LastID(page), target);
    }
  }

  lemma CommitKeepsLeft(db: Store, more: seq<int>, target: int)
    requires Follows(db.events, more) && target <= LastID(db.events)
    ensures LeftAll(db.(events := db.events + more), target) == LeftAll(db, target)
  {
    BetweenAppend(db.events, more, db.cursors.overview, target);
    BetweenAppend(db.events, more, db.cursors.activity, target);
    BetweenAppend(db.events, more, db.cursors.latency, target);
  }
}
