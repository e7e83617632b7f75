/** Sessions: a memory cache in front of the stored rows, and one background writer. */
module Sessions {
  import opened Wrappers
  import Choice

  datatype Role = Admin | ApiKeyViewer

  datatype Source = Standard | Embed

  datatype Session = Session(
    role: Role, source: Source, alias: string, keyID: int, loginIP: string, userAgent: string, expiresAt: int, createdAt: int,
    lastSeenIP: string, lastSeenAt: int)

  datatype Activity = Activity(token: string, lastSeenIP: string, lastSeenAt: int)

  const WRITE_INTERVAL := 60_000_000_000

  type Cache = map<string, Session>

  /** Rows are kept under the hash of their token. */
  type Store = map<string, Session>

  /** The same session, whenever it was last seen. */
  predicate SameSession(a: Session, b: Session) {
    a.(lastSeenIP := "", lastSeenAt := 0) == b.(lastSeenIP := "", lastSeenAt := 0)
  }

  predicate Seen(s: Session, u: Activity) {
    s.lastSeenIP == u.lastSeenIP && s.lastSeenAt == u.lastSeenAt
  }

  ghost predicate Injective(hash: string -> string) {
    forall a, b :: hash(a) == hash(b) ==> a == b
  }

  /** Every cached session has its row. */
  ghost predicate Backed(cache: Cache, store: Store, hash: string -> string) {
    forall t :: t in cache ==> hash(t) in store && SameSession(cache[t], store[hash(t)])
  }

  /** What the live writers hold; the list has one entry for each. */
  type Writers = seq<Option<Activity>>

  /** There is one writer if the flag is set and none otherwise, and nothing is pending
      without one. */
  ghost predicate OneWriter(pending: map<string, Activity>, running: bool, writers: Writers) {
    && |writers| == (if running then 1 else 0)
    && (pending != map[] ==> running)
    && forall t :: t in pending ==> pending[t].token == t
  }

  predicate InHand(writers: Writers, t: string) {
    |writers| == 1 && writers[0].Some? && writers[0].value.token == t
  }

  /** The latest activity of a cached session is on its way to the row, or there. */
  ghost predicate OnItsWay(t: string, cache: Cache, store: Store, hash: string -> string, pending: map<string, Activity>, writers: Writers)
    requires t in cache && hash(t) in store
  {
    if t in pending then Seen(cache[t], pending[t])
    else if InHand(writers, t) then Seen(cache[t], writers[0].value)
    else cache[t] == store[hash(t)]
  }

  ghost predicate ActivityKept(cache: Cache, store: Store, hash: string -> string, pending: map<string, Activity>, writers: Writers)
    requires Backed(cache, store, hash)
  {
    && (forall t :: t in cache ==> OnItsWay(t, cache, store, hash, pending, writers))
    && forall t :: (t in pending || InHand(writers, t)) && hash(t) in store ==> t in cache
  }

  function LiveRows(store: Store, now: int): Store {
    map h | h in store && now < store[h].expiresAt :: store[h]
  }

  function LiveCache(cache: Cache, now: int): Cache {
    map t | t in cache && now < cache[t].expiresAt :: cache[t]
  }

  /** What the manager and its store stand for: a map of sessions with expiry. */
  /** What has not expired stays as it was; the rest is gone. */
  ghost predicate Unexpired(was: map<string, Session>, left: map<string, Session>, now: int) {
    forall k :: (k in left <==> k in was && now < was[k].expiresAt) && (k in left ==> left[k] == was[k])
  }

  lemma LiveUnexpired(store: Store, cache: Cache, now: int)
    ensures Unexpired(store, LiveRows(store, now), now) && Unexpired(cache, LiveCache(cache, now), now)
  {
  }

  ghost predicate Knows(store: Store, h: string, now: int) {
    h in store && now < store[h].expiresAt
  }

  /** A session as it is known best: from the cache, or else from its row. */
  function LatestOf(cache: Cache, store: Store, hash: string -> string, token: string): Session
    requires token in cache || hash(token) in store
  {
    if token in cache then cache[token] else store[hash(token)]
  }

  ghost predicate OthersStay(before: Cache, after: Cache, token: string) {
    forall t :: t != token ==> (t in after <==> t in before) && (t in after ==> after[t] == before[t])
  }

  /** Where the activity came from; no address means the one known already. */
  function SeenFrom(session: Session, ip: string): string {
    if ip == "" then session.lastSeenIP else ip
  }

  /** Activity from another address, or after the interval. */
  ghost predicate Consistent(cache: Cache, store: Store, hash: string -> string, pending: map<string, Activity>, writers: Writers) {
    Backed(cache, store, hash) && ActivityKept(cache, store, hash, pending, writers)
  }

  /** Sessions leave cache and store together. */
  lemma {:induction false} RemoveKeeps(
      cache: Cache, store: Store, hash: string -> string, pending: map<string, Activity>, writers: Writers, cache': Cache, store': Store)
    requires Consistent(cache, store, hash, pending, writers)
    requires forall t :: t in cache' <==> t in cache && hash(t) in store'
    requires forall t :: t in cache' ==> cache'[t] == cache[t]
    requires forall h :: h in store' ==> h in store && store'[h] == store[h]
    ensures Consistent(cache', store', hash, pending, writers)
  {
    forall t | t in cache'
      ensures OnItsWay(t, cache', store', hash, pending, writers)
    {
      assert OnItsWay(t, cache, store, hash, pending, writers);
    }
  }

  /** A row is read into the cache. */
  lemma {:induction false} LoadKeeps(cache: Cache, store: Store, hash: string -> string, pending: map<string, Activity>, writers: Writers, t: string)
    requires Consistent(cache, store, hash, pending, writers) && t !in cache && hash(t) in store
    ensures Consistent(cache[t := store[hash(t)]], store, hash, pending, writers)
  {
    var cache' := cache[t := store[hash(t)]];
    forall x | x in cache'
      ensures OnItsWay(x, cache', store, hash, pending, writers)
    {
      assert x != t ==> OnItsWay(x, cache, store, hash, pending, writers);
    }
  }

  /** A new session under a token never used. */
  lemma {:induction false} SaveKeeps(
      cache: Cache, store: Store, hash: string -> string, pending: map<string, Activity>, writers: Writers, t: string, s: Session)
    requires Injective(hash) && Consistent(cache, store, hash, pending, writers) && t !in pending && !InHand(writers, t) && t !in cache
    ensures Consistent(cache[t := s], store[hash(t) := s], hash, pending, writers)
  {
    var cache', store' := cache[t := s], store[hash(t) := s];
    forall x | x in cache'
      ensures hash(x) in store' && SameSession(cache'[x], store'[hash(x)]) && OnItsWay(x, cache', store', hash, pending, writers)
    {
      assert x != t ==> hash(x) != hash(t) && OnItsWay(x, cache, store, hash, pending, writers);
    }
    forall x | (x in pending || InHand(writers, x)) && hash(x) in store'
      ensures x in cache'
    {
      assert hash(x) != hash(t);
    }
  }

  /** Activity of a cached session is noted and set pending. */
  lemma {:induction false} TouchKeeps(
      cache: Cache, store: Store, hash: string -> string, pending: map<string, Activity>, writers: Writers, u: Activity, writers': Writers)
    requires Consistent(cache, store, hash, pending, writers) && u.token in cache
    requires writers' == writers || (writers == [] && writers' == [None])
    ensures Consistent(cache[u.token := cache[u.token].(lastSeenIP := u.lastSeenIP, lastSeenAt := u.lastSeenAt)], store, hash, pending[u.token := u], writers')
  {
    var cache' := cache[u.token := cache[u.token].(lastSeenIP := u.lastSeenIP, lastSeenAt := u.lastSeenAt)];
    forall x | x in cache'
      ensures OnItsWay(x, cache', store, hash, pending[u.token := u], writers')
    {
      assert OnItsWay(x, cache, store, hash, pending, writers);
    }
  }

  /** The writer takes an update in hand. */
  lemma {:induction false} TakeKeeps(cache: Cache, store: Store, hash: string -> string, pending: map<string, Activity>, t: string)
    requires Consistent(cache, store, hash, pending, [None]) && t in pending && pending[t].token == t
    ensures Consistent(cache, store, hash, pending - {t}, [Some(pending[t])])
  {
    forall x | x in cache
      ensures OnItsWay(x, cache, store, hash, pending - {t}, [Some(pending[t])])
    {
      assert OnItsWay(x, cache, store, hash, pending, [None]);
    }
  }

  function Persisted(store: Store, h: string, u: Activity): Store {
    if h in store then store[h := store[h].(lastSeenIP := u.lastSeenIP, lastSeenAt := u.lastSeenAt)] else store
  }

  /** The writer updates the row of what it holds, if there still is one. */
  lemma {:induction false} PersistKeeps(cache: Cache, store: Store, hash: string -> string, pending: map<string, Activity>, u: Activity)
    requires Injective(hash) && Consistent(cache, store, hash, pending, [Some(u)])
    ensures Consistent(cache, Persisted(store, hash(u.token), u), hash, pending, [None])
  {
    var store' := Persisted(store, hash(u.token), u);
    forall x | x in cache
      ensures hash(x) in store' && SameSession(cache[x], store'[hash(x)]) && OnItsWay(x, cache, store', hash, pending, [None])
    {
      assert OnItsWay(x, cache, store, hash, pending, [Some(u)]);
      assert x != u.token ==> hash(x) != hash(u.token);
    }
  }

  lemma {:induction false} ExitKeeps(cache: Cache, store: Store, hash: string -> string)
    requires Consistent(cache, store, hash, map[], [None])
    ensures Consistent(cache, store, hash, map[], [])
  {
    forall x | x in cache
      ensures OnItsWay(x, cache, store, hash, map[], [])
    {
      assert OnItsWay(x, cache, store, hash, map[], [None]);
    }
  }

  function Renamed(store: Store, h: string, alias: string): Store {
    if h in store && store[h].role == Admin then store[h := store[h].(alias := alias)] else store
  }

  /** An alias changes in cache and store together. */
  lemma {:induction false} AliasKeeps(
      cache: Cache, store: Store, hash: string -> string, pending: map<string, Activity>, writers: Writers, h: string, alias: string, cache': Cache)
    requires Consistent(cache, store, hash, pending, writers)
    requires cache'.Keys == cache.Keys
    requires forall t :: t in cache ==> cache'[t] == if hash(t) == h && cache[t].role == Admin then cache[t].(alias := alias) else cache[t]
    ensures Consistent(cache', Renamed(store, h, alias), hash, pending, writers)
  {
    var store' := Renamed(store, h, alias);
    forall x | x in cache'
      ensures hash(x) in store' && SameSession(cache'[x], store'[hash(x)]) && OnItsWay(x, cache', store', hash, pending, writers)
    {
      assert OnItsWay(x, cache, store, hash, pending, writers);
    }
  }

  // ----- the manager -----

  class SessionManager {
    var sessions: Cache
    var store: Store
    var pending: map<string, Activity>
    var running: bool
    /** The live writer goroutines. */
    var writers: Writers
    const ttl: int
    const hash: string -> string

    ghost predicate Valid()
      reads this
    {
      Injective(hash) && OneWriter(pending, running, writers) && Consistent(sessions, store, hash, pending, writers)
    }

    /** A process starts, or starts again, over whatever rows there are. */
    constructor (ttl: int, hash: string -> string, rows: Store)
      requires Injective(hash)
      ensures Valid() && store == rows && sessions == map[] && this.ttl == ttl && this.hash == hash
    {
      this.ttl, this.hash := ttl, hash;
      sessions, store, pending, running, writers := map[], rows, map[], false, [];
    }

    /** Drops what has expired, from the cache one by one and from the store. */
    method CleanupExpired(now: int)
      requires Valid()
      modifies this`sessions, this`store
      ensures Valid() && store == LiveRows(old(store), now) && sessions == LiveCache(old(sessions), now)
      ensures Unexpired(old(store), store, now) && Unexpired(old(sessions), sessions, now)
    {
      hide Consistent;
      hide OneWriter;
      hide Injective;
      hide LiveRows;
      hide LiveCache;
      hide Unexpired;
      var left := sessions.Keys;
      ghost var was := sessions;
      while left != {}
        invariant left <= was.Keys && Swept(was, sessions, left, now)
        invariant store == old(store)
        decreases |left|
      {
        var token := Choice.Pick(left);
        if sessions[token].expiresAt <= now {
          sessions := sessions - {token};
        }
        left := left - {token};
      }
      SweptIsLive(was, sessions, now);
      LiveUnexpired(store, was, now);
      BackedExpiry(was, store, hash, pending, writers, now);
      RemoveKeeps(was, store, hash, pending, writers, sessions, LiveRows(store, now));
      store := LiveRows(store, now);
    }

    method Create(token: string, role: Role, source: Source, keyID: int, ip: string, userAgent: string, now: int) returns (expiresAt: int)
      requires Valid() && token !in pending && !InHand(writers, token) && token !in sessions
      requires role == Admin ==> keyID == 0
      modifies this`sessions, this`store
      ensures Valid() && expiresAt == now + ttl && token in sessions && hash(token) in store
      ensures store == LiveRows(old(store), now)[hash(token) := store[hash(token)]]
      ensures store[hash(token)] == Session(role, source, "", keyID, ip, userAgent, expiresAt, now, ip, now)
    {
      hide Consistent;
      hide OneWriter;
      CleanupExpired(now);
      expiresAt := now + ttl;
      var session := Session(role, source, "", keyID, ip, userAgent, expiresAt, now, ip, now);
      SaveKeeps(sessions, store, hash, pending, writers, token, session);
      store := store[hash(token) := session];
      sessions := sessions[token := session];
    }

    /** The answer is that of the stored map with expiry: a session is found exactly when
        its row exists and has not expired, and it is that row's session. */
    method Get(token: string, now: int) returns (r: Option<Session>)
      requires Valid()
      modifies this`sessions, this`store
      ensures Valid()
      ensures r.Some? <==> token != "" && Knows(old(store), hash(token), now)
      ensures r.Some? ==> SameSession(r.value, old(store)[hash(token)]) && token in sessions && sessions[token] == r.value
      ensures r.Some? ==> r.value == LatestOf(old(sessions), old(store), hash, token)
      ensures OthersStay(old(sessions), sessions, token)
      ensures store == old(store) || (store == old(store) - {hash(token)} && !Knows(old(store), hash(token), now))
    {
      if token == "" {
        return None;
      }
      if token in sessions {
        var session := sessions[token];
        if session.expiresAt <= now {
          Delete(token);
          return None;
        }
        return Some(session);
      }
      r := GetPersisted(token, now);
    }

    /** Falls back to the row, and keeps it in the cache. */
    method GetPersisted(token: string, now: int) returns (r: Option<Session>)
      requires Valid() && token !in sessions
      modifies this`sessions, this`store
      ensures Valid()
      ensures r.Some? <==> Knows(old(store), hash(token), now)
      ensures r.Some? ==> r.value == old(store)[hash(token)] && token in sessions && sessions[token] == r.value
      ensures OthersStay(old(sessions), sessions, token)
      ensures store == old(store) || (store == old(store) - {hash(token)} && !Knows(old(store), hash(token), now))
    {
      hide OneWriter;
      if hash(token) !in store {
        return None;
      }
      var session := store[hash(token)];
      if session.expiresAt <= now {
        RemoveKeeps(sessions, store, hash, pending, writers, sessions, store - {hash(token)});
        store := store - {hash(token)};
        return None;
      }
      LoadKeeps(sessions, store, hash, pending, writers, token);
      sessions := sessions[token := session];
      return Some(session);
    }

    method Delete(token: string)
      requires Valid()
      modifies this`sessions, this`store
      ensures Valid()
      ensures token != "" ==> store == old(store) - {hash(token)} && sessions == old(sessions) - {token}
      ensures token == "" ==> store == old(store) && sessions == old(sessions)
    {
      hide OneWriter;
      if token == "" {
        return;
      }
      RemoveKeeps(sessions, store, hash, pending, writers, sessions - {token}, store - {hash(token)});
      sessions := sessions - {token};
      store := store - {hash(token)};
    }

    /** Notes activity in memory at once; the row follows through the single writer. */
    method Touch(token: string, ip: string, now: int) returns (noted: bool)
      requires Valid()
      modifies this
      ensures Valid()
      ensures noted <==> token != "" && Knows(old(store), hash(token), now)
                         && var session := LatestOf(old(sessions), old(store), hash, token);
                            (ip != "" && ip != session.lastSeenIP) || session.lastSeenAt + 60 * 1_000_000_000 <= now
      ensures noted ==> var session := LatestOf(old(sessions), old(store), hash, token);
                var seen := if ip == "" then session.lastSeenIP else ip;
                && token in sessions && sessions[token] == session.(lastSeenIP := seen, lastSeenAt := now)
                && pending == old(pending)[token := Activity(token, seen, now)]
                && running && writers == if old(running) then old(writers) else [None]
      ensures !noted ==> pending == old(pending) && running == old(running) && writers == old(writers)
      ensures OthersStay(old(sessions), sessions, token) && |writers| <= 1
      ensures forall h :: h in store ==> h in old(store) && store[h] == old(store)[h]
      ensures forall h :: Knows(old(store), h, now) ==> h in store
    {
      hide Consistent;
      if token == "" {
        return false;
      }
      var got := Get(token, now);
      if got.None? {
        return false;
      }
      var session := sessions[token];
      var seenIP := SeenFrom(session, ip);
      if seenIP == session.lastSeenIP && now < session.lastSeenAt + WRITE_INTERVAL {
        return false;
      }
      var u := Activity(token, seenIP, now);
      var writers' := if running then writers else [None];
      TouchKeeps(sessions, store, hash, pending, writers, u, writers');
      sessions := sessions[token := session.(lastSeenIP := seenIP, lastSeenAt := now)];
      pending := pending[token := u];
      if !running {
        running := true;
        writers := writers';
      }
      return true;
    }

    /** The writer's critical section: take an update, or leave for good. */
    method WriterTakes()
      requires Valid() && writers == [None]
      modifies this`pending, this`running, this`writers
      ensures Valid()
      ensures old(pending) == map[] ==> writers == [] && !running
      ensures old(pending) != map[] ==> exists t :: t in old(pending) && writers == [Some(old(pending)[t])] && pending == old(pending) - {t}
    {
      hide Consistent;
      if pending.Keys != {} {
        var token := Choice.Pick(pending.Keys);
        TakeKeeps(sessions, store, hash, pending, token);
        writers := [Some(pending[token])];
        pending := pending - {token};
        return;
      }
      assert pending == map[];
      ExitKeeps(sessions, store, hash);
      running := false;
      writers := [];
    }

    /** Outside the lock: the row of the update in hand, if it still exists. */
    method WriterPersists()
      requires Valid() && |writers| == 1 && writers[0].Some?
      modifies this`store, this`writers
      ensures Valid() && writers == [None]
      ensures var u := old(writers)[0].value;
              var h := hash(u.token);
              store == if h in old(store) then old(store)[h := old(store)[h].(lastSeenIP := u.lastSeenIP, lastSeenAt := u.lastSeenAt)] else old(store)
    {
      hide Consistent;
      var u := writers[0].value;
      assert writers == [Some(u)];
      PersistKeeps(sessions, store, hash, pending, u);
      store := Persisted(store, hash(u.token), u);
      writers := [None];
    }

    method UpdateAdminAlias(h: string, alias: string, now: int) returns (updated: bool)
      requires Valid()
      modifies this`sessions, this`store
      ensures Valid()
      ensures updated == (h != "" && Knows(old(store), h, now) && old(store)[h].role == Admin)
      ensures h != "" ==> store == Renamed(LiveRows(old(store), now), h, alias)
      ensures updated ==> h in store && store[h] == old(store)[h].(alias := alias)
      ensures forall k :: k in store && (k != h || !updated) ==> k in old(store) && store[k] == old(store)[k]
      ensures h == "" ==> store == old(store)
    {
      if h == "" {
        return false;
      }
      hide Consistent;
      hide OneWriter;
      hide LiveRows;
      hide LiveCache;
      hide Renamed;
      hide Injective;
      LiveKnown(store, h, now);
      CleanupExpired(now);
      updated := h in store && store[h].role == Admin;
      ghost var was := sessions;
      sessions := RenameCached(sessions, h, alias, hash);
      AliasDone(was, sessions, h, alias, hash);
      AliasKeeps(was, store, hash, pending, writers, h, alias, sessions);
      store := Renamed(store, h, alias);
    }

    /** Removes the session with this token hash; the answer says whether there was one. */
    method DeleteByTokenHash(h: string, now: int) returns (deleted: nat)
      requires Valid()
      modifies this`sessions, this`store
      ensures Valid()
      ensures h == "" ==> store == old(store) && deleted == 0
      ensures h != "" ==> store == LiveRows(old(store), now) - {h} && deleted == if Knows(old(store), h, now) then 1 else 0
    {
      if h == "" {
        return 0;
      }
      hide Consistent;
      hide OneWriter;
      hide LiveRows;
      hide LiveCache;
      hide Injective;
      LiveKnown(store, h, now);
      CleanupExpired(now);
      ghost var was := sessions;
      sessions, deleted := ForgetHash(sessions, h, hash);
      HashBacked(was, store, hash, pending, writers, h);
      RemoveKeeps(was, store, hash, pending, writers, sessions, store - {h});
      var rows := if h in store then 1 else 0;
      store := store - {h};
      if rows > deleted {
        deleted := rows;
      }
    }

    /** Removes every session of the role; the count is that of the rows. */
    method DeleteByRole(role: Role, now: int) returns (deleted: nat)
      requires Valid()
      modifies this`sessions, this`store
      ensures Valid()
      ensures store == NotOf(LiveRows(old(store), now), role)
      ensures deleted == |RoleRows(LiveRows(old(store), now), role)|
      ensures forall h :: h in store <==> Knows(old(store), h, now) && old(store)[h].role != role
      ensures forall h :: h in RoleRows(LiveRows(old(store), now), role) <==> Knows(old(store), h, now) && old(store)[h].role == role
    {
      hide Consistent;
      hide OneWriter;
      hide LiveRows;
      hide LiveCache;
      hide Injective;
      CleanupExpired(now);
      hide RoleTokens;
      hide RoleRows;
      hide NotOf;
      ghost var was := sessions;
      sessions, deleted := ForgetRole(sessions, role);
      RoleBacked(was, store, hash, pending, writers, role);
      NotOfRows(store, role);
      RemoveKeeps(was, store, hash, pending, writers, sessions, NotOf(store, role));
      var rows := |RoleRows(store, role)|;
      store := NotOf(store, role);
      if rows > deleted {
        deleted := rows;
      }
    }

    /** Lists the live rows, each with what the cache knows of its last activity. */
    method List(now: int) returns (records: Store)
      requires Valid()
      modifies this`sessions, this`store
      ensures Valid() && store == LiveRows(old(store), now)
      ensures records.Keys == store.Keys
      ensures forall h :: h in records ==> SameSession(records[h], store[h])
      ensures forall t :: t in sessions ==> records[hash(t)] == sessions[t]
    {
      hide OneWriter;
      CleanupExpired(now);
      records := Overlay(store, sessions, hash);
    }
  }

  // ----- loops -----

  /** The rows, with the cached sessions looked at so far in place of theirs. */
  ghost predicate Overlaid(records: Store, store: Store, cache: Cache, left: set<string>, hash: string -> string) {
    && records.Keys == store.Keys
    && (forall h :: h in records ==> SameSession(records[h], store[h]))
    && forall t :: t in cache && t !in left ==> hash(t) in records && records[hash(t)] == cache[t]
  }

  method Overlay(store: Store, cache: Cache, hash: string -> string) returns (records: Store)
    requires Injective(hash) && Backed(cache, store, hash)
    ensures Overlaid(records, store, cache, {}, hash)
  {
    records := store;
    var left := cache.Keys;
    assert Overlaid(records, store, cache, left, hash);
    hide Overlaid;
    hide Backed;
    hide Injective;
    while left != {}
      invariant left <= cache.Keys && Overlaid(records, store, cache, left, hash)
      decreases |left|
    {
      var token := Choice.Pick(left);
      var cached := cache[token];
      OverlayOne(records, store, cache, left, hash, token);
      var row := records[hash(token)];
      records := records[hash(token) := row.(alias := cached.alias, loginIP := cached.loginIP, lastSeenIP := cached.lastSeenIP,
                                             userAgent := cached.userAgent, lastSeenAt := cached.lastSeenAt)];
      left := left - {token};
    }
  }

  lemma {:induction false} OverlayOne(records: Store, store: Store, cache: Cache, left: set<string>, hash: string -> string, token: string)
    requires Injective(hash) && Backed(cache, store, hash) && Overlaid(records, store, cache, left, hash) && token in left && left <= cache.Keys
    ensures hash(token) in records
    ensures var row, cached := records[hash(token)], cache[token];
            var merged := row.(alias := cached.alias, loginIP := cached.loginIP, lastSeenIP := cached.lastSeenIP,
                               userAgent := cached.userAgent, lastSeenAt := cached.lastSeenAt);
            merged == cached && Overlaid(records[hash(token) := merged], store, cache, left - {token}, hash)
  {
    var h := hash(token);
    assert SameSession(records[h], store[h]) && SameSession(cache[token], store[h]);
    forall t | t in cache && t !in left - {token}
      ensures hash(t) in records && records[h := cache[token]][hash(t)] == cache[t]
    {
      assert t != token ==> hash(t) != h;
    }
  }

  ghost predicate Swept(was: Cache, cache: Cache, left: set<string>, now: int) {
    && (forall t :: t in cache <==> t in was && (t in left || now < was[t].expiresAt))
    && forall t :: t in cache ==> cache[t] == was[t]
  }

  lemma SweptIsLive(was: Cache, cache: Cache, now: int)
    requires Swept(was, cache, {}, now)
    ensures cache == LiveCache(was, now)
  {
  }

  lemma {:induction false} BackedExpiry(cache: Cache, store: Store, hash: string -> string, pending: map<string, Activity>, writers: Writers, now: int)
    requires Consistent(cache, store, hash, pending, writers)
    ensures forall t :: t in LiveCache(cache, now) <==> t in cache && hash(t) in LiveRows(store, now)
  {
  }

  ghost predicate Aliased(was: Cache, cache: Cache, left: set<string>, h: string, alias: string, hash: string -> string) {
    && cache.Keys == was.Keys
    && forall t :: t in was ==> cache[t] == if t !in left && hash(t) == h && was[t].role == Admin then was[t].(alias := alias) else was[t]
  }

  method RenameCached(was: Cache, h: string, alias: string, hash: string -> string) returns (cache: Cache)
    ensures Aliased(was, cache, {}, h, alias, hash)
  {
    cache := was;
    StartAlias(was, h, alias, hash);
    hide Aliased;
    var left := was.Keys;
    while left != {}
      invariant left <= was.Keys && Aliased(was, cache, left, h, alias, hash)
      decreases |left|
    {
      var token := Choice.Pick(left);
      AliasOne(was, cache, left, h, alias, hash, token);
      if hash(token) == h && cache[token].role == Admin {
        cache := cache[token := cache[token].(alias := alias)];
      }
      left := left - {token};
    }
  }

  lemma StartAlias(was: Cache, h: string, alias: string, hash: string -> string)
    ensures Aliased(was, was, was.Keys, h, alias, hash)
  {
  }

  lemma AliasOne(was: Cache, cache: Cache, left: set<string>, h: string, alias: string, hash: string -> string, token: string)
    requires Aliased(was, cache, left, h, alias, hash) && token in left && left <= was.Keys
    ensures token in cache && cache[token] == was[token] && cache.Keys == was.Keys
    ensures Aliased(was, if hash(token) == h && was[token].role == Admin then cache[token := cache[token].(alias := alias)] else cache,
                    left - {token}, h, alias, hash)
  {
  }

  lemma AliasDone(was: Cache, cache: Cache, h: string, alias: string, hash: string -> string)
    requires Aliased(was, cache, {}, h, alias, hash)
    ensures cache.Keys == was.Keys
    ensures forall t :: t in was ==> cache[t] == if hash(t) == h && was[t].role == Admin then was[t].(alias := alias) else was[t]
  {
  }

  lemma LiveKnown(store: Store, h: string, now: int)
    ensures Knows(store, h, now) <==> h in LiveRows(store, now)
    ensures Knows(store, h, now) ==> LiveRows(store, now)[h] == store[h]
  {
  }

  function NotOf(store: Store, role: Role): Store {
    map h | h in store && store[h].role != role :: store[h]
  }

  lemma NotOfRows(store: Store, role: Role)
    ensures forall h :: h in NotOf(store, role) ==> h in store && NotOf(store, role)[h] == store[h]
  {
  }

  function RoleRows(store: Store, role: Role): set<string> {
    set h | h in store && store[h].role == role :: h
  }

  function RoleTokens(cache: Cache, role: Role): set<string> {
    set t | t in cache && cache[t].role == role :: t
  }

  ghost predicate RoleSwept(was: Cache, cache: Cache, left: set<string>, role: Role) {
    && (forall t :: t in cache <==> t in was && (t in left || was[t].role != role))
    && forall t :: t in cache ==> cache[t] == was[t]
  }

  method ForgetRole(was: Cache, role: Role) returns (cache: Cache, deleted: nat)
    ensures RoleSwept(was, cache, {}, role) && deleted == |RoleTokens(was, role)|
  {
    cache, deleted := was, 0;
    var left := was.Keys;
    assert RoleTokens(was, role) - left == {};
    hide RoleTokens;
    StartSweep(was, role);
    hide RoleSwept;
    while left != {}
      invariant left <= was.Keys && RoleSwept(was, cache, left, role) && deleted == |RoleTokens(was, role) - left|
      decreases |left|
    {
      var token := Choice.Pick(left);
      CountOne(was, role, left, token);
      SweepOne(was, cache, left, role, token);
      if cache[token].role == role {
        cache := cache - {token};
        deleted := deleted + 1;
      }
      left := left - {token};
    }
    assert RoleTokens(was, role) - left == RoleTokens(was, role);
  }

  lemma StartSweep(was: Cache, role: Role)
    ensures RoleSwept(was, was, was.Keys, role)
  {
  }

  lemma SweepOne(was: Cache, cache: Cache, left: set<string>, role: Role, token: string)
    requires RoleSwept(was, cache, left, role) && token in left && left <= was.Keys
    ensures token in cache && cache[token] == was[token]
    ensures RoleSwept(was, if was[token].role == role then cache - {token} else cache, left - {token}, role)
  {
  }

  lemma CountOne(was: Cache, role: Role, left: set<string>, token: string)
    requires token in left && left <= was.Keys
    ensures |RoleTokens(was, role) - (left - {token})| == |RoleTokens(was, role) - left| + if was[token].role == role then 1 else 0
  {
    var more, less := RoleTokens(was, role) - (left - {token}), RoleTokens(was, role) - left;
    if was[token].role == role {
      assert more == less + {token};
    } else {
      assert more == less;
    }
  }

  /** Different tokens have different rows, so there are at least as many rows. */
  lemma {:induction false} HashedSize(tokens: set<string>, rows: set<string>, hash: string -> string)
    requires Injective(hash) && forall t :: t in tokens ==> hash(t) in rows
    ensures |tokens| <= |rows|
    decreases |tokens|
  {
    if tokens != {} {
      var t :| t in tokens;
      HashedSize(tokens - {t}, rows - {hash(t)}, hash);
    }
  }

  method ForgetHash(was: Cache, h: string, hash: string -> string) returns (cache: Cache, deleted: nat)
    ensures forall t :: t in cache <==> t in was && hash(t) != h
    ensures forall t :: t in cache ==> cache[t] == was[t]
    ensures deleted == if exists t :: t in was && hash(t) == h then 1 else 0
  {
    cache, deleted := was, 0;
    var left := was.Keys;
    while left != {}
      invariant left <= was.Keys
      invariant forall t :: t in cache <==> t in was && (t in left || hash(t) != h)
      invariant forall t :: t in cache ==> cache[t] == was[t]
      invariant deleted == if exists t :: t in was && t !in left && hash(t) == h then 1 else 0
      decreases |left|
    {
      var token := Choice.Pick(left);
      if hash(token) == h {
        cache := cache - {token};
        deleted := 1;
      }
      left := left - {token};
    }
  }

  lemma {:induction false} HashBacked(cache: Cache, store: Store, hash: string -> string, pending: map<string, Activity>, writers: Writers, h: string)
    requires Consistent(cache, store, hash, pending, writers)
    ensures (exists t :: t in cache && hash(t) == h) ==> h in store
    ensures forall t :: t in cache && hash(t) != h ==> hash(t) in store - {h}
  {
  }

  lemma {:induction false} RoleBacked(cache: Cache, store: Store, hash: string -> string, pending: map<string, Activity>, writers: Writers, role: Role)
    requires Injective(hash) && Consistent(cache, store, hash, pending, writers)
    ensures |RoleTokens(cache, role)| <= |RoleRows(store, role)|
    ensures forall t :: t in cache ==> (hash(t) in NotOf(store, role) <==> cache[t].role != role)
  {
    HashedSize(RoleTokens(cache, role), RoleRows(store, role), hash);
  }

  /** Once the writer has left, cache and rows agree in everything. */
  lemma QuietMeansPersisted(m: SessionManager, t: string)
    requires m.Valid() && !m.running && t in m.sessions
    ensures m.hash(t) in m.store && m.sessions[t] == m.store[m.hash(t)]
  {
    assert OnItsWay(t, m.sessions, m.store, m.hash, m.pending, m.writers);
  }
}
