/** The shared task map: each method is one critical section under the lock. */
module RefreshTasks {
  import opened Wrappers
  import opened RefreshProtocol
  import Choice

  /** One record changes. */
  ghost predicate OnlyChanged(was: seq<Record>, now: seq<Record>, id: nat, r: Record) {
    |now| == |was| && forall i :: 0 <= i < |was| ==> now[i] == if i == id then r else was[i]
  }

  /** One record is new, and the entry of its account. */
  ghost predicate Appended(was: seq<Record>, wasByAuth: map<string, nat>, now: seq<Record>, byAuth: map<string, nat>, r: Record) {
    && now == was + [r] && r.auth in byAuth && byAuth[r.auth] == |was|
    && forall a :: a != r.auth ==> (a in byAuth <==> a in wasByAuth) && (a in byAuth ==> byAuth[a] == wasByAuth[a])
  }

  /** A record of the header's own type that is waiting, at work, or completed with a
      result no older than the header. */
  predicate BarsHeader(r: Record, kind: string, observedAt: nat) {
    r.kind == kind && match r.status
                      case Queued => true
                      case Running => true
                      case Completed => r.refreshedAt != 0 && observedAt <= r.refreshedAt
                      case Failed => false
  }

  /** The entries left are those whose record has no expiry, or one still to come. */
  ghost predicate LeavesUnexpired(records: seq<Record>, was: map<string, nat>, left: map<string, nat>, now: nat) {
    && (forall a :: a in was ==> was[a] < |records| && (a in left <==> records[was[a]].expiresAt == 0 || now < records[was[a]].expiresAt))
    && forall a :: a in left ==> a in was && left[a] == was[a]
  }

  /** The entries left are those whose record is waiting or at work. */
  ghost predicate LeavesActive(records: seq<Record>, was: map<string, nat>, left: map<string, nat>) {
    && (forall a :: a in was ==> was[a] < |records| && (a in left <==> records[was[a]].status.Queued? || records[was[a]].status.Running?))
    && forall a :: a in left ==> a in was && left[a] == was[a]
  }

  class TaskMap {
    var records: seq<Record>
    var byAuth: map<string, nat>

    ghost function View(): Tasks
      reads this
    {
      Tasks(records, byAuth)
    }

    ghost predicate Valid()
      reads this
    {
      Indexed(View())
    }

    constructor ()
      ensures Valid() && View() == IDLE.tasks
    {
      records, byAuth := [], map[];
    }

    /** The record of the account, new unless one is queued or running. */
    method EnsureTask(auth: string, kind: string, owner: Owner) returns (id: nat, created: bool)
      requires Valid()
      modifies this
      ensures Valid() && created == !HasActive(old(View()), auth)
      ensures auth in byAuth && id == byAuth[auth] && id < |records|
      ensures View() == Ensure(old(View()), auth, kind, owner)
      ensures created <==> !(auth in old(byAuth) && (old(records[byAuth[auth]].status.Queued?) || old(records[byAuth[auth]].status.Running?)))
      ensures !created ==> records == old(records) && byAuth == old(byAuth)
      ensures created ==> Appended(old(records), old(byAuth), records, byAuth, Record(auth, kind, Queued, None, 0, 0, 0, owner))
    {
      if auth in byAuth && IsActive(records[byAuth[auth]]) {
        return byAuth[auth], false;
      }
      id, created := |records|, true;
      records := records + [NewRecord(auth, kind, owner)];
      byAuth := byAuth[auth := id];
    }

    /** The pointer comparison of a worker or dispatcher with the map's entry. */
    predicate IsCurrent(id: nat)
      reads this
    {
      id < |records| && records[id].auth in byAuth && byAuth[records[id].auth] == id
    }

    method MarkTaskRunning(id: nat) returns (ok: bool)
      requires Valid()
      modifies this`records
      ensures Valid() && ok == CanRun(old(View()), id) && View() == MarkRunning(old(View()), id)
      ensures ok <==> old(IsCurrent(id)) && old(records[id].status.Queued?)
      ensures if ok then OnlyChanged(old(records), records, id, old(records)[id].(status := Running)) else records == old(records)
    {
      if !IsCurrent(id) || records[id].status != Queued {
        return false;
      }
      records := records[id := records[id].(status := Running)];
      return true;
    }

    method MarkTaskCompleted(id: nat, result: int, now: nat)
      requires Valid()
      modifies this`records
      ensures Valid() && View() == MarkCompleted(old(View()), id, result, now)
      ensures !old(IsCurrent(id)) ==> records == old(records)
      ensures old(IsCurrent(id)) ==>
                var was := old(records)[id];
                OnlyChanged(old(records), records, id,
                            Record(was.auth, was.kind, Completed, Some(result), now, was.expiresAt, was.settled + 1, was.owner))
    {
      if !IsCurrent(id) {
        return;
      }
      var r := records[id];
      records := records[id := r.(status := Completed, result := Some(result), refreshedAt := now, settled := r.settled + 1)];
    }

    method MarkTaskFailed(id: nat, now: nat, ttl: nat)
      requires Valid()
      modifies this`records
      ensures Valid() && View() == MarkFailed(old(View()), id, now, ttl)
      ensures !old(IsCurrent(id)) ==> records == old(records)
      ensures old(IsCurrent(id)) ==>
                var was := old(records)[id];
                OnlyChanged(old(records), records, id,
                            Record(was.auth, was.kind, Failed, was.result, now, now + ttl, was.settled + 1, was.owner))
    {
      if !IsCurrent(id) {
        return;
      }
      var r := records[id];
      records := records[id := r.(status := Failed, refreshedAt := now, expiresAt := now + ttl, settled := r.settled + 1)];
    }

    method DeleteTask(id: nat)
      requires Valid()
      modifies this`byAuth
      ensures Valid() && View() == Delete(old(View()), id)
      ensures forall a :: a in byAuth <==> a in old(byAuth) && !(id < |records| && records[id].auth == a && old(byAuth[a]) == id)
      ensures forall a :: a in byAuth ==> byAuth[a] == old(byAuth)[a]
    {
      if IsCurrent(id) {
        byAuth := byAuth - {records[id].auth};
      }
    }

    /** Removes every expired entry. */
    method CleanupExpired(now: nat)
      requires Valid()
      modifies this`byAuth
      ensures Valid() && View() == Without(old(View()), ExpiredKeys(old(View()), now))
      ensures LeavesUnexpired(records, old(byAuth), byAuth, now)
    {
      hide ExpiredKeys;
      hide SettledKeys;
      hide LeavesUnexpired;
      hide LeavesActive;
      hide Indexed;
      hide Swept;
      ghost var t, keys := View(), ExpiredKeys(View(), now);
      SweptLeaves(t, now);
      SweepEnds(t.byAuth, keys);
      var left := byAuth.Keys;
      while left != {}
        invariant left <= t.byAuth.Keys && byAuth == Swept(t.byAuth, keys, left)
        decreases |left|
      {
        var auth := Choice.Pick(left);
        TakenOne(t.byAuth, keys, left, auth);
        SweepKey(t, now, auth);
        if Expired(records[byAuth[auth]], now) {
          byAuth := byAuth - {auth};
        }
        left := left - {auth};
      }
    }

    /** A lookup never shows an expired entry, whether or not the sweep has run. */
    method TaskForRead(auth: string, now: nat) returns (r: Option<Record>)
      requires Valid()
      modifies this`byAuth
      ensures Valid() && View() == Without(old(View()), ExpiredKeys(old(View()), now) * {auth})
      ensures auth in byAuth <==> auth in old(byAuth) && (var at := records[old(byAuth)[auth]].expiresAt; at == 0 || now < at)
      ensures forall a :: a != auth ==> (a in byAuth <==> a in old(byAuth))
      ensures r.Some? <==> auth in byAuth
      ensures r.Some? ==> r.value == records[byAuth[auth]] && !Expired(r.value, now)
    {
      if auth !in byAuth {
        assert byAuth - {} == byAuth;
        return None;
      }
      var id := byAuth[auth];
      if Expired(records[id], now) {
        assert ExpiredKeys(View(), now) * {auth} == {auth};
        byAuth := byAuth - {auth};
        return None;
      }
      return Some(records[id]);
    }

    method ClearSettledTasks()
      requires Valid()
      modifies this`byAuth
      ensures Valid() && View() == Without(old(View()), SettledKeys(old(View())))
      ensures LeavesActive(records, old(byAuth), byAuth)
    {
      hide ExpiredKeys;
      hide SettledKeys;
      hide LeavesUnexpired;
      hide LeavesActive;
      hide Indexed;
      hide Swept;
      ghost var t, keys := View(), SettledKeys(View());
      SweptLeaves(t, 0);
      SweepEnds(t.byAuth, keys);
      var left := byAuth.Keys;
      while left != {}
        invariant left <= t.byAuth.Keys && byAuth == Swept(t.byAuth, keys, left)
        decreases |left|
      {
        var auth := Choice.Pick(left);
        TakenOne(t.byAuth, keys, left, auth);
        SweepKey(t, 0, auth);
        if !IsActive(records[byAuth[auth]]) {
          byAuth := byAuth - {auth};
        }
        left := left - {auth};
      }
    }

    /** Writes a header's cache unless an active task or a cache no older is in its way. */
    method MergeHeaderCache(auth: string, kind: string, observedAt: nat, result: int) returns (written: bool)
      requires Valid()
      modifies this
      ensures Valid() && written == HeaderAdmitted(old(View()), auth, kind, observedAt)
      ensures View() == MergeHeader(old(View()), auth, kind, observedAt, result)
      ensures written <==> !(auth in old(byAuth) && BarsHeader(old(records[byAuth[auth]]), kind, observedAt))
      ensures !written ==> records == old(records) && byAuth == old(byAuth)
      ensures written ==> Appended(old(records), old(byAuth), records, byAuth, Record(auth, kind, Completed, Some(result), observedAt, 0, 0, Nobody))
    {
      if auth in byAuth {
        var existing := records[byAuth[auth]];
        if IsActive(existing) && existing.kind == kind {
          return false;
        }
        if existing.kind == kind && existing.status == Completed && existing.refreshedAt != 0 && observedAt <= existing.refreshedAt {
          return false;
        }
      }
      var id := |records|;
      records := records + [Record(auth, kind, Completed, Some(result), observedAt, 0, 0, Nobody)];
      byAuth := byAuth[auth := id];
      return true;
    }
  }

  lemma SweepKey(t: Tasks, now: nat, auth: string)
    requires Indexed(t) && auth in t.byAuth
    ensures t.byAuth[auth] < |t.records|
    ensures auth in ExpiredKeys(t, now) <==> Expired(t.records[t.byAuth[auth]], now)
    ensures auth in SettledKeys(t) <==> !IsActive(t.records[t.byAuth[auth]])
  {
  }

  lemma SweptLeaves(t: Tasks, now: nat)
    requires Indexed(t)
    ensures ExpiredKeys(t, now) <= t.byAuth.Keys && SettledKeys(t) <= t.byAuth.Keys
    ensures Indexed(Without(t, ExpiredKeys(t, now))) && Indexed(Without(t, SettledKeys(t)))
    ensures LeavesUnexpired(t.records, t.byAuth, t.byAuth - ExpiredKeys(t, now), now)
    ensures LeavesActive(t.records, t.byAuth, t.byAuth - SettledKeys(t))
  {
  }

  /** The map once all keys but those left have been looked at. */
  ghost function Swept(was: map<string, nat>, keys: set<string>, left: set<string>): map<string, nat> {
    was - (keys - left)
  }

  lemma SweepEnds(was: map<string, nat>, keys: set<string>)
    requires keys <= was.Keys
    ensures Swept(was, keys, was.Keys) == was && Swept(was, keys, {}) == was - keys
  {
    assert keys - was.Keys == {} && keys - {} == keys;
  }

  /** One more key is out of the way. */
  lemma TakenOne(was: map<string, nat>, keys: set<string>, left: set<string>, auth: string)
    requires auth in left && left <= was.Keys
    ensures auth in Swept(was, keys, left) && Swept(was, keys, left)[auth] == was[auth]
    ensures Swept(was, keys, left - {auth}) == if auth in keys then Swept(was, keys, left) - {auth} else Swept(was, keys, left)
  {
  }
}
