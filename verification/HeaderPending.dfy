/** The bounded map of pending snapshots, one for each identity. */
module HeaderPending {
  import opened Wrappers
  import opened HeaderMerge
  import Choice
  import Text

  /** The key a snapshot is kept under. */
  function PendingKey(s: Snapshot): string {
    var account := Text.Trim(s.authIndex);
    if account == "" then s.provider + "\0" + s.authType
    else if IsClaude(s) then "claude\0" + account
    else account
  }

  type Pending = map<string, Snapshot>

  /** No entry is older than `floor`. */
  ghost predicate NoneBefore(pending: Pending, floor: nat) {
    forall k :: k in pending ==> floor <= pending[k].observedAt
  }

  ghost predicate IsOldest(pending: Pending, key: string) {
    key in pending && NoneBefore(pending, pending[key].observedAt)
  }

  predicate OlderThan(pending: Pending, key: string, other: string)
    requires key in pending && other in pending
  {
    || pending[key].observedAt < pending[other].observedAt
    || (pending[key].observedAt == pending[other].observedAt && Text.Compare(key, other) < 0)
  }

  method Oldest(pending: Pending) returns (r: Option<string>)
    ensures r.None? <==> pending == map[]
    ensures r.Some? ==> IsOldest(pending, r.value)
  {
    r := None;
    var left := pending.Keys;
    while left != {}
      invariant left <= pending.Keys
      invariant r.None? ==> left == pending.Keys
      invariant r.Some? ==> r.value in pending && forall k :: k in pending && k !in left ==> pending[r.value].observedAt <= pending[k].observedAt
      decreases |left|
    {
      var k := Choice.Pick(left);
      if r.None? || OlderThan(pending, k, r.value) {
        r := Some(k);
      }
      left := left - {k};
    }
    assert r.None? ==> pending.Keys == {};
  }

  /** Merging never makes an identity's snapshot older. */
  lemma MergedNotOlder(e: Snapshot, c: Snapshot)
    ensures e.observedAt <= Merged(e, c).observedAt && c.observedAt <= Merged(e, c).observedAt
    ensures Merged(e, c).observedAt == e.observedAt || Merged(e, c).observedAt == c.observedAt
  {
  }

  /** Every snapshot sits under its own key. */
  ghost predicate OwnKeys(pending: Pending) {
    forall k :: k in pending ==> PendingKey(pending[k]) == k
  }

  // ----- whose entry it is -----

  ghost predicate NulFree(s: Snapshot) {
    "\0"[0] !in s.provider && "\0"[0] !in s.authType && "\0"[0] !in s.authIndex
  }

  /** The same account of Claude, or of the other providers; without an account, the same
      provider and authentication type. */
  predicate OneIdentity(a: Snapshot, b: Snapshot) {
    if Text.Trim(a.authIndex) == "" || Text.Trim(b.authIndex) == ""
    then Text.Trim(a.authIndex) == Text.Trim(b.authIndex) && a.provider == b.provider && a.authType == b.authType
    else Text.Trim(a.authIndex) == Text.Trim(b.authIndex) && (IsClaude(a) <==> IsClaude(b))
  }

  /** `a` is a Claude snapshot without an account whose authentication type reads like the
      Claude account of `b`. */
  predicate ReadsLike(a: Snapshot, b: Snapshot) {
    Text.Trim(a.authIndex) == "" && a.provider == "claude" && Text.Trim(b.authIndex) != "" && IsClaude(b) && a.authType == Text.Trim(b.authIndex)
  }

  predicate SharesEntry(a: Snapshot, b: Snapshot) {
    OneIdentity(a, b) || ReadsLike(a, b) || ReadsLike(b, a)
  }

  lemma {:induction false} TrimWithin(s: string)
    ensures forall c :: c in Text.Trim(s) ==> c in s
  {
    LeftWithin(s);
    RightWithin(Text.TrimLeft(s));
  }

  lemma {:induction false} LeftWithin(s: string)
    ensures forall c :: c in Text.TrimLeft(s) ==> c in s
  {
    if s != [] && Text.IsSpace(s[0]) {
      LeftWithin(s[1..]);
    }
  }

  lemma {:induction false} RightWithin(s: string)
    ensures forall c :: c in Text.TrimRight(s) ==> c in s
  {
    if s != [] && Text.IsSpace(s[|s| - 1]) {
      RightWithin(s[..|s| - 1]);
    }
  }

  /** A join at a NUL comes apart in one way only. */
  lemma {:induction false} JoinUnique(a: string, b: string, c: string, d: string)
    requires '\0' !in a && '\0' !in c && a + "\0" + b == c + "\0" + d
    ensures a == c && b == d
  {
    var one, other := a + "\0" + b, c + "\0" + d;
    assert one[|a|] == '\0' && other[|c|] == '\0';
    assert forall i :: 0 <= i < |a| ==> one[i] == a[i];
    assert forall i :: 0 <= i < |c| ==> other[i] == c[i];
    assert one[..|a|] == a && other[..|c|] == c && one[|a| + 1..] == b && other[|c| + 1..] == d;
  }

  /** Two snapshots share an entry exactly if they are of one identity, or one of them
      lacks an account and reads like the other. */
  lemma {:induction false} KeysAndIdentities(a: Snapshot, b: Snapshot)
    requires NulFree(a) && NulFree(b)
    ensures PendingKey(a) == PendingKey(b) <==> SharesEntry(a, b)
  {
    TrimWithin(a.authIndex);
    TrimWithin(b.authIndex);
    hide Text.Trim;
    hide IsClaude;
    var x, y := Text.Trim(a.authIndex), Text.Trim(b.authIndex);
    assert "\0"[0] == '\0' && '\0' !in "claude";
    KeyShape(a);
    KeyShape(b);
    if PendingKey(a) == PendingKey(b) && '\0' in PendingKey(a) {
      JoinUnique(FrontOf(a), BackOf(a), FrontOf(b), BackOf(b));
    }
  }

  /** What stands before and behind the NUL of a key, if it has one. */
  function FrontOf(s: Snapshot): string {
    if Text.Trim(s.authIndex) == "" then s.provider else "claude"
  }

  function BackOf(s: Snapshot): string {
    if Text.Trim(s.authIndex) == "" then s.authType else Text.Trim(s.authIndex)
  }

  lemma {:induction false} KeyShape(s: Snapshot)
    requires NulFree(s) && '\0' !in Text.Trim(s.authIndex)
    ensures PendingKey(s) == if Text.Trim(s.authIndex) == "" || IsClaude(s) then FrontOf(s) + "\0" + BackOf(s) else Text.Trim(s.authIndex)
    ensures '\0' in PendingKey(s) <==> Text.Trim(s.authIndex) == "" || IsClaude(s)
    ensures '\0' !in FrontOf(s)
  {
    hide Text.Trim;
    hide IsClaude;
    var key := FrontOf(s) + "\0" + BackOf(s);
    assert "claude\0" == "claude" + "\0";
    assert key[|FrontOf(s)|] == '\0';
  }

  /** No two entries are of one identity. */
  lemma {:induction false} EntriesApart(pending: Pending, k: string, other: string)
    requires OwnKeys(pending) && k in pending && other in pending && k != other && NulFree(pending[k]) && NulFree(pending[other])
    ensures !OneIdentity(pending[k], pending[other])
  {
    KeysAndIdentities(pending[k], pending[other]);
  }

  /** A merge stays with the identity of its parts. */
  lemma {:induction false} MergedKey(e: Snapshot, c: Snapshot)
    requires PendingKey(e) == PendingKey(c)
    ensures PendingKey(Merged(e, c)) == PendingKey(e) && (NulFree(e) && NulFree(c) ==> NulFree(Merged(e, c)))
  {
    hide Text.Trim;
    hide Text.Lower;
    hide OfferAll;
    hide MergedLimits;
  }

  /** Snapshots of other identities keep their entries. */
  ghost predicate OthersStay(before: Pending, after: Pending, s: Snapshot) {
    forall k :: k in before && NulFree(before[k]) && NulFree(s) && !SharesEntry(before[k], s) ==> k in after && after[k] == before[k]
  }

  /** The identity has an entry, and it is no older than the snapshot. */
  ghost predicate HasEntry(pending: Pending, s: Snapshot) {
    exists k :: k in pending && s.observedAt <= pending[k].observedAt && (NulFree(pending[k]) && NulFree(s) ==> SharesEntry(pending[k], s))
  }

  lemma {:induction false} KeyHasEntry(pending: Pending, s: Snapshot)
    requires OwnKeys(pending) && PendingKey(s) in pending && s.observedAt <= pending[PendingKey(s)].observedAt
    ensures HasEntry(pending, s)
  {
    var k := PendingKey(s);
    if NulFree(pending[k]) && NulFree(s) {
      KeysAndIdentities(pending[k], s);
    }
  }

  lemma {:induction false} OthersUntouched(before: Pending, after: Pending, s: Snapshot)
    requires OwnKeys(before) && forall k :: k in before && k != PendingKey(s) ==> k in after && after[k] == before[k]
    ensures OthersStay(before, after, s)
  {
    hide SharesEntry;
    forall k | k in before && NulFree(before[k]) && NulFree(s) && !SharesEntry(before[k], s)
      ensures k != PendingKey(s)
    {
      KeysAndIdentities(before[k], s);
    }
  }

  /** Merged into its entry, or put into one of its own, a snapshot disturbs no other. */
  lemma {:induction false} PlacedApart(pending: Pending, s: Snapshot)
    requires OwnKeys(pending)
    ensures var after := if PendingKey(s) in pending then pending[PendingKey(s) := Merged(pending[PendingKey(s)], s)] else pending[PendingKey(s) := s];
            OwnKeys(after) && OthersStay(pending, after, s) && HasEntry(after, s)
  {
    hide PendingKey;
    hide Merged;
    hide OthersStay;
    hide HasEntry;
    var k := PendingKey(s);
    var after := if k in pending then pending[k := Merged(pending[k], s)] else pending[k := s];
    if k in pending {
      MergedKey(pending[k], s);
      MergedNotOlder(pending[k], s);
    }
    OthersUntouched(pending, after, s);
    KeyHasEntry(after, s);
  }

  /** Such a snapshot can take the entry of an account. */
  lemma AccountLikeEntry()
    ensures var a, b := Snapshot("claude", "x", "", 1, NoCache, 0, 0, map[], map[]), Snapshot("claude", "oauth", "x", 2, NoCache, 0, 0, map[], map[]);
            PendingKey(a) == PendingKey(b) && !OneIdentity(a, b)
  {
    assert Text.Trim("") == "" && Text.Trim("x") == "x";
    assert "claude" + "\0" + "x" == "claude\0" + "x";
  }

  class PendingSnapshots {
    var pending: Pending
    /** The latest time among the snapshots turned away or pushed out. */
    ghost var lost: nat
    const limit: nat

    ghost predicate Valid()
      reads this
    {
      |pending| <= limit && (lost > 0 ==> |pending| == limit && NoneBefore(pending, lost)) && OwnKeys(pending)
    }

    constructor (limit: nat)
      ensures Valid() && pending == map[] && this.limit == limit && lost == 0
    {
      pending, lost := map[], 0;
      this.limit := limit;
    }

    /** Takes one snapshot: merged into its identity's, added, put in the oldest one's
        place, or turned away when it is no newer than any. */
    method MergeOne(s: Snapshot)
      requires Valid()
      modifies this
      ensures Valid() && old(lost) <= lost
      ensures PendingKey(s) in old(pending) ==> pending == old(pending)[PendingKey(s) := Merged(old(pending)[PendingKey(s)], s)] && lost == old(lost)
      ensures PendingKey(s) !in old(pending) && |old(pending)| < limit ==> pending == old(pending)[PendingKey(s) := s] && lost == old(lost)
      ensures PendingKey(s) !in old(pending) && |old(pending)| == limit ==>
                || (pending == old(pending) && s.observedAt <= lost && NoneBefore(old(pending), s.observedAt))
                || (exists k :: IsOldest(old(pending), k) && old(pending)[k].observedAt <= s.observedAt && old(pending)[k].observedAt <= lost
                                && pending == (old(pending) - {k})[PendingKey(s) := s])
      ensures |old(pending)| == limit ==> |pending| == limit && forall floor :: NoneBefore(old(pending), floor) ==> NoneBefore(pending, floor)
      ensures |old(pending)| < limit ==> OthersStay(old(pending), pending, s) && HasEntry(pending, s)
      ensures |pending| <= |old(pending)| + 1
    {
      hide Merged;
      hide PendingKey;
      hide OthersStay;
      hide HasEntry;
      var key := PendingKey(s);
      PlacedApart(pending, s);
      if key in pending {
        MergedNotOlder(pending[key], s);
        MergedKey(pending[key], s);
        KeepsSize(pending, key, Merged(pending[key], s));
        pending := pending[key := Merged(pending[key], s)];
        return;
      }
      if |pending| < limit {
        Grows(pending, key, s);
        pending := pending[key := s];
        return;
      }
      Overflow(s);
    }

    /** The map is full: the oldest entry gives way to a newer snapshot. */
    method Overflow(s: Snapshot)
      requires Valid() && PendingKey(s) !in pending && |pending| == limit
      modifies this
      ensures Valid() && old(lost) <= lost && |pending| == limit
      ensures || (pending == old(pending) && s.observedAt <= lost && NoneBefore(old(pending), s.observedAt))
              || (exists k :: IsOldest(old(pending), k) && old(pending)[k].observedAt <= s.observedAt && old(pending)[k].observedAt <= lost
                              && pending == (old(pending) - {k})[PendingKey(s) := s])
      ensures forall floor :: NoneBefore(old(pending), floor) ==> NoneBefore(pending, floor)
    {
      hide PendingKey;
      var key := PendingKey(s);
      var oldest := Oldest(pending);
      if oldest.None? || !IsNewer(s, pending[oldest.value]) {
        lost := if s.observedAt > lost then s.observedAt else lost;
        return;
      }
      Replaces(pending, oldest.value, key, s);
      lost := pending[oldest.value].observedAt;
      pending := (pending - {oldest.value})[key := s];
    }

    /** However many snapshots come: the limit holds, and once the map is full its
        oldest time never goes back. With room for all, every identity has its entry. */
    method MergeAll(snapshots: seq<Snapshot>)
      requires Valid()
      modifies this
      ensures Valid() && old(lost) <= lost
      ensures |old(pending)| == limit ==> |pending| == limit && forall floor :: NoneBefore(old(pending), floor) ==> NoneBefore(pending, floor)
      ensures |old(pending)| + |snapshots| <= limit ==> forall i :: 0 <= i < |snapshots| ==> HasEntry(pending, snapshots[i])
    {
      hide Merged;
      hide PendingKey;
      hide OthersStay;
      hide HasEntry;
      for n := 0 to |snapshots|
        invariant Valid() && old(lost) <= lost
        invariant |old(pending)| == limit ==> |pending| == limit && forall floor :: NoneBefore(old(pending), floor) ==> NoneBefore(pending, floor)
        invariant |pending| <= |old(pending)| + n
        invariant |old(pending)| + |snapshots| <= limit ==> forall i :: 0 <= i < n ==> Kept(pending, snapshots[i])
      {
        var before := pending;
        MergeOne(snapshots[n]);
        if |old(pending)| + |snapshots| <= limit {
          forall i | 0 <= i <= n
            ensures Kept(pending, snapshots[i])
          {
            KeptOn(before, pending, snapshots[n], snapshots[i], i == n);
          }
        }
      }
      if |old(pending)| + |snapshots| <= limit {
        forall i | 0 <= i < |snapshots|
          ensures HasEntry(pending, snapshots[i])
        {
          assert Kept(pending, snapshots[i]);
          KeyHasEntry(pending, snapshots[i]);
        }
      }
    }

    /** Swaps the map out for an empty one. */
    method Take() returns (taken: Pending)
      requires Valid()
      modifies this
      ensures Valid() && taken == old(pending) && pending == map[] && lost == 0
    {
      taken := pending;
      pending, lost := map[], 0;
    }
  }

  ghost predicate Kept(pending: Pending, s: Snapshot) {
    PendingKey(s) in pending && s.observedAt <= pending[PendingKey(s)].observedAt
  }

  lemma {:induction false} KeptOn(before: Pending, after: Pending, s: Snapshot, other: Snapshot, same: bool)
    requires PendingKey(s) in before ==> after == before[PendingKey(s) := Merged(before[PendingKey(s)], s)]
    requires PendingKey(s) !in before ==> after == before[PendingKey(s) := s]
    requires if same then other == s else Kept(before, other)
    ensures Kept(after, other)
  {
    hide Merged;
    hide PendingKey;
    if PendingKey(s) in before {
      MergedNotOlder(before[PendingKey(s)], s);
    }
  }

  lemma KeepsSize(pending: Pending, key: string, s: Snapshot)
    requires key in pending
    ensures |pending[key := s]| == |pending|
  {
    assert pending[key := s].Keys == pending.Keys;
    assert |pending.Keys| == |pending| && |pending[key := s].Keys| == |pending[key := s]|;
  }

  lemma Grows(pending: Pending, key: string, s: Snapshot)
    requires key !in pending
    ensures |pending[key := s]| == |pending| + 1
  {
    assert pending[key := s].Keys == pending.Keys + {key};
    assert |pending.Keys| == |pending| && |pending[key := s].Keys| == |pending[key := s]|;
  }

  lemma Replaces(pending: Pending, out: string, key: string, s: Snapshot)
    requires out in pending && key !in pending
    ensures |(pending - {out})[key := s]| == |pending|
  {
    assert (pending - {out})[key := s].Keys == pending.Keys - {out} + {key};
    assert |pending.Keys| == |pending| && |(pending - {out})[key := s].Keys| == |(pending - {out})[key := s]|;
  }
}
