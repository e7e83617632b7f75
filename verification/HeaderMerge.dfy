/** Merging the quota snapshots of one identity, component by component. */
module HeaderMerge {
  import opened Wrappers
  import opened Lists
  import opened Text

  /** Decoded windows of one limit; the merge only moves them around. */
  type Payload = string

  datatype Limits = Limits(windows: Payload, reached: Option<bool>)

  datatype Additional = Additional(name: string, windows: Payload)

  datatype CodexUsage = CodexUsage(plan: string, main: Option<Limits>, additional: seq<Additional>)

  datatype ClaudeUsage = ClaudeUsage(fiveHour: Option<Payload>, sevenDay: Option<Payload>)

  datatype Cache = NoCache | CodexCache(codex: CodexUsage) | ClaudeCache(claude: ClaudeUsage)

  /** Times are instants after the zero time, and 0 is the zero time itself. The times
      kept for components are 0, or absent, until a merge sets them. */
  datatype Snapshot = Snapshot(
    provider: string, authType: string, authIndex: string, observedAt: nat, cache: Cache,
    mainAt: nat, reachedAt: nat, additionalAt: map<string, nat>, claudeAt: map<string, nat>)

  /** Providers are compared without surrounding blanks and in lower case. */
  function ProviderOf(s: Snapshot): string {
    Lower(Trim(s.provider))
  }

  predicate IsClaude(s: Snapshot) {
    ProviderOf(s) == "claude"
  }

  predicate IsNewer(candidate: Snapshot, existing: Snapshot) {
    existing.observedAt <= candidate.observedAt
  }

  function Newer(existing: Snapshot, candidate: Snapshot): Snapshot {
    if IsNewer(candidate, existing) then candidate else existing
  }

  // ----- components and when they were observed -----

  type Stamped<V> = Option<(nat, V)>

  /** The later of two observations; of two at one time, the second. */
  function Later<V>(a: Stamped<V>, b: Stamped<V>): Stamped<V> {
    if b.Some? && (a.None? || a.value.0 <= b.value.0) then b else a
  }

  function Or(at: nat, observedAt: nat): nat {
    if at != 0 then at else observedAt
  }

  function MainOf(s: Snapshot): Stamped<Payload> {
    if s.cache.CodexCache? && s.cache.codex.main.Some? then Some((Or(s.mainAt, s.observedAt), s.cache.codex.main.value.windows)) else None
  }

  function ReachedOf(s: Snapshot): Stamped<bool> {
    if s.cache.CodexCache? && s.cache.codex.main.Some? && s.cache.codex.main.value.reached.Some?
    then Some((Or(s.reachedAt, s.observedAt), s.cache.codex.main.value.reached.value)) else None
  }

  function AtFor(at: map<string, nat>, name: string, observedAt: nat): nat {
    if name in at then at[name] else observedAt
  }

  function IndexOf(list: seq<Additional>, name: string): (i: nat)
    ensures i <= |list| && (i < |list| ==> list[i].name == name)
    ensures forall j :: 0 <= j < i ==> list[j].name != name
  {
    if list == [] then 0
    else if IndexOf(list[..|list| - 1], name) < |list| - 1 then IndexOf(list[..|list| - 1], name)
    else if list[|list| - 1].name == name then |list| - 1
    else |list|
  }

  function ListedAt(list: seq<Additional>, at: map<string, nat>, name: string, observedAt: nat): Stamped<Payload> {
    var i := IndexOf(list, name);
    if i < |list| then Some((AtFor(at, name, observedAt), list[i].windows)) else None
  }

  function AdditionalOf(s: Snapshot, name: string): Stamped<Payload> {
    if s.cache.CodexCache? then ListedAt(s.cache.codex.additional, s.additionalAt, name, s.observedAt) else None
  }

  const FIVE_HOUR := "five_hour"
  const SEVEN_DAY := "seven_day"

  function StampedWindow(w: Option<Payload>, at: nat): Stamped<Payload> {
    if w.Some? then Some((at, w.value)) else None
  }

  function FiveHourOf(s: Snapshot): Stamped<Payload> {
    if s.cache.ClaudeCache? then StampedWindow(s.cache.claude.fiveHour, AtFor(s.claudeAt, FIVE_HOUR, s.observedAt)) else None
  }

  function SevenDayOf(s: Snapshot): Stamped<Payload> {
    if s.cache.ClaudeCache? then StampedWindow(s.cache.claude.sevenDay, AtFor(s.claudeAt, SEVEN_DAY, s.observedAt)) else None
  }

  // ----- additional limits -----

  datatype Offered = Offered(list: seq<Additional>, at: map<string, nat>)

  /** One candidate: in place of a limit of its name unless it is older, else at the end. */
  function Offer(o: Offered, a: Additional, at: nat): Offered {
    var i := IndexOf(o.list, a.name);
    if i == |o.list| then Offered(o.list + [a], o.at[a.name := at])
    else if at < AtFor(o.at, a.name, 0) then o
    else Offered(o.list[i := a], o.at[a.name := at])
  }

  function OfferAll(o: Offered, candidates: seq<Additional>, at: map<string, nat>, observedAt: nat): Offered {
    if candidates == [] then o
    else
      var last := candidates[|candidates| - 1];
      Offer(OfferAll(o, candidates[..|candidates| - 1], at, observedAt), last, AtFor(at, last.name, observedAt))
  }

  function TimesOf(list: seq<Additional>, at: map<string, nat>, observedAt: nat): map<string, nat> {
    map a | a in list :: a.name := AtFor(at, a.name, observedAt)
  }

  method TimesByName(list: seq<Additional>, at: map<string, nat>, observedAt: nat) returns (times: map<string, nat>)
    ensures times == TimesOf(list, at, observedAt)
  {
    times := map[];
    for i := 0 to |list|
      invariant times == TimesOf(list[..i], at, observedAt)
    {
      assert list[..i + 1] == list[..i] + [list[i]];
      times := times[list[i].name := AtFor(at, list[i].name, observedAt)];
    }
    assert list[..|list|] == list;
  }

  method FindLimit(list: seq<Additional>, name: string) returns (index: nat)
    ensures index == IndexOf(list, name)
  {
    index := 0;
    while index < |list| && list[index].name != name
      invariant 0 <= index <= |list| && forall j :: 0 <= j < index ==> list[j].name != name
    {
      index := index + 1;
    }
    IndexIs(list, name, index);
  }

  /** The two nested loops over existing and candidate limits. */
  method MergeAdditional(
      existing: seq<Additional>, existingAt: map<string, nat>, existingObserved: nat,
      candidates: seq<Additional>, candidateAt: map<string, nat>, candidateObserved: nat) returns (r: Offered)
    ensures r == OfferAll(Offered(existing, TimesOf(existing, existingAt, existingObserved)), candidates, candidateAt, candidateObserved)
  {
    hide IndexOf;
    hide TimesOf;
    var times := TimesByName(existing, existingAt, existingObserved);
    r := Offered(existing, times);
    ghost var start := r;
    for n := 0 to |candidates|
      invariant r == OfferAll(start, candidates[..n], candidateAt, candidateObserved)
    {
      var c := candidates[n];
      var at := AtFor(candidateAt, c.name, candidateObserved);
      assert candidates[..n + 1][..n] == candidates[..n];
      var index := FindLimit(r.list, c.name);
      if index == |r.list| {
        r := Offered(r.list + [c], r.at[c.name := at]);
      } else if at >= AtFor(r.at, c.name, 0) {
        r := Offered(r.list[index := c], r.at[c.name := at]);
      }
    }
    assert candidates[..|candidates|] == candidates;
  }

  // ----- the merge -----

  function MergedLimits(e: Snapshot, c: Snapshot): Option<Limits> {
    match Later(MainOf(e), MainOf(c))
    case None => None
    case Some(main) =>
      var reached := Later(ReachedOf(e), ReachedOf(c));
      Some(Limits(main.1, if reached.Some? then Some(reached.value.1) else None))
  }

  function At<V>(s: Stamped<V>): nat {
    if s.Some? then s.value.0 else 0
  }

  predicate IsBlank(plan: string) {
    Trim(plan) == ""
  }

  function MergedCodex(e: Snapshot, c: Snapshot): Snapshot
    requires e.cache.CodexCache? && c.cache.CodexCache?
  {
    var base := Newer(e, c);
    var other := if base == c && IsNewer(c, e) then e else c;
    var plan := if IsBlank(base.cache.codex.plan) then other.cache.codex.plan else base.cache.codex.plan;
    var offered := OfferAll(Offered(e.cache.codex.additional, TimesOf(e.cache.codex.additional, e.additionalAt, e.observedAt)),
                            c.cache.codex.additional, c.additionalAt, c.observedAt);
    var main := Later(MainOf(e), MainOf(c));
    base.(cache := CodexCache(CodexUsage(plan, MergedLimits(e, c), offered.list)),
          mainAt := At(main),
          reachedAt := if main.Some? then At(Later(ReachedOf(e), ReachedOf(c))) else base.reachedAt,
          additionalAt := offered.at)
  }

  function ValueOf<V>(s: Stamped<V>): Option<V> {
    if s.Some? then Some(s.value.1) else None
  }

  function TimeEntry<V>(key: string, s: Stamped<V>): map<string, nat> {
    if s.Some? then map[key := s.value.0] else map[]
  }

  function MergedClaude(e: Snapshot, c: Snapshot): Snapshot
    requires e.cache.ClaudeCache? && c.cache.ClaudeCache?
  {
    var five, seven := Later(FiveHourOf(e), FiveHourOf(c)), Later(SevenDayOf(e), SevenDayOf(c));
    Newer(e, c).(cache := ClaudeCache(ClaudeUsage(ValueOf(five), ValueOf(seven))),
                 claudeAt := TimeEntry(FIVE_HOUR, five) + TimeEntry(SEVEN_DAY, seven))
  }

  /** Two snapshots of one identity; without usable parts to compare, the newer one. */
  function Merged(e: Snapshot, c: Snapshot): Snapshot {
    if ProviderOf(e) != ProviderOf(c) then Newer(e, c)
    else if IsClaude(e) then
      if e.cache.ClaudeCache? && c.cache.ClaudeCache? then MergedClaude(e, c) else Newer(e, c)
    else if e.cache.CodexCache? && c.cache.CodexCache? then MergedCodex(e, c)
    else Newer(e, c)
  }

  // ----- each component is the later one -----

  lemma {:induction false} OfferShows(o: Offered, a: Additional, at: nat, name: string)
    requires forall b :: b in o.list ==> b.name in o.at
    ensures ListedAt(Offer(o, a, at).list, Offer(o, a, at).at, name, 0) ==
              if name == a.name then Later(ListedAt(o.list, o.at, name, 0), Some((at, a.windows))) else ListedAt(o.list, o.at, name, 0)
    ensures forall b :: b in Offer(o, a, at).list ==> b.name in Offer(o, a, at).at
  {
    var i, after := IndexOf(o.list, a.name), Offer(o, a, at);
    IndexUnique(o.list, name, after.list, i, a);
  }

  lemma IndexIs(list: seq<Additional>, name: string, i: nat)
    requires i <= |list| && (i < |list| ==> list[i].name == name) && forall j :: 0 <= j < i ==> list[j].name != name
    ensures IndexOf(list, name) == i
  {
    hide IndexOf;
  }

  /** Putting a limit in its place moves no other. */
  lemma {:induction false} IndexUnique(list: seq<Additional>, name: string, after: seq<Additional>, i: nat, a: Additional)
    requires i == IndexOf(list, a.name)
    requires after == list || (i == |list| && after == list + [a]) || (i < |list| && after == list[i := a])
    ensures name != a.name ==> (IndexOf(after, name) < |after| <==> IndexOf(list, name) < |list|)
    ensures name != a.name && IndexOf(list, name) < |list| ==> IndexOf(after, name) == IndexOf(list, name) && after[IndexOf(list, name)] == list[IndexOf(list, name)]
    ensures after != list ==> IndexOf(after, a.name) == i
  {
    hide IndexOf;
    var k := IndexOf(list, name);
    if after != list {
      IndexIs(after, a.name, i);
    }
    if name != a.name {
      IndexIs(after, name, if k < |list| then k else |after|);
    }
  }

  ghost predicate DistinctNames(list: seq<Additional>) {
    forall i, j :: 0 <= i < j < |list| ==> list[i].name != list[j].name
  }

  lemma {:induction false} OfferAllShows(o: Offered, candidates: seq<Additional>, at: map<string, nat>, observedAt: nat, name: string)
    requires DistinctNames(candidates) && forall b :: b in o.list ==> b.name in o.at
    ensures var r := OfferAll(o, candidates, at, observedAt);
            && ListedAt(r.list, r.at, name, 0) == Later(ListedAt(o.list, o.at, name, 0), ListedAt(candidates, at, name, observedAt))
            && forall b :: b in r.list ==> b.name in r.at
  {
    if candidates != [] {
      var n := |candidates| - 1;
      var last, before := candidates[n], candidates[..n];
      OfferAllShows(o, before, at, observedAt, name);
      OfferShows(OfferAll(o, before, at, observedAt), last, AtFor(at, last.name, observedAt), name);
      if name == last.name {
        assert forall i :: 0 <= i < n ==> before[i].name != name;
        assert IndexOf(before, name) == n;
      }
    }
  }

  lemma {:induction false} TimesShow(list: seq<Additional>, at: map<string, nat>, observedAt: nat, name: string)
    ensures ListedAt(list, TimesOf(list, at, observedAt), name, 0) == ListedAt(list, at, name, observedAt)
  {
  }

  /** A component without a time of its own counts as observed when the snapshot was. */
  function Lift<V>(r: Stamped<V>, observedAt: nat): Stamped<V> {
    if r.Some? then Some((Or(r.value.0, observedAt), r.value.1)) else None
  }

  /** Usable for merging by component: it carries usage, and its limits have different names. */
  ghost predicate CodexReady(s: Snapshot) {
    && !IsClaude(s) && s.cache.CodexCache?
    && DistinctNames(s.cache.codex.additional)
  }

  lemma {:induction false} MergedComponents(e: Snapshot, c: Snapshot, name: string)
    requires CodexReady(c) && e.cache.CodexCache? && ProviderOf(e) == ProviderOf(c)
    ensures var m := Merged(e, c);
            && m.cache.CodexCache? && ProviderOf(m) == ProviderOf(c)
            && m.observedAt == Newer(e, c).observedAt
            && MainOf(m) == Lift(Later(MainOf(e), MainOf(c)), m.observedAt)
            && ReachedOf(m) == Lift(Later(ReachedOf(e), ReachedOf(c)), m.observedAt)
            && AdditionalOf(m, name) == Later(AdditionalOf(e, name), AdditionalOf(c, name))
  {
    var list := e.cache.codex.additional;
    var o := Offered(list, TimesOf(list, e.additionalAt, e.observedAt));
    OfferAllShows(o, c.cache.codex.additional, c.additionalAt, c.observedAt, name);
    TimesShow(list, e.additionalAt, e.observedAt, name);
    var r := OfferAll(o, c.cache.codex.additional, c.additionalAt, c.observedAt);
    ListedInAt(r, name, Newer(e, c).observedAt);
  }

  lemma ListedInAt(o: Offered, name: string, observedAt: nat)
    requires forall b :: b in o.list ==> b.name in o.at
    ensures ListedAt(o.list, o.at, name, observedAt) == ListedAt(o.list, o.at, name, 0)
  {
    var i := IndexOf(o.list, name);
    if i < |o.list| {
      assert o.list[i] in o.list;
    }
  }

  function NamesOf(list: seq<Additional>): seq<string> {
    seq(|list|, i requires 0 <= i < |list| => list[i].name)
  }

  function NotAmong(names: seq<string>): string -> bool {
    (name: string) => name !in names
  }

  lemma {:induction false} OfferPlace(o: Offered, a: Additional, at: nat)
    ensures NamesOf(Offer(o, a, at).list) == NamesOf(o.list) + if a.name in NamesOf(o.list) then [] else [a.name]
  {
    var i := IndexOf(o.list, a.name);
    hide IndexOf;
    assert i < |o.list| ==> NamesOf(o.list)[i] == a.name;
    if a.name in NamesOf(o.list) {
      var j :| 0 <= j < |o.list| && NamesOf(o.list)[j] == a.name;
      assert o.list[j].name == a.name;
    }
  }

  /** A merge leaves the limits it has in their places, and puts new ones behind them in
      the order they come. */
  lemma {:induction false} OfferAllPlaces(o: Offered, candidates: seq<Additional>, at: map<string, nat>, observedAt: nat)
    requires DistinctNames(candidates)
    ensures NamesOf(OfferAll(o, candidates, at, observedAt).list) ==
              NamesOf(o.list) + Select(NamesOf(candidates), NotAmong(NamesOf(o.list)))
  {
    if candidates == [] {
      assert NamesOf(candidates) == [];
    } else {
      var n := |candidates| - 1;
      var before, last := candidates[..n], candidates[n];
      OfferAllPlaces(o, before, at, observedAt);
      OfferPlace(OfferAll(o, before, at, observedAt), last, AtFor(at, last.name, observedAt));
      assert NamesOf(candidates) == NamesOf(before) + [last.name] && NamesOf(candidates)[..n] == NamesOf(before);
      NewOnce(before, last.name, NamesOf(o.list));
      hide Offer;
    }
  }

  lemma {:induction false} NewOnce(before: seq<Additional>, name: string, names: seq<string>)
    requires forall i :: 0 <= i < |before| ==> before[i].name != name
    ensures name in names + Select(NamesOf(before), NotAmong(names)) <==> name in names
  {
    SelectMember(NamesOf(before), NotAmong(names), name);
    assert name !in NamesOf(before);
  }

  /** The time of a component: its own, or else its snapshot's. */
  function ObservedAt(own: nat, s: Snapshot): nat {
    if own == 0 then s.observedAt else own
  }

  /** Which snapshot a Codex merge takes each part from: of two parts the one observed
      later, at one time the second; the plan of the newer snapshot, unless it is blank. */
  lemma {:induction false} MergeTakes(e: Snapshot, c: Snapshot)
    requires !IsClaude(c) && e.cache.CodexCache? && c.cache.CodexCache? && ProviderOf(e) == ProviderOf(c)
    ensures var m, newer, older := Merged(e, c), if c.observedAt < e.observedAt then e else c, if c.observedAt < e.observedAt then c else e;
            var a, b := e.cache.codex, c.cache.codex;
            && m.cache.CodexCache?
            && (m.provider, m.authType, m.authIndex, m.observedAt) == (newer.provider, newer.authType, newer.authIndex, newer.observedAt)
            && m.cache.codex.plan == (if Trim(newer.cache.codex.plan) == "" then older.cache.codex.plan else newer.cache.codex.plan)
            && (m.cache.codex.main.Some? <==> a.main.Some? || b.main.Some?)
            && (m.cache.codex.main.Some? ==>
                  m.cache.codex.main.value.windows ==
                    if b.main.Some? && (a.main.None? || ObservedAt(e.mainAt, e) <= ObservedAt(c.mainAt, c)) then b.main.value.windows else a.main.value.windows)
  {
    hide OfferAll;
    hide TimesOf;
  }

  /** Snapshots that cannot be compared by part: the newer one, at one time the second. */
  lemma {:induction false} NewerWhole(e: Snapshot, c: Snapshot)
    requires ProviderOf(e) != ProviderOf(c) || (if IsClaude(e) then !(e.cache.ClaudeCache? && c.cache.ClaudeCache?) else !(e.cache.CodexCache? && c.cache.CodexCache?))
    ensures Merged(e, c) == if c.observedAt < e.observedAt then e else c
  {
    hide MergedCodex;
    hide MergedClaude;
  }

  lemma {:induction false} MergedWindows(e: Snapshot, c: Snapshot)
    requires IsClaude(e) && IsClaude(c) && e.cache.ClaudeCache? && c.cache.ClaudeCache?
    ensures var m := Merged(e, c);
            && m.cache.ClaudeCache? && IsClaude(m) && m.observedAt == Newer(e, c).observedAt
            && FiveHourOf(m) == Later(FiveHourOf(e), FiveHourOf(c))
            && SevenDayOf(m) == Later(SevenDayOf(e), SevenDayOf(c))
  {
    var m, five, seven := MergedClaude(e, c), Later(FiveHourOf(e), FiveHourOf(c)), Later(SevenDayOf(e), SevenDayOf(c));
    hide Later;
    assert FiveHourOf(m) == five by {
      StampedBack(five, seven, m.observedAt);
    }
    assert SevenDayOf(m) == seven by {
      StampedBack(five, seven, m.observedAt);
    }
  }

  /** Both windows keep their own times. */
  lemma StampedBack(five: Stamped<Payload>, seven: Stamped<Payload>, observedAt: nat)
    ensures var at := TimeEntry(FIVE_HOUR, five) + TimeEntry(SEVEN_DAY, seven);
            && StampedWindow(ValueOf(five), AtFor(at, FIVE_HOUR, observedAt)) == five
            && StampedWindow(ValueOf(seven), AtFor(at, SEVEN_DAY, observedAt)) == seven
  {
    assert FIVE_HOUR[0] != SEVEN_DAY[0];
  }
}
