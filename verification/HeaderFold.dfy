/** The snapshots of a minute merge to the same thing in whatever order they come, unless
    they disagree; for every component, exactly when. */
module HeaderFold {
  import opened Wrappers
  import opened Lists
  import opened HeaderMerge
  import opened HeaderOrder

  function Fold(snapshots: seq<Snapshot>): Snapshot
    requires snapshots != []
  {
    if |snapshots| == 1 then snapshots[0] else Merged(Fold(snapshots[..|snapshots| - 1]), snapshots[|snapshots| - 1])
  }

  // ----- what a snapshot carries -----

  function MainIn(s: Snapshot): Option<Payload> {
    if s.cache.CodexCache? && s.cache.codex.main.Some? then Some(s.cache.codex.main.value.windows) else None
  }

  function ReachedIn(s: Snapshot): Option<bool> {
    if s.cache.CodexCache? && s.cache.codex.main.Some? then s.cache.codex.main.value.reached else None
  }

  function NamedIn(name: string): Carried<Payload> {
    (s: Snapshot) => ValueOf(AdditionalOf(s, name))
  }

  function PlanIn(s: Snapshot): Option<string> {
    if s.cache.CodexCache? && !IsBlank(s.cache.codex.plan) then Some(s.cache.codex.plan) else None
  }

  function FiveHourIn(s: Snapshot): Option<Payload> {
    if s.cache.ClaudeCache? then s.cache.claude.fiveHour else None
  }

  function SevenDayIn(s: Snapshot): Option<Payload> {
    if s.cache.ClaudeCache? then s.cache.claude.sevenDay else None
  }

  // ----- folds by component -----

  /** Codex snapshots of one identity, at any times, with nothing merged into them yet. */
  ghost predicate FreshCodex(snapshots: seq<Snapshot>) {
    && snapshots != []
    && (forall s :: s in snapshots ==> CodexReady(s) && ProviderOf(s) == ProviderOf(snapshots[0]))
    && forall s :: s in snapshots ==> s.mainAt == 0 && s.reachedAt == 0 && s.additionalAt == map[]
  }

  ghost predicate FreshClaude(snapshots: seq<Snapshot>) {
    snapshots != [] && forall s :: s in snapshots ==> IsClaude(s) && s.cache.ClaudeCache? && s.claudeAt == map[]
  }

  /** A snapshot by itself. */
  lemma {:induction false} FreshComponents(s: Snapshot, name: string)
    requires CodexReady(s) && s.mainAt == 0 && s.reachedAt == 0 && s.additionalAt == map[]
    ensures MainOf(s) == Stamp(s, MainIn) && ReachedOf(s) == Stamp(s, ReachedIn) && AdditionalOf(s, name) == Stamp(s, NamedIn(name))
  {
  }

  lemma {:induction false} LoneComponents<V>(s: Snapshot, f: Carried<V>)
    ensures LiftFold([s], f) == LaterFold([s], f) == Stamp(s, f) && WholeFold([s], f) == f(s) && MaxTime([s]) == s.observedAt
  {
    assert [s][..0] == [];
    assert LiftFold([], f) == None && LaterFold([], f) == None && WholeFold([], f) == None && MaxTime([]) == 0;
    assert Later(None, Stamp(s, f)) == Stamp(s, f);
  }

  lemma {:induction false} MergedPlan(e: Snapshot, c: Snapshot)
    requires CodexReady(c) && e.cache.CodexCache? && ProviderOf(e) == ProviderOf(c)
    ensures PlanIn(Merged(e, c)) ==
              if e.observedAt <= c.observedAt then (if PlanIn(c).Some? then PlanIn(c) else PlanIn(e))
              else if PlanIn(e).Some? then PlanIn(e) else PlanIn(c)
  {
    hide IsBlank;
  }

  lemma {:induction false} FoldComponents(snapshots: seq<Snapshot>, name: string)
    requires FreshCodex(snapshots)
    ensures var m := Fold(snapshots);
            && m.cache.CodexCache? && ProviderOf(m) == ProviderOf(snapshots[0]) && m.observedAt == MaxTime(snapshots)
            && MainOf(m) == LiftFold(snapshots, MainIn) && ReachedOf(m) == LiftFold(snapshots, ReachedIn)
            && AdditionalOf(m, name) == LaterFold(snapshots, NamedIn(name))
            && PlanIn(m) == WholeFold(snapshots, PlanIn)
  {
    var n := |snapshots| - 1;
    var before, last := snapshots[..n], snapshots[n];
    assert last in snapshots;
    FreshComponents(last, name);
    if n > 0 {
      assert FreshCodex(before) && before[0] == snapshots[0];
      FoldComponents(before, name);
      hide MainOf;
      hide ReachedOf;
      hide AdditionalOf;
      hide PlanIn;
      MergedComponents(Fold(before), last, name);
      MergedPlan(Fold(before), last);
    } else {
      assert snapshots == [last];
      LoneComponents(last, MainIn);
      LoneComponents(last, ReachedIn);
      LoneComponents(last, NamedIn(name));
      LoneComponents(last, PlanIn);
    }
  }

  lemma {:induction false} FoldWindows(snapshots: seq<Snapshot>)
    requires FreshClaude(snapshots)
    ensures var m := Fold(snapshots);
            && m.cache.ClaudeCache? && IsClaude(m) && m.observedAt == MaxTime(snapshots)
            && FiveHourOf(m) == LaterFold(snapshots, FiveHourIn) && SevenDayOf(m) == LaterFold(snapshots, SevenDayIn)
  {
    var n := |snapshots| - 1;
    var before, last := snapshots[..n], snapshots[n];
    assert last in snapshots;
    assert FiveHourOf(last) == Stamp(last, FiveHourIn) && SevenDayOf(last) == Stamp(last, SevenDayIn);
    if n > 0 {
      assert FreshClaude(before);
      FoldWindows(before);
      hide FiveHourOf;
      hide SevenDayOf;
      MergedWindows(Fold(before), last);
    } else {
      assert snapshots == [last];
      LoneComponents(last, FiveHourIn);
      LoneComponents(last, SevenDayIn);
    }
  }

  // ----- exactly when order does not matter -----

  /** Merging in any order leaves the same of a component. */
  ghost predicate Settled<V>(snapshots: seq<Snapshot>, f: Carried<V>)
    requires snapshots != []
  {
    forall r :: r != [] && multiset(r) == multiset(snapshots) ==> f(Fold(r)) == f(Fold(snapshots))
  }

  lemma {:induction false} FreshInAnyOrder(snapshots: seq<Snapshot>, r: seq<Snapshot>)
    requires multiset(r) == multiset(snapshots) && snapshots != []
    ensures r != [] && (FreshCodex(snapshots) ==> FreshCodex(r)) && (FreshClaude(snapshots) ==> FreshClaude(r))
  {
    SameElements(snapshots, r);
    assert r[0] in snapshots;
  }

  /** What the merged snapshot carries is the value of the component's fold. */
  lemma {:induction false} FoldCarries(snapshots: seq<Snapshot>, name: string)
    requires FreshCodex(snapshots)
    ensures var m := Fold(snapshots);
            && MainIn(m) == ValueOf(LiftFold(snapshots, MainIn)) && ReachedIn(m) == ValueOf(LiftFold(snapshots, ReachedIn))
            && NamedIn(name)(m) == ValueOf(LaterFold(snapshots, NamedIn(name))) && PlanIn(m) == WholeFold(snapshots, PlanIn)
  {
    FoldComponents(snapshots, name);
    hide LiftFold;
    hide LaterFold;
    hide WholeFold;
    var m := Fold(snapshots);
    assert MainIn(m) == ValueOf(MainOf(m)) && ReachedIn(m) == ValueOf(ReachedOf(m));
  }

  lemma {:induction false} FoldsOf(snapshots: seq<Snapshot>, name: string)
    requires FreshCodex(snapshots)
    ensures Settled(snapshots, MainIn) <==> LiftFoldSettled(snapshots, MainIn)
    ensures Settled(snapshots, ReachedIn) <==> LiftFoldSettled(snapshots, ReachedIn)
    ensures Settled(snapshots, NamedIn(name)) <==> LaterFoldSettled(snapshots, NamedIn(name))
    ensures Settled(snapshots, PlanIn) <==> WholeFoldSettled(snapshots, PlanIn)
  {
    FoldCarries(snapshots, name);
    forall r | multiset(r) == multiset(snapshots)
      ensures r != [] && MainIn(Fold(r)) == ValueOf(LiftFold(r, MainIn)) && ReachedIn(Fold(r)) == ValueOf(LiftFold(r, ReachedIn))
      ensures NamedIn(name)(Fold(r)) == ValueOf(LaterFold(r, NamedIn(name))) && PlanIn(Fold(r)) == WholeFold(r, PlanIn)
    {
      FreshInAnyOrder(snapshots, r);
      FoldCarries(r, name);
    }
    hide MainIn;
    hide ReachedIn;
    hide NamedIn;
    hide PlanIn;
    hide Fold;
    hide LiftFold;
    hide LaterFold;
    hide WholeFold;
  }

  /** For snapshots at any times, zero and equal ones included, which components come out
      the same in every order of merging. */
  lemma {:induction false} CodexOrderExact(snapshots: seq<Snapshot>, name: string)
    requires FreshCodex(snapshots)
    ensures Settled(snapshots, MainIn) <==> LatestAgree(snapshots, MainIn) && NoneLifted(snapshots, MainIn)
    ensures Settled(snapshots, ReachedIn) <==> LatestAgree(snapshots, ReachedIn) && NoneLifted(snapshots, ReachedIn)
    ensures Settled(snapshots, NamedIn(name)) <==> LatestAgree(snapshots, NamedIn(name))
    ensures Settled(snapshots, PlanIn) <==> NewestAgree(snapshots, PlanIn)
  {
    FoldsOf(snapshots, name);
    LiftFoldExact(snapshots, MainIn);
    LiftFoldExact(snapshots, ReachedIn);
    LaterFoldExact(snapshots, NamedIn(name));
    WholeFoldExact(snapshots, PlanIn);
  }

  lemma {:induction false} ClaudeOrderExact(snapshots: seq<Snapshot>)
    requires FreshClaude(snapshots)
    ensures Settled(snapshots, FiveHourIn) <==> LatestAgree(snapshots, FiveHourIn)
    ensures Settled(snapshots, SevenDayIn) <==> LatestAgree(snapshots, SevenDayIn)
  {
    forall r | multiset(r) == multiset(snapshots)
      ensures r != [] && FiveHourIn(Fold(r)) == ValueOf(LaterFold(r, FiveHourIn)) && SevenDayIn(Fold(r)) == ValueOf(LaterFold(r, SevenDayIn))
    {
      FreshInAnyOrder(snapshots, r);
      FoldWindows(r);
      hide LaterFold;
      assert FiveHourIn(Fold(r)) == ValueOf(FiveHourOf(Fold(r))) && SevenDayIn(Fold(r)) == ValueOf(SevenDayOf(Fold(r)));
    }
    hide Fold;
    hide LaterFold;
    hide FiveHourIn;
    hide SevenDayIn;
    LaterFoldExact(snapshots, FiveHourIn);
    LaterFoldExact(snapshots, SevenDayIn);
  }

  // ----- different times -----

  ghost predicate DifferentTimes(snapshots: seq<Snapshot>) {
    forall s, t :: s in snapshots && t in snapshots && s != t ==> s.observedAt != t.observedAt
  }

  lemma {:induction false} DifferentTimesAgree<V>(snapshots: seq<Snapshot>, f: Carried<V>)
    requires DifferentTimes(snapshots)
    ensures LatestAgree(snapshots, f)
    ensures (forall s :: s in snapshots ==> s.observedAt != 0) ==> NoneLifted(snapshots, f)
  {
  }

  /** At different real times the order matters to the plan alone. */
  lemma {:induction false} CodexOrderIrrelevant(snapshots: seq<Snapshot>, r: seq<Snapshot>, name: string)
    requires FreshCodex(snapshots) && DifferentTimes(snapshots) && forall s :: s in snapshots ==> s.observedAt != 0
    requires multiset(r) == multiset(snapshots)
    ensures FreshCodex(r) && Fold(r).observedAt == Fold(snapshots).observedAt
    ensures Fold(r).cache.CodexCache? && Fold(snapshots).cache.CodexCache?
    ensures Fold(r).cache.codex.main == Fold(snapshots).cache.codex.main
    ensures NamedIn(name)(Fold(r)) == NamedIn(name)(Fold(snapshots))
    ensures forall x :: Latest(x, snapshots, MainIn) ==> MainIn(Fold(r)) == MainIn(x)
    ensures forall x :: Latest(x, snapshots, ReachedIn) ==> ReachedIn(Fold(r)) == ReachedIn(x)
    ensures forall x :: Latest(x, snapshots, NamedIn(name)) ==> NamedIn(name)(Fold(r)) == NamedIn(name)(x)
  {
    FreshInAnyOrder(snapshots, r);
    FromLatest(snapshots, name);
    CodexOrderExact(snapshots, name);
    DifferentTimesAgree(snapshots, MainIn);
    DifferentTimesAgree(snapshots, ReachedIn);
    DifferentTimesAgree(snapshots, NamedIn(name));
    FoldComponents(snapshots, name);
    FoldComponents(r, name);
    MaxTimeInAnyOrder(snapshots, r);
    MainFromParts(Fold(r), Fold(snapshots));
  }

  /** Each component comes from the latest snapshot that carries it. */
  lemma {:induction false} FromLatest(snapshots: seq<Snapshot>, name: string)
    requires FreshCodex(snapshots) && DifferentTimes(snapshots) && forall s :: s in snapshots ==> s.observedAt != 0
    ensures forall x :: Latest(x, snapshots, MainIn) ==> MainIn(Fold(snapshots)) == MainIn(x)
    ensures forall x :: Latest(x, snapshots, ReachedIn) ==> ReachedIn(Fold(snapshots)) == ReachedIn(x)
    ensures forall x :: Latest(x, snapshots, NamedIn(name)) ==> NamedIn(name)(Fold(snapshots)) == NamedIn(name)(x)
  {
    FoldCarries(snapshots, name);
    DifferentTimesAgree(snapshots, MainIn);
    DifferentTimesAgree(snapshots, ReachedIn);
    DifferentTimesAgree(snapshots, NamedIn(name));
    hide *;
    forall x | Latest(x, snapshots, MainIn)
      ensures MainIn(Fold(snapshots)) == MainIn(x)
    {
      LatestWins(snapshots, x, MainIn);
    }
    forall x | Latest(x, snapshots, ReachedIn)
      ensures ReachedIn(Fold(snapshots)) == ReachedIn(x)
    {
      LatestWins(snapshots, x, ReachedIn);
    }
    forall x | Latest(x, snapshots, NamedIn(name))
      ensures NamedIn(name)(Fold(snapshots)) == NamedIn(name)(x)
    {
      LatestWins(snapshots, x, NamedIn(name));
    }
  }

  lemma {:induction false} MaxTimeInAnyOrder(snapshots: seq<Snapshot>, r: seq<Snapshot>)
    requires multiset(r) == multiset(snapshots) && snapshots != []
    ensures MaxTime(r) == MaxTime(snapshots)
  {
    SameElements(snapshots, r);
    TimeBounds(snapshots);
    TimeBounds(r);
  }

  lemma MainFromParts(x: Snapshot, y: Snapshot)
    requires x.cache.CodexCache? && y.cache.CodexCache? && MainIn(x) == MainIn(y) && ReachedIn(x) == ReachedIn(y)
    ensures x.cache.codex.main == y.cache.codex.main
  {
  }

  lemma {:induction false} ClaudeOrderIrrelevant(snapshots: seq<Snapshot>, r: seq<Snapshot>)
    requires FreshClaude(snapshots) && DifferentTimes(snapshots) && multiset(r) == multiset(snapshots)
    ensures FreshClaude(r) && Fold(r).observedAt == Fold(snapshots).observedAt && Fold(r).cache == Fold(snapshots).cache
    ensures forall x :: Latest(x, snapshots, FiveHourIn) ==> FiveHourIn(Fold(r)) == FiveHourIn(x)
    ensures forall x :: Latest(x, snapshots, SevenDayIn) ==> SevenDayIn(Fold(r)) == SevenDayIn(x)
  {
    FreshInAnyOrder(snapshots, r);
    ClaudeOrderExact(snapshots);
    DifferentTimesAgree(snapshots, FiveHourIn);
    DifferentTimesAgree(snapshots, SevenDayIn);
    FoldWindows(snapshots);
    FoldWindows(r);
    MaxTimeInAnyOrder(snapshots, r);
    hide LaterFold;
    assert Fold(r).cache.claude == Fold(snapshots).cache.claude;
    forall x | Latest(x, snapshots, FiveHourIn)
      ensures FiveHourIn(Fold(snapshots)) == FiveHourIn(x)
    {
      LatestWins(snapshots, x, FiveHourIn);
    }
    forall x | Latest(x, snapshots, SevenDayIn)
      ensures SevenDayIn(Fold(snapshots)) == SevenDayIn(x)
    {
      LatestWins(snapshots, x, SevenDayIn);
    }
  }

  // ----- orders that matter -----

  function CodexAt(observedAt: nat, plan: string, windows: string): Snapshot {
    Snapshot("codex", "oauth", "a", observedAt,
             CodexCache(CodexUsage(plan, if windows == "" then None else Some(Limits(windows, None)), [])), 0, 0, map[], map[])
  }

  /** A snapshot without a time lends its windows the time of the snapshot it is merged
      with, so windows observed later can lose to them. */
  lemma ZeroTimeDependsOnOrder()
    ensures var timeless, empty, timed := CodexAt(0, "", "old"), CodexAt(5, "", ""), CodexAt(3, "", "new");
            && Merged(Merged(timeless, empty), timed).cache.codex.main == Some(Limits("old", None))
            && Merged(Merged(timeless, timed), empty).cache.codex.main == Some(Limits("new", None))
  {
  }

  /** Of two snapshots at one time the second wins. */
  lemma EqualTimesDependOnOrder()
    ensures Merged(CodexAt(1, "", "x"), CodexAt(1, "", "y")).cache.codex.main != Merged(CodexAt(1, "", "y"), CodexAt(1, "", "x")).cache.codex.main
  {
  }

  /** The plan is not merged by its own time. */
  lemma PlanDependsOnOrder()
    ensures var one, two, three := CodexAt(1, "plus", ""), CodexAt(2, "pro", ""), CodexAt(3, "", "");
            && Merged(Merged(one, two), three).cache.codex.plan == "pro"
            && Merged(Merged(one, three), two).cache.codex.plan == "plus"
  {
    assert !IsBlank("plus") && !IsBlank("pro");
  }
}
