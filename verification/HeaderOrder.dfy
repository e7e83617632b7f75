/** When the order in which snapshots are merged matters, and when it does not. */
module HeaderOrder {
  import opened Wrappers
  import opened Lists
  import opened HeaderMerge

  /** What a snapshot carries of a component, if anything. */
  type Carried<!V> = Snapshot -> Option<V>

  function Stamp<V>(s: Snapshot, f: Carried<V>): Stamped<V> {
    if f(s).Some? then Some((s.observedAt, f(s).value)) else None
  }

  /** The time of the whole: the largest of the times. */
  function MaxTime(snapshots: seq<Snapshot>): nat {
    if snapshots == [] then 0
    else
      var before, last := MaxTime(snapshots[..|snapshots| - 1]), snapshots[|snapshots| - 1].observedAt;
      if before <= last then last else before
  }

  /** Component by component, the later one wins; a component at no time takes on the
      time of the whole after each merge. */
  function LiftFold<V>(snapshots: seq<Snapshot>, f: Carried<V>): Stamped<V> {
    if snapshots == [] then None
    else Lift(Later(LiftFold(snapshots[..|snapshots| - 1], f), Stamp(snapshots[|snapshots| - 1], f)), MaxTime(snapshots))
  }

  /** The same for components that keep the time they came with. */
  function LaterFold<V>(snapshots: seq<Snapshot>, f: Carried<V>): Stamped<V> {
    if snapshots == [] then None
    else Later(LaterFold(snapshots[..|snapshots| - 1], f), Stamp(snapshots[|snapshots| - 1], f))
  }

  /** It carries the component, and no snapshot carries it at a later time. */
  ghost predicate Latest<V>(x: Snapshot, snapshots: seq<Snapshot>, f: Carried<V>) {
    x in snapshots && f(x).Some? && forall y :: y in snapshots && f(y).Some? ==> y.observedAt <= x.observedAt
  }

  /** The latest carriers carry the same. */
  ghost predicate LatestAgree<V>(snapshots: seq<Snapshot>, f: Carried<V>) {
    forall x, y :: Latest(x, snapshots, f) && Latest(y, snapshots, f) ==> f(x) == f(y)
  }

  /** No carrier without a time can be lifted over the latest carrier: for that, it would
      have to carry something else, beside a snapshot that is later and carries nothing. */
  ghost predicate NoneLifted<V>(snapshots: seq<Snapshot>, f: Carried<V>) {
    forall x, z, n :: Latest(x, snapshots, f) && x.observedAt != 0 && LiftedBy(z, n, x, snapshots, f) ==> f(z) == f(x)
  }

  ghost predicate LiftedBy<V>(z: Snapshot, n: Snapshot, x: Snapshot, snapshots: seq<Snapshot>, f: Carried<V>) {
    && z in snapshots && f(z).Some? && z.observedAt == 0
    && n in snapshots && f(n).None? && x.observedAt < n.observedAt
  }

  // ----- prefixes -----

  lemma {:induction false} TimeBounds(snapshots: seq<Snapshot>)
    ensures forall s :: s in snapshots ==> s.observedAt <= MaxTime(snapshots)
    ensures snapshots != [] ==> exists s :: s in snapshots && s.observedAt == MaxTime(snapshots)
  {
    if snapshots != [] {
      var before, last := snapshots[..|snapshots| - 1], snapshots[|snapshots| - 1];
      TimeBounds(before);
      assert snapshots == before + [last];
      if MaxTime(snapshots) == last.observedAt {
        assert last in snapshots;
      } else {
        var s :| s in before && s.observedAt == MaxTime(before);
        assert s in snapshots;
      }
    }
  }

  lemma {:induction false} LatestExists<V>(snapshots: seq<Snapshot>, f: Carried<V>)
    ensures (exists x :: Latest(x, snapshots, f)) || forall s :: s in snapshots ==> f(s).None?
  {
    if snapshots != [] {
      var before, last := snapshots[..|snapshots| - 1], snapshots[|snapshots| - 1];
      LatestExists(before, f);
      assert snapshots == before + [last];
      if x :| Latest(x, before, f) {
        assert Latest(if f(last).Some? && x.observedAt <= last.observedAt then last else x, snapshots, f);
      } else if f(last).Some? {
        assert Latest(last, snapshots, f);
      }
    }
  }

  /** Whatever has been folded, the component is one of those carried, at no later time than the whole. */
  lemma {:induction false} LiftFoldIsCarried<V>(snapshots: seq<Snapshot>, f: Carried<V>)
    ensures var r := LiftFold(snapshots, f);
            && (r.None? ==> forall s :: s in snapshots ==> f(s).None?)
            && (r.Some? ==> r.value.0 <= MaxTime(snapshots) && (r.value.0 == 0 ==> MaxTime(snapshots) == 0))
            && (r.Some? ==> exists s :: s in snapshots && f(s) == Some(r.value.1))
  {
    if snapshots != [] {
      var before, last := snapshots[..|snapshots| - 1], snapshots[|snapshots| - 1];
      LiftFoldIsCarried(before, f);
      assert snapshots == before + [last];
      var r := LiftFold(snapshots, f);
      if r.Some? && f(last) != Some(r.value.1) {
        var s :| s in before && f(s) == Some(r.value.1);
        assert s in snapshots;
      }
    }
  }

  lemma {:induction false} LaterFoldIsCarried<V>(snapshots: seq<Snapshot>, f: Carried<V>)
    ensures var r := LaterFold(snapshots, f);
            && (r.None? ==> forall s :: s in snapshots ==> f(s).None?)
            && (r.Some? ==> exists x :: Latest(x, snapshots, f) && Stamp(x, f) == r)
  {
    if snapshots != [] {
      var before, last := snapshots[..|snapshots| - 1], snapshots[|snapshots| - 1];
      LaterFoldIsCarried(before, f);
      assert snapshots == before + [last];
      var r := LaterFold(snapshots, f);
      if r.Some? {
        if r == Stamp(last, f) {
          assert Latest(last, snapshots, f);
        } else {
          var x :| Latest(x, before, f) && Stamp(x, f) == LaterFold(before, f);
          assert Latest(x, snapshots, f);
        }
      }
    }
  }

  // ----- if nothing disagrees, every order gives the same -----

  /** A prefix of an order, as far as the latest carrier `x` is concerned: once a carrier
      of its time has come its value stays, and before that any other is not later. */
  ghost predicate OnTrack<V>(p: seq<Snapshot>, x: Snapshot, f: Carried<V>) {
    var r := LiftFold(p, f);
    if exists y :: y in p && f(y).Some? && y.observedAt == x.observedAt
    then r.Some? && f(x) == Some(r.value.1) && x.observedAt <= r.value.0
    else r.Some? ==> f(x) == Some(r.value.1) || r.value.0 <= x.observedAt
  }

  /** A carrier without a time, lifted to the time of the whole. */
  lemma {:induction false} LiftedOnTrack<V>(snapshots: seq<Snapshot>, p: seq<Snapshot>, x: Snapshot, z: Snapshot, f: Carried<V>)
    requires Latest(x, snapshots, f) && x.observedAt != 0 && NoneLifted(snapshots, f)
    requires (forall s :: s in p ==> s in snapshots) && z in p && f(z).Some? && z.observedAt == 0
    ensures f(z) == f(x) || MaxTime(p) <= x.observedAt
  {
    TimeBounds(p);
    if x.observedAt < MaxTime(p) {
      var n :| n in p && n.observedAt == MaxTime(p);
      assert LiftedBy(z, n, x, snapshots, f);
    }
  }

  lemma {:induction false} StepOnTrack<V>(before: seq<Snapshot>, last: Snapshot, p: seq<Snapshot>, x: Snapshot, f: Carried<V>)
    requires p == before + [last] && OnTrack(before, x, f) && x.observedAt != 0
    requires f(last).Some? ==> last.observedAt <= x.observedAt && (last.observedAt == x.observedAt ==> f(last) == f(x))
    requires f(last).Some? && last.observedAt == 0 ==> f(last) == f(x) || MaxTime(p) <= x.observedAt
    requires var r := LiftFold(before, f); r.Some? && r.value.0 == 0 ==> Some(r.value.1) == f(x) || MaxTime(p) <= x.observedAt
    ensures OnTrack(p, x, f)
  {
    hide MaxTime;
    assert p[..|p| - 1] == before;
    assert last in p && forall s :: s in before ==> s in p;
  }

  lemma {:induction false} StaysOnTrack<V>(snapshots: seq<Snapshot>, p: seq<Snapshot>, x: Snapshot, f: Carried<V>)
    requires Latest(x, snapshots, f) && x.observedAt != 0 && LatestAgree(snapshots, f) && NoneLifted(snapshots, f)
    requires forall s :: s in p ==> s in snapshots
    ensures OnTrack(p, x, f)
  {
    if p != [] {
      hide OnTrack;
      hide MaxTime;
      hide Lift;
      hide LiftFold;
      var before, last := p[..|p| - 1], p[|p| - 1];
      assert p == before + [last];
      StaysOnTrack(snapshots, before, x, f);
      LiftFoldIsCarried(before, f);
      TimeBounds(before);
      if f(last).Some? && last.observedAt == x.observedAt {
        assert Latest(last, snapshots, f);
      } else if f(last).Some? && last.observedAt == 0 {
        LiftedOnTrack(snapshots, p, x, last, f);
      }
      var r := LiftFold(before, f);
      if r.Some? && r.value.0 == 0 {
        var z :| z in before && f(z) == Some(r.value.1);
        LiftedOnTrack(snapshots, p, x, z, f);
      }
      StepOnTrack(before, last, p, x, f);
    } else {
      assert LiftFold(p, f) == None;
    }
  }

  /** Then any order ends with what the latest carriers carry. */
  lemma {:induction false} AgreedInAnyOrder<V>(snapshots: seq<Snapshot>, r: seq<Snapshot>, x: Snapshot, f: Carried<V>)
    requires Latest(x, snapshots, f) && LatestAgree(snapshots, f) && NoneLifted(snapshots, f)
    requires multiset(r) == multiset(snapshots)
    ensures ValueOf(LiftFold(r, f)) == f(x)
  {
    SameElements(snapshots, r);
    LiftFoldIsCarried(r, f);
    if x.observedAt != 0 {
      StaysOnTrack(snapshots, r, x, f);
    } else {
      hide LiftFold;
      assert x in r;
      assert LiftFold(r, f).Some?;
      var s :| s in r && f(s) == Some(LiftFold(r, f).value.1);
      assert s in snapshots;
      assert Latest(s, snapshots, f);
    }
  }

  // ----- if something disagrees, two orders differ -----

  function Carries<V>(f: Carried<V>): Snapshot -> bool {
    (s: Snapshot) => f(s).Some?
  }

  function Lacks<V>(f: Carried<V>): Snapshot -> bool {
    (s: Snapshot) => f(s).None?
  }

  lemma {:induction false} CarriersAndOthers<V>(snapshots: seq<Snapshot>, f: Carried<V>)
    ensures multiset(Select(snapshots, Carries(f)) + Select(snapshots, Lacks(f))) == multiset(snapshots)
  {
    SplitKeepsAll(snapshots, Carries(f), Lacks(f));
  }

  lemma {:induction false} Without(snapshots: seq<Snapshot>, x: Snapshot) returns (rest: seq<Snapshot>)
    requires x in snapshots
    ensures multiset(rest) + multiset([x]) == multiset(snapshots)
    ensures forall s :: s in rest ==> s in snapshots
    ensures forall s :: s in snapshots && s != x ==> s in rest
  {
    var i :| 0 <= i < |snapshots| && snapshots[i] == x;
    rest := snapshots[..i] + snapshots[i + 1..];
    assert snapshots == snapshots[..i] + [x] + snapshots[i + 1..];
  }

  /** Snapshots that carry nothing change no value. */
  lemma {:induction false} OthersKeep<V>(p: seq<Snapshot>, q: seq<Snapshot>, f: Carried<V>)
    requires forall s :: s in q ==> f(s).None?
    ensures ValueOf(LiftFold(p + q, f)) == ValueOf(LiftFold(p, f)) && ValueOf(LaterFold(p + q, f)) == ValueOf(LaterFold(p, f))
  {
    if q == [] {
      assert p + q == p;
    } else {
      var n := |q| - 1;
      OthersKeep(p, q[..n], f);
      assert (p + q)[..|p + q| - 1] == p + q[..n];
      assert q[n] in q;
    }
  }

  /** An order that ends with a given latest carrier's value: the carriers first, it the
      last of them. */
  lemma {:induction false} LatestLast<V>(snapshots: seq<Snapshot>, x: Snapshot, f: Carried<V>) returns (r: seq<Snapshot>)
    requires Latest(x, snapshots, f)
    ensures multiset(r) == multiset(snapshots) && ValueOf(LiftFold(r, f)) == f(x) && ValueOf(LaterFold(r, f)) == f(x)
  {
    var carriers, others := Select(snapshots, Carries(f)), Select(snapshots, Lacks(f));
    CarriersAndOthers(snapshots, f);
    SelectMember(snapshots, Carries(f), x);
    forall s
      ensures s in carriers <==> s in snapshots && f(s).Some?
      ensures s in others ==> f(s).None?
    {
      SelectMember(snapshots, Carries(f), s);
      SelectMember(snapshots, Lacks(f), s);
    }
    var rest := Without(carriers, x);
    var first := rest + [x];
    assert first[..|first| - 1] == rest;
    TimeBounds(rest);
    LiftFoldIsCarried(rest, f);
    LaterFoldIsCarried(rest, f);
    OthersKeep(first, others, f);
    r := first + others;
  }

  /** Nothing earlier displaces what has a time already. */
  lemma {:induction false} EarlierKeep<V>(p: seq<Snapshot>, q: seq<Snapshot>, f: Carried<V>)
    requires LiftFold(p, f).Some? && LiftFold(p, f).value.0 != 0
    requires forall s :: s in q && f(s).Some? ==> s.observedAt < LiftFold(p, f).value.0
    ensures LiftFold(p + q, f) == LiftFold(p, f)
  {
    if q == [] {
      assert p + q == p;
    } else {
      var n := |q| - 1;
      EarlierKeep(p, q[..n], f);
      assert (p + q)[..|p + q| - 1] == p + q[..n];
      assert q[n] in q;
    }
  }

  /** An order in which a carrier without a time comes first and is lifted. */
  lemma {:induction false} LiftedFirst<V>(snapshots: seq<Snapshot>, x: Snapshot, z: Snapshot, n: Snapshot, f: Carried<V>) returns (r: seq<Snapshot>)
    requires Latest(x, snapshots, f) && LiftedBy(z, n, x, snapshots, f)
    ensures multiset(r) == multiset(snapshots) && ValueOf(LiftFold(r, f)) == f(z)
  {
    var noZ := Without(snapshots, z);
    var rest := Without(noZ, n);
    var first := [z, n];
    assert first[..1] == [z] && [z][..0] == [];
    assert LiftFold([], f) == None && MaxTime([]) == 0;
    assert MaxTime([z]) == 0 && LiftFold([z], f) == Stamp(z, f);
    assert LiftFold(first, f) == Some((n.observedAt, f(z).value));
    EarlierKeep(first, rest, f);
    r := first + rest;
    assert multiset(first) == multiset([z]) + multiset([n]);
  }

  // ----- exactly when -----

  ghost predicate LiftFoldSettled<V>(snapshots: seq<Snapshot>, f: Carried<V>) {
    forall r :: multiset(r) == multiset(snapshots) ==> ValueOf(LiftFold(r, f)) == ValueOf(LiftFold(snapshots, f))
  }

  ghost predicate LaterFoldSettled<V>(snapshots: seq<Snapshot>, f: Carried<V>) {
    forall r :: multiset(r) == multiset(snapshots) ==> ValueOf(LaterFold(r, f)) == ValueOf(LaterFold(snapshots, f))
  }

  /** For any snapshots, at equal times and at none: all orders of merging give one value
      of a component exactly when its latest carriers agree, and no carrier without a time
      that disagrees can be lifted over them. */
  lemma {:induction false} LiftFoldExact<V>(snapshots: seq<Snapshot>, f: Carried<V>)
    ensures LiftFoldSettled(snapshots, f) <==> LatestAgree(snapshots, f) && NoneLifted(snapshots, f)
  {
    if LatestAgree(snapshots, f) && NoneLifted(snapshots, f) {
      forall r | multiset(r) == multiset(snapshots)
        ensures ValueOf(LiftFold(r, f)) == ValueOf(LiftFold(snapshots, f))
      {
        LatestExists(snapshots, f);
        if x :| Latest(x, snapshots, f) {
          AgreedInAnyOrder(snapshots, r, x, f);
          AgreedInAnyOrder(snapshots, snapshots, x, f);
        } else {
          SameElements(r, snapshots);
          LiftFoldIsCarried(r, f);
          LiftFoldIsCarried(snapshots, f);
        }
      }
    }
    if LiftFoldSettled(snapshots, f) {
      forall x, y | Latest(x, snapshots, f) && Latest(y, snapshots, f)
        ensures f(x) == f(y)
      {
        var r := LatestLast(snapshots, x, f);
        var s := LatestLast(snapshots, y, f);
      }
      forall x, z, n | Latest(x, snapshots, f) && x.observedAt != 0 && LiftedBy(z, n, x, snapshots, f)
        ensures f(z) == f(x)
      {
        var r := LatestLast(snapshots, x, f);
        var s := LiftedFirst(snapshots, x, z, n, f);
      }
    }
  }

  /** A component that keeps its own time has one value exactly when its latest carriers agree. */
  lemma {:induction false} LaterFoldExact<V>(snapshots: seq<Snapshot>, f: Carried<V>)
    ensures LaterFoldSettled(snapshots, f) <==> LatestAgree(snapshots, f)
  {
    if LatestAgree(snapshots, f) {
      forall r | multiset(r) == multiset(snapshots)
        ensures ValueOf(LaterFold(r, f)) == ValueOf(LaterFold(snapshots, f))
      {
        SameElements(r, snapshots);
        LaterFoldIsCarried(r, f);
        LaterFoldIsCarried(snapshots, f);
        if x :| Latest(x, r, f) && Stamp(x, f) == LaterFold(r, f) {
          assert Latest(x, snapshots, f);
        }
      }
    }
    if LaterFoldSettled(snapshots, f) {
      forall x, y | Latest(x, snapshots, f) && Latest(y, snapshots, f)
        ensures f(x) == f(y)
      {
        var r := LatestLast(snapshots, x, f);
        var s := LatestLast(snapshots, y, f);
      }
    }
  }

  /** Where every order gives the same, it is what a latest carrier carries. */
  lemma {:induction false} LatestWins<V>(snapshots: seq<Snapshot>, x: Snapshot, f: Carried<V>)
    requires Latest(x, snapshots, f) && LatestAgree(snapshots, f)
    ensures ValueOf(LaterFold(snapshots, f)) == f(x)
    ensures NoneLifted(snapshots, f) ==> ValueOf(LiftFold(snapshots, f)) == f(x)
  {
    LaterFoldIsCarried(snapshots, f);
    if NoneLifted(snapshots, f) {
      AgreedInAnyOrder(snapshots, snapshots, x, f);
    }
  }

  // ----- a component without a time of its own -----

  /** It is taken from the newer snapshot of each merge, or from the other if that one
      carries nothing. */
  function WholeFold<V>(snapshots: seq<Snapshot>, f: Carried<V>): Option<V> {
    if snapshots == [] then None
    else
      var before, last := snapshots[..|snapshots| - 1], snapshots[|snapshots| - 1];
      if MaxTime(before) <= last.observedAt then (if f(last).Some? then f(last) else WholeFold(before, f))
      else if WholeFold(before, f).Some? then WholeFold(before, f)
      else f(last)
  }

  /** It carries the component, and no snapshot is later at all. */
  ghost predicate OnTop<V>(x: Snapshot, snapshots: seq<Snapshot>, f: Carried<V>) {
    x in snapshots && f(x).Some? && x.observedAt == MaxTime(snapshots)
  }

  /** The newest snapshots that carry it agree; if none of the newest does, all agree. */
  ghost predicate NewestAgree<V>(snapshots: seq<Snapshot>, f: Carried<V>) {
    if exists t :: OnTop(t, snapshots, f) then forall x, y :: OnTop(x, snapshots, f) && OnTop(y, snapshots, f) ==> f(x) == f(y)
    else forall x, y :: x in snapshots && y in snapshots && f(x).Some? && f(y).Some? ==> f(x) == f(y)
  }

  lemma {:induction false} WholeFoldIsCarried<V>(snapshots: seq<Snapshot>, f: Carried<V>)
    ensures var r := WholeFold(snapshots, f);
            && (r.None? ==> forall s :: s in snapshots ==> f(s).None?)
            && (r.Some? ==> exists s :: s in snapshots && f(s) == r)
  {
    if snapshots != [] {
      var before, last := snapshots[..|snapshots| - 1], snapshots[|snapshots| - 1];
      WholeFoldIsCarried(before, f);
      assert snapshots == before + [last];
      hide MaxTime;
      var r := WholeFold(snapshots, f);
      if r.Some? && f(last) != r {
        var s :| s in before && f(s) == r;
        assert s in snapshots;
      }
    }
  }

  /** Once a newest carrier has come, only another of its time can take its place. */
  lemma {:induction false} TopStays<V>(p: seq<Snapshot>, top: nat, v: V, f: Carried<V>)
    requires forall s :: s in p ==> s.observedAt <= top && (f(s).Some? && s.observedAt == top ==> f(s) == Some(v))
    ensures (exists s :: s in p && f(s).Some? && s.observedAt == top) ==> WholeFold(p, f) == Some(v)
  {
    if p != [] {
      var before, last := p[..|p| - 1], p[|p| - 1];
      assert p == before + [last];
      TopStays(before, top, v, f);
      TimeBounds(before);
      hide MaxTime;
    }
  }

  lemma {:induction false} NewestInAnyOrder<V>(snapshots: seq<Snapshot>, r: seq<Snapshot>, f: Carried<V>)
    requires NewestAgree(snapshots, f) && multiset(r) == multiset(snapshots)
    ensures WholeFold(r, f) == WholeFold(snapshots, f)
  {
    SameElements(r, snapshots);
    TimeBounds(snapshots);
    if t :| OnTop(t, snapshots, f) {
      assert t in r;
      TopStays(r, MaxTime(snapshots), f(t).value, f);
      TopStays(snapshots, MaxTime(snapshots), f(t).value, f);
    } else {
      WholeFoldIsCarried(r, f);
      WholeFoldIsCarried(snapshots, f);
    }
  }

  lemma {:induction false} WithoutTopKeeps<V>(p: seq<Snapshot>, q: seq<Snapshot>, f: Carried<V>)
    requires WholeFold(p, f).Some? && forall s :: s in q ==> s.observedAt <= MaxTime(p) && (s.observedAt == MaxTime(p) ==> f(s).None?)
    ensures WholeFold(p + q, f) == WholeFold(p, f) && MaxTime(p + q) == MaxTime(p)
  {
    if q == [] {
      assert p + q == p;
    } else {
      var n := |q| - 1;
      WithoutTopKeeps(p, q[..n], f);
      assert (p + q)[..|p + q| - 1] == p + q[..n];
      assert q[n] in q;
    }
  }

  lemma WholeOfTwo<V>(x: Snapshot, l: Snapshot, f: Carried<V>)
    requires f(x).Some? && f(l).None? && x.observedAt <= l.observedAt
    ensures WholeFold([x, l], f) == f(x) && MaxTime([x, l]) == l.observedAt
  {
    assert [x, l][..1] == [x] && [x][..0] == [];
    assert MaxTime([x]) == x.observedAt && WholeFold([x], f) == f(x);
  }

  /** An order that ends with what a given snapshot carries: a newest carrier comes last;
      if there is none, any carrier can come first, before the newest snapshot. */
  lemma {:induction false} CarrierShows<V>(snapshots: seq<Snapshot>, x: Snapshot, f: Carried<V>) returns (r: seq<Snapshot>)
    requires x in snapshots && f(x).Some? && (OnTop(x, snapshots, f) || !exists t :: OnTop(t, snapshots, f))
    ensures multiset(r) == multiset(snapshots) && WholeFold(r, f) == f(x)
  {
    TimeBounds(snapshots);
    var rest := Without(snapshots, x);
    if OnTop(x, snapshots, f) {
      TimeBounds(rest);
      r := rest + [x];
      assert r[..|r| - 1] == rest;
    } else {
      var l :| l in snapshots && l.observedAt == MaxTime(snapshots);
      assert !OnTop(l, snapshots, f) && !OnTop(x, snapshots, f);
      var others := Without(rest, l);
      WholeOfTwo(x, l, f);
      forall s | s in others
        ensures s.observedAt == l.observedAt ==> f(s).None?
      {
        assert !OnTop(s, snapshots, f);
      }
      WithoutTopKeeps([x, l], others, f);
      r := [x, l] + others;
      assert multiset([x, l]) == multiset([x]) + multiset([l]);
    }
  }

  ghost predicate WholeFoldSettled<V>(snapshots: seq<Snapshot>, f: Carried<V>) {
    forall r :: multiset(r) == multiset(snapshots) ==> WholeFold(r, f) == WholeFold(snapshots, f)
  }

  /** Such a component has one value in all orders exactly when the newest carriers
      agree, or all do where none of the newest snapshots carries it. */
  lemma {:induction false} WholeFoldExact<V>(snapshots: seq<Snapshot>, f: Carried<V>)
    ensures WholeFoldSettled(snapshots, f) <==> NewestAgree(snapshots, f)
  {
    if NewestAgree(snapshots, f) {
      forall r | multiset(r) == multiset(snapshots)
        ensures WholeFold(r, f) == WholeFold(snapshots, f)
      {
        NewestInAnyOrder(snapshots, r, f);
      }
    }
    if WholeFoldSettled(snapshots, f) {
      var top := exists t :: OnTop(t, snapshots, f);
      forall x, y | x in snapshots && y in snapshots && f(x).Some? && f(y).Some? && (top ==> OnTop(x, snapshots, f) && OnTop(y, snapshots, f))
        ensures f(x) == f(y)
      {
        var r := CarrierShows(snapshots, x, f);
        var s := CarrierShows(snapshots, y, f);
      }
    }
  }
}
