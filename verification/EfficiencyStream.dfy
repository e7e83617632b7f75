/** One pass over the events in place of a join with every period and interval. */
module EfficiencyStream {
  import opened Wrappers
  import opened Lists
  import opened EfficiencyPeriods
  import opened EfficiencyWorks
  import opened EfficiencyUsage
  import opened EfficiencyCost

  /** The half-open period of a work. */
  function During(w: Work): Event -> bool {
    (e: Event) => w.start <= e.at < w.end
  }

  /** The left-open interval of a drop, inside the period. */
  function Within(w: Work, t: Transition): Event -> bool {
    (e: Event) => w.start <= e.at < w.end && t.start < e.at <= t.end
  }

  ghost predicate InOrder(events: seq<Event>) {
    forall i, j :: 0 <= i < j < |events| ==> events[i].at <= events[j].at
  }

  /** Works in line, each with its drops in line. */
  ghost predicate LinedUp(works: seq<Work>) {
    Chain(works) && forall k :: 0 <= k < |works| ==> IntervalChain(works[k].transitions)
  }

  // ----- what has been accumulated -----

  datatype Totals = Totals(cycle: Accumulator, drops: seq<Accumulator>)

  ghost predicate DropsCaught(drops: seq<Accumulator>, w: Work, read: seq<Event>, q: Projection) {
    && |drops| == |w.transitions|
    && forall m :: 0 <= m < |drops| ==> drops[m] == Fold(Select(read, Within(w, w.transitions[m])), q)
  }

  /** A work's totals are those of the naive join over the events read. */
  ghost predicate WorkCaught(t: Totals, w: Work, read: seq<Event>, q: Projection) {
    t.cycle == Fold(Select(read, During(w)), q) && DropsCaught(t.drops, w, read, q)
  }

  ghost predicate Caught(totals: seq<Totals>, works: seq<Work>, read: seq<Event>, q: Projection) {
    |totals| == |works| && forall k :: 0 <= k < |works| ==> WorkCaught(totals[k], works[k], read, q)
  }

  /** The guard has had nothing to object to. */
  ghost predicate AllGood(works: seq<Work>, read: seq<Event>) {
    forall k :: 0 <= k < |works| ==> Good(Select(read, During(works[k])))
  }

  /** Everything behind the two pointers ends before the events to come. */
  ghost predicate Behind(works: seq<Work>, wi: nat, ti: nat, at: int) {
    && wi <= |works|
    && (forall k :: 0 <= k < wi ==> works[k].end <= at)
    && (wi < |works| ==> ti <= |works[wi].transitions| && forall m :: 0 <= m < ti ==> works[wi].transitions[m].end < at)
  }

  // ----- one event -----

  lemma {:induction false} Unread(t: Totals, w: Work, read: seq<Event>, e: Event, q: Projection)
    requires WorkCaught(t, w, read, q) && !During(w)(e)
    ensures WorkCaught(t, w, read + [e], q) && Select(read + [e], During(w)) == Select(read, During(w))
  {
    hide Fold;
    assert (read + [e])[..|read|] == read;
    assert Select(read + [e], During(w)) == Select(read, During(w));
    forall m | 0 <= m < |t.drops|
      ensures Select(read + [e], Within(w, w.transitions[m])) == Select(read, Within(w, w.transitions[m]))
    {
    }
  }

  /** An event between the pointers' works belongs to none. */
  lemma {:induction false} EventOutside(totals: seq<Totals>, works: seq<Work>, read: seq<Event>, e: Event, q: Projection, wi: nat)
    requires LinedUp(works) && Caught(totals, works, read, q) && wi < |works|
    requires (forall k :: 0 <= k < wi ==> works[k].end <= e.at) && e.at < works[wi].end && e.at < works[wi].start
    ensures Caught(totals, works, read + [e], q) && (AllGood(works, read) ==> AllGood(works, read + [e]))
  {
    hide WorkCaught;
    hide Good;
    forall k | 0 <= k < |works|
      ensures WorkCaught(totals[k], works[k], read + [e], q) && Select(read + [e], During(works[k])) == Select(read, During(works[k]))
    {
      Unread(totals[k], works[k], read, e, q);
    }
  }

  /** An event in the pointer's work belongs to no other. */
  lemma {:induction false} EventInside(totals: seq<Totals>, works: seq<Work>, read: seq<Event>, e: Event, q: Projection, wi: nat, t: Totals)
    requires LinedUp(works) && Caught(totals, works, read, q) && wi < |works|
    requires (forall k :: 0 <= k < wi ==> works[k].end <= e.at) && works[wi].start <= e.at < works[wi].end
    requires WorkCaught(t, works[wi], read + [e], q)
    ensures Caught(totals[wi := t], works, read + [e], q)
    ensures AllGood(works, read) && Good(Select(read + [e], During(works[wi]))) ==> AllGood(works, read + [e])
  {
    hide WorkCaught;
    hide Good;
    forall k | 0 <= k < |works| && k != wi
      ensures WorkCaught(totals[k], works[k], read + [e], q) && Select(read + [e], During(works[k])) == Select(read, During(works[k]))
    {
      assert wi < k ==> works[wi].end <= works[k].start;
      Unread(totals[k], works[k], read, e, q);
    }
  }

  lemma {:induction false} SelectAppend<T>(s: seq<T>, x: T, p: T -> bool)
    ensures Select(s + [x], p) == Select(s, p) + if p(x) then [x] else []
  {
    assert (s + [x])[..|s|] == s;
  }

  /** Of the drops, only the pointer's can take the event. */
  lemma {:induction false} DropTakes(drops: seq<Accumulator>, w: Work, read: seq<Event>, e: Event, q: Projection, ti: nat, drops': seq<Accumulator>)
    requires IntervalChain(w.transitions) && DropsCaught(drops, w, read, q) && During(w)(e) && ti <= |drops|
    requires (forall m :: 0 <= m < ti ==> w.transitions[m].end < e.at) && (ti < |drops| ==> e.at <= w.transitions[ti].end)
    requires drops' == if ti < |drops| && w.transitions[ti].start < e.at then drops[ti := Add(drops[ti], e, q)] else drops
    ensures DropsCaught(drops', w, read + [e], q)
  {
    hide Fold;
    hide Add;
    forall m | 0 <= m < |drops|
      ensures drops'[m] == Fold(Select(read + [e], Within(w, w.transitions[m])), q)
    {
      var within := Within(w, w.transitions[m]);
      SelectAppend(read, e, within);
      assert ti < m ==> w.transitions[ti].end <= w.transitions[m].start;
      if within(e) {
        assert m == ti;
        FoldAppend(Select(read, within), e, q);
      } else {
        assert Select(read + [e], within) == Select(read, within);
        assert drops'[m] == drops[m];
      }
    }
  }

  // ----- the pass -----

  /** Moves past the works that end at or before the event. */
  method AdvanceWork(works: seq<Work>, wi: nat, ti: nat, at: int) returns (wi': nat, ti': nat)
    requires Behind(works, wi, ti, at)
    ensures Behind(works, wi', ti', at) && (wi' < |works| ==> at < works[wi'].end)
  {
    wi', ti' := wi, ti;
    while wi' < |works| && at >= works[wi'].end
      invariant Behind(works, wi', ti', at)
    {
      wi', ti' := wi' + 1, 0;
    }
  }

  /** Moves past the drops that ended before the event. */
  method AdvanceDrop(transitions: seq<Transition>, ti: nat, at: int) returns (ti': nat)
    requires ti <= |transitions| && forall m :: 0 <= m < ti ==> transitions[m].end < at
    ensures ti' <= |transitions| && (forall m :: 0 <= m < ti' ==> transitions[m].end < at)
    ensures ti' < |transitions| ==> at <= transitions[ti'].end
  {
    ti' := ti;
    while ti' < |transitions| && at > transitions[ti'].end
      invariant ti' <= |transitions| && forall m :: 0 <= m < ti' ==> transitions[m].end < at
    {
      ti' := ti' + 1;
    }
  }

  method NewTotals(works: seq<Work>, ghost q: Projection) returns (totals: seq<Totals>)
    ensures Caught(totals, works, [], q)
  {
    totals := [];
    for k := 0 to |works|
      invariant |totals| == k && forall j :: 0 <= j < k ==> totals[j] == Totals(EMPTY, seq(|works[j].transitions|, _ => EMPTY))
    {
      totals := totals + [Totals(EMPTY, seq(|works[k].transitions|, _ => EMPTY))];
    }
  }

  /** Adds the event to the pointer's work and to at most one of its drops. */
  method TakeEvent(t: Totals, w: Work, e: Event, q: Projection, ti: nat, ghost read: seq<Event>) returns (t': Totals, ti': nat)
    requires WorkCaught(t, w, read, q) && IntervalChain(w.transitions) && During(w)(e)
    requires ti <= |w.transitions| && forall m :: 0 <= m < ti ==> w.transitions[m].end < e.at
    ensures WorkCaught(t', w, read + [e], q) && t'.cycle == Add(t.cycle, e, q)
    ensures ti' <= |w.transitions| && forall m :: 0 <= m < ti' ==> w.transitions[m].end < e.at
  {
    hide Fold;
    hide Add;
    SelectAppend(read, e, During(w));
    FoldAppend(Select(read, During(w)), e, q);
    var cycle := Add(t.cycle, e, q);
    ti' := AdvanceDrop(w.transitions, ti, e.at);
    var drops := t.drops;
    if ti' < |drops| && w.transitions[ti'].start < e.at {
      drops := drops[ti' := Add(drops[ti'], e, q)];
    }
    DropTakes(t.drops, w, read, e, q, ti', drops);
    t' := Totals(cycle, drops);
  }

  /** Good events stay good when the last ones are taken away. */
  lemma {:induction false} GoodSoFar(events: seq<Event>, p: Event -> bool, n: nat)
    requires n <= |events| && Good(Select(events, p))
    ensures Good(Select(events[..n], p))
    decreases |events|
  {
    if n < |events| {
      var last := |events| - 1;
      hide Good;
      if p(events[last]) {
        GoodPrefix(Select(events[..last], p), events[last]);
      } else {
        assert Select(events, p) == Select(events[..last], p);
      }
      GoodSoFar(events[..last], p, n);
      assert events[..last][..n] == events[..n];
    } else {
      assert events[..n] == events;
    }
  }

  lemma {:induction false} NothingLeft(totals: seq<Totals>, works: seq<Work>, events: seq<Event>, n: nat, q: Projection)
    requires n < |events| && InOrder(events) && forall k :: 0 <= k < |works| ==> works[k].end <= events[n].at
    requires Caught(totals, works, events[..n], q)
    ensures Caught(totals, works, events, q) && (AllGood(works, events[..n]) ==> AllGood(works, events))
  {
    hide Good;
    forall k | 0 <= k < |works|
      ensures WorkCaught(totals[k], works[k], events, q) && Select(events, During(works[k])) == Select(events[..n], During(works[k]))
    {
      var w := works[k];
      assert forall j :: n <= j < |events| ==> events[n].at <= events[j].at;
      SelectPrefix(events, During(w), n);
      forall m | 0 <= m < |w.transitions|
        ensures Select(events, Within(w, w.transitions[m])) == Select(events[..n], Within(w, w.transitions[m]))
      {
        SelectPrefix(events, Within(w, w.transitions[m]), n);
      }
    }
  }

  /** Where the pass stands before event `n`. */
  ghost predicate Standing(totals: seq<Totals>, works: seq<Work>, events: seq<Event>, n: nat, q: Projection, wi: nat, ti: nat) {
    && n <= |events| && Caught(totals, works, events[..n], q) && (!q.keepAll ==> AllGood(works, events[..n]))
    && (n < |events| ==> Behind(works, wi, ti, events[n].at))
  }

  lemma {:induction false} StandingStep(
      totals: seq<Totals>, works: seq<Work>, events: seq<Event>, n: nat, q: Projection, wi: nat, ti: nat)
    requires n < |events| && InOrder(events) && Behind(works, wi, ti, events[n].at)
    requires Caught(totals, works, events[..n + 1], q) && (!q.keepAll ==> AllGood(works, events[..n + 1]))
    ensures Standing(totals, works, events, n + 1, q, wi, ti)
  {
    hide Caught;
    hide AllGood;
    assert n + 1 < |events| ==> events[n].at <= events[n + 1].at;
  }

  /** Reads the events once. Unless all columns are kept it gives up at the first event
      the guard objects to. */
  method Pass(works: seq<Work>, events: seq<Event>, q: Projection) returns (r: Option<seq<Totals>>)
    requires LinedUp(works) && InOrder(events)
    ensures r.None? <==> !q.keepAll && !AllGood(works, events)
    ensures r.Some? ==> Caught(r.value, works, events, q)
  {
    hide Caught;
    hide AllGood;
    var totals := NewTotals(works, q);
    var wi, ti := 0, 0;
    assert events[..0] == [];
    assert AllGood(works, []) by {
      StartsGood(works);
    }
    for n := 0 to |events|
      invariant Standing(totals, works, events, n, q, wi, ti)
    {
      var e := events[n];
      ghost var read := events[..n];
      assert events[..n + 1] == read + [e];
      wi, ti := AdvanceWork(works, wi, ti, e.at);
      if wi >= |works| {
        NothingLeft(totals, works, events, n, q);
        return Some(totals);
      }
      var w := works[wi];
      if e.at < w.start {
        EventOutside(totals, works, read, e, q, wi);
        StandingStep(totals, works, events, n, q, wi, ti);
        continue;
      }
      TotalsOf(totals, works, read, q, wi);
      var t, ti' := TakeEvent(totals[wi], w, e, q, ti, read);
      if !q.keepAll {
        GuardSees(t, w, works, read, e, q, wi);
        if !IsAdditive(e.tokens) || !IsAdditive(t.cycle.usage.tokens) {
          GuardRight(works, events, n, wi);
          return None;
        }
      }
      EventInside(totals, works, read, e, q, wi, t);
      totals := totals[wi := t];
      ti := ti';
      StandingStep(totals, works, events, n, q, wi, ti);
    }
    assert events[..|events|] == events;
    return Some(totals);
  }

  lemma {:induction false} StartsGood(works: seq<Work>)
    ensures AllGood(works, [])
  {
  }

  lemma {:induction false} TotalsOf(totals: seq<Totals>, works: seq<Work>, read: seq<Event>, q: Projection, wi: nat)
    requires Caught(totals, works, read, q) && wi < |works|
    ensures |totals| == |works| && WorkCaught(totals[wi], works[wi], read, q)
  {
  }

  lemma {:induction false} GuardSees(t: Totals, w: Work, works: seq<Work>, read: seq<Event>, e: Event, q: Projection, wi: nat)
    requires wi < |works| && works[wi] == w && AllGood(works, read) && During(w)(e) && WorkCaught(t, w, read + [e], q)
    ensures IsAdditive(e.tokens) && IsAdditive(t.cycle.usage.tokens) <==> Good(Select(read + [e], During(w)))
  {
    hide Good;
    hide Fold;
    hide IsAdditive;
    SelectAppend(read, e, During(w));
    GuardExact(Select(read, During(w)), e, q);
  }

  lemma {:induction false} GuardRight(works: seq<Work>, events: seq<Event>, n: nat, wi: nat)
    requires n < |events| && wi < |works| && !Good(Select(events[..n + 1], During(works[wi])))
    ensures !AllGood(works, events)
  {
    hide Good;
    if AllGood(works, events) {
      GoodSoFar(events, During(works[wi]), n + 1);
      assert false;
    }
  }
}
