/** A batch said in accounts, moments and intervals: the order in which observations are
    judged and entries are listed, and which tails are written. */
module BatchMeaning {
  import opened Wrappers
  import opened Lists
  import opened HistoryTrack
  import opened HistoryScheduler
  import opened HistoryBatch
  import HistoryRuns
  import Text

  // ----- orders -----

  function OfAt(k: Key, last: int): Observation -> bool {
    (o: Observation) => o.key == k && o.last == last
  }

  lemma SameWindow(a: Observation, b: Observation)
    requires a.key == b.key
    ensures Text.ByRank(CandidateRank)(b, a) <==> b.last < a.last
  {
    assert CandidateRank(a).names == CandidateRank(b).names;
    assert Text.ByRank(CandidateRank)(b, a) == Text.RankBefore(CandidateRank(b), CandidateRank(a));
  }

  /** The observations of a window are judged in the order of their moments, those of one
      moment in the order they came in. */
  lemma {:induction false} JudgedInOrder(candidates: seq<Observation>, sorted: seq<Observation>)
    requires HistoryRuns.Sorted(candidates, sorted)
    ensures forall i, j :: 0 <= i < j < |sorted| && sorted[i].key == sorted[j].key ==> sorted[i].last <= sorted[j].last
    ensures forall k, last :: Select(sorted, OfAt(k, last)) == Select(candidates, OfAt(k, last))
  {
    hide SortedBy;
    hide Select;
    hide StrictOrder;
    var less := Text.ByRank(CandidateRank);
    Text.RankIsOrder(CandidateRank, Elements(candidates));
    SortedBySorts(candidates, less, Elements(candidates));
    forall i, j | 0 <= i < j < |sorted| && sorted[i].key == sorted[j].key
      ensures sorted[i].last <= sorted[j].last
    {
      SameWindow(sorted[i], sorted[j]);
    }
    forall k, last
      ensures Select(sorted, OfAt(k, last)) == Select(candidates, OfAt(k, last))
    {
      TiesInOrder(candidates, OfAt(k, last), k, last);
      SortKeepsOrder(candidates, less, OfAt(k, last), Elements(candidates));
    }
  }

  lemma {:induction false} TiesInOrder(candidates: seq<Observation>, p: Observation -> bool, k: Key, last: int)
    requires p == OfAt(k, last)
    ensures Lists.Sorted(Select(candidates, p), Text.ByRank(CandidateRank))
  {
    hide Select;
    var mine := Select(candidates, p);
    forall i, j | 0 <= i < j < |mine|
      ensures !Text.ByRank(CandidateRank)(mine[j], mine[i])
    {
      SelectMember(candidates, p, mine[i]);
      SelectMember(candidates, p, mine[j]);
      SameWindow(mine[i], mine[j]);
    }
  }

  /** The writer's list goes by provider, account and role, and by time within a window. */
  lemma {:induction false} ListedInOrder(pending: seq<Observation>, i: nat, j: nat)
    requires i < j < |SortedBy(pending, Text.ByRank(EntryRank))|
    ensures var list := SortedBy(pending, Text.ByRank(EntryRank));
            var a, b := list[i], list[j];
            var names := Text.CompareNames([a.key.provider, a.key.authIndex, a.key.role], [b.key.provider, b.key.authIndex, b.key.role]);
            names < 0 || (names == 0 && a.first <= b.first)
  {
    hide SortedBy;
    hide StrictOrder;
    hide Text.CompareNames;
    Text.RankIsOrder(EntryRank, Elements(pending));
    SortedBySorts(pending, Text.ByRank(EntryRank), Elements(pending));
    var list := SortedBy(pending, Text.ByRank(EntryRank));
    assert !Text.ByRank(EntryRank)(list[j], list[i]);
    assert Text.ByRank(EntryRank)(list[j], list[i]) == Text.RankBefore(EntryRank(list[j]), EntryRank(list[i]));
    Text.NamesFlip(EntryRank(list[i]).names, EntryRank(list[j]).names);
  }

  // ----- which tails are written -----

  /** Answers for one account at one moment. */
  predicate OneAnswer(a: Key, x: int, b: Key, y: int) {
    a.provider == b.provider && a.authIndex == b.authIndex && x == y
  }

  /** A candidate of the same answer made or changed an entry. */
  ghost predicate AnswerWritten(begin: Tracks, sorted: seq<Observation>, load: Load, now: int, k: Key, last: int) {
    exists n :: WrittenAs(begin, sorted, load, now, n, k, last)
  }

  ghost predicate WrittenAs(begin: Tracks, sorted: seq<Observation>, load: Load, now: int, n: int, k: Key, last: int) {
    && 0 <= n < |sorted| && OneAnswer(sorted[n].key, sorted[n].last, k, last)
    && var t := AfterOf(begin, sorted[..n], load, now)(sorted[n].key); Receive(t, sorted[n], load, now).mine != t.mine
  }

  /** The tail waits no longer: it was marked, an entry of its answer was written, or its
      window was last written an interval ago, or never. */
  ghost predicate WaitsNoLonger(begin: Tracks, sorted: seq<Observation>, load: Load, now: int, interval: nat, k: Key) {
    var t := AfterOf(begin, sorted, load, now)(k);
    && t.stable.Some?
    && (|| t.stable.value.immediate || AnswerWritten(begin, sorted, load, now, k, t.stable.value.observation.last)
        || t.current.None? || t.current.value.materializedAt == 0 || t.current.value.materializedAt + interval <= now)
  }

  lemma {:induction false} CohortIsAnswer(begin: Tracks, sorted: seq<Observation>, load: Load, now: int, k: Key, last: int)
    ensures CohortWritten(begin, sorted, load, now, Cohort(k.provider, k.authIndex, last)) <==> AnswerWritten(begin, sorted, load, now, k, last)
  {
    hide AfterOf;
    hide Receive;
    var c := Cohort(k.provider, k.authIndex, last);
    if CohortWritten(begin, sorted, load, now, c) {
      var n :| WritesAt(begin, sorted, n, load, now) && CandidateCohort(sorted[n]) == c;
      assert WrittenAs(begin, sorted, load, now, n, k, last);
    }
    if AnswerWritten(begin, sorted, load, now, k, last) {
      var n :| WrittenAs(begin, sorted, load, now, n, k, last);
      assert WritesAt(begin, sorted, n, load, now) && CandidateCohort(sorted[n]) == c;
    }
  }

  lemma {:induction false} DueMeans(begin: Tracks, sorted: seq<Observation>, load: Load, now: int, interval: nat, k: Key)
    ensures HistoryRuns.TailDue(begin, sorted, load, now, interval, k) <==> WaitsNoLonger(begin, sorted, load, now, interval, k)
  {
    hide AfterOf;
    hide CohortWritten;
    hide AnswerWritten;
    var t := AfterOf(begin, sorted, load, now)(k);
    if t.stable.Some? {
      CohortIsAnswer(begin, sorted, load, now, k, t.stable.value.observation.last);
    }
  }

  /** A tail is written out exactly when it, or the other tail of its answer, waits no
      longer, or everything is written out. */
  lemma {:induction false} WrittenOutMeans(begin: Tracks, sorted: seq<Observation>, load: Load, now: int, interval: nat, all: bool, k: Key)
    ensures HistoryRuns.TailWrittenOut(begin, sorted, load, now, interval, all, k) <==>
              && AfterOf(begin, sorted, load, now)(k).stable.Some?
              && exists j :: OutWith(begin, sorted, load, now, interval, all, j, k, AfterOf(begin, sorted, load, now)(k).stable.value.observation.last)
  {
    hide AfterOf;
    hide HistoryRuns.TailDue;
    hide WaitsNoLonger;
    forall j
      ensures HistoryRuns.TailDue(begin, sorted, load, now, interval, j) <==> WaitsNoLonger(begin, sorted, load, now, interval, j)
    {
      DueMeans(begin, sorted, load, now, interval, j);
    }
    var after := AfterOf(begin, sorted, load, now);
    if HistoryRuns.TailWrittenOut(begin, sorted, load, now, interval, all, k) {
      var j :| after(j).stable.Some? && CohortOf(j, after(j).stable.value) == CohortOf(k, after(k).stable.value)
               && (all || HistoryRuns.TailDue(begin, sorted, load, now, interval, j));
      assert OutWith(begin, sorted, load, now, interval, all, j, k, after(k).stable.value.observation.last);
    }
    if after(k).stable.Some? && exists j :: OutWith(begin, sorted, load, now, interval, all, j, k, after(k).stable.value.observation.last) {
      var j :| OutWith(begin, sorted, load, now, interval, all, j, k, after(k).stable.value.observation.last);
      assert CohortOf(j, after(j).stable.value) == CohortOf(k, after(k).stable.value);
    }
  }

  ghost predicate OutWith(begin: Tracks, sorted: seq<Observation>, load: Load, now: int, interval: nat, all: bool, j: Key, k: Key, last: int) {
    var t := AfterOf(begin, sorted, load, now)(j);
    && t.stable.Some? && OneAnswer(j, t.stable.value.observation.last, k, last)
    && (all || WaitsNoLonger(begin, sorted, load, now, interval, j))
  }
}
