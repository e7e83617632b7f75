/** Usage totals and pricing groups accumulated event by event. */
module EfficiencyUsage {
  import opened Varint
  import opened UsageCost
  import opened PricingRules

  datatype Columns = Columns(
    apiGroupKey: string, model: string, modelAlias: string, serviceTier: string,
    responseServiceTier: string, reasoningEffort: string, endpoint: string, executorType: string)

  /** The counts the guard and the prices look at. */
  datatype Tokens = Tokens(input: Int64, output: Int64, cacheRead: Int64, cacheCreation: Int64, total: Int64)

  datatype Event = Event(columns: Columns, at: int, failed: bool, tokens: Tokens, reasoning: Int64)

  datatype Usage = Usage(requests: Int64, failed: Int64, successful: Int64, tokens: Tokens, reasoning: Int64)

  const NO_TOKENS := Tokens(0, 0, 0, 0, 0)
  const NO_USAGE := Usage(0, 0, 0, NO_TOKENS, 0)

  function Plus(a: Tokens, b: Tokens): Tokens {
    Tokens(Wrap(a.input + b.input), Wrap(a.output + b.output), Wrap(a.cacheRead + b.cacheRead),
           Wrap(a.cacheCreation + b.cacheCreation), Wrap(a.total + b.total))
  }

  function Counted(u: Usage, e: Event): Usage {
    Usage(Wrap(u.requests + 1), if e.failed then Wrap(u.failed + 1) else u.failed,
          if e.failed then u.successful else Wrap(u.successful + 1), Plus(u.tokens, e.tokens), Wrap(u.reasoning + e.reasoning))
  }

  // ----- the pricing projection -----

  /** Which columns are read: all, or the model columns and the active ones. */
  datatype Projection = Projection(active: set<Field>, keepAll: bool)

  function Read(q: Projection, f: Field, value: string): string {
    if q.keepAll || f in q.active then value else ""
  }

  function Project(q: Projection, c: Columns): Columns {
    Columns(Read(q, ApiGroupKey, c.apiGroupKey), c.model, c.modelAlias, Read(q, ServiceTier, c.serviceTier),
            Read(q, ResponseServiceTier, c.responseServiceTier), Read(q, ReasoningEffort, c.reasoningEffort),
            Read(q, Endpoint, c.endpoint), Read(q, ExecutorType, c.executorType))
  }

  // ----- accumulators -----

  datatype Accumulator = Accumulator(usage: Usage, groups: map<Columns, Tokens>)

  const EMPTY := Accumulator(NO_USAGE, map[])

  function GroupOf(groups: map<Columns, Tokens>, key: Columns): Tokens {
    if key in groups then groups[key] else NO_TOKENS
  }

  function Add(a: Accumulator, e: Event, q: Projection): Accumulator {
    var key := Project(q, e.columns);
    Accumulator(Counted(a.usage, e), a.groups[key := Plus(GroupOf(a.groups, key), e.tokens)])
  }

  function Fold(events: seq<Event>, q: Projection): Accumulator {
    if events == [] then EMPTY else Add(Fold(events[..|events| - 1], q), events[|events| - 1], q)
  }

  lemma FoldAppend(events: seq<Event>, e: Event, q: Projection)
    ensures Fold(events + [e], q) == Add(Fold(events, q), e, q)
  {
    assert (events + [e])[..|events|] == events;
  }

  /** The totals do not depend on the columns read. */
  lemma {:induction false} SameUsage(events: seq<Event>, q: Projection, r: Projection)
    ensures Fold(events, q).usage == Fold(events, r).usage
  {
    if events != [] {
      SameUsage(events[..|events| - 1], q, r);
    }
  }

  // ----- the guard -----

  predicate IsAdditive(t: Tokens) {
    Additive(t.input, t.output, t.cacheRead, t.cacheCreation, t.total)
  }

  /** Unbounded totals. */
  datatype Exact = Exact(input: int, output: int, cacheRead: int, cacheCreation: int, total: int)

  function Totals(events: seq<Event>): Exact {
    if events == [] then Exact(0, 0, 0, 0, 0)
    else
      var before, t := Totals(events[..|events| - 1]), events[|events| - 1].tokens;
      Exact(before.input + t.input, before.output + t.output, before.cacheRead + t.cacheRead,
            before.cacheCreation + t.cacheCreation, before.total + t.total)
  }

  predicate Fits(x: Exact) {
    x.input <= MAX_INT64 && x.output <= MAX_INT64 && x.cacheRead <= MAX_INT64 && x.cacheCreation <= MAX_INT64 && x.total <= MAX_INT64
  }

  /** Every event is additive and no total leaves the 64-bit range. */
  ghost predicate Good(events: seq<Event>) {
    (forall i :: 0 <= i < |events| ==> IsAdditive(events[i].tokens)) && Fits(Totals(events))
  }

  ghost predicate Counts(t: Tokens, x: Exact) {
    && t.input == x.input && t.output == x.output && t.cacheRead == x.cacheRead
    && t.cacheCreation == x.cacheCreation && t.total == x.total
  }

  lemma {:induction false} GoodPrefix(events: seq<Event>, e: Event)
    requires Good(events + [e])
    ensures Good(events) && IsAdditive(e.tokens)
  {
    var more := events + [e];
    assert more[..|events|] == events && more[|events|] == e;
    assert forall i :: 0 <= i < |events| ==> more[i] == events[i];
  }

  lemma {:induction false} TotalsAppend(events: seq<Event>, e: Event)
    ensures var x, y := Totals(events), Totals(events + [e]);
            y == Exact(x.input + e.tokens.input, x.output + e.tokens.output, x.cacheRead + e.tokens.cacheRead,
                       x.cacheCreation + e.tokens.cacheCreation, x.total + e.tokens.total)
  {
    assert (events + [e])[..|events|] == events;
  }

  /** As long as the guard has nothing to object to, the running totals are exact. */
  lemma {:induction false} GoodTotals(events: seq<Event>, q: Projection)
    requires Good(events)
    ensures Counts(Fold(events, q).usage.tokens, Totals(events)) && IsAdditive(Fold(events, q).usage.tokens)
  {
    if events != [] {
      var before, e := events[..|events| - 1], events[|events| - 1];
      assert events == before + [e];
      GoodPrefix(before, e);
      GoodTotals(before, q);
    }
  }

  /** A sum of two counts wraps to a negative number or not at all. */
  lemma WrapOnce(a: int, b: int)
    requires 0 <= a <= MAX_INT64 && 0 <= b <= MAX_INT64
    ensures Wrap(a + b) == if a + b <= MAX_INT64 then a + b else a + b - TWO_64
  {
  }

  lemma {:induction false} PlusFits(a: Tokens, b: Tokens)
    requires IsAdditive(a) && IsAdditive(b)
    ensures IsAdditive(Plus(a, b)) <==> a.input + b.input <= MAX_INT64 && a.output + b.output <= MAX_INT64 && a.total + b.total <= MAX_INT64
  {
    WrapOnce(a.input, b.input);
    WrapOnce(a.output, b.output);
    WrapOnce(a.cacheRead, b.cacheRead);
    WrapOnce(a.cacheCreation, b.cacheCreation);
    WrapOnce(a.total, b.total);
  }

  lemma {:induction false} GoodAppend(events: seq<Event>, e: Event)
    requires Good(events)
    ensures Good(events + [e]) <==> IsAdditive(e.tokens) && Fits(Totals(events + [e]))
  {
    var more := events + [e];
    assert more[|events|] == e && forall i :: 0 <= i < |events| ==> more[i] == events[i];
    hide IsAdditive;
    hide Totals;
    hide Fits;
  }

  /** The check made after an event finds the first wrap-around of any total it looks
      at: it passes exactly when everything so far is additive and fits. */
  lemma {:induction false} GuardExact(events: seq<Event>, e: Event, q: Projection)
    requires Good(events)
    ensures IsAdditive(e.tokens) && IsAdditive(Fold(events + [e], q).usage.tokens) <==> Good(events + [e])
  {
    GoodAppend(events, e);
    GoodTotals(events, q);
    FoldAppend(events, e, q);
    TotalsAppend(events, e);
    assert Fits(Totals(events));
    hide Good;
    hide Fold;
    hide Totals;
    hide IsAdditive;
    if IsAdditive(e.tokens) {
      PlusFits(Fold(events, q).usage.tokens, e.tokens);
    }
  }

  /** Fewer events are no worse. */
  lemma {:induction false} GoodSelection(events: seq<Event>, some: seq<Event>, e: Event, taken: bool)
    requires Good(events + [e]) && Good(some) && Below(Totals(some), Totals(events))
    ensures taken ==> Good(some + [e]) && Below(Totals(some + [e]), Totals(events + [e]))
    ensures Below(Totals(some), Totals(events + [e]))
  {
    GoodPrefix(events, e);
    TotalsAppend(events, e);
    TotalsAppend(some, e);
  }

  ghost predicate Below(x: Exact, y: Exact) {
    x.input <= y.input && x.output <= y.output && x.cacheRead <= y.cacheRead && x.cacheCreation <= y.cacheCreation && x.total <= y.total
  }
}
