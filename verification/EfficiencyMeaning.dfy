/** Usage totals, pricing groups and quotes, said of the events. */
module EfficiencyMeaning {
  import opened Wrappers
  import opened Lists
  import opened Varint
  import opened UsageCost
  import opened PricingRules
  import opened EfficiencyUsage
  import opened EfficiencyCost
  import PricingMeaning
  import Text

  function Failed(e: Event): bool {
    e.failed
  }

  function Succeeded(e: Event): bool {
    !e.failed
  }

  /** The tokens of all events, each kind for itself, as 64-bit numbers. */
  function TokensOf(events: seq<Event>): Tokens {
    Tokens(Wrap(SumOf(events, (e: Event) => e.tokens.input)), Wrap(SumOf(events, (e: Event) => e.tokens.output)),
           Wrap(SumOf(events, (e: Event) => e.tokens.cacheRead)), Wrap(SumOf(events, (e: Event) => e.tokens.cacheCreation)),
           Wrap(SumOf(events, (e: Event) => e.tokens.total)))
  }

  lemma WrapAgain(a: int, b: int)
    ensures Wrap(Wrap(a) + b) == Wrap(a + b)
  {
  }

  function Reasoning(e: Event): int {
    e.reasoning
  }

  /** One request for each event, failed or successful, and the sums of the tokens, all of
      them as 64-bit numbers. */
  function UsageOf(events: seq<Event>): Usage {
    Usage(Wrap(|events|), Wrap(|Select(events, Failed)|), Wrap(|Select(events, Succeeded)|), TokensOf(events), Wrap(SumOf(events, Reasoning)))
  }

  lemma {:induction false} TokensOneMore(events: seq<Event>, e: Event)
    ensures TokensOf(events + [e]) == Plus(TokensOf(events), e.tokens)
  {
    assert (events + [e])[..|events|] == events;
    WrapAgain(SumOf(events, (e: Event) => e.tokens.input), e.tokens.input);
    WrapAgain(SumOf(events, (e: Event) => e.tokens.output), e.tokens.output);
    WrapAgain(SumOf(events, (e: Event) => e.tokens.cacheRead), e.tokens.cacheRead);
    WrapAgain(SumOf(events, (e: Event) => e.tokens.cacheCreation), e.tokens.cacheCreation);
    WrapAgain(SumOf(events, (e: Event) => e.tokens.total), e.tokens.total);
    hide Wrap;
  }

  lemma {:induction false} UsageOneMore(events: seq<Event>, e: Event)
    ensures UsageOf(events + [e]) == Counted(UsageOf(events), e)
  {
    hide Wrap;
    hide TokensOf;
    hide Plus;
    assert (events + [e])[..|events|] == events;
    TokensOneMore(events, e);
    WrapAgain(|events|, 1);
    WrapAgain(|Select(events, Failed)|, 1);
    WrapAgain(|Select(events, Succeeded)|, 1);
    WrapAgain(SumOf(events, Reasoning), e.reasoning);
  }

  /** The totals of a fold are those of its events, whichever columns are read. */
  lemma {:induction false} UsageCountsEvents(events: seq<Event>, q: Projection)
    ensures Fold(events, q).usage == UsageOf(events)
  {
    if events == [] {
      assert UsageOf([]) == NO_USAGE;
    } else {
      var before, e := events[..|events| - 1], events[|events| - 1];
      assert events == before + [e];
      UsageCountsEvents(before, q);
      UsageOneMore(before, e);
      FoldAppend(before, e, q);
    }
  }

  function ReadAs(q: Projection, key: Columns): Event -> bool {
    (e: Event) => Project(q, e.columns) == key
  }

  ghost predicate GroupHolds(groups: map<Columns, Tokens>, key: Columns, mine: seq<Event>) {
    (key in groups <==> mine != []) && GroupOf(groups, key) == TokensOf(mine)
  }

  lemma {:induction false} GroupOneMore(a: Accumulator, e: Event, q: Projection, key: Columns, mine: seq<Event>)
    requires GroupHolds(a.groups, key, mine)
    ensures GroupHolds(Add(a, e, q).groups, key, mine + if ReadAs(q, key)(e) then [e] else [])
  {
    hide Project;
    hide Plus;
    hide TokensOf;
    TokensOneMore(mine, e);
    assert mine + [] == mine;
  }

  /** A group holds the tokens of the events whose columns are read as its own. */
  lemma {:induction false} GroupCountsEvents(events: seq<Event>, q: Projection, key: Columns)
    ensures GroupHolds(Fold(events, q).groups, key, Select(events, ReadAs(q, key)))
  {
    if events == [] {
      assert TokensOf([]) == NO_TOKENS;
    } else {
      var before, e := events[..|events| - 1], events[|events| - 1];
      assert events == before + [e];
      GroupCountsEvents(before, q, key);
      FoldAppend(before, e, q);
      GroupOneMore(Fold(before, q), e, q, key, Select(before, ReadAs(q, key)));
    }
  }

  /** What the prices are looked up by: the columns and the account, without surrounding
      blanks, and never without group or model. */
  lemma SubjectOf(c: Columns, authIndex: string)
    ensures var d := Subject(c, authIndex);
            && d.apiGroupKey == (if Text.Trim(c.apiGroupKey) == "" then "unknown" else Text.Trim(c.apiGroupKey))
            && d.model == (if Text.Trim(c.model) == "" then "unknown" else Text.Trim(c.model))
            && d.authIndex == Text.Trim(authIndex) && d.modelAlias == Text.Trim(c.modelAlias)
            && d.serviceTier == Text.Trim(c.serviceTier) && d.responseServiceTier == Text.Trim(c.responseServiceTier)
            && d.reasoningEffort == Text.Trim(c.reasoningEffort) && d.endpoint == Text.Trim(c.endpoint)
            && d.executorType == Text.Trim(c.executorType)
  {
  }

  /** The quote of additive counts with a price: input past the cache, cache reads, cache
      writes and output, each at its own price per million, times the multipliers. */
  lemma {:induction false} QuotePriced(s: Snapshot, d: Dimensions, t: Tokens, m: CompiledModel)
    requires PricingMeaning.PricedBy(s, d) == Some(m) && IsAdditive(t)
    ensures var q, f := QuoteAt(s, d, t), PricingMeaning.Factor(m, d);
            && q.available
            && q.cost * 1_000_000.0 ==
                 Times(Times((t.input - t.cacheRead - t.cacheCreation) as real, m.prices.prompt), f)
                 + Times(Times(t.cacheRead as real, m.prices.cacheRead), f)
                 + Times(Times(t.cacheCreation as real, m.prices.cacheWrite), f)
                 + Times(Times(t.output as real, m.prices.completion), f)
  {
    hide Calculate;
    hide Times;
    hide PricingMeaning.Factor;
    PricingMeaning.UsagePriced(s, d, CostInput(t), m);
  }

  /** Without a price it costs nothing, and is complete only if nothing was used. */
  lemma QuoteUnpriced(s: Snapshot, d: Dimensions, t: Tokens)
    requires PricingMeaning.PricedBy(s, d).None?
    ensures QuoteAt(s, d, t) == Quote(0.0, t.input <= 0 && t.output <= 0 && t.cacheRead <= 0 && t.cacheCreation <= 0 && t.total <= 0)
  {
  }

  /** What the guard asks of an event, and of the totals so far. */
  lemma AdditiveMeans(t: Tokens)
    ensures IsAdditive(t) <==>
              && 0 <= t.cacheRead && 0 <= t.cacheCreation && 0 <= t.output && 0 <= t.total
              && t.cacheRead + t.cacheCreation <= t.input
  {
  }
}
