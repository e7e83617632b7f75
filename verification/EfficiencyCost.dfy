/** Pricing the groups: which columns were read makes no difference to the cost. */
module EfficiencyCost {
  import opened Wrappers
  import opened Varint
  import opened UsageCost
  import opened PricingRules
  import opened EfficiencyUsage
  import Choice
  import PricingCatalogue
  import RealSums

  function Subject(c: Columns, authIndex: string): Dimensions {
    Canonical(Dimensions(c.apiGroupKey, c.model, authIndex, c.modelAlias, c.serviceTier, c.responseServiceTier,
                         c.reasoningEffort, c.endpoint, c.executorType))
  }

  function CostInput(t: Tokens): TokenInput {
    TokenInput(t.input, t.output, t.cacheRead, t.cacheCreation)
  }

  /** The price catalogue and the account the groups are priced for. */
  datatype Pricing = Pricing(snapshot: Snapshot, authIndex: string)

  datatype Quote = Quote(cost: real, available: bool)

  function Both(a: Quote, b: Quote): Quote {
    Quote(a.cost + b.cost, a.available && b.available)
  }

  /** One group's cost. Tokens without a matching price make it incomplete, even those
      counted in the total only. */
  function QuoteAt(s: Snapshot, d: Dimensions, t: Tokens): Quote {
    var r := Calculate(s, d, CostInput(t));
    Quote(r.cost.total, r.available && !(t.total > 0 && !r.matched))
  }

  function QuoteFor(p: Pricing, key: Columns, t: Tokens): Quote {
    QuoteAt(p.snapshot, Subject(key, p.authIndex), t)
  }

  // ----- the columns that are not read -----

  /** No model is nameless, and the rules look at active fields only. */
  ghost predicate WellFormed(s: Snapshot) {
    "" !in s.models && forall name :: name in s.models ==> RulesActive(s.models[name].rules, s.active)
  }

  ghost predicate RulesActive(rules: seq<Rule>, active: set<Field>) {
    forall i :: 0 <= i < |rules| ==> rules[i].field in active
  }

  /** Every catalogue that compiles is of this form. */
  lemma {:induction false} CompiledIsWellFormed(s: Snapshot, configs: seq<ModelConfig>)
    requires PricingCatalogue.Accepted(PricingCatalogue.Entries(configs)) && PricingCatalogue.Holds(s, PricingCatalogue.Entries(configs))
    ensures WellFormed(s)
  {
    var entries := PricingCatalogue.Entries(configs);
    if "" in s.models {
      var c := PricingCatalogue.HeldModel(s, configs, "");
      assert false;
    }
    forall name, i | name in s.models && 0 <= i < |s.models[name].rules|
      ensures s.models[name].rules[i].field in s.active
    {
      var k :| 0 <= k < |entries| && name == entries[k].value.name;
      assert s.models[name].rules[i].field in PricingCatalogue.Fields(entries[k].value.model.rules);
    }
  }

  ghost predicate AgreeOn(a: Dimensions, b: Dimensions, active: set<Field>) {
    forall f :: f in active ==> a.Value(f) == b.Value(f)
  }

  lemma {:induction false} SameMultiplier(rules: seq<Rule>, active: set<Field>, a: Dimensions, b: Dimensions, product: real)
    requires RulesActive(rules, active) && AgreeOn(a, b, active)
    ensures MultiplierFrom(rules, a, product) == MultiplierFrom(rules, b, product)
    decreases |rules|
  {
    if rules != [] {
      assert rules[0].field in active;
      assert Matches(rules[0], a) == Matches(rules[0], b);
      SameMultiplier(rules[1..], active, a, b, product);
      SameMultiplier(rules[1..], active, a, b, Times(product, rules[0].multiplier));
    }
  }

  lemma ProjectedAgree(q: Projection, c: Columns, authIndex: string, f: Field)
    requires f in q.active
    ensures Subject(Project(q, c), authIndex).Value(f) == Subject(c, authIndex).Value(f)
  {
  }

  /** A usage costs the same whether all columns are read or the active ones only. */
  lemma ProjectionKeepsPrice(p: Pricing, q: Projection, c: Columns, t: Tokens)
    requires WellFormed(p.snapshot) && q.active == p.snapshot.active
    ensures QuoteFor(p, Project(q, c), t) == QuoteFor(p, c, t)
  {
    var s, a, b := p.snapshot, Subject(Project(q, c), p.authIndex), Subject(c, p.authIndex);
    forall f | f in s.active
      ensures a.Value(f) == b.Value(f)
    {
      ProjectedAgree(q, c, p.authIndex, f);
    }
    assert a.model == b.model && a.modelAlias == b.modelAlias;
    match MatchModel(s, a)
    case None =>
    case Some(m) =>
      SameMultiplier(m.rules, s.active, a, b, 1.0);
  }

  // ----- one group -----

  lemma PlusIsTogether(a: Tokens, b: Tokens)
    requires IsAdditive(a) && IsAdditive(b) && IsAdditive(Plus(a, b))
    ensures CostInput(Plus(a, b)) == Together(CostInput(a), CostInput(b)) && Plus(a, b).total == a.total + b.total
    ensures AdditiveInput(CostInput(a)) && AdditiveInput(CostInput(b)) && AdditiveInput(CostInput(Plus(a, b)))
  {
    PlusFits(a, b);
    WrapOnce(a.input, b.input);
    WrapOnce(a.output, b.output);
    WrapOnce(a.cacheRead, b.cacheRead);
    WrapOnce(a.cacheCreation, b.cacheCreation);
    WrapOnce(a.total, b.total);
  }

  /** The cost of a matched model's usage. */
  function MatchedCost(m: CompiledModel, d: Dimensions, t: Tokens): real {
    Times(Cost(CostInput(t), m.prices).total, if m.prices.multiplier == Some(0.0) then 1.0 else RuleMultiplier(m.rules, d))
  }

  lemma QuoteMatched(s: Snapshot, d: Dimensions, t: Tokens, m: CompiledModel)
    requires MatchModel(s, d) == Some(m)
    ensures QuoteAt(s, d, t) == Quote(MatchedCost(m, d, t), true)
  {
  }

  lemma MatchedCostAdds(m: CompiledModel, d: Dimensions, a: Tokens, b: Tokens, c: Tokens)
    requires IsAdditive(a) && IsAdditive(b) && IsAdditive(c) && c == Plus(a, b)
    ensures MatchedCost(m, d, c) == MatchedCost(m, d, a) + MatchedCost(m, d, b)
  {
    PlusIsTogether(a, b);
    CostAdds(CostInput(a), CostInput(b), m.prices);
    Distribute(Cost(CostInput(a), m.prices).total, Cost(CostInput(b), m.prices).total,
               if m.prices.multiplier == Some(0.0) then 1.0 else RuleMultiplier(m.rules, d));
  }

  lemma QuoteUnmatched(s: Snapshot, d: Dimensions, t: Tokens)
    requires MatchModel(s, d) == None
    ensures QuoteAt(s, d, t) == Quote(0.0, !(RequiresPricing(CostInput(t)) || t.total > 0))
  {
  }

  lemma QuoteAdds(s: Snapshot, d: Dimensions, a: Tokens, b: Tokens, c: Tokens)
    requires IsAdditive(a) && IsAdditive(b) && IsAdditive(c) && c == Plus(a, b)
    ensures QuoteAt(s, d, c) == Both(QuoteAt(s, d, a), QuoteAt(s, d, b))
  {
    hide QuoteAt, MatchedCost;
    match MatchModel(s, d)
    case None =>
      QuoteUnmatched(s, d, a);
      QuoteUnmatched(s, d, b);
      QuoteUnmatched(s, d, c);
      PlusIsTogether(a, b);
    case Some(m) =>
      QuoteMatched(s, d, a, m);
      QuoteMatched(s, d, b, m);
      QuoteMatched(s, d, c, m);
      MatchedCostAdds(m, d, a, b, c);
  }

  lemma ZeroTimes(a: real)
    ensures Times(0.0, a) == 0.0
  {
  }

  lemma NoTokensNoCost(p: Prices)
    ensures Cost(CostInput(NO_TOKENS), p).total == 0.0
  {
    assert Clamp(CostInput(NO_TOKENS)) == TokenInput(0, 0, 0, 0);
    ZeroTimes(p.prompt);
    ZeroTimes(p.completion);
    ZeroTimes(p.cacheRead);
    ZeroTimes(p.cacheWrite);
    ZeroTimes(ModelMultiplier(p));
  }

  lemma NothingIsFree(s: Snapshot, d: Dimensions)
    ensures QuoteAt(s, d, NO_TOKENS) == Quote(0.0, true)
  {
    match MatchModel(s, d)
    case None =>
    case Some(m) =>
      NoTokensNoCost(m.prices);
      ZeroTimes(RuleMultiplier(m.rules, d));
  }

  // ----- all groups -----

  function Costs<K>(quotes: map<K, Quote>): map<K, real> {
    map k | k in quotes :: quotes[k].cost
  }

  /** The sum of the quotes, complete if every one of them is. */
  ghost function TotalQuote<K(!new)>(quotes: map<K, Quote>): Quote {
    Quote(RealSums.Sum(Costs(quotes)), forall k :: k in quotes ==> quotes[k].available)
  }

  lemma NoQuotes<K(!new)>(quotes: map<K, Quote>)
    requires quotes.Keys == {}
    ensures TotalQuote(quotes) == Quote(0.0, true)
  {
    assert Costs(quotes).Keys == {};
  }

  lemma TakeQuote<K(!new)>(quotes: map<K, Quote>, k: K)
    requires k in quotes
    ensures TotalQuote(quotes) == Both(quotes[k], TotalQuote(quotes - {k}))
  {
    RealSums.SumRemove(Costs(quotes), k);
    assert Costs(quotes) - {k} == Costs(quotes - {k});
    assert forall j :: j in quotes && j != k ==> j in quotes - {k} && (quotes - {k})[j] == quotes[j];
  }

  lemma QuoteGrows<K(!new)>(quotes: map<K, Quote>, k: K, was: Quote, more: Quote)
    requires was == if k in quotes then quotes[k] else Quote(0.0, true)
    ensures TotalQuote(quotes[k := Both(was, more)]) == Both(TotalQuote(quotes), more)
  {
    var after := quotes[k := Both(was, more)];
    TakeQuote(after, k);
    if k in quotes {
      TakeQuote(quotes, k);
      assert after - {k} == quotes - {k};
    } else {
      assert after - {k} == quotes;
    }
  }

  /** How a group is priced. */
  type Price<!K> = (K, Tokens) -> Quote

  function PriceOf(p: Pricing): Price<Columns> {
    (key, t) => QuoteFor(p, key, t)
  }

  function GroupQuotes<K>(price: Price<K>, groups: map<K, Tokens>): map<K, Quote> {
    map key | key in groups :: price(key, groups[key])
  }

  /** The finalizing loop over the groups, in any order. */
  method Finalize<K(!new, ==)>(price: Price<K>, groups: map<K, Tokens>) returns (q: Quote)
    ensures q == TotalQuote(GroupQuotes(price, groups))
  {
    q := Quote(0.0, true);
    var left := groups.Keys;
    ghost var quotes := GroupQuotes(price, groups);
    while left != {}
      invariant left <= groups.Keys && quotes.Keys == left
      invariant forall key :: key in left ==> quotes[key] == price(key, groups[key])
      invariant Both(q, TotalQuote(quotes)) == TotalQuote(GroupQuotes(price, groups))
      decreases |left|
    {
      var key := Choice.Pick(left);
      TakeQuote(quotes, key);
      q := Both(q, price(key, groups[key]));
      left := left - {key};
      quotes := quotes - {key};
    }
    NoQuotes(quotes);
  }

  lemma GroupGrows<K(!new)>(price: Price<K>, groups: map<K, Tokens>, key: K, was: Tokens, t: Tokens, now: Tokens)
    requires was == if key in groups then groups[key] else NO_TOKENS
    requires price(key, now) == Both(price(key, was), price(key, t)) && price(key, NO_TOKENS) == Quote(0.0, true)
    ensures TotalQuote(GroupQuotes(price, groups[key := now])) == Both(TotalQuote(GroupQuotes(price, groups)), price(key, t))
  {
    var quotes := GroupQuotes(price, groups);
    QuoteGrows(quotes, key, price(key, was), price(key, t));
    assert GroupQuotes(price, groups[key := now]) == quotes[key := price(key, now)];
  }

  /** Prices that add up over additive counts. */
  ghost predicate AddsUp<K(!new)>(price: Price<K>) {
    && (forall key :: price(key, NO_TOKENS) == Quote(0.0, true))
    && forall key, a, b :: IsAdditive(a) && IsAdditive(b) && IsAdditive(Plus(a, b)) ==> price(key, Plus(a, b)) == Both(price(key, a), price(key, b))
  }

  lemma PricesAddUp(p: Pricing)
    ensures AddsUp(PriceOf(p))
  {
    hide QuoteAt;
    forall key
      ensures PriceOf(p)(key, NO_TOKENS) == Quote(0.0, true)
    {
      NothingIsFree(p.snapshot, Subject(key, p.authIndex));
    }
    forall key, a, b | IsAdditive(a) && IsAdditive(b) && IsAdditive(Plus(a, b))
      ensures PriceOf(p)(key, Plus(a, b)) == Both(PriceOf(p)(key, a), PriceOf(p)(key, b))
    {
      QuoteAdds(p.snapshot, Subject(key, p.authIndex), a, b, Plus(a, b));
    }
  }

  /** Prices that ignore the columns that are not read. */
  ghost predicate IgnoresUnread(price: Price<Columns>, q: Projection) {
    forall c, t :: price(Project(q, c), t) == price(c, t)
  }

  /** The reference: every event priced on its own with all its columns. */
  function QuoteEvents(price: Price<Columns>, events: seq<Event>): Quote {
    if events == [] then Quote(0.0, true)
    else
      var e := events[|events| - 1];
      Both(QuoteEvents(price, events[..|events| - 1]), price(e.columns, e.tokens))
  }

  /** No group exceeds the total it is part of. */
  ghost predicate GroupsWithin(groups: map<Columns, Tokens>, x: Exact) {
    forall key :: key in groups ==> IsAdditive(groups[key]) && groups[key].input <= x.input && groups[key].output <= x.output && groups[key].total <= x.total
  }

  lemma GroupsStayWithin(groups: map<Columns, Tokens>, x: Exact, key: Columns, t: Tokens, y: Exact)
    requires GroupsWithin(groups, x) && IsAdditive(t) && Fits(y)
    requires x.input >= 0 && x.output >= 0 && x.total >= 0
    requires y.input == x.input + t.input && y.output == x.output + t.output && y.total == x.total + t.total
    ensures IsAdditive(GroupOf(groups, key)) && IsAdditive(Plus(GroupOf(groups, key), t))
    ensures GroupsWithin(groups[key := Plus(GroupOf(groups, key), t)], y)
  {
    PlusFits(GroupOf(groups, key), t);
    WrapOnce(GroupOf(groups, key).input, t.input);
    WrapOnce(GroupOf(groups, key).output, t.output);
    WrapOnce(GroupOf(groups, key).total, t.total);
  }

  /** Unless the guard objects, the groups cost what the events cost one by one,
      whichever columns the groups were formed by. */
  lemma {:induction false} GroupsCostEvents(price: Price<Columns>, q: Projection, events: seq<Event>)
    requires AddsUp(price) && IgnoresUnread(price, q) && Good(events)
    ensures TotalQuote(GroupQuotes(price, Fold(events, q).groups)) == QuoteEvents(price, events)
    ensures GroupsWithin(Fold(events, q).groups, Totals(events))
  {
    if events == [] {
      NoQuotes(GroupQuotes(price, Fold(events, q).groups));
    } else {
      var before, e := events[..|events| - 1], events[|events| - 1];
      assert events == before + [e];
      GoodPrefix(before, e);
      GroupsCostEvents(price, q, before);
      GoodTotals(before, q);
      TotalsAppend(before, e);
      var groups, key := Fold(before, q).groups, Project(q, e.columns);
      GroupsStayWithin(groups, Totals(before), key, e.tokens, Totals(events));
      GroupGrows(price, groups, key, GroupOf(groups, key), e.tokens, Plus(GroupOf(groups, key), e.tokens));
    }
  }

  /** What a set of events costs when grouped by the columns read. */
  ghost function Priced(p: Pricing, q: Projection, events: seq<Event>): Quote {
    TotalQuote(GroupQuotes(PriceOf(p), Fold(events, q).groups))
  }

  function Full(p: Pricing): Projection {
    Projection(p.snapshot.active, true)
  }

  lemma ActiveSuffice(p: Pricing, q: Projection)
    requires WellFormed(p.snapshot) && q.active == p.snapshot.active
    ensures IgnoresUnread(PriceOf(p), q)
  {
    forall c, t
      ensures PriceOf(p)(Project(q, c), t) == PriceOf(p)(c, t)
    {
      ProjectionKeepsPrice(p, q, c, t);
    }
  }

  /** Reading only the active columns loses nothing while the guard is silent: cost and
      completeness are those of the full grouping, and of the events one by one. */
  lemma ProjectionKeepsCost(p: Pricing, q: Projection, events: seq<Event>)
    requires WellFormed(p.snapshot) && q.active == p.snapshot.active && Good(events)
    ensures Priced(p, q, events) == Priced(p, Full(p), events) == QuoteEvents(PriceOf(p), events)
  {
    PricesAddUp(p);
    ActiveSuffice(p, q);
    ActiveSuffice(p, Full(p));
    GroupsCostEvents(PriceOf(p), q, events);
    GroupsCostEvents(PriceOf(p), Full(p), events);
  }
}
