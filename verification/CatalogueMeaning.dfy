/** What a catalogue's entries do to prices, said of the entries as they are written. */
module CatalogueMeaning {
  import opened Wrappers
  import opened Text
  import opened UsageCost
  import opened PricingRules
  import opened PricingCatalogue
  import PricingMeaning

  /** The dimension a rule names, and what a usage has there. */
  function NamedValue(d: Dimensions, name: string): Option<string> {
    if name == "api_group_key" then Some(d.apiGroupKey)
    else if name == "model" then Some(d.model)
    else if name == "auth_index" then Some(d.authIndex)
    else if name == "model_alias" then Some(d.modelAlias)
    else if name == "service_tier" then Some(d.serviceTier)
    else if name == "response_service_tier" then Some(d.responseServiceTier)
    else if name == "reasoning_effort" then Some(d.reasoningEffort)
    else if name == "endpoint" then Some(d.endpoint)
    else if name == "executor_type" then Some(d.executorType)
    else None
  }

  /** Keys may be written in capitals, and keys and values with blanks around them. */
  predicate Applies(c: RuleConfig, d: Dimensions) {
    NamedValue(d, Lower(Trim(c.key))) == Some(Trim(c.value))
  }

  /** The multipliers of the rules that apply, multiplied. */
  function AppliedProduct(rules: seq<RuleConfig>, d: Dimensions): real {
    if rules == [] then 1.0
    else Times(AppliedProduct(rules[..|rules| - 1], d), if Applies(rules[|rules| - 1], d) then rules[|rules| - 1].multiplier else 1.0)
  }

  lemma {:induction false} ParsedFrom(name: string, i: nat)
    requires i <= |FIELDS|
    ensures ParseFieldFrom(name, i).Some? ==> FieldName(ParseFieldFrom(name, i).value) == name
    ensures ParseFieldFrom(name, i).None? ==> forall j :: i <= j < |FIELDS| ==> FieldName(FIELDS[j]) != name
    decreases |FIELDS| - i
  {
    hide FieldName;
    if i < |FIELDS| && FieldName(FIELDS[i]) != name {
      ParsedFrom(name, i + 1);
    }
  }

  lemma NameIsValue(d: Dimensions, f: Field)
    ensures NamedValue(d, FieldName(f)) == Some(d.Value(f))
    ensures f in FIELDS
  {
    assert FIELDS[0] == ApiGroupKey && FIELDS[1] == Model && FIELDS[2] == AuthIndex && FIELDS[3] == ModelAlias && FIELDS[4] == ServiceTier;
    assert FIELDS[5] == ResponseServiceTier && FIELDS[6] == ReasoningEffort && FIELDS[7] == Endpoint && FIELDS[8] == ExecutorType;
  }

  lemma {:induction false} NameParsed(d: Dimensions, key: string)
    ensures var name := Lower(Trim(key));
            match ParseField(key)
            case Some(f) => NamedValue(d, name) == Some(d.Value(f))
            case None => NamedValue(d, name) == None
  {
    hide ParseFieldFrom;
    var name := Lower(Trim(key));
    ParsedFrom(name, 0);
    match ParseField(key)
    case Some(f) => NameIsValue(d, f);
    case None =>
      hide NamedValue;
      NotNamed(d, name);
  }

  lemma NotNamed(d: Dimensions, name: string)
    requires forall j :: 0 <= j < |FIELDS| ==> FieldName(FIELDS[j]) != name
    ensures NamedValue(d, name) == None
  {
    assert FieldName(FIELDS[0]) != name && FieldName(FIELDS[1]) != name && FieldName(FIELDS[2]) != name && FieldName(FIELDS[3]) != name
           && FieldName(FIELDS[4]) != name && FieldName(FIELDS[5]) != name && FieldName(FIELDS[6]) != name && FieldName(FIELDS[7]) != name
           && FieldName(FIELDS[8]) != name;
  }

  /** A rule is accepted if it names a dimension, has a value, and its multiplier is a
      finite number, not negative; it then applies where its value is. */
  lemma {:induction false} RuleAccepted(c: RuleConfig, d: Dimensions)
    ensures CompileRule(c).Ok? <==> NamedValue(d, Lower(Trim(c.key))).Some? && Trim(c.value) != "" && 0.0 <= c.multiplier <= MAX_FLOAT64
    ensures CompileRule(c).Ok? ==>
              var r := CompileRule(c).value;
              r.multiplier == c.multiplier && (d.Value(r.field) == r.value <==> Applies(c, d))
  {
    NameParsed(d, c.key);
    hide ParseField;
    hide NamedValue;
  }

  lemma {:induction false} OutcomesPrefix(rules: seq<RuleConfig>)
    requires rules != [] && AllOk(Outcomes(rules))
    ensures var n := |rules| - 1;
            && AllOk(Outcomes(rules[..n])) && CompileRule(rules[n]).Ok?
            && Values(Outcomes(rules)) == Values(Outcomes(rules[..n])) + [CompileRule(rules[n]).value]
  {
    hide CompileRule;
    var n := |rules| - 1;
    assert Outcomes(rules)[n] == CompileRule(rules[n]);
    assert forall i :: 0 <= i < n ==> Outcomes(rules[..n])[i] == Outcomes(rules)[i];
  }

  lemma {:induction false} ProductStep(before: seq<Rule>, last: Rule, d: Dimensions)
    ensures PricingMeaning.RulesProduct(before + [last], d) ==
              Times(PricingMeaning.RulesProduct(before, d), if d.Value(last.field) == last.value then last.multiplier else 1.0)
  {
    assert (before + [last])[..|before|] == before;
  }

  lemma {:induction false} OutcomesProduct(rules: seq<RuleConfig>, d: Dimensions)
    requires AllOk(Outcomes(rules))
    ensures PricingMeaning.RulesProduct(Values(Outcomes(rules)), d) == AppliedProduct(rules, d)
  {
    hide CompileRule;
    hide Times;
    hide Outcomes;
    hide AllOk;
    hide Applies;
    hide PricingMeaning.RulesProduct;
    if rules == [] {
      NoRules(rules, d);
    } else {
      var n := |rules| - 1;
      OutcomesPrefix(rules);
      OutcomesProduct(rules[..n], d);
      ProductStep(Values(Outcomes(rules[..n])), CompileRule(rules[n]).value, d);
      RuleAccepted(rules[n], d);
    }
  }

  lemma NoRules(rules: seq<RuleConfig>, d: Dimensions)
    requires rules == [] && AllOk(Outcomes(rules))
    ensures PricingMeaning.RulesProduct(Values(Outcomes(rules)), d) == 1.0
  {
  }

  lemma TimesOne(x: real)
    ensures Times(x, 1.0) == x
  {
  }

  lemma {:induction false} KeptProduct(rules: seq<Rule>, d: Dimensions)
    ensures PricingMeaning.RulesProduct(Kept(rules), d) == PricingMeaning.RulesProduct(rules, d)
  {
    hide Times;
    if rules != [] {
      var before, last := rules[..|rules| - 1], rules[|rules| - 1];
      KeptProduct(before, d);
      TimesOne(PricingMeaning.RulesProduct(before, d));
      if last.multiplier == 1.0 {
        assert Kept(rules) == Kept(before);
      } else {
        assert Kept(rules)[..|Kept(before)|] == Kept(before);
      }
    }
  }

  /** What an accepted model is priced with. */
  ghost predicate PricedAs(m: CompiledModel, c: ModelConfig, d: Dimensions) {
    && m.prices.prompt == c.prices.prompt && m.prices.completion == c.prices.completion
    && m.prices.cacheRead == c.prices.cacheRead && m.prices.cacheWrite == c.prices.cacheWrite
    && PricingMeaning.Factor(m, d) ==
         Times(if c.prices.multiplier.Some? then c.prices.multiplier.value else 1.0, AppliedProduct(c.rules, d))
  }

  lemma {:induction false} CompiledPrices(c: ModelConfig, d: Dimensions)
    requires ModelAccepted(c)
    ensures PricedAs(CompiledOf(c), c, d)
  {
    hide Times;
    hide Outcomes;
    hide Kept;
    hide WorstCaseFits;
    OutcomesProduct(c.rules, d);
    KeptProduct(Values(Outcomes(c.rules)), d);
  }

  /** Some model of the catalogue has this name. */
  predicate Names(configs: seq<ModelConfig>, name: string) {
    exists i :: 0 <= i < |configs| && Trim(configs[i].model) == name
  }

  /** A usage is priced by the catalogue's model of its name, or else of its alias, with
      that entry's prices, its multiplier, and all its rules that apply; or by none. */
  lemma {:induction false} CataloguePrices(s: Snapshot, configs: seq<ModelConfig>, d: Dimensions)
    requires Accepted(Entries(configs)) && Holds(s, Entries(configs))
    ensures PricingMeaning.PricedBy(s, d).None? <==> !Names(configs, d.model) && !Names(configs, d.modelAlias)
    ensures forall i :: 0 <= i < |configs| && Trim(configs[i].model) == (if Names(configs, d.model) then d.model else d.modelAlias) ==>
              PricingMeaning.PricedBy(s, d).Some? && PricedAs(PricingMeaning.PricedBy(s, d).value, configs[i], d)
  {
    hide PricedAs;
    hide FieldsActive;
    hide ModelAccepted;
    hide CompiledOf;
    ModelNamed(s, configs, d.model);
    ModelNamed(s, configs, d.modelAlias);
    forall i | 0 <= i < |configs| && Trim(configs[i].model) == (if Names(configs, d.model) then d.model else d.modelAlias)
      ensures PricingMeaning.PricedBy(s, d).Some? && PricedAs(PricingMeaning.PricedBy(s, d).value, configs[i], d)
    {
      assert Entries(configs)[i] == Compilation(configs[i]);
      CompiledPrices(configs[i], d);
    }
  }

  lemma {:induction false} ModelNamed(s: Snapshot, configs: seq<ModelConfig>, name: string)
    requires Accepted(Entries(configs)) && Holds(s, Entries(configs))
    ensures name in s.models <==> Names(configs, name)
  {
    hide FieldsActive;
    hide ModelAccepted;
    hide CompiledOf;
    forall i | 0 <= i < |configs|
      ensures Entries(configs)[i] == Compilation(configs[i]) && Entries(configs)[i].value.name == Trim(configs[i].model)
    {
    }
    if name in s.models {
      var i :| 0 <= i < |Entries(configs)| && name == Entries(configs)[i].value.name;
      assert Trim(configs[i].model) == name;
    }
    if Names(configs, name) {
      var i :| 0 <= i < |configs| && Trim(configs[i].model) == name;
      assert Entries(configs)[i].value.name in s.models;
    }
  }

  // ----- what is accepted -----

  const DIMENSIONS := {"api_group_key", "model", "auth_index", "model_alias", "service_tier", "response_service_tier", "reasoning_effort",
                       "endpoint", "executor_type"}

  predicate InRange(v: real) {
    0.0 <= v <= MAX_FLOAT64
  }

  /** A rule names a dimension, has a value, and a finite multiplier that is not negative. */
  predicate RuleInOrder(c: RuleConfig) {
    Lower(Trim(c.key)) in DIMENSIONS && Trim(c.value) != "" && InRange(c.multiplier)
  }

  /** Two rules for one value of one dimension. */
  predicate Doubles(a: RuleConfig, b: RuleConfig) {
    Lower(Trim(a.key)) == Lower(Trim(b.key)) && Trim(a.value) == Trim(b.value)
  }

  ghost predicate RulesInOrder(rules: seq<RuleConfig>) {
    && (forall i :: 0 <= i < |rules| ==> RuleInOrder(rules[i]))
    && forall i, j :: 0 <= i < j < |rules| ==> !Doubles(rules[i], rules[j])
  }

  lemma {:induction false} RuleCompiles(c: RuleConfig)
    ensures CompileRule(c).Ok? <==> RuleInOrder(c)
    ensures CompileRule(c).Ok? ==> CompileRule(c).value.value == Trim(c.value) && FieldName(CompileRule(c).value.field) == Lower(Trim(c.key))
  {
    var d := Dimensions("", "", "", "", "", "", "", "", "");
    RuleAccepted(c, d);
    ParsedFrom(Lower(Trim(c.key)), 0);
    hide ParseFieldFrom;
    hide FieldName;
  }

  lemma {:induction false} DoublesCompile(a: RuleConfig, b: RuleConfig)
    requires CompileRule(a).Ok? && CompileRule(b).Ok?
    ensures CompileRule(a).value.field == CompileRule(b).value.field && CompileRule(a).value.value == CompileRule(b).value.value <==> Doubles(a, b)
  {
    RuleCompiles(a);
    RuleCompiles(b);
    hide ParseFieldFrom;
    hide FieldName;
  }

  lemma {:induction false} RulesCompile(rules: seq<RuleConfig>)
    ensures RulesAccepted(Outcomes(rules)) <==> RulesInOrder(rules)
  {
    hide CompileRule;
    hide RuleInOrder;
    hide Doubles;
    forall i | 0 <= i < |rules|
      ensures Outcomes(rules)[i].Ok? <==> RuleInOrder(rules[i])
    {
      RuleCompiles(rules[i]);
    }
    if AllOk(Outcomes(rules)) {
      forall i, j | 0 <= i < j < |rules|
        ensures Values(Outcomes(rules))[i].field != Values(Outcomes(rules))[j].field || Values(Outcomes(rules))[i].value != Values(Outcomes(rules))[j].value
                <==> !Doubles(rules[i], rules[j])
      {
        assert Outcomes(rules)[i] == CompileRule(rules[i]) && Outcomes(rules)[j] == CompileRule(rules[j]);
        DoublesCompile(rules[i], rules[j]);
      }
    }
  }

  /** An entry is accepted if it has a name, finite prices that are not negative, rules in
      order with no two alike, and a finite worst case. */
  lemma {:induction false} AcceptedExactly(c: ModelConfig)
    ensures ModelAccepted(c) <==>
              && Trim(c.model) != ""
              && InRange(c.prices.prompt) && InRange(c.prices.completion) && InRange(c.prices.cacheRead) && InRange(c.prices.cacheWrite)
              && (c.prices.multiplier.Some? ==> InRange(c.prices.multiplier.value))
              && RulesInOrder(c.rules) && WorstCaseFits(Cloned(c.prices), Kept(Values(Outcomes(c.rules))))
  {
    hide Outcomes;
    hide RulesInOrder;
    hide WorstCaseFits;
    hide Kept;
    hide Cloned;
    hide RulesAccepted;
    RulesCompile(c.rules);
    if RulesInOrder(c.rules) {
      AcceptedValues(c.rules);
    }
  }

  lemma AcceptedValues(rules: seq<RuleConfig>)
    requires RulesAccepted(Outcomes(rules))
    ensures AllOk(Outcomes(rules))
  {
  }

  // ----- the worst case -----

  /** The largest multiplier a dimension's rules offer, but no less than one. */
  ghost predicate IsLargest(m: real, rules: seq<Rule>, f: Field) {
    && 1.0 <= m && (forall i :: 0 <= i < |rules| && rules[i].field == f ==> rules[i].multiplier <= m)
    && (m == 1.0 || exists i :: 0 <= i < |rules| && rules[i].field == f && rules[i].multiplier == m)
  }

  lemma {:induction false} MaxIsLargest(rules: seq<Rule>, f: Field)
    ensures IsLargest(MaxFor(rules, f), rules, f)
  {
    if rules != [] {
      var n := |rules| - 1;
      MaxIsLargest(rules[..n], f);
      assert forall i :: 0 <= i < n ==> rules[..n][i] == rules[i];
    }
  }

  lemma {:induction false} FourWorst(prices: seq<real>, factor: real)
    requires |prices| == 4
    ensures WorstTotal(prices, factor) == Times(Times(prices[0] + prices[1] + prices[2] + prices[3], MAX_TOKENS_PER_MILLION), factor)
  {
    assert prices[..3][..2] == prices[..2] && prices[..2][..1] == prices[..1] && prices[..1][..0] == [];
    assert WorstTotal(prices[..1], factor) == Times(Times(prices[0], MAX_TOKENS_PER_MILLION), factor);
    assert WorstTotal(prices[..2], factor) == WorstTotal(prices[..1], factor) + Times(Times(prices[1], MAX_TOKENS_PER_MILLION), factor);
    assert WorstTotal(prices[..3], factor) == WorstTotal(prices[..2], factor) + Times(Times(prices[2], MAX_TOKENS_PER_MILLION), factor);
    TogetherTwice(prices[0], prices[1], factor);
    TogetherTwice(prices[0] + prices[1], prices[2], factor);
    TogetherTwice(prices[0] + prices[1] + prices[2], prices[3], factor);
  }

  lemma TogetherTwice(a: real, b: real, factor: real)
    ensures Times(Times(a + b, MAX_TOKENS_PER_MILLION), factor) == Times(Times(a, MAX_TOKENS_PER_MILLION), factor) + Times(Times(b, MAX_TOKENS_PER_MILLION), factor)
  {
    Distribute(a, b, MAX_TOKENS_PER_MILLION);
    Distribute(Times(a, MAX_TOKENS_PER_MILLION), Times(b, MAX_TOKENS_PER_MILLION), factor);
    hide Times;
  }

  /** All nine dimensions at their largest. */
  function AllDimensions(rules: seq<Rule>): real {
    Times(Times(Times(Times(Times(Times(Times(Times(MaxFor(rules, ApiGroupKey), MaxFor(rules, Model)), MaxFor(rules, AuthIndex)),
                                              MaxFor(rules, ModelAlias)), MaxFor(rules, ServiceTier)), MaxFor(rules, ResponseServiceTier)),
                      MaxFor(rules, ReasoningEffort)), MaxFor(rules, Endpoint)), MaxFor(rules, ExecutorType))
  }

  lemma {:induction false} NineFields(rules: seq<Rule>)
    ensures ProductFor(rules, FIELDS) == AllDimensions(rules)
  {
    hide MaxFor;
    ProductNext(rules, 0);
    ProductNext(rules, 1);
    ProductNext(rules, 2);
    ProductNext(rules, 3);
    ProductNext(rules, 4);
    ProductNext(rules, 5);
    ProductNext(rules, 6);
    ProductNext(rules, 7);
    ProductNext(rules, 8);
    OneTimes(MaxFor(rules, ApiGroupKey));
    assert FIELDS[..9] == FIELDS && FIELDS[..0] == [];
    assert ProductFor(rules, []) == 1.0;
    hide Times;
    hide ProductFor;
  }

  lemma OneTimes(x: real)
    ensures Times(1.0, x) == x
  {
  }

  lemma {:induction false} ProductNext(rules: seq<Rule>, n: nat)
    requires n < |FIELDS|
    ensures ProductFor(rules, FIELDS[..n + 1]) == Times(ProductFor(rules, FIELDS[..n]), MaxFor(rules, FIELDS[n]))
  {
    hide MaxFor;
    hide Times;
    assert FIELDS[..n + 1][..n] == FIELDS[..n];
  }

  /** The worst case: the largest count of tokens at all four prices, all rules at their
      largest. It must be finite with the multipliers and without, and so must they. */
  lemma {:induction false} WorstCaseMeans(p: Prices, rules: seq<Rule>)
    ensures var mm := if p.multiplier.Some? then p.multiplier.value else 1.0;
            var all := AllDimensions(rules);
            var most := Times(p.prompt + p.completion + p.cacheRead + p.cacheWrite, 9_223_372_036_854_775_807.0 / 1_000_000.0);
            WorstCaseFits(p, rules) <==>
              mm == 0.0 || (all <= MAX_FLOAT64 && Times(mm, all) <= MAX_FLOAT64 && most <= MAX_FLOAT64 && Times(most, Times(mm, all)) <= MAX_FLOAT64)
  {
    hide MaxFor;
    hide AllDimensions;
    hide ProductFor;
    NineFields(rules);
    FourWorst(PriceList(p), 1.0);
    FourWorst(PriceList(p), TotalMultiplier(p, rules));
    TimesOne(Times(p.prompt + p.completion + p.cacheRead + p.cacheWrite, MAX_TOKENS_PER_MILLION));
    hide WorstTotal;
    hide Times;
  }
}
