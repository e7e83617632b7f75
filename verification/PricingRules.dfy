/** Pricing dimensions, rule matching, and compilation of a price catalogue. */
module PricingRules {
  import opened Wrappers
  import opened UsageCost
  import opened Text

  // ----- dimensions -----

  datatype Field =
    | ApiGroupKey | Model | AuthIndex | ModelAlias | ServiceTier | ResponseServiceTier | ReasoningEffort | Endpoint | ExecutorType

  const FIELDS: seq<Field> :=
    [ApiGroupKey, Model, AuthIndex, ModelAlias, ServiceTier, ResponseServiceTier, ReasoningEffort, Endpoint, ExecutorType]

  function FieldName(f: Field): string {
    match f
    case ApiGroupKey => "api_group_key"
    case Model => "model"
    case AuthIndex => "auth_index"
    case ModelAlias => "model_alias"
    case ServiceTier => "service_tier"
    case ResponseServiceTier => "response_service_tier"
    case ReasoningEffort => "reasoning_effort"
    case Endpoint => "endpoint"
    case ExecutorType => "executor_type"
  }

  datatype Dimensions = Dimensions(
    apiGroupKey: string, model: string, authIndex: string, modelAlias: string, serviceTier: string,
    responseServiceTier: string, reasoningEffort: string, endpoint: string, executorType: string)
  {
    function Value(f: Field): string {
      match f
      case ApiGroupKey => apiGroupKey
      case Model => model
      case AuthIndex => authIndex
      case ModelAlias => modelAlias
      case ServiceTier => serviceTier
      case ResponseServiceTier => responseServiceTier
      case ReasoningEffort => reasoningEffort
      case Endpoint => endpoint
      case ExecutorType => executorType
    }
  }

  function Required(s: string): (r: string)
    ensures r != ""
  {
    if Trim(s) == "" then "unknown" else Trim(s)
  }

  function Canonical(d: Dimensions): Dimensions {
    Dimensions(Required(d.apiGroupKey), Required(d.model), Trim(d.authIndex), Trim(d.modelAlias), Trim(d.serviceTier),
               Trim(d.responseServiceTier), Trim(d.reasoningEffort), Trim(d.endpoint), Trim(d.executorType))
  }

  /** Canonical values depend on the same field only. */
  lemma CanonicalByField(a: Dimensions, b: Dimensions, f: Field)
    requires a.Value(f) == b.Value(f)
    ensures Canonical(a).Value(f) == Canonical(b).Value(f)
  {
  }

  // ----- compiled catalogue -----

  datatype Rule = Rule(field: Field, value: string, multiplier: real)

  datatype CompiledModel = CompiledModel(prices: Prices, rules: seq<Rule>)

  datatype Snapshot = Snapshot(models: map<string, CompiledModel>, active: set<Field>)

  predicate Matches(r: Rule, d: Dimensions) {
    d.Value(r.field) == r.value
  }

  /** The product of the multipliers of the rules that match; a zero ends the search. */
  function RuleMultiplier(rules: seq<Rule>, d: Dimensions): real {
    MultiplierFrom(rules, d, 1.0)
  }

  function MultiplierFrom(rules: seq<Rule>, d: Dimensions, product: real): real {
    if rules == [] then product
    else if !Matches(rules[0], d) then MultiplierFrom(rules[1..], d, product)
    else if rules[0].multiplier == 0.0 then 0.0
    else MultiplierFrom(rules[1..], d, Times(product, rules[0].multiplier))
  }

  lemma MultiplierStep(rules: seq<Rule>, i: nat, d: Dimensions, product: real)
    requires i < |rules|
    ensures MultiplierFrom(rules[i..], d, product) ==
              if !Matches(rules[i], d) then MultiplierFrom(rules[i + 1..], d, product)
              else if rules[i].multiplier == 0.0 then 0.0
              else MultiplierFrom(rules[i + 1..], d, Times(product, rules[i].multiplier))
  {
    var rest := rules[i..];
    assert rest[0] == rules[i] && rest[1..] == rules[i + 1..];
  }

  /** The rule loop of the resolver. */
  method MatchingRuleMultiplier(rules: seq<Rule>, d: Dimensions) returns (multiplier: real)
    ensures multiplier == RuleMultiplier(rules, d)
  {
    multiplier := 1.0;
    assert rules[0..] == rules;
    for i := 0 to |rules|
      invariant RuleMultiplier(rules, d) == MultiplierFrom(rules[i..], d, multiplier)
    {
      MultiplierStep(rules, i, d, multiplier);
      if !Matches(rules[i], d) {
        continue;
      }
      if rules[i].multiplier == 0.0 {
        return 0.0;
      }
      multiplier := Times(multiplier, rules[i].multiplier);
    }
  }

  function MatchModel(s: Snapshot, d: Dimensions): Option<CompiledModel> {
    if d.model in s.models then Some(s.models[d.model])
    else if d.modelAlias in s.models then Some(s.models[d.modelAlias])
    else None
  }

  datatype CostResult = CostResult(cost: Breakdown, available: bool, matched: bool)

  function Calculate(s: Snapshot, d: Dimensions, t: TokenInput): CostResult {
    match MatchModel(s, d)
    case None => CostResult(NO_COST, !RequiresPricing(t), false)
    case Some(m) =>
      var base := Cost(t, m.prices);
      CostResult(if m.prices.multiplier == Some(0.0) then base else Scale(base, RuleMultiplier(m.rules, d)), true, true)
  }

  // ----- compilation -----

  datatype RuleConfig = RuleConfig(key: string, value: string, multiplier: real)

  datatype ModelConfig = ModelConfig(model: string, prices: Prices, rules: seq<RuleConfig>)

  /** The largest finite number, (2^53 - 1) * 2^971 for the doubles of IEEE 754. Nothing
      here depends on which number it is, so it is left open. */
  type Limit = v: real | 1.0 <= v witness 1.0

  const MAX_FLOAT64: Limit

  predicate IsNonNegativeFinite(v: real) {
    0.0 <= v <= MAX_FLOAT64
  }

  function ParseField(key: string): Option<Field> {
    ParseFieldFrom(Lower(Trim(key)), 0)
  }

  function ParseFieldFrom(name: string, i: nat): Option<Field>
    requires i <= |FIELDS|
    decreases |FIELDS| - i
  {
    if i == |FIELDS| then None
    else if FieldName(FIELDS[i]) == name then Some(FIELDS[i])
    else ParseFieldFrom(name, i + 1)
  }

  function CompileRule(c: RuleConfig): Result<Rule> {
    match ParseField(c.key)
    case None => Err
    case Some(f) =>
      if Trim(c.value) == "" || !IsNonNegativeFinite(c.multiplier) then Err
      else Ok(Rule(f, Trim(c.value), c.multiplier))
  }

  function PricesValid(p: Prices): bool {
    && IsNonNegativeFinite(p.prompt) && IsNonNegativeFinite(p.completion)
    && IsNonNegativeFinite(p.cacheRead) && IsNonNegativeFinite(p.cacheWrite)
    && IsNonNegativeFinite(ModelMultiplier(p))
  }

  /** No two rules fix the same field to the same value. */
  ghost predicate DistinctRules(rules: seq<Rule>) {
    forall i, j :: 0 <= i < j < |rules| ==> rules[i].field != rules[j].field || rules[i].value != rules[j].value
  }

  ghost predicate RulesValid(rules: seq<Rule>) {
    DistinctRules(rules) && forall i :: 0 <= i < |rules| ==> IsNonNegativeFinite(rules[i].multiplier)
  }

  // ----- worst case -----

  function SafeMultiply(left: real, right: real): Option<real> {
    if left == 0.0 || right == 0.0 then Some(0.0)
    else if left > MAX_FLOAT64 / right then None
    else Some(Times(left, right))
  }

  lemma DivideBound(left: real, right: real, max: real)
    requires 0.0 < right
    ensures left > max / right <==> left * right > max
  {
    assert (max / right) * right == max;
    if left > max / right {
      assert (left - max / right) * right > 0.0;
    } else {
      assert (max / right - left) * right >= 0.0;
    }
  }

  /** It multiplies exactly when the product fits. */
  lemma SafeMultiplyFits(left: real, right: real)
    requires 0.0 <= left && 0.0 <= right
    ensures SafeMultiply(left, right) == if Times(left, right) <= MAX_FLOAT64 then Some(Times(left, right)) else None
  {
    if left != 0.0 && right != 0.0 {
      DivideBound(left, right, MAX_FLOAT64);
    }
  }

  /** The largest multiplier a rule on the field can contribute, at least one. */
  function MaxFor(rules: seq<Rule>, f: Field): (m: real)
    ensures 1.0 <= m
  {
    if rules == [] then 1.0
    else
      var most := MaxFor(rules[..|rules| - 1], f);
      var last := rules[|rules| - 1];
      if last.field == f && last.multiplier > most then last.multiplier else most
  }

  /** The product of the maxima of the fields listed. */
  function ProductFor(rules: seq<Rule>, fields: seq<Field>): (p: real)
    ensures 1.0 <= p
  {
    if fields == [] then 1.0
    else
      var n := |fields| - 1;
      AtLeastOne(ProductFor(rules, fields[..n]), MaxFor(rules, fields[n]));
      Times(ProductFor(rules, fields[..n]), MaxFor(rules, fields[n]))
  }

  lemma AtLeastOne(a: real, b: real)
    requires 1.0 <= a && 1.0 <= b
    ensures a <= Times(a, b) && b <= Times(a, b)
  {
    assert (a - 1.0) * (b - 1.0) >= 0.0;
    assert a * (b - 1.0) >= 0.0;
    assert b * (a - 1.0) >= 0.0;
  }

  const MAX_TOKENS_PER_MILLION: real := MAX_INT64 as real / 1_000_000.0

  function PriceList(p: Prices): seq<real> {
    [p.prompt, p.completion, p.cacheRead, p.cacheWrite]
  }

  /** The price segments at the largest token count, times `factor`. */
  function WorstTotal(prices: seq<real>, factor: real): real {
    if prices == [] then 0.0
    else
      var n := |prices| - 1;
      WorstTotal(prices[..n], factor) + Times(Times(prices[n], MAX_TOKENS_PER_MILLION), factor)
  }

  function TotalMultiplier(p: Prices, rules: seq<Rule>): real {
    Times(ModelMultiplier(p), ProductFor(rules, FIELDS))
  }

  /** The largest cost a model can produce is a finite number. */
  predicate WorstCaseFits(p: Prices, rules: seq<Rule>) {
    ModelMultiplier(p) == 0.0
    || (&& ProductFor(rules, FIELDS) <= MAX_FLOAT64 && TotalMultiplier(p, rules) <= MAX_FLOAT64
        && WorstTotal(PriceList(p), 1.0) <= MAX_FLOAT64 && WorstTotal(PriceList(p), TotalMultiplier(p, rules)) <= MAX_FLOAT64)
  }
}
