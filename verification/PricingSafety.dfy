/** A price catalogue is accepted only if no usage whatever can overflow its cost. */
module PricingSafety {
  import opened Wrappers
  import opened Varint
  import opened UsageCost
  import opened PricingRules

  // ----- the validation loops -----

  lemma {:induction false} ProductGrows(rules: seq<Rule>, fields: seq<Field>, m: nat)
    requires m <= |fields|
    ensures ProductFor(rules, fields[..m]) <= ProductFor(rules, fields)
    decreases |fields|
  {
    var n := |fields| - 1;
    if m <= n {
      ProductGrows(rules, fields[..n], m);
      assert fields[..n][..m] == fields[..m];
      AtLeastOne(ProductFor(rules, fields[..n]), MaxFor(rules, fields[n]));
    } else {
      assert fields[..m] == fields;
    }
  }

  lemma NonNegativeProduct(a: real, b: real)
    requires 0.0 <= a && 0.0 <= b
    ensures 0.0 <= Times(a, b)
  {
  }

  ghost predicate NoneNegative(prices: seq<real>) {
    forall i :: 0 <= i < |prices| ==> 0.0 <= prices[i]
  }

  lemma {:induction false} WorstGrows(prices: seq<real>, factor: real, m: nat)
    requires m <= |prices| && NoneNegative(prices) && 0.0 <= factor
    ensures WorstTotal(prices[..m], factor) <= WorstTotal(prices, factor)
    decreases |prices|
  {
    var n := |prices| - 1;
    if m <= n {
      WorstGrows(prices[..n], factor, m);
      assert prices[..n][..m] == prices[..m];
      NonNegativeProduct(prices[n], MAX_TOKENS_PER_MILLION);
      NonNegativeProduct(Times(prices[n], MAX_TOKENS_PER_MILLION), factor);
    } else {
      assert prices[..m] == prices;
    }
  }

  method MaxByField(rules: seq<Rule>) returns (max: map<Field, real>)
    ensures forall f: Field :: f in max && max[f] == MaxFor(rules, f)
  {
    max := map f: Field | f in FIELDS :: 1.0;
    assert forall f: Field :: f in FIELDS by {
      forall f: Field ensures f in FIELDS { FieldListed(f); }
    }
    for i := 0 to |rules|
      invariant forall f: Field :: f in max && max[f] == MaxFor(rules[..i], f)
    {
      assert rules[..i + 1][..i] == rules[..i];
      if rules[i].multiplier > max[rules[i].field] {
        max := max[rules[i].field := rules[i].multiplier];
      }
    }
    assert rules[..|rules|] == rules;
  }

  lemma FieldListed(f: Field)
    ensures f in FIELDS
  {
    match f
    case ApiGroupKey => assert FIELDS[0] == f;
    case Model => assert FIELDS[1] == f;
    case AuthIndex => assert FIELDS[2] == f;
    case ModelAlias => assert FIELDS[3] == f;
    case ServiceTier => assert FIELDS[4] == f;
    case ResponseServiceTier => assert FIELDS[5] == f;
    case ReasoningEffort => assert FIELDS[6] == f;
    case Endpoint => assert FIELDS[7] == f;
    case ExecutorType => assert FIELDS[8] == f;
  }

  lemma ProductForStep(rules: seq<Rule>, fields: seq<Field>, i: nat)
    requires i < |fields|
    ensures ProductFor(rules, fields[..i + 1]) == Times(ProductFor(rules, fields[..i]), MaxFor(rules, fields[i]))
  {
    var more := fields[..i + 1];
    assert more[..i] == fields[..i] && more[i] == fields[i];
  }

  /** Multiplies the field maxima step by step, stopping at the first overflow. */
  method CombineRules(rules: seq<Rule>, fields: seq<Field>) returns (r: Option<real>)
    ensures r == if ProductFor(rules, fields) <= MAX_FLOAT64 then Some(ProductFor(rules, fields)) else None
  {
    var maxByField := MaxByField(rules);
    var product := 1.0;
    for i := 0 to |fields|
      invariant product == ProductFor(rules, fields[..i]) <= MAX_FLOAT64
    {
      var max := maxByField[fields[i]];
      ProductForStep(rules, fields, i);
      SafeMultiplyFits(product, max);
      var step := SafeMultiply(product, max);
      if step.None? {
        ProductGrows(rules, fields, i + 1);
        return None;
      }
      product := step.value;
    }
    assert fields[..|fields|] == fields;
    return Some(product);
  }

  /** One price segment: it and the running total must stay finite. */
  method AddSegment(total: real, left: real, right: real) returns (r: Option<real>)
    requires 0.0 <= left && 0.0 <= right
    ensures r == if Times(left, right) <= MAX_FLOAT64 && total + Times(left, right) <= MAX_FLOAT64 then Some(total + Times(left, right)) else None
  {
    SafeMultiplyFits(left, right);
    var segment := SafeMultiply(left, right);
    if segment.None? || total > MAX_FLOAT64 - segment.value {
      return None;
    }
    return Some(total + segment.value);
  }

  lemma SegmentBelowTotal(prices: seq<real>, factor: real, i: nat)
    requires i < |prices| && NoneNegative(prices) && 0.0 <= factor
    ensures WorstTotal(prices[..i + 1], factor) == WorstTotal(prices[..i], factor) + Times(Times(prices[i], MAX_TOKENS_PER_MILLION), factor)
    ensures 0.0 <= WorstTotal(prices[..i], factor)
    ensures WorstTotal(prices[..i + 1], factor) <= WorstTotal(prices, factor)
  {
    assert prices[..i + 1][..i] == prices[..i];
    assert prices[..i][..0] == [];
    WorstGrows(prices[..i], factor, 0);
    WorstGrows(prices, factor, i + 1);
  }

  /** The price loop: both running totals must stay finite. */
  method TotalsFit(prices: seq<real>, factor: real) returns (ok: bool)
    requires NoneNegative(prices) && 0.0 <= factor
    ensures ok == (WorstTotal(prices, 1.0) <= MAX_FLOAT64 && WorstTotal(prices, factor) <= MAX_FLOAT64)
  {
    var unscaledTotal, scaledTotal := 0.0, 0.0;
    for i := 0 to |prices|
      invariant unscaledTotal == WorstTotal(prices[..i], 1.0) <= MAX_FLOAT64
      invariant scaledTotal == WorstTotal(prices[..i], factor) <= MAX_FLOAT64
    {
      SegmentBelowTotal(prices, 1.0, i);
      SegmentBelowTotal(prices, factor, i);
      NonNegativeProduct(prices[i], MAX_TOKENS_PER_MILLION);
      var segment := Times(prices[i], MAX_TOKENS_PER_MILLION);
      var unscaled := AddSegment(unscaledTotal, prices[i], MAX_TOKENS_PER_MILLION);
      if unscaled.None? {
        return false;
      }
      var scaled := AddSegment(scaledTotal, segment, factor);
      if scaled.None? {
        return false;
      }
      unscaledTotal, scaledTotal := unscaled.value, scaled.value;
    }
    assert prices[..|prices|] == prices;
    return true;
  }

  method ValidateWorstCaseCost(p: Prices, rules: seq<Rule>) returns (ok: bool)
    requires PricesValid(p)
    ensures ok == WorstCaseFits(p, rules)
  {
    if ModelMultiplier(p) == 0.0 {
      return true;
    }
    var combined := CombineRules(rules, FIELDS);
    if combined.None? {
      return false;
    }
    SafeMultiplyFits(ModelMultiplier(p), combined.value);
    var total := SafeMultiply(ModelMultiplier(p), combined.value);
    if total.None? {
      return false;
    }
    NonNegativeProduct(ModelMultiplier(p), combined.value);
    ok := TotalsFit(PriceList(p), total.value);
  }

  // ----- no usage exceeds the worst case -----

  function UsedMax(rules: seq<Rule>, used: set<Field>, f: Field): (m: real)
    ensures 1.0 <= m <= MaxFor(rules, f)
  {
    if f in used then MaxFor(rules, f) else 1.0
  }

  /** The product of the maxima of those listed fields that are used. */
  function ProductOver(rules: seq<Rule>, used: set<Field>, fields: seq<Field>): (p: real)
    ensures 1.0 <= p
  {
    if fields == [] then 1.0
    else
      var n := |fields| - 1;
      AtLeastOne(ProductOver(rules, used, fields[..n]), UsedMax(rules, used, fields[n]));
      Times(ProductOver(rules, used, fields[..n]), UsedMax(rules, used, fields[n]))
  }

  lemma MultiplyMonotone(a: real, b: real, c: real, d: real)
    requires 0.0 <= a <= c && 0.0 <= b <= d
    ensures 0.0 <= Times(a, b) <= Times(c, d)
  {
    NonNegativeProduct(a, b);
    assert c * d - a * b == c * (d - b) + (c - a) * b;
    NonNegativeProduct(c, d - b);
    NonNegativeProduct(c - a, b);
  }

  lemma {:induction false} ProductOverAll(rules: seq<Rule>, used: set<Field>, fields: seq<Field>)
    ensures ProductOver(rules, used, fields) <= ProductFor(rules, fields)
  {
    if fields != [] {
      var n := |fields| - 1;
      ProductOverAll(rules, used, fields[..n]);
      MultiplyMonotone(ProductOver(rules, used, fields[..n]), UsedMax(rules, used, fields[n]), ProductFor(rules, fields[..n]), MaxFor(rules, fields[n]));
    }
  }

  lemma SwapFactors(a: real, b: real, c: real)
    ensures Times(Times(a, b), c) == Times(Times(a, c), b)
  {
  }

  ghost predicate DistinctFields(fields: seq<Field>) {
    forall i, j :: 0 <= i < j < |fields| ==> fields[i] != fields[j]
  }

  /** Using one more field multiplies by its maximum. */
  lemma {:induction false} UseField(rules: seq<Rule>, used: set<Field>, f: Field, fields: seq<Field>)
    requires DistinctFields(fields) && f !in used
    ensures ProductOver(rules, used + {f}, fields) == if f in fields then Times(ProductOver(rules, used, fields), MaxFor(rules, f)) else ProductOver(rules, used, fields)
    decreases |fields|
  {
    if fields != [] {
      var n := |fields| - 1;
      var before, last := fields[..n], fields[n];
      UseField(rules, used, f, before);
      assert fields == before + [last];
      if last == f {
        assert f !in before;
      } else {
        var m := UsedMax(rules, used, last);
        assert UsedMax(rules, used + {f}, last) == m;
        assert f in fields <==> f in before;
        if f in before {
          SwapFactors(ProductOver(rules, used, before), MaxFor(rules, f), m);
        }
      }
    }
  }

  /** The product over the first `n` rules that match, with no short cut at zero. */
  function PartialProduct(rules: seq<Rule>, d: Dimensions, n: nat): real
    requires n <= |rules|
  {
    if n == 0 then 1.0
    else if Matches(rules[n - 1], d) then Times(PartialProduct(rules, d, n - 1), rules[n - 1].multiplier)
    else PartialProduct(rules, d, n - 1)
  }

  /** The fields fixed by the first `n` rules that match. */
  function MatchedFields(rules: seq<Rule>, d: Dimensions, n: nat): set<Field>
    requires n <= |rules|
  {
    set i | 0 <= i < n && Matches(rules[i], d) :: rules[i].field
  }

  lemma {:induction false} MaxForBounds(rules: seq<Rule>, i: nat)
    requires i < |rules|
    ensures rules[i].multiplier <= MaxFor(rules, rules[i].field)
    decreases |rules|
  {
    if i < |rules| - 1 {
      MaxForBounds(rules[..|rules| - 1], i);
    }
  }

  /** Since at most one rule per field can match, every partial product stays below
      the product of the field maxima. */
  lemma {:induction false} PartialProductBounded(rules: seq<Rule>, d: Dimensions, n: nat, fields: seq<Field>)
    requires RulesValid(rules) && n <= |rules|
    requires DistinctFields(fields) && forall f: Field :: f in fields
    ensures 0.0 <= PartialProduct(rules, d, n) <= ProductOver(rules, MatchedFields(rules, d, n), fields)
  {
    if n > 0 {
      PartialProductBounded(rules, d, n - 1, fields);
      var r := rules[n - 1];
      var before := MatchedFields(rules, d, n - 1);
      if Matches(r, d) {
        assert MatchedFields(rules, d, n) == before + {r.field};
        NoSecondMatch(rules, d, n - 1);
        UseField(rules, before, r.field, fields);
        MaxForBounds(rules, n - 1);
        MultiplyMonotone(PartialProduct(rules, d, n - 1), r.multiplier, ProductOver(rules, before, fields), MaxFor(rules, r.field));
      } else {
        assert MatchedFields(rules, d, n) == before;
      }
    }
  }

  lemma NoSecondMatch(rules: seq<Rule>, d: Dimensions, n: nat)
    requires RulesValid(rules) && n < |rules| && Matches(rules[n], d)
    ensures rules[n].field !in MatchedFields(rules, d, n)
  {
  }

  /** The multiplier the resolver uses is the full product. */
  lemma {:induction false} MultiplierIsProduct(rules: seq<Rule>, d: Dimensions, n: nat, product: real)
    requires n <= |rules| && product == PartialProduct(rules, d, n)
    ensures MultiplierFrom(rules[n..], d, product) == PartialProduct(rules, d, |rules|)
    decreases |rules| - n
  {
    if n < |rules| {
      MultiplierStep(rules, n, d, product);
      if Matches(rules[n], d) && rules[n].multiplier == 0.0 {
        ZeroStays(rules, d, n + 1, |rules|);
      } else {
        MultiplierIsProduct(rules, d, n + 1, PartialProduct(rules, d, n + 1));
      }
    }
  }

  lemma {:induction false} ZeroStays(rules: seq<Rule>, d: Dimensions, m: nat, n: nat)
    requires m <= n <= |rules| && PartialProduct(rules, d, m) == 0.0
    ensures PartialProduct(rules, d, n) == 0.0
    decreases n
  {
    if m < n {
      ZeroStays(rules, d, m, n - 1);
    }
  }

  // ----- costs -----

  /** Every part is counted, and none is negative. */
  ghost predicate Counted(b: Breakdown) {
    && 0.0 <= b.uncached && 0.0 <= b.cacheRead && 0.0 <= b.cacheWrite && 0.0 <= b.output
    && b.uncached <= b.total && b.cacheRead <= b.total && b.cacheWrite <= b.total && b.output <= b.total
  }

  ghost predicate Int64Tokens(t: TokenInput) {
    && -TWO_63 <= t.input <= MAX_INT64 && -TWO_63 <= t.output <= MAX_INT64
    && -TWO_63 <= t.cacheRead <= MAX_INT64 && -TWO_63 <= t.cacheCreation <= MAX_INT64
  }

  lemma Commute(a: real, b: real)
    ensures Times(a, b) == Times(b, a)
  {
  }

  lemma SegmentBound(tokens: int, price: real)
    requires 0 <= tokens <= MAX_INT64 && 0.0 <= price
    ensures 0.0 <= Times(PerMillion(tokens), price) <= Times(price, MAX_TOKENS_PER_MILLION)
  {
    MultiplyMonotone(PerMillion(tokens), price, MAX_TOKENS_PER_MILLION, price);
    Commute(MAX_TOKENS_PER_MILLION, price);
  }

  function Worst(price: real): real {
    Times(price, MAX_TOKENS_PER_MILLION)
  }

  function WorstSum(p: Prices): real {
    Worst(p.prompt) + Worst(p.completion) + Worst(p.cacheRead) + Worst(p.cacheWrite)
  }

  lemma WorstTotalIsSum(p: Prices, factor: real)
    ensures WorstTotal(PriceList(p), factor) == Times(WorstSum(p), factor)
  {
    var list := PriceList(p);
    assert list[..3] == [p.prompt, p.completion, p.cacheRead];
    assert list[..3][..2] == [p.prompt, p.completion];
    assert list[..3][..2][..1] == [p.prompt];
    assert list[..3][..2][..1][..0] == [];
    assert WorstTotal([p.prompt], factor) == Times(Worst(p.prompt), factor);
    assert WorstTotal([p.prompt, p.completion], factor) == WorstTotal([p.prompt], factor) + Times(Worst(p.completion), factor);
    assert WorstTotal([p.prompt, p.completion, p.cacheRead], factor) == WorstTotal([p.prompt, p.completion], factor) + Times(Worst(p.cacheRead), factor);
    assert WorstTotal(list, factor) == WorstTotal([p.prompt, p.completion, p.cacheRead], factor) + Times(Worst(p.cacheWrite), factor);
    Distribute(Worst(p.prompt), Worst(p.completion), factor);
    Distribute(Worst(p.prompt) + Worst(p.completion), Worst(p.cacheRead), factor);
    Distribute(Worst(p.prompt) + Worst(p.completion) + Worst(p.cacheRead), Worst(p.cacheWrite), factor);
  }

  lemma UnscaledBound(t: TokenInput, p: Prices)
    requires Int64Tokens(t) && PricesValid(p)
    ensures Counted(UnscaledCost(Clamp(t), p)) && UnscaledCost(Clamp(t), p).total <= WorstSum(p)
  {
    var c := Clamp(t);
    SegmentBound(UncachedInput(c), p.prompt);
    SegmentBound(c.cacheRead, p.cacheRead);
    SegmentBound(c.cacheCreation, p.cacheWrite);
    SegmentBound(c.output, p.completion);
  }

  lemma ScaleCounted(b: Breakdown, m: real)
    requires Counted(b) && 0.0 <= m
    ensures Counted(Scale(b, m))
  {
    MultiplyMonotone(b.uncached, m, b.total, m);
    MultiplyMonotone(b.cacheRead, m, b.total, m);
    MultiplyMonotone(b.cacheWrite, m, b.total, m);
    MultiplyMonotone(b.output, m, b.total, m);
  }

  lemma Associate(a: real, b: real, c: real)
    ensures Times(Times(a, b), c) == Times(a, Times(b, c))
  {
  }

  /** All numbers that arise while a subject is priced with a valid, fitting model. */
  ghost predicate StaysFinite(m: CompiledModel, d: Dimensions, t: TokenInput) {
    var unscaled, base := UnscaledCost(Clamp(t), m.prices), Cost(t, m.prices);
    && Counted(unscaled) && unscaled.total <= MAX_FLOAT64
    && Counted(base) && base.total <= MAX_FLOAT64
    && (forall n :: 0 <= n <= |m.rules| ==> 0.0 <= PartialProduct(m.rules, d, n) <= MAX_FLOAT64)
    && Counted(Scale(base, RuleMultiplier(m.rules, d))) && Scale(base, RuleMultiplier(m.rules, d)).total <= MAX_FLOAT64
  }

  lemma ProductsFinite(m: CompiledModel, d: Dimensions, n: nat)
    requires RulesValid(m.rules) && n <= |m.rules|
    ensures 0.0 <= PartialProduct(m.rules, d, n) <= ProductFor(m.rules, FIELDS)
  {
    forall f: Field
      ensures f in FIELDS
    {
      FieldListed(f);
    }
    PartialProductBounded(m.rules, d, n, FIELDS);
    ProductOverAll(m.rules, MatchedFields(m.rules, d, n), FIELDS);
  }

  lemma FittingStaysFinite(m: CompiledModel, d: Dimensions, t: TokenInput)
    requires RulesValid(m.rules) && PricesValid(m.prices) && WorstCaseFits(m.prices, m.rules) && Int64Tokens(t)
    requires ModelMultiplier(m.prices) != 0.0
    ensures StaysFinite(m, d, t)
  {
    var p, mm, all := m.prices, ModelMultiplier(m.prices), ProductFor(m.rules, FIELDS);
    var unscaled, rm := UnscaledCost(Clamp(t), p), RuleMultiplier(m.rules, d);
    UnscaledBound(t, p);
    WorstTotalIsSum(p, 1.0);
    ScaleCounted(unscaled, mm);
    forall n | 0 <= n <= |m.rules|
      ensures 0.0 <= PartialProduct(m.rules, d, n) <= all
    {
      ProductsFinite(m, d, n);
    }
    assert m.rules[0..] == m.rules;
    MultiplierIsProduct(m.rules, d, 0, 1.0);
    ScaleCounted(Scale(unscaled, mm), rm);
    WorstTotalIsSum(p, Times(mm, all));
    // the total is at most the worst sum, scaled by at most the full product
    MultiplyMonotone(unscaled.total, mm, WorstSum(p), mm);
    MultiplyMonotone(Times(unscaled.total, mm), rm, Times(WorstSum(p), mm), all);
    Associate(WorstSum(p), mm, all);
    MultiplyMonotone(Times(unscaled.total, mm), 1.0, Times(WorstSum(p), mm), all);
  }
}
