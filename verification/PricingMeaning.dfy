/** What a usage costs, said in prices, counts and multipliers alone. */
module PricingMeaning {
  import opened Wrappers
  import opened Varint
  import opened UsageCost
  import opened PricingRules
  import opened PricingSafety

  /** The count of a kind of token; negative counts are none. */
  function Counted(v: int): real {
    if v < 0 then 0.0 else v as real
  }

  /** The multipliers of all rules whose field has the rule's value, multiplied. */
  function RulesProduct(rules: seq<Rule>, d: Dimensions): real {
    if rules == [] then 1.0
    else
      var last := rules[|rules| - 1];
      Times(RulesProduct(rules[..|rules| - 1], d), if d.Value(last.field) == last.value then last.multiplier else 1.0)
  }

  /** What prices are multiplied with: the model's multiplier, or one, and the rules'. */
  function Factor(m: CompiledModel, d: Dimensions): real {
    Times(if m.prices.multiplier.Some? then m.prices.multiplier.value else 1.0, RulesProduct(m.rules, d))
  }

  /** The model a usage is priced by: its own name before its alias. */
  function PricedBy(s: Snapshot, d: Dimensions): Option<CompiledModel> {
    if d.model in s.models then Some(s.models[d.model])
    else if d.modelAlias in s.models then Some(s.models[d.modelAlias])
    else None
  }

  // ----- products -----

  lemma {:induction false} ProductOfPrefix(rules: seq<Rule>, d: Dimensions, n: nat)
    requires n <= |rules|
    ensures RulesProduct(rules[..n], d) == PartialProduct(rules, d, n)
  {
    if n > 0 {
      ProductOfPrefix(rules, d, n - 1);
      assert rules[..n][..n - 1] == rules[..n - 1];
    }
  }

  lemma {:induction false} ProductUsed(rules: seq<Rule>, d: Dimensions)
    ensures RuleMultiplier(rules, d) == RulesProduct(rules, d)
  {
    MultiplierIsProduct(rules, d, 0, 1.0);
    ProductOfPrefix(rules, d, |rules|);
    assert rules[0..] == rules && rules[..|rules|] == rules;
  }

  lemma Cleared(count: real, price: real)
    ensures Times(count / 1_000_000.0, price) * 1_000_000.0 == Times(count, price)
  {
  }

  lemma Scaled(x: real, y: real, m: real)
    requires x * 1_000_000.0 == y
    ensures Times(x, m) * 1_000_000.0 == Times(y, m)
  {
    assert x * m * 1_000_000.0 == (x * 1_000_000.0) * m;
  }

  lemma TimesTogether(x: real, mm: real, rm: real)
    ensures Times(Times(x, mm), rm) == Times(x, Times(mm, rm))
    ensures Times(x, Times(0.0, rm)) == 0.0
  {
  }

  /** One segment: the price of a million, for its share of a million, times both multipliers. */
  lemma {:induction false} SegmentMeans(count: real, price: real, mm: real, rm: real)
    ensures Times(Times(Times(count / 1_000_000.0, price), mm), rm) * 1_000_000.0 == Times(Times(count, price), Times(mm, rm))
    ensures mm == 0.0 ==> Times(Times(count, price), Times(mm, rm)) == 0.0
  {
    Cleared(count, price);
    TimesTogether(Times(count, price), mm, rm);
    hide Times;
    Scaled(Times(count / 1_000_000.0, price), Times(count, price), mm);
    Scaled(Times(Times(count / 1_000_000.0, price), mm), Times(Times(count, price), mm), rm);
  }

  lemma {:induction false} TotalMeans(a: real, b: real, c: real, d: real, mm: real, rm: real)
    ensures Times(Times(a + b + c + d, mm), rm) ==
              Times(Times(a, mm), rm) + Times(Times(b, mm), rm) + Times(Times(c, mm), rm) + Times(Times(d, mm), rm)
  {
    FourTimes(a, b, c, d, mm);
    FourTimes(Times(a, mm), Times(b, mm), Times(c, mm), Times(d, mm), rm);
    hide Times;
  }

  lemma FourTimes(a: real, b: real, c: real, d: real, m: real)
    ensures Times(a + b + c + d, m) == Times(a, m) + Times(b, m) + Times(c, m) + Times(d, m)
  {
    Distribute(a + b + c, d, m);
    Distribute(a + b, c, m);
    Distribute(a, b, m);
    hide Times;
  }

  // ----- what a usage costs -----

  /** The four segments times a million, and their sum. */
  ghost predicate Priced(b: Breakdown, uncached: real, t: TokenInput, p: Prices, factor: real) {
    && b.uncached * 1_000_000.0 == Times(Times(uncached, p.prompt), factor)
    && b.cacheRead * 1_000_000.0 == Times(Times(Counted(t.cacheRead), p.cacheRead), factor)
    && b.cacheWrite * 1_000_000.0 == Times(Times(Counted(t.cacheCreation), p.cacheWrite), factor)
    && b.output * 1_000_000.0 == Times(Times(Counted(t.output), p.completion), factor)
    && b.total == b.uncached + b.cacheRead + b.cacheWrite + b.output
  }

  lemma {:induction false} QuoteMeans(s: Snapshot, d: Dimensions, t: TokenInput, m: CompiledModel)
    requires PricedBy(s, d) == Some(m)
    ensures Priced(Calculate(s, d, t).cost, UncachedInput(Clamp(t)) as real, t, m.prices, Factor(m, d))
  {
    hide RulesProduct;
    hide RuleMultiplier;
    hide UncachedInput;
    hide Times;
    var mm, rm, p, c := ModelMultiplier(m.prices), RuleMultiplier(m.rules, d), m.prices, Clamp(t);
    ProductUsed(m.rules, d);
    SegmentMeans(UncachedInput(c) as real, p.prompt, mm, rm);
    SegmentMeans(Counted(t.cacheRead), p.cacheRead, mm, rm);
    SegmentMeans(Counted(t.cacheCreation), p.cacheWrite, mm, rm);
    SegmentMeans(Counted(t.output), p.completion, mm, rm);
    TotalMeans(Times(PerMillion(UncachedInput(c)), p.prompt), Times(PerMillion(c.cacheRead), p.cacheRead),
               Times(PerMillion(c.cacheCreation), p.cacheWrite), Times(PerMillion(c.output), p.completion), mm, rm);
  }

  /** A priced usage: every kind of token costs its own price per million, times the
      model's multiplier and those of the rules that match; input that went through the
      cache is not charged twice. */
  lemma {:induction false} UsagePriced(s: Snapshot, d: Dimensions, t: TokenInput, m: CompiledModel)
    requires PricedBy(s, d) == Some(m) && Int64Tokens(t)
    requires -TWO_63 <= Clamp(t).input - Clamp(t).cacheRead - Clamp(t).cacheCreation
    ensures var r := Calculate(s, d, t);
            var input := Counted(t.input) - Counted(t.cacheRead) - Counted(t.cacheCreation);
            && r.available && r.matched
            && Priced(r.cost, if input < 0.0 then 0.0 else input, t, m.prices, Factor(m, d))
  {
    hide Priced;
    hide Factor;
    hide UncachedInput;
    QuoteMeans(s, d, t, m);
    UncachedInputExact(Clamp(t));
    assert Calculate(s, d, t).available && Calculate(s, d, t).matched;
  }

  /** A usage no model is named for costs nothing, and is fully priced only if it used nothing. */
  lemma {:induction false} UsageUnpriced(s: Snapshot, d: Dimensions, t: TokenInput)
    requires PricedBy(s, d).None?
    ensures var r := Calculate(s, d, t);
            && !r.matched && r.cost == Breakdown(0.0, 0.0, 0.0, 0.0, 0.0)
            && (r.available <==> t.input <= 0 && t.output <= 0 && t.cacheRead <= 0 && t.cacheCreation <= 0)
  {
  }

  lemma SegmentOfMillion(x: real, price: real, f: real)
    ensures x * 1_000_000.0 == Times(Times(1_000_000.0, price), f) ==> x == Times(price, f)
    ensures x * 1_000_000.0 == Times(Times(0.0, price), f) ==> x == 0.0
  {
    assert Times(Times(1_000_000.0, price), f) == 1_000_000.0 * Times(price, f);
    assert Times(0.0, price) == 0.0;
  }

  /** A million tokens of one kind cost that kind's price, times the multipliers. */
  lemma {:induction false} MillionOfOneKind(s: Snapshot, d: Dimensions, m: CompiledModel)
    requires PricedBy(s, d) == Some(m)
    ensures Calculate(s, d, TokenInput(1_000_000, 0, 0, 0)).cost.total == Times(m.prices.prompt, Factor(m, d))
    ensures Calculate(s, d, TokenInput(1_000_000, 0, 1_000_000, 0)).cost.total == Times(m.prices.cacheRead, Factor(m, d))
    ensures Calculate(s, d, TokenInput(1_000_000, 0, 0, 1_000_000)).cost.total == Times(m.prices.cacheWrite, Factor(m, d))
    ensures Calculate(s, d, TokenInput(0, 1_000_000, 0, 0)).cost.total == Times(m.prices.completion, Factor(m, d))
  {
    hide Calculate;
    hide Factor;
    hide Times;
    MillionOf(s, d, m, TokenInput(1_000_000, 0, 0, 0));
    MillionOf(s, d, m, TokenInput(1_000_000, 0, 1_000_000, 0));
    MillionOf(s, d, m, TokenInput(1_000_000, 0, 0, 1_000_000));
    MillionOf(s, d, m, TokenInput(0, 1_000_000, 0, 0));
  }

  /** The part of the cost of a million tokens, or of none. */
  function Share(tokens: int, price: real, factor: real): real {
    if tokens == 1_000_000 then Times(price, factor) else 0.0
  }

  lemma {:induction false} MillionOf(s: Snapshot, d: Dimensions, m: CompiledModel, t: TokenInput)
    requires PricedBy(s, d) == Some(m)
    requires t.input in {0, 1_000_000} && t.output in {0, 1_000_000} && t.cacheRead in {0, 1_000_000} && t.cacheCreation in {0, 1_000_000}
    ensures var f := Factor(m, d);
            Calculate(s, d, t).cost.total ==
              Share(t.input - t.cacheRead - t.cacheCreation, m.prices.prompt, f) + Share(t.cacheRead, m.prices.cacheRead, f)
              + Share(t.cacheCreation, m.prices.cacheWrite, f) + Share(t.output, m.prices.completion, f)
  {
    hide Calculate;
    hide Factor;
    hide Times;
    UsagePriced(s, d, t, m);
    var r, f := Calculate(s, d, t).cost, Factor(m, d);
    SegmentOfMillion(r.uncached, m.prices.prompt, f);
    SegmentOfMillion(r.cacheRead, m.prices.cacheRead, f);
    SegmentOfMillion(r.cacheWrite, m.prices.cacheWrite, f);
    SegmentOfMillion(r.output, m.prices.completion, f);
  }
}
