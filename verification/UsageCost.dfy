/** Four-part token cost in exact arithmetic over 64-bit token counts. */
module UsageCost {
  import opened Wrappers
  import opened Varint

  const MAX_INT64 := TWO_63 - 1

  /** Two's complement wrap-around of 64-bit addition and subtraction. */
  function Wrap(v: int): (r: Int64)
    ensures -TWO_63 <= v < TWO_63 ==> r == v
  {
    (v + TWO_63) % TWO_64 - TWO_63
  }

  function Times(a: real, b: real): real {
    a * b
  }

  datatype TokenInput = TokenInput(input: int, output: int, cacheRead: int, cacheCreation: int)

  datatype Breakdown = Breakdown(uncached: real, cacheRead: real, cacheWrite: real, output: real, total: real)

  datatype Prices = Prices(prompt: real, completion: real, cacheRead: real, cacheWrite: real, multiplier: Option<real>)

  const NO_COST := Breakdown(0.0, 0.0, 0.0, 0.0, 0.0)

  predicate RequiresPricing(t: TokenInput) {
    t.input > 0 || t.output > 0 || t.cacheRead > 0 || t.cacheCreation > 0
  }

  function AtLeastZero(v: int): nat {
    if v < 0 then 0 else v
  }

  function Clamp(t: TokenInput): TokenInput {
    TokenInput(AtLeastZero(t.input), AtLeastZero(t.output), AtLeastZero(t.cacheRead), AtLeastZero(t.cacheCreation))
  }

  function PerMillion(tokens: int): real {
    tokens as real / 1_000_000.0
  }

  /** Input not read from or written to the cache; the two subtractions wrap. */
  function UncachedInput(t: TokenInput): nat {
    AtLeastZero(Wrap(Wrap(t.input - t.cacheRead) - t.cacheCreation))
  }

  function UnscaledCost(t: TokenInput, p: Prices): Breakdown {
    var uncached := Times(PerMillion(UncachedInput(t)), p.prompt);
    var cacheRead := Times(PerMillion(t.cacheRead), p.cacheRead);
    var cacheWrite := Times(PerMillion(t.cacheCreation), p.cacheWrite);
    var output := Times(PerMillion(t.output), p.completion);
    Breakdown(uncached, cacheRead, cacheWrite, output, uncached + cacheRead + cacheWrite + output)
  }

  function Scale(b: Breakdown, m: real): Breakdown {
    Breakdown(Times(b.uncached, m), Times(b.cacheRead, m), Times(b.cacheWrite, m), Times(b.output, m), Times(b.total, m))
  }

  function ModelMultiplier(p: Prices): real {
    match p.multiplier
    case None => 1.0
    case Some(m) => m
  }

  function Cost(t: TokenInput, p: Prices): Breakdown {
    if ModelMultiplier(p) == 0.0 then NO_COST else Scale(UnscaledCost(Clamp(t), p), ModelMultiplier(p))
  }

  // ----- additivity -----

  /** Token counts whose cost adds up: nothing is negative and the cached parts are
      parts of the input. */
  predicate Additive(input: int, output: int, cacheRead: int, cacheCreation: int, total: int) {
    && input >= 0 && output >= 0 && cacheRead >= 0 && cacheCreation >= 0 && total >= 0
    && cacheRead <= input && cacheCreation <= input - cacheRead
  }

  predicate AdditiveInput(t: TokenInput) {
    Additive(t.input, t.output, t.cacheRead, t.cacheCreation, 0) && t.input <= MAX_INT64
  }

  function Together(a: TokenInput, b: TokenInput): TokenInput {
    TokenInput(a.input + b.input, a.output + b.output, a.cacheRead + b.cacheRead, a.cacheCreation + b.cacheCreation)
  }

  lemma Distribute(a: real, b: real, p: real)
    ensures Times(a + b, p) == Times(a, p) + Times(b, p)
  {
  }

  lemma UnscaledAdds(a: TokenInput, b: TokenInput, p: Prices)
    requires AdditiveInput(a) && AdditiveInput(b) && AdditiveInput(Together(a, b))
    ensures UnscaledCost(Together(a, b), p).total == UnscaledCost(a, p).total + UnscaledCost(b, p).total
  {
    var ab := Together(a, b);
    assert UncachedInput(ab) == UncachedInput(a) + UncachedInput(b);
    assert PerMillion(UncachedInput(ab)) == PerMillion(UncachedInput(a)) + PerMillion(UncachedInput(b));
    Distribute(PerMillion(UncachedInput(a)), PerMillion(UncachedInput(b)), p.prompt);
    Distribute(PerMillion(a.cacheRead), PerMillion(b.cacheRead), p.cacheRead);
    Distribute(PerMillion(a.cacheCreation), PerMillion(b.cacheCreation), p.cacheWrite);
    Distribute(PerMillion(a.output), PerMillion(b.output), p.completion);
  }

  /** Priced together or apart, additive counts cost the same. */
  lemma CostAdds(a: TokenInput, b: TokenInput, p: Prices)
    requires AdditiveInput(a) && AdditiveInput(b) && AdditiveInput(Together(a, b))
    ensures Cost(Together(a, b), p).total == Cost(a, p).total + Cost(b, p).total
  {
    assert Clamp(a) == a && Clamp(b) == b && Clamp(Together(a, b)) == Together(a, b);
    UnscaledAdds(a, b, p);
    Distribute(UnscaledCost(a, p).total, UnscaledCost(b, p).total, ModelMultiplier(p));
  }

  /** For clamped counts the subtractions are exact as long as their result is a 64-bit
      number; the largest cache counts together already leave that range. */
  lemma UncachedInputExact(t: TokenInput)
    requires 0 <= t.input <= MAX_INT64 && 0 <= t.cacheRead <= MAX_INT64 && 0 <= t.cacheCreation <= MAX_INT64
    ensures UncachedInput(t) == AtLeastZero(t.input - t.cacheRead - t.cacheCreation) <==> -TWO_63 <= t.input - t.cacheRead - t.cacheCreation
    ensures UncachedInput(t) >= AtLeastZero(t.input - t.cacheRead - t.cacheCreation)
  {
  }

  /** Outside the guard the wrap-around is real: with both cache counts at the maximum
      two uncached input tokens appear out of none. */
  lemma UncachedInputWraps()
    ensures UncachedInput(TokenInput(0, 0, MAX_INT64, MAX_INT64)) == 2
  {
  }
}
