/** The logarithmic buckets of the latency sketch in exact arithmetic: bucket `k`
    holds the values above GAMMA^(k-1) and up to GAMMA^k. */
module LogBuckets {
  const RELATIVE_ACCURACY: real := 0.01
  const GAMMA: real := (1.0 + RELATIVE_ACCURACY) / (1.0 - RELATIVE_ACCURACY)

  function Pow(k: int): (p: real)
    ensures 0.0 < p
    decreases if k < 0 then -k else k
  {
    if k == 0 then 1.0
    else if k > 0 then GAMMA * Pow(k - 1)
    else Pow(k + 1) / GAMMA
  }

  lemma PowStep(k: int)
    ensures Pow(k + 1) == GAMMA * Pow(k)
  {
  }

  lemma {:induction false} PowMonotone(j: int, k: int)
    requires j < k
    ensures Pow(j) < Pow(k)
    decreases k - j
  {
    hide Pow;
    PowRises(k - 1);
    if j < k - 1 {
      PowMonotone(j, k - 1);
    }
  }

  lemma PowRises(k: int)
    ensures Pow(k) < Pow(k + 1)
  {
    PowStep(k);
    hide Pow;
    TimesGamma(Pow(k));
  }

  lemma TimesGamma(x: real)
    requires 0.0 < x
    ensures x < GAMMA * x
  {
  }

  /** The boundaries outgrow every value. */
  lemma {:induction false} PowGrows(k: nat)
    ensures 1.0 + (k as real) * 2.0 / 99.0 <= Pow(k)
  {
    if k > 0 {
      PowGrows(k - 1);
      PowStep(k - 1);
    }
  }

  predicate InBucket(v: int, k: int) {
    Pow(k - 1) < v as real <= Pow(k)
  }

  /** ceil(log v / log GAMMA), found by walking the boundaries up from bucket `k`. */
  function KeyFrom(v: int, k: nat): (key: nat)
    requires 1 <= v && Pow(k - 1) < v as real
    ensures InBucket(v, key)
    decreases 50 * v - k
  {
    PowGrows(k);
    if v as real <= Pow(k) then k else KeyFrom(v, k + 1)
  }

  function Key(v: int): (key: nat)
    requires 1 <= v
    ensures InBucket(v, key)
  {
    assert Pow(-1) < 1.0;
    KeyFrom(v, 0)
  }

  /** The buckets do not overlap and follow the order of the values. */
  lemma KeyOrder(v: int, w: int, j: int, k: int)
    requires v <= w && InBucket(v, j) && InBucket(w, k)
    ensures j <= k && (v == w ==> j == k)
  {
    if k < j {
      if k < j - 1 {
        PowMonotone(k, j - 1);
      }
    }
    if v == w && j < k {
      if j < k - 1 {
        PowMonotone(j, k - 1);
      }
    }
  }

  lemma PowNotBelow(k: int, n: nat)
    ensures Pow(k) <= Pow(k + n)
  {
    if n > 0 {
      PowMonotone(k, k + n);
    }
  }

  lemma PowTen(k: int)
    ensures 1.2 * Pow(k) <= Pow(k + 10)
  {
    hide Pow;
    PowStep(k);
    PowStep(k + 1);
    PowStep(k + 2);
    PowStep(k + 3);
    PowStep(k + 4);
    PowStep(k + 5);
    PowStep(k + 6);
    PowStep(k + 7);
    PowStep(k + 8);
    PowStep(k + 9);
  }

  /** Forty buckets more than double the boundary. */
  lemma PowDoubles(k: int)
    ensures 2.0 * Pow(k) <= Pow(k + 40)
  {
    PowTen(k);
    PowTen(k + 10);
    PowTen(k + 20);
    PowTen(k + 30);
  }

  function TwoTo(n: nat): nat {
    if n == 0 then 1 else 2 * TwoTo(n - 1)
  }

  lemma {:induction false} PowPassesTwoTo(n: nat)
    ensures TwoTo(n) as real <= Pow(40 * n)
  {
    if n > 0 {
      PowPassesTwoTo(n - 1);
      PowDoubles(40 * (n - 1));
    }
  }

  lemma TwoToSeven(n: nat)
    ensures TwoTo(n + 7) == 0x80 * TwoTo(n)
  {
    assert TwoTo(n + 7) == 2 * TwoTo(n + 6) == 4 * TwoTo(n + 5) == 8 * TwoTo(n + 4);
    assert TwoTo(n + 4) == 2 * TwoTo(n + 3) == 4 * TwoTo(n + 2) == 8 * TwoTo(n + 1) == 16 * TwoTo(n);
  }

  lemma TwoTo63()
    ensures TwoTo(63) == MAX_INT64 + 1
  {
    TwoToSeven(0);
    TwoToSeven(7);
    TwoToSeven(14);
    TwoToSeven(21);
    TwoToSeven(28);
    TwoToSeven(35);
    TwoToSeven(42);
    TwoToSeven(49);
    TwoToSeven(56);
  }

  /** Every 64-bit value falls into one of the buckets 0 to 2520. */
  lemma KeySmall(v: int)
    requires 1 <= v <= MAX_INT64
    ensures Key(v) <= 2520
  {
    PowPassesTwoTo(63);
    TwoTo63();
    if Key(v) > 2520 {
      PowNotBelow(2520, Key(v) - 1 - 2520);
    }
  }

  function Representative(k: int): (r: real)
    ensures 0.0 < r
  {
    2.0 * Pow(k) / (GAMMA + 1.0)
  }

  /** A bucket's representative is within 1% of every value in the bucket. */
  lemma RepresentativeAccuracy(v: int, k: int)
    requires 1 <= v && InBucket(v, k)
    ensures 0.99 * (v as real) <= Representative(k) <= 1.01 * (v as real)
  {
    PowStep(k - 1);
    assert GAMMA + 1.0 == 200.0 / 99.0;
    assert Representative(k) == Pow(k) * 99.0 / 100.0;
  }

  const MAX_INT64 := 0x7FFF_FFFF_FFFF_FFFF

  /** `math.Round`, then the clamp into 1..MaxInt64. */
  function Rounded(k: int): int {
    var nearest := (Representative(k) + 0.5).Floor;
    if nearest < 1 then 1 else if nearest > MAX_INT64 then MAX_INT64 else nearest
  }

  lemma RoundedAccuracy(v: int, k: int)
    requires 1 <= v <= MAX_INT64 && InBucket(v, k)
    ensures 0.99 * (v as real) - 0.5 <= Rounded(k) as real <= 1.01 * (v as real) + 0.5
  {
    RepresentativeAccuracy(v, k);
  }
}
