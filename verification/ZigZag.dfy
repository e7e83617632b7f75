/** The ZigZag mapping on 64-bit words, with shifts and exclusive or, and the arithmetic
    it amounts to. */
module ZigZag {
  import opened Varint

  type Word = bv64

  const ONES: Word := 0xFFFF_FFFF_FFFF_FFFF
  const SIGN: Word := 0x8000_0000_0000_0000

  /** A word with the copies of its sign bit that an arithmetic shift by 63 leaves. */
  function SignFill(word: Word): Word {
    if word < SIGN then 0 else ONES
  }

  /** The doubled word, complemented for a negative number. */
  function ShiftEncode(word: Word): Word {
    (word << 1) ^ SignFill(word)
  }

  /** The halved word, complemented if the lowest bit is set. */
  function ShiftDecode(word: Word): Word {
    (word >> 1) ^ (0 - (word & 1))
  }

  /** A word as an unsigned number. */
  function Num(word: Word): nat {
    word as int
  }

  /** The number a word stands for in two's complement. */
  function Signed(word: Word): int {
    if word < SIGN then Num(word) else Num(word) - TWO_64
  }

  // ----- words as numbers -----

  lemma Doubled(half: Word)
    requires half < SIGN
    ensures Num(half << 1) == 2 * Num(half) && Num((half << 1) | 1) == 2 * Num(half) + 1
  {
  }

  lemma TopShape(word: Word)
    ensures word >> 1 < SIGN
  {
  }

  lemma EvenShape(word: Word)
    requires word & 1 == 0
    ensures word == (word >> 1) << 1
  {
  }

  lemma OddShape(word: Word)
    requires word & 1 != 0
    ensures word & 1 == 1 && word == ((word >> 1) << 1) | 1
  {
  }

  lemma Shape(word: Word)
    ensures word >> 1 < SIGN
    ensures word & 1 == 0 ==> word == (word >> 1) << 1
    ensures word & 1 != 0 ==> word & 1 == 1 && word == ((word >> 1) << 1) | 1
  {
    TopShape(word);
    if word & 1 == 0 {
      EvenShape(word);
    } else {
      OddShape(word);
    }
  }

  lemma Halved(word: Word)
    ensures Num(word) == if word & 1 == 0 then 2 * Num(word >> 1) else 2 * Num(word >> 1) + 1
  {
    Shape(word);
    Doubled(word >> 1);
    hide Num;
  }

  lemma Literals()
    ensures Num(0) == 0 && Num(ONES) == TWO_64 - 1 && Num(SIGN - 1) == TWO_63 - 1
  {
  }

  /** The word keeps to a mask of ones up to some bit and zeros from there on. */
  predicate Under(word: Word, mask: Word) {
    mask & (mask + 1) == 0 && word & mask == word
  }

  lemma UnderHalves(word: Word, mask: Word)
    requires Under(word, mask) && mask != 0
    ensures mask & 1 != 0 && mask >> 1 < mask && Under(word >> 1, mask >> 1)
  {
  }

  lemma XorHalves(word: Word, mask: Word)
    ensures (word ^ mask) >> 1 == (word >> 1) ^ (mask >> 1)
    ensures mask & 1 != 0 ==> ((word ^ mask) & 1 == 0 <==> word & 1 != 0)
  {
  }

  lemma NothingUnder(word: Word)
    requires Under(word, 0)
    ensures word == 0 && word ^ 0 == 0
  {
  }

  lemma {:induction false} SubtractHalves(word: Word, mask: Word)
    requires Num((word >> 1) ^ (mask >> 1)) == Num(mask >> 1) - Num(word >> 1) && mask & 1 != 0
    ensures Num(word ^ mask) == Num(mask) - Num(word)
  {
    Halved(word);
    Halved(mask);
    Halved(word ^ mask);
    hide Num;
    XorHalves(word, mask);
  }

  /** Complementing a word under a mask subtracts it from the mask. */
  lemma {:induction false} Complement(word: Word, mask: Word)
    requires Under(word, mask)
    ensures Num(word ^ mask) == Num(mask) - Num(word)
    decreases mask
  {
    hide Num;
    hide Under;
    if mask == 0 {
      NothingUnder(word);
      Literals();
    } else {
      UnderHalves(word, mask);
      Complement(word >> 1, mask >> 1);
      SubtractHalves(word, mask);
    }
  }

  lemma UnderOnes(word: Word)
    ensures Under(word, ONES)
  {
  }

  lemma UnderSign(word: Word)
    requires word < SIGN
    ensures Under(word, SIGN - 1)
  {
  }

  lemma SignFlips(word: Word)
    ensures word < SIGN <==> word ^ ONES >= SIGN
  {
  }

  lemma Flipped(word: Word)
    ensures Num(word ^ ONES) == TWO_64 - 1 - Num(word)
  {
    hide Num;
    hide Under;
    Literals();
    UnderOnes(word);
    Complement(word, ONES);
  }

  lemma BelowSign(word: Word)
    requires word < SIGN
    ensures Num(word) < TWO_63
  {
    hide Num;
    hide Under;
    Literals();
    UnderSign(word);
    Complement(word, SIGN - 1);
  }

  lemma {:induction false} SignedRange(word: Word)
    ensures -TWO_63 <= Signed(word) < TWO_63 && Num(word) < TWO_64
  {
    hide Num;
    hide Under;
    SignFlips(word);
    Flipped(word);
    if word < SIGN {
      BelowSign(word);
    } else {
      BelowSign(word ^ ONES);
    }
  }

  // ----- the arithmetic -----

  lemma EncodedBits(word: Word)
    ensures word < SIGN ==> ShiftEncode(word) == word << 1
    ensures word >= SIGN ==> ShiftEncode(word) == ((word ^ ONES) << 1) | 1
  {
  }

  lemma DecodedBits(word: Word)
    ensures word & 1 == 0 ==> ShiftDecode(word) == word >> 1
    ensures word & 1 != 0 ==> ShiftDecode(word) == (word >> 1) ^ ONES
  {
    Shape(word);
  }

  /** Encoding by shifts is the arithmetic mapping of the number the word stands for. */
  lemma {:induction false} EncodeIsZigZag(word: Word)
    ensures -TWO_63 <= Signed(word) < TWO_63
    ensures Num(ShiftEncode(word)) == ZigZagEncode(Signed(word))
  {
    hide Num;
    hide Under;
    hide ShiftEncode;
    SignedRange(word);
    EncodedBits(word);
    if word < SIGN {
      Doubled(word);
    } else {
      SignFlips(word);
      Flipped(word);
      Doubled(word ^ ONES);
    }
  }

  lemma {:induction false} SignedHalf(half: Word)
    requires half < SIGN
    ensures Signed(half) == Num(half) && Signed(half ^ ONES) == -1 - Num(half)
  {
    hide Num;
    hide Under;
    SignFlips(half);
    Flipped(half);
  }

  lemma HalfOf(n: nat, half: int, even: bool)
    requires n < TWO_64 && n == if even then 2 * half else 2 * half + 1
    ensures ZigZagDecode(n) == if even then half else -half - 1
  {
  }

  /** Decoding by shifts likewise. */
  lemma {:induction false} DecodeIsZigZag(word: Word)
    ensures Num(word) < TWO_64
    ensures Signed(ShiftDecode(word)) == ZigZagDecode(Num(word))
  {
    hide Num;
    hide ShiftDecode;
    SignedRange(word);
    DecodedBits(word);
    Halved(word);
    Shape(word);
    SignedHalf(word >> 1);
    hide Signed;
    hide ZigZagDecode;
    HalfOf(Num(word), Num(word >> 1), word & 1 == 0);
  }

  /** Shifting back and forth loses nothing. */
  lemma {:induction false} ShiftRoundTrip(word: Word)
    ensures ShiftDecode(ShiftEncode(word)) == word && ShiftEncode(ShiftDecode(word)) == word
  {
    ShiftBack(word);
    ShiftForth(word);
  }

  lemma ShiftBack(word: Word)
    ensures ShiftDecode(ShiftEncode(word)) == word
  {
    EncodedBits(word);
    DecodedBits(ShiftEncode(word));
    hide ShiftEncode;
    hide ShiftDecode;
    if word < SIGN {
      DoubledBack(word);
    } else {
      SignFlips(word);
      DoubledBack(word ^ ONES);
    }
  }

  lemma DoubledBack(half: Word)
    requires half < SIGN
    ensures (half << 1) & 1 == 0 && (half << 1) >> 1 == half
    ensures ((half << 1) | 1) & 1 == 1 && ((half << 1) | 1) >> 1 == half
    ensures (half ^ ONES) ^ ONES == half
  {
  }

  lemma ShiftForth(word: Word)
    ensures ShiftEncode(ShiftDecode(word)) == word
  {
    Shape(word);
    DecodedBits(word);
    EncodedBits(ShiftDecode(word));
    SignFlips(word >> 1);
    DoubledBack(word >> 1);
    hide ShiftEncode;
    hide ShiftDecode;
  }
}
