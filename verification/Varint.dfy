/** Base 128 varints as Go's encoding/binary writes and reads them, and the ZigZag
    mapping of signed keys. */
module Varint {
  import opened Wrappers

  type Byte = b: int | 0 <= b < 0x100

  const TWO_64 := 0x1_0000_0000_0000_0000
  const TWO_63 := 0x8000_0000_0000_0000
  const MAX_UVARINT_BYTES := 10

  type UInt64 = v: int | 0 <= v < 0x1_0000_0000_0000_0000
  type Int64 = v: int | -0x8000_0000_0000_0000 <= v < 0x8000_0000_0000_0000

  function AppendUvarint(v: nat): (r: seq<Byte>)
    ensures 1 <= |r|
  {
    if v < 0x80 then [v] else [v % 0x80 + 0x80] + AppendUvarint(v / 0x80)
  }

  /** Reads on from `offset`, where `read` bytes of the same number have gone
      before. The tenth byte may only carry the top bit, and there is no eleventh. */
  function ReadFrom(data: seq<Byte>, offset: nat, read: nat): (r: Result<(nat, nat)>)
    ensures r.Ok? ==> offset < r.value.1 <= |data|
    decreases |data| - offset
  {
    if offset >= |data| || read == MAX_UVARINT_BYTES then Err
    else if data[offset] < 0x80 then
      if read == MAX_UVARINT_BYTES - 1 && data[offset] > 1 then Err
      else Ok((data[offset], offset + 1))
    else
      match ReadFrom(data, offset + 1, read + 1)
      case Err => Err
      case Ok((high, next)) => Ok((data[offset] - 0x80 + 0x80 * high, next))
  }

  function ReadUvarint(data: seq<Byte>, offset: nat): (r: Result<(nat, nat)>)
    ensures r.Ok? ==> offset < r.value.1 <= |data|
  {
    ReadFrom(data, offset, 0)
  }

  /** One more than the largest number the bytes behind the first `read` can hold. */
  function Capacity(read: nat): (c: nat)
    requires read < MAX_UVARINT_BYTES
    ensures 2 <= c
    decreases MAX_UVARINT_BYTES - read
  {
    if read == MAX_UVARINT_BYTES - 1 then 2 else 0x80 * Capacity(read + 1)
  }

  lemma CapacityIsWord()
    ensures Capacity(0) == TWO_64
  {
    assert Capacity(7) == 0x8000;
    assert Capacity(5) == 0x80 * 0x80 * 0x8000;
    assert Capacity(3) == 0x80 * 0x80 * 0x80 * 0x80 * 0x8000;
  }

  lemma {:induction false} ReadFits(data: seq<Byte>, offset: nat, read: nat)
    requires read < MAX_UVARINT_BYTES
    ensures ReadFrom(data, offset, read).Ok? ==> ReadFrom(data, offset, read).value.0 < Capacity(read)
    decreases |data| - offset
  {
    if offset < |data| && data[offset] >= 0x80 && read < MAX_UVARINT_BYTES - 1 {
      ReadFits(data, offset + 1, read + 1);
    } else if read < MAX_UVARINT_BYTES - 1 {
      assert 0x80 <= Capacity(read);
    } else if offset < |data| && data[offset] >= 0x80 {
      assert ReadFrom(data, offset + 1, MAX_UVARINT_BYTES).Err?;
    }
  }

  /** Whatever is read fits in an unsigned 64-bit word. */
  lemma ReadUvarintFits(data: seq<Byte>, offset: nat)
    ensures ReadUvarint(data, offset).Ok? ==> ReadUvarint(data, offset).value.0 < TWO_64
  {
    ReadFits(data, offset, 0);
    CapacityIsWord();
  }

  /** The bytes `part` stand in `data` from `offset` on. */
  ghost predicate StandsAt(data: seq<Byte>, offset: nat, part: seq<Byte>) {
    offset + |part| <= |data| && forall i :: 0 <= i < |part| ==> part[i] == data[offset + i]
  }

  lemma StandsAtSplit(data: seq<Byte>, offset: nat, left: seq<Byte>, right: seq<Byte>)
    requires StandsAt(data, offset, left + right)
    ensures StandsAt(data, offset, left) && StandsAt(data, offset + |left|, right)
  {
    var both := left + right;
    assert forall i :: 0 <= i < |left| ==> left[i] == both[i];
    assert forall i :: 0 <= i < |right| ==> right[i] == both[|left| + i];
  }

  lemma StandsAtJoin(data: seq<Byte>, offset: nat, left: seq<Byte>, right: seq<Byte>)
    ensures StandsAt(data, offset, left + right) <==> StandsAt(data, offset, left) && StandsAt(data, offset + |left|, right)
  {
    if StandsAt(data, offset, left + right) {
      StandsAtSplit(data, offset, left, right);
    }
  }

  lemma {:induction false} ReadAppended(v: nat, data: seq<Byte>, offset: nat, read: nat)
    requires read < MAX_UVARINT_BYTES && v < Capacity(read)
    requires StandsAt(data, offset, AppendUvarint(v))
    ensures ReadFrom(data, offset, read) == Ok((v, offset + |AppendUvarint(v)|))
    decreases v
  {
    assert data[offset] == AppendUvarint(v)[0];
    if v >= 0x80 {
      StandsAtSplit(data, offset, [v % 0x80 + 0x80], AppendUvarint(v / 0x80));
      ReadAppended(v / 0x80, data, offset + 1, read + 1);
    }
  }

  /** Reading back what was appended, wherever it stands, yields the value and
      stops at the first byte behind it. */
  lemma UvarintRoundTrip(v: UInt64, data: seq<Byte>, offset: nat)
    requires StandsAt(data, offset, AppendUvarint(v))
    ensures ReadUvarint(data, offset) == Ok((v as nat, offset + |AppendUvarint(v)|))
  {
    CapacityIsWord();
    ReadAppended(v, data, offset, 0);
  }

  // ----- numbers as an appender writes them -----

  /** The number read there takes no more bytes than it needs: the last byte of a longer
      one is not zero. */
  predicate MinimalAt(data: seq<Byte>, offset: nat) {
    var r := ReadUvarint(data, offset);
    r.Ok? && (r.value.1 == offset + 1 || data[r.value.1 - 1] != 0)
  }

  lemma {:induction false} LastByteCounts(data: seq<Byte>, offset: nat, read: nat)
    requires ReadFrom(data, offset, read).Ok?
    ensures var (v, next) := ReadFrom(data, offset, read).value;
            (data[next - 1] != 0 ==> v != 0) && (v == 0 && next > offset + 1 ==> data[next - 1] == 0)
    decreases |data| - offset
  {
    if data[offset] >= 0x80 {
      LastByteCounts(data, offset + 1, read + 1);
    }
  }

  lemma DigitsOf(low: nat, high: nat, v: nat)
    requires low < 0x80 && v == low + 0x80 * high
    ensures v % 0x80 == low && v / 0x80 == high
  {
  }

  lemma {:induction false} AppendDigits(b: Byte, high: nat)
    requires 0x80 <= b
    ensures AppendUvarint(b - 0x80 + 0x80 * high) == if high == 0 then [b - 0x80] else [b] + AppendUvarint(high)
  {
    DigitsOf(b - 0x80, high, b - 0x80 + 0x80 * high);
  }

  lemma {:induction false} StandsBehind(data: seq<Byte>, offset: nat, rest: seq<Byte>)
    requires offset < |data| && StandsAt(data, offset + 1, rest)
    ensures StandsAt(data, offset, [data[offset]] + rest)
  {
  }

  /** Reading `v`, the bytes are those appended for `v` exactly if none is spared. */
  lemma {:induction false} MinimalFrom(data: seq<Byte>, offset: nat, read: nat)
    requires ReadFrom(data, offset, read).Ok?
    ensures var (v, next) := ReadFrom(data, offset, read).value;
            if next == offset + 1 || data[next - 1] != 0 then StandsAt(data, offset, AppendUvarint(v)) && next == offset + |AppendUvarint(v)|
            else |AppendUvarint(v)| < next - offset
    decreases |data| - offset
  {
    if data[offset] >= 0x80 {
      var (high, next) := ReadFrom(data, offset + 1, read + 1).value;
      MinimalFrom(data, offset + 1, read + 1);
      LastByteCounts(data, offset + 1, read + 1);
      AppendDigits(data[offset], high);
      hide AppendUvarint;
      if data[next - 1] != 0 {
        StandsBehind(data, offset, AppendUvarint(high));
      }
      hide StandsAt;
    }
  }

  lemma {:induction false} MinimalIsAppended(data: seq<Byte>, offset: nat)
    requires ReadUvarint(data, offset).Ok?
    ensures var (v, next) := ReadUvarint(data, offset).value;
            && (MinimalAt(data, offset) <==> StandsAt(data, offset, AppendUvarint(v)))
            && (MinimalAt(data, offset) ==> next == offset + |AppendUvarint(v)|)
  {
    MinimalFrom(data, offset, 0);
    ReadUvarintFits(data, offset);
    var v: UInt64 := ReadUvarint(data, offset).value.0;
    if StandsAt(data, offset, AppendUvarint(v)) {
      UvarintRoundTrip(v, data, offset);
    }
  }

  /** All numbers from there to the end. */
  predicate AllMinimal(data: seq<Byte>, offset: nat)
    decreases |data| - offset
  {
    offset >= |data| || (MinimalAt(data, offset) && AllMinimal(data, ReadUvarint(data, offset).value.1))
  }

  /** So all are minimal exactly if the first was appended and the rest are minimal. */
  lemma {:induction false} AllMinimalStep(data: seq<Byte>, offset: nat)
    requires ReadUvarint(data, offset).Ok?
    ensures var (v, next) := ReadUvarint(data, offset).value;
            && (AllMinimal(data, offset) <==> StandsAt(data, offset, AppendUvarint(v)) && AllMinimal(data, next))
            && (StandsAt(data, offset, AppendUvarint(v)) ==> next == offset + |AppendUvarint(v)|)
  {
    MinimalIsAppended(data, offset);
    hide ReadUvarint;
  }

  /** Numbers not negative to even ones, negative ones to odd ones, the small first. */
  function ZigZagEncode(value: Int64): (r: UInt64) {
    if value >= 0 then 2 * value else -2 * value - 1
  }

  /** And back. */
  function ZigZagDecode(value: UInt64): (r: Int64) {
    if value % 2 == 0 then value / 2 else -(value / 2) - 1
  }

  lemma ZigZagRoundTrip(value: Int64, word: UInt64)
    ensures ZigZagDecode(ZigZagEncode(value)) == value
    ensures ZigZagEncode(ZigZagDecode(word)) == word
  {
  }
}
