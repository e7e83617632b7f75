/** The stored bytes themselves. */
module CodecMeaning {
  import opened Varint
  import opened Records
  import opened SamplePoints
  import opened LatencySketch
  import SampleCodec
  import SketchCodec

  /** Seven bits a byte, the lowest first. */
  function SevenBits(bytes: seq<Byte>): int {
    if bytes == [] then 0 else bytes[0] % 128 + 128 * SevenBits(bytes[1..])
  }

  /** A number is its groups of seven bits, the lowest first; the high bit says that
      another byte follows, and no byte is spent on leading zeros. */
  lemma {:induction false} NumberBytes(v: nat)
    ensures var bytes := AppendUvarint(v);
            && bytes != [] && SevenBits(bytes) == v
            && (forall i :: 0 <= i < |bytes| - 1 ==> 128 <= bytes[i])
            && bytes[|bytes| - 1] < 128 && (1 < |bytes| ==> bytes[|bytes| - 1] != 0)
  {
    if v >= 128 {
      NumberBytes(v / 128);
      var rest := AppendUvarint(v / 128);
      assert AppendUvarint(v)[1..] == rest;
    } else {
      assert AppendUvarint(v)[1..] == [];
    }
  }

  /** A sample of one point with small numbers: version, count, and the point's event,
      priority and two times. */
  lemma {:induction false} PointBytes(p: SamplePoint)
    requires 0 <= p.eventID < 128 && 0 <= p.priority < 128 && 0 <= p.ttftMS < 128 && 0 <= p.latencyMS < 128
    ensures SampleCodec.Encode([p]) == [1, 1, p.eventID, p.priority, p.ttftMS, p.latencyMS]
  {
    assert [p][1..] == [];
    assert EncodeMany([p], SampleCodec.EncodePoint) == SampleCodec.EncodePoint(p) + EncodeMany([], SampleCodec.EncodePoint);
  }

  /** A sketch of one small bin: version, count, key with its sign in the lowest bit, and
      how many values are in it. */
  lemma {:induction false} BinBytes(b: Bin)
    requires -64 <= b.key < 64 && b.count < 128
    ensures SketchCodec.Encode([b]) == [1, 1, if 0 <= b.key then 2 * b.key else -2 * b.key - 1, b.count]
  {
    assert [b][1..] == [];
    assert EncodeMany([b], SketchCodec.EncodeBin) == SketchCodec.EncodeBin(b) + EncodeMany([], SketchCodec.EncodeBin);
  }
}
