/** The binary form of a sketch: version, bin count, then key and count of every
    bin in strictly increasing key order. */
module SketchCodec {
  import opened Wrappers
  import opened Varint
  import opened Records
  import opened MapSums
  import opened LatencySketch

  function EncodeBin(b: Bin): seq<Byte> {
    var key := if -TWO_63 <= b.key < TWO_63 then b.key else 0;
    AppendUvarint(ZigZagEncode(key)) + AppendUvarint(b.count)
  }

  function DecodeBin(data: seq<Byte>, offset: nat): Result<(Bin, nat)> {
    match ReadUvarint(data, offset)
    case Err => Err
    case Ok((word, atCount)) =>
      ReadUvarintFits(data, offset);
      match ReadUvarint(data, atCount)
      case Err => Err
      case Ok((count, next)) => Ok((Bin(ZigZagDecode(word), count), next))
  }

  function BinDecoder(): Decoder<Bin> {
    (data, offset) => DecodeBin(data, offset)
  }

  function TotalOf(bins: seq<Bin>): nat {
    if bins == [] then 0 else TotalOf(bins[..|bins| - 1]) + bins[|bins| - 1].count
  }

  /** A bin must have a larger key than the bin before it, a positive count, and
      keep the row's total within 64 bits. */
  predicate Fits(done: seq<Bin>, b: Bin) {
    && (done == [] || done[|done| - 1].key < b.key)
    && 0 < b.count && TotalOf(done) + b.count <= MAX_UINT64
  }

  function Decode(data: seq<Byte>): (r: Result<seq<Bin>>) {
    DecodeList(data, FORMAT_VERSION, MAX_UINT64, BinDecoder(), Fits)
  }

  /** The bin loop: an offset and a running total moved over the bytes. */
  method WalkBins(data: seq<Byte>, start: nat, count: nat) returns (r: Result<(seq<Bin>, nat)>, total: nat)
    ensures r == DecodeMany(data, start, count, [], BinDecoder(), Fits)
    ensures r.Ok? ==> total == TotalOf(r.value.0)
  {
    hide DecodeMany;
    hide DecodeBin;
    total := 0;
    var offset := start;
    var visited: seq<Bin> := [];
    var previousKey := 0;
    var index := 0;
    while index < count
      invariant index <= count && |visited| == index && total == TotalOf(visited)
      invariant index > 0 ==> previousKey == visited[index - 1].key
      invariant DecodeMany(data, start, count, [], BinDecoder(), Fits)
             == DecodeMany(data, offset, count - index, visited, BinDecoder(), Fits)
    {
      DecodeManyStep(data, offset, count - index, visited, BinDecoder(), Fits);
      var step := DecodeBin(data, offset);
      if step.Err? {
        return Err, 0;
      }
      var bin := step.value.0;
      if (index > 0 && bin.key <= previousKey) || bin.count == 0 || total + bin.count > MAX_UINT64 {
        return Err, 0;
      }
      assert (visited + [bin])[..index] == visited;
      visited := visited + [bin];
      total := total + bin.count;
      previousKey := bin.key;
      offset := step.value.1;
      index := index + 1;
    }
    DecodeManyDone(data, offset, visited, BinDecoder(), Fits);
    r := Ok((visited, offset));
  }

  method WalkSketch(data: seq<Byte>) returns (r: Result<seq<Bin>>, total: nat)
    ensures r == Decode(data)
    ensures r.Ok? ==> total == TotalOf(r.value)
  {
    if |data| == 0 {
      return Err, 0;
    }
    if data[0] != FORMAT_VERSION {
      return Err, 0;
    }
    var header := ReadUvarint(data, 1);
    ReadUvarintFits(data, 1);
    if header.Err? {
      return Err, 0;
    }
    var walked, sum := WalkBins(data, header.value.1, header.value.0);
    if walked.Err? || walked.value.1 != |data| {
      return Err, 0;
    }
    return Ok(walked.value.0), sum;
  }

  // ----- the map a list of bins stands for -----

  function MapOf(bins: seq<Bin>): Bins {
    if bins == [] then map[]
    else MapOf(bins[..|bins| - 1])[bins[|bins| - 1].key := bins[|bins| - 1].count]
  }

  ghost predicate Legal(bins: seq<Bin>) {
    Accepted(bins, Fits)
  }

  lemma {:induction false} LegalMap(bins: seq<Bin>)
    requires Legal(bins)
    ensures Sum(MapOf(bins)) == TotalOf(bins) <= MAX_UINT64
    ensures forall k :: k in MapOf(bins) ==> 0 < MapOf(bins)[k]
    ensures bins != [] ==> forall k :: k in MapOf(bins) ==> k <= bins[|bins| - 1].key
    decreases |bins|
  {
    if bins != [] {
      var n := |bins| - 1;
      var most, last := bins[..n], bins[n];
      assert Legal(most) by {
        forall i | 0 <= i < n
          ensures Fits(most[..i], most[i])
        {
          assert most[..i] == bins[..i] && Fits(bins[..i], bins[i]);
        }
      }
      LegalMap(most);
      assert Fits(most, last);
      SumUpdate(MapOf(most), last.key, last.count);
    } else {
      assert MapOf(bins) == map[];
    }
  }

  /** Decoded bins are legal, so their total fits and no bin is empty. */
  lemma DecodeLegal(data: seq<Byte>)
    ensures Decode(data).Ok? ==> Legal(Decode(data).value)
  {
    DecodeListAccepted(data, FORMAT_VERSION, MAX_UINT64, BinDecoder(), Fits);
  }

  // ----- round trip -----

  ghost function Encode(bins: seq<Bin>): (data: seq<Byte>) {
    EncodeList(bins, FORMAT_VERSION, EncodeBin)
  }

  ghost predicate InWord(b: Bin) {
    -TWO_63 <= b.key < TWO_63 && b.count <= MAX_UINT64
  }

  lemma DecodeEncodedBin(b: Bin, data: seq<Byte>, offset: nat)
    requires InWord(b) && StandsAt(data, offset, EncodeBin(b))
    ensures DecodeBin(data, offset) == Ok((b, offset + |EncodeBin(b)|))
  {
    var key, count := AppendUvarint(ZigZagEncode(b.key)), AppendUvarint(b.count);
    StandsAtSplit(data, offset, key, count);
    UvarintRoundTrip(ZigZagEncode(b.key), data, offset);
    UvarintRoundTrip(b.count, data, offset + |key|);
    ZigZagRoundTrip(b.key, 0);
  }

  lemma DecodersUndo(bins: seq<Bin>, data: seq<Byte>)
    requires forall i :: 0 <= i < |bins| ==> InWord(bins[i])
    ensures forall i :: 0 <= i < |bins| ==> Undoes(data, bins[i], BinDecoder(), EncodeBin)
  {
    forall i, o: nat | 0 <= i < |bins| && StandsAt(data, o, EncodeBin(bins[i]))
      ensures BinDecoder()(data, o) == Ok((bins[i], o + |EncodeBin(bins[i])|))
    {
      DecodeEncodedBin(bins[i], data, o);
    }
  }

  /** Decoding encoded bins gives them back. */
  lemma RoundTrip(bins: seq<Bin>)
    requires Legal(bins) && |bins| <= MAX_UINT64 && forall i :: 0 <= i < |bins| ==> InWord(bins[i])
    ensures Decode(Encode(bins)) == Ok(bins)
  {
    DecodersUndo(bins, Encode(bins));
    FormatRoundTrip(bins, FORMAT_VERSION, MAX_UINT64, BinDecoder(), EncodeBin, Fits);
  }

  // ----- the encoder's own bytes -----

  lemma {:induction false} BinMinimal(data: seq<Byte>, offset: nat)
    requires DecodeBin(data, offset).Ok?
    ensures var (b, next) := DecodeBin(data, offset).value;
            && (AllMinimal(data, offset) <==> StandsAt(data, offset, EncodeBin(b)) && AllMinimal(data, next))
            && (StandsAt(data, offset, EncodeBin(b)) ==> next == offset + |EncodeBin(b)|) && next <= |data|
  {
    var (word, atCount) := ReadUvarint(data, offset).value;
    var (count, next) := ReadUvarint(data, atCount).value;
    ReadUvarintFits(data, offset);
    ZigZagRoundTrip(0, word);
    AllMinimalStep(data, offset);
    AllMinimalStep(data, atCount);
    hide AllMinimal;
    hide StandsAt;
    hide ReadUvarint;
    StandsAtJoin(data, offset, AppendUvarint(word), AppendUvarint(count));
  }

  /** Accepted bytes are the encoder's own exactly if none of their numbers is padded. */
  lemma {:induction false} OwnBytesAreMinimal(data: seq<Byte>)
    requires Decode(data).Ok?
    ensures data == Encode(Decode(data).value) <==> AllMinimal(data, 1)
  {
    forall o: nat | BinDecoder()(data, o).Ok?
      ensures var (b, next) := BinDecoder()(data, o).value;
              && (AllMinimal(data, o) <==> StandsAt(data, o, EncodeBin(b)) && AllMinimal(data, next))
              && (StandsAt(data, o, EncodeBin(b)) ==> next == o + |EncodeBin(b)|) && next <= |data|
    {
      BinMinimal(data, o);
    }
    hide DecodeBin;
    FormatMinimal(data, FORMAT_VERSION, MAX_UINT64, BinDecoder(), EncodeBin, Fits);
  }
}
