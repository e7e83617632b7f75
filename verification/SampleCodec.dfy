/** The binary form of a sample set: version, count, then four varints a point,
    in strictly increasing order. */
module SampleCodec {
  import opened Wrappers
  import opened Varint
  import opened Records
  import opened SamplePoints

  const FORMAT_VERSION: Byte := 1
  const MAX_ENCODED_SAMPLE_POINTS := 2500

  ghost predicate StrictlySorted(ps: seq<SamplePoint>) {
    forall i, j :: 0 <= i < j < |ps| ==>
      ps[i].priority < ps[j].priority || (ps[i].priority == ps[j].priority && ps[i].eventID < ps[j].eventID)
  }

  ghost predicate AllWellFormed(ps: seq<SamplePoint>, prio: int -> UInt64) {
    forall i :: 0 <= i < |ps| ==> WellFormed(ps[i], prio)
  }

  function Uvarint(v: int): seq<Byte> {
    AppendUvarint(if v < 0 then 0 else v)
  }

  function EncodePoint(p: SamplePoint): seq<Byte> {
    Uvarint(p.eventID) + Uvarint(p.priority) + Uvarint(p.ttftMS) + Uvarint(p.latencyMS)
  }

  ghost function Encode(ps: seq<SamplePoint>): (data: seq<Byte>) {
    EncodeList(ps, FORMAT_VERSION, EncodePoint)
  }

  function ReadPositiveInt64(data: seq<Byte>, offset: nat): (r: Result<(nat, nat)>)
    ensures r.Ok? ==> 0 < r.value.0 < TWO_63
  {
    match ReadUvarint(data, offset)
    case Err => Err
    case Ok((value, next)) => if value == 0 || value >= TWO_63 then Err else Ok((value, next))
  }

  function DecodePoint(data: seq<Byte>, offset: nat, prio: int -> UInt64): (r: Result<(SamplePoint, nat)>)
    ensures r.Ok? ==> WellFormed(r.value.0, prio)
  {
    match ReadPositiveInt64(data, offset)
    case Err => Err
    case Ok((eventID, atPriority)) =>
      match ReadUvarint(data, atPriority)
      case Err => Err
      case Ok((priority, atTTFT)) =>
        match ReadPositiveInt64(data, atTTFT)
        case Err => Err
        case Ok((ttft, atLatency)) =>
          match ReadPositiveInt64(data, atLatency)
          case Err => Err
          case Ok((latency, next)) =>
            if priority != prio(eventID) then Err
            else Ok((SamplePoint(eventID, priority, ttft, latency), next))
  }

  function PointDecoder(prio: int -> UInt64): Decoder<SamplePoint> {
    (data, offset) => DecodePoint(data, offset, prio)
  }

  /** A point must rank strictly behind the point before it. */
  predicate InOrder(done: seq<SamplePoint>, p: SamplePoint) {
    done == [] || Less(done[|done| - 1], p)
  }

  function Decode(data: seq<Byte>, prio: int -> UInt64): (r: Result<seq<SamplePoint>>) {
    DecodeList(data, FORMAT_VERSION, MAX_ENCODED_SAMPLE_POINTS, PointDecoder(prio), InOrder)
  }

  /** The point loop of the decoder: an offset moved over the bytes. */
  method WalkPoints(data: seq<Byte>, start: nat, count: nat, prio: int -> UInt64) returns (r: Result<(seq<SamplePoint>, nat)>)
    ensures r == DecodeMany(data, start, count, [], PointDecoder(prio), InOrder)
  {
    hide DecodeMany;
    hide DecodePoint;
    hide Less;
    var offset := start;
    var visited: seq<SamplePoint> := [];
    var index := 0;
    while index < count
      invariant index <= count && |visited| == index
      invariant DecodeMany(data, start, count, [], PointDecoder(prio), InOrder)
             == DecodeMany(data, offset, count - index, visited, PointDecoder(prio), InOrder)
    {
      DecodeManyStep(data, offset, count - index, visited, PointDecoder(prio), InOrder);
      var step := PointDecoder(prio)(data, offset);
      if step.Err? {
        return Err;
      }
      var point := step.value.0;
      if index > 0 && !Less(visited[index - 1], point) {
        return Err;
      }
      visited := visited + [point];
      offset := step.value.1;
      index := index + 1;
    }
    DecodeManyDone(data, offset, visited, PointDecoder(prio), InOrder);
    return Ok((visited, offset));
  }

  method WalkSampleSet(data: seq<Byte>, prio: int -> UInt64) returns (r: Result<seq<SamplePoint>>)
    ensures r == Decode(data, prio)
  {
    if |data| == 0 {
      return Err;
    }
    if data[0] != FORMAT_VERSION {
      return Err;
    }
    var header := ReadUvarint(data, 1);
    if header.Err? || header.value.0 > MAX_ENCODED_SAMPLE_POINTS {
      return Err;
    }
    var walked := WalkPoints(data, header.value.1, header.value.0, prio);
    if walked.Err? || walked.value.1 != |data| {
      return Err;
    }
    return Ok(walked.value.0);
  }

  // ----- what decoding accepts -----

  lemma {:induction false} InOrderSorts(ps: seq<SamplePoint>, i: nat, j: nat)
    requires Accepted(ps, InOrder) && i < j < |ps|
    ensures Less(ps[i], ps[j])
    decreases j
  {
    assert InOrder(ps[..j], ps[j]);
    if i < j - 1 {
      InOrderSorts(ps, i, j - 1);
    }
  }

  /** Accepted bytes always hold distinct, ordered, well-formed points. */
  lemma DecodeSorted(data: seq<Byte>, prio: int -> UInt64)
    ensures Decode(data, prio).Ok? ==>
              var ps := Decode(data, prio).value;
              StrictlySorted(ps) && AllWellFormed(ps, prio) && |ps| <= 2500
  {
    if Decode(data, prio).Ok? {
      var ps := Decode(data, prio).value;
      DecodeListAccepted(data, FORMAT_VERSION, MAX_ENCODED_SAMPLE_POINTS, PointDecoder(prio), InOrder);
      DecodeListFromOne(data, FORMAT_VERSION, MAX_ENCODED_SAMPLE_POINTS, PointDecoder(prio), InOrder, p => WellFormed(p, prio));
      forall i, j | 0 <= i < j < |ps|
        ensures Less(ps[i], ps[j])
      {
        InOrderSorts(ps, i, j);
      }
    }
  }

  // ----- round trip -----

  lemma DecodeEncodedPoint(p: SamplePoint, data: seq<Byte>, offset: nat, prio: int -> UInt64)
    requires WellFormed(p, prio) && StandsAt(data, offset, EncodePoint(p))
    ensures DecodePoint(data, offset, prio) == Ok((p, offset + |EncodePoint(p)|))
  {
    hide StandsAt;
    hide AppendUvarint;
    hide ReadUvarint;
    var a, b, c, d := AppendUvarint(p.eventID), AppendUvarint(p.priority), AppendUvarint(p.ttftMS), AppendUvarint(p.latencyMS);
    StandsAtSplit(data, offset, a + b + c, d);
    StandsAtSplit(data, offset, a + b, c);
    StandsAtSplit(data, offset, a, b);
    UvarintRoundTrip(p.eventID, data, offset);
    UvarintRoundTrip(p.priority, data, offset + |a|);
    UvarintRoundTrip(p.ttftMS, data, offset + |a + b|);
    UvarintRoundTrip(p.latencyMS, data, offset + |a + b + c|);
  }

  lemma DecodersUndo(ps: seq<SamplePoint>, data: seq<Byte>, prio: int -> UInt64)
    requires AllWellFormed(ps, prio)
    ensures forall i :: 0 <= i < |ps| ==> Undoes(data, ps[i], PointDecoder(prio), EncodePoint)
  {
    forall i, o: nat | 0 <= i < |ps| && StandsAt(data, o, EncodePoint(ps[i]))
      ensures PointDecoder(prio)(data, o) == Ok((ps[i], o + |EncodePoint(ps[i])|))
    {
      DecodeEncodedPoint(ps[i], data, o, prio);
    }
  }

  lemma SortedInOrder(ps: seq<SamplePoint>)
    requires StrictlySorted(ps)
    ensures Accepted(ps, InOrder)
  {
  }

  /** Decoding an encoded set gives back its points. */
  lemma RoundTrip(ps: seq<SamplePoint>, prio: int -> UInt64)
    requires StrictlySorted(ps) && AllWellFormed(ps, prio) && |ps| <= 2500
    ensures Decode(Encode(ps), prio) == Ok(ps)
  {
    DecodersUndo(ps, Encode(ps), prio);
    SortedInOrder(ps);
    FormatRoundTrip(ps, FORMAT_VERSION, MAX_ENCODED_SAMPLE_POINTS, PointDecoder(prio), EncodePoint, InOrder);
  }

  // ----- the encoder's own bytes -----

  lemma {:induction false} PointMinimal(data: seq<Byte>, offset: nat, prio: int -> UInt64)
    requires DecodePoint(data, offset, prio).Ok?
    ensures var (p, next) := DecodePoint(data, offset, prio).value;
            && (AllMinimal(data, offset) <==> StandsAt(data, offset, EncodePoint(p)) && AllMinimal(data, next))
            && (StandsAt(data, offset, EncodePoint(p)) ==> next == offset + |EncodePoint(p)|) && next <= |data|
  {
    hide AppendUvarint;
    hide MinimalAt;
    var (eventID, atPriority) := ReadUvarint(data, offset).value;
    var (priority, atTTFT) := ReadUvarint(data, atPriority).value;
    var (ttft, atLatency) := ReadUvarint(data, atTTFT).value;
    var (latency, next) := ReadUvarint(data, atLatency).value;
    AllMinimalStep(data, offset);
    AllMinimalStep(data, atPriority);
    AllMinimalStep(data, atTTFT);
    AllMinimalStep(data, atLatency);
    hide AllMinimal;
    hide StandsAt;
    hide ReadUvarint;
    var a, b, c, d := AppendUvarint(eventID), AppendUvarint(priority), AppendUvarint(ttft), AppendUvarint(latency);
    StandsAtJoin(data, offset, a + b + c, d);
    StandsAtJoin(data, offset, a + b, c);
    StandsAtJoin(data, offset, a, b);
  }

  /** Accepted bytes are the encoder's own exactly if none of their numbers is padded. */
  lemma {:induction false} OwnBytesAreMinimal(data: seq<Byte>, prio: int -> UInt64)
    requires Decode(data, prio).Ok?
    ensures data == Encode(Decode(data, prio).value) <==> AllMinimal(data, 1)
  {
    forall o: nat | PointDecoder(prio)(data, o).Ok?
      ensures var (p, next) := PointDecoder(prio)(data, o).value;
              && (AllMinimal(data, o) <==> StandsAt(data, o, EncodePoint(p)) && AllMinimal(data, next))
              && (StandsAt(data, o, EncodePoint(p)) ==> next == o + |EncodePoint(p)|) && next <= |data|
    {
      PointMinimal(data, o, prio);
    }
    hide DecodePoint;
    FormatMinimal(data, FORMAT_VERSION, MAX_ENCODED_SAMPLE_POINTS, PointDecoder(prio), EncodePoint, InOrder);
  }

  /** Strict as it is, the decoder accepts a count padded with a zero byte, so
      accepted bytes are not always the bytes an encoder would write. */
  lemma PaddedCountAccepted(prio: int -> UInt64)
    ensures Decode([1, 0x80, 0], prio) == Ok([]) && Encode([]) == [1, 0]
  {
    var data: seq<Byte> := [1, 0x80, 0];
    assert ReadFrom(data, 2, 1) == Ok((0, 3));
  }
}
