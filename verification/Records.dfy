/** Decoding a counted list of records one behind the other. A record is taken
    only if it is acceptable behind those taken before it. */
module Records {
  import opened Wrappers
  import opened Varint

  type Decoder<!T> = (seq<Byte>, nat) -> Result<(T, nat)>

  /** Decodes `left` more records behind those already in `done`. */
  function DecodeMany<T>(data: seq<Byte>, offset: nat, left: nat, done: seq<T>, one: Decoder<T>, accept: (seq<T>, T) -> bool): (r: Result<(seq<T>, nat)>)
    decreases left
  {
    if left == 0 then Ok((done, offset))
    else
      match one(data, offset)
      case Err => Err
      case Ok((record, next)) =>
        if !accept(done, record) then Err
        else DecodeMany(data, next, left - 1, done + [record], one, accept)
  }

  ghost function EncodeMany<T>(records: seq<T>, encode: T -> seq<Byte>): seq<Byte> {
    if records == [] then [] else encode(records[0]) + EncodeMany(records[1..], encode)
  }

  lemma {:induction false} EncodeManyAppend<T>(records: seq<T>, last: T, encode: T -> seq<Byte>)
    ensures EncodeMany(records + [last], encode) == EncodeMany(records, encode) + encode(last)
  {
    if records == [] {
      assert records + [last] == [last];
      assert EncodeMany([last], encode) == encode(last) + EncodeMany([], encode);
    } else {
      assert (records + [last])[1..] == records[1..] + [last];
      EncodeManyAppend(records[1..], last, encode);
    }
  }

  /** One record taken, or the decoding over. */
  lemma {:induction false} DecodeManyStep<T>(data: seq<Byte>, offset: nat, left: nat, done: seq<T>, one: Decoder<T>, accept: (seq<T>, T) -> bool)
    requires left > 0
    ensures DecodeMany(data, offset, left, done, one, accept) ==
              var step := one(data, offset);
              if step.Err? || !accept(done, step.value.0) then Err
              else DecodeMany(data, step.value.1, left - 1, done + [step.value.0], one, accept)
  {
  }

  lemma {:induction false} DecodeManyDone<T>(data: seq<Byte>, offset: nat, done: seq<T>, one: Decoder<T>, accept: (seq<T>, T) -> bool)
    ensures DecodeMany(data, offset, 0, done, one, accept) == Ok((done, offset))
  {
  }

  /** Every record is acceptable behind the ones before it. */
  ghost predicate Accepted<T>(done: seq<T>, accept: (seq<T>, T) -> bool) {
    forall i {:trigger done[..i]} :: 0 <= i < |done| ==> accept(done[..i], done[i])
  }

  lemma AcceptedMore<T>(done: seq<T>, record: T, accept: (seq<T>, T) -> bool)
    requires Accepted(done, accept) && accept(done, record)
    ensures Accepted(done + [record], accept)
  {
    var more := done + [record];
    forall i | 0 <= i < |more|
      ensures accept(more[..i], more[i])
    {
      assert more[..i] == done[..i];
    }
    assert more[..|done|] == done;
  }

  /** What is decoded was accepted record by record, and is as long as announced. */
  lemma {:induction false} DecodeManyAccepted<T>(data: seq<Byte>, offset: nat, left: nat, done: seq<T>, one: Decoder<T>, accept: (seq<T>, T) -> bool)
    requires Accepted(done, accept)
    ensures var r := DecodeMany(data, offset, left, done, one, accept);
            r.Ok? ==> Accepted(r.value.0, accept) && |r.value.0| == |done| + left && done <= r.value.0
    decreases left
  {
    if left > 0 {
      var step := one(data, offset);
      if step.Ok? && accept(done, step.value.0) {
        AcceptedMore(done, step.value.0, accept);
        DecodeManyAccepted(data, step.value.1, left - 1, done + [step.value.0], one, accept);
      }
    }
  }

  /** Each decoded record came out of the one-record decoder. */
  lemma {:induction false} DecodeManyFromOne<T(!new)>(data: seq<Byte>, offset: nat, left: nat, done: seq<T>, one: Decoder<T>, accept: (seq<T>, T) -> bool, ok: T -> bool)
    requires forall o: nat :: one(data, o).Ok? ==> ok(one(data, o).value.0)
    requires forall i :: 0 <= i < |done| ==> ok(done[i])
    ensures var r := DecodeMany(data, offset, left, done, one, accept);
            r.Ok? ==> forall i :: 0 <= i < |r.value.0| ==> ok(r.value.0[i])
    decreases left
  {
    if left > 0 {
      var step := one(data, offset);
      if step.Ok? && accept(done, step.value.0) {
        DecodeManyFromOne(data, step.value.1, left - 1, done + [step.value.0], one, accept, ok);
      }
    }
  }

  /** The one-record decoder undoes the encoder wherever the record stands. */
  ghost predicate Undoes<T>(data: seq<Byte>, record: T, one: Decoder<T>, encode: T -> seq<Byte>) {
    forall o: nat :: StandsAt(data, o, encode(record)) ==> one(data, o) == Ok((record, o + |encode(record)|))
  }

  lemma {:induction false} EncodeManyFrom<T>(records: seq<T>, from: nat, encode: T -> seq<Byte>)
    requires from < |records|
    ensures EncodeMany(records[from..], encode) == encode(records[from]) + EncodeMany(records[from + 1..], encode)
  {
    assert records[from..][1..] == records[from + 1..];
  }

  lemma {:induction false} TakeRecord<T>(data: seq<Byte>, offset: nat, records: seq<T>, from: nat, next: nat, one: Decoder<T>, accept: (seq<T>, T) -> bool)
    requires from < |records| && one(data, offset) == Ok((records[from], next)) && accept(records[..from], records[from])
    ensures DecodeMany(data, offset, |records| - from, records[..from], one, accept) ==
              DecodeMany(data, next, |records| - (from + 1), records[..from + 1], one, accept)
  {
    assert records[..from] + [records[from]] == records[..from + 1];
  }

  lemma {:induction false} DecodeEncodedMany<T>(records: seq<T>, from: nat, data: seq<Byte>, offset: nat, one: Decoder<T>, encode: T -> seq<Byte>, accept: (seq<T>, T) -> bool)
    requires from <= |records| && Accepted(records, accept)
    requires forall i :: 0 <= i < |records| ==> Undoes(data, records[i], one, encode)
    requires StandsAt(data, offset, EncodeMany(records[from..], encode))
    ensures DecodeMany(data, offset, |records| - from, records[..from], one, accept)
         == Ok((records, offset + |EncodeMany(records[from..], encode)|))
    decreases |records| - from
  {
    hide DecodeMany;
    hide EncodeMany;
    hide StandsAt;
    if from == |records| {
      assert records[..from] == records && records[from..] == [];
      EncodeNone<T>(encode);
      DecodeManyDone(data, offset, records, one, accept);
    } else {
      var record := records[from];
      EncodeManyFrom(records, from, encode);
      StandsAtSplit(data, offset, encode(record), EncodeMany(records[from + 1..], encode));
      assert Undoes(data, record, one, encode) && accept(records[..from], record);
      TakeRecord(data, offset, records, from, offset + |encode(record)|, one, accept);
      hide Undoes;
      hide Accepted;
      DecodeEncodedMany(records, from + 1, data, offset + |encode(record)|, one, encode, accept);
    }
  }

  lemma EncodeNone<T>(encode: T -> seq<Byte>)
    ensures EncodeMany([], encode) == []
  {
  }

  /** Decoding a whole encoded list gives back its records and stops behind it. */
  lemma ListRoundTrip<T>(records: seq<T>, data: seq<Byte>, offset: nat, one: Decoder<T>, encode: T -> seq<Byte>, accept: (seq<T>, T) -> bool)
    requires Accepted(records, accept)
    requires forall i :: 0 <= i < |records| ==> Undoes(data, records[i], one, encode)
    requires StandsAt(data, offset, EncodeMany(records, encode))
    ensures DecodeMany(data, offset, |records|, [], one, accept) == Ok((records, offset + |EncodeMany(records, encode)|))
  {
    assert records[0..] == records && records[..0] == [];
    DecodeEncodedMany(records, 0, data, offset, one, encode, accept);
  }

  /** A version byte, a count, and the records. */
  function Frame(version: Byte, count: nat, body: seq<Byte>): (data: seq<Byte>)
    ensures Framed(data, version, count, body)
  {
    var data := [version] + (AppendUvarint(count) + body);
    assert StandsAt(data, 1, AppendUvarint(count) + body);
    StandsAtSplit(data, 1, AppendUvarint(count), body);
    data
  }

  ghost predicate Framed(data: seq<Byte>, version: Byte, count: nat, body: seq<Byte>) {
    && 1 + |AppendUvarint(count)| + |body| == |data|
    && data[0] == version
    && StandsAt(data, 1, AppendUvarint(count))
    && StandsAt(data, 1 + |AppendUvarint(count)|, body)
  }

  lemma HeaderRoundTrip(data: seq<Byte>, version: Byte, count: UInt64, body: seq<Byte>)
    requires Framed(data, version, count, body)
    ensures ReadUvarint(data, 1) == Ok((count as nat, 1 + |AppendUvarint(count)|))
  {
    UvarintRoundTrip(count, data, 1);
  }

  /** The whole format: a known version, a count within `limit`, that many records,
      and nothing behind them. */
  function DecodeList<T>(data: seq<Byte>, version: Byte, limit: nat, one: Decoder<T>, accept: (seq<T>, T) -> bool): (r: Result<seq<T>>) {
    if data == [] || data[0] != version then Err
    else
      match ReadUvarint(data, 1)
      case Err => Err
      case Ok((count, offset)) =>
        if count > limit then Err
        else
          match DecodeMany(data, offset, count, [], one, accept)
          case Err => Err
          case Ok((records, end)) => if end != |data| then Err else Ok(records)
  }

  ghost function EncodeList<T>(records: seq<T>, version: Byte, encode: T -> seq<Byte>): (data: seq<Byte>)
    ensures Framed(data, version, |records|, EncodeMany(records, encode))
  {
    Frame(version, |records|, EncodeMany(records, encode))
  }

  lemma DecodeListAccepted<T>(data: seq<Byte>, version: Byte, limit: nat, one: Decoder<T>, accept: (seq<T>, T) -> bool)
    ensures var r := DecodeList(data, version, limit, one, accept);
            r.Ok? ==> Accepted(r.value, accept) && |r.value| <= limit
  {
    if DecodeList(data, version, limit, one, accept).Ok? {
      var (count, offset) := ReadUvarint(data, 1).value;
      DecodeManyAccepted(data, offset, count, [], one, accept);
    }
  }

  lemma DecodeListFromOne<T(!new)>(data: seq<Byte>, version: Byte, limit: nat, one: Decoder<T>, accept: (seq<T>, T) -> bool, ok: T -> bool)
    requires forall o: nat :: one(data, o).Ok? ==> ok(one(data, o).value.0)
    ensures var r := DecodeList(data, version, limit, one, accept);
            r.Ok? ==> forall i :: 0 <= i < |r.value| ==> ok(r.value[i])
  {
    if DecodeList(data, version, limit, one, accept).Ok? {
      var (count, offset) := ReadUvarint(data, 1).value;
      DecodeManyFromOne(data, offset, count, [], one, accept, ok);
    }
  }

  lemma {:induction false} DecodeFramed<T>(
      data: seq<Byte>, version: Byte, limit: nat, body: seq<Byte>, records: seq<T>, one: Decoder<T>, accept: (seq<T>, T) -> bool)
    requires Framed(data, version, |records|, body) && |records| <= limit
    requires var offset := 1 + |AppendUvarint(|records|)|;
             && ReadUvarint(data, 1) == Ok((|records|, offset))
             && DecodeMany(data, offset, |records|, [], one, accept) == Ok((records, offset + |body|))
    ensures DecodeList(data, version, limit, one, accept) == Ok(records)
  {
    hide DecodeMany;
    hide ReadUvarint;
    hide AppendUvarint;
    hide StandsAt;
  }

  lemma {:induction false} FormatRoundTrip<T>(records: seq<T>, version: Byte, limit: UInt64, one: Decoder<T>, encode: T -> seq<Byte>, accept: (seq<T>, T) -> bool)
    requires |records| <= limit && Accepted(records, accept)
    requires forall i :: 0 <= i < |records| ==> Undoes(EncodeList(records, version, encode), records[i], one, encode)
    ensures DecodeList(EncodeList(records, version, encode), version, limit, one, accept) == Ok(records)
  {
    hide DecodeList;
    hide DecodeMany;
    hide EncodeMany;
    hide ReadUvarint;
    hide AppendUvarint;
    hide Undoes;
    hide Accepted;
    hide StandsAt;
    var data, count, body := EncodeList(records, version, encode), |records|, EncodeMany(records, encode);
    HeaderRoundTrip(data, version, count, body);
    ListRoundTrip(records, data, 1 + |AppendUvarint(count)|, one, encode, accept);
    DecodeFramed(data, version, limit, body, records, one, accept);
  }

  // ----- bytes as an encoder writes them -----

  /** A record that was read was written by the encoder exactly if all its numbers are minimal. */
  ghost predicate ReadsMinimal<T>(data: seq<Byte>, one: Decoder<T>, encode: T -> seq<Byte>) {
    forall o: nat :: one(data, o).Ok? ==>
      var (record, next) := one(data, o).value;
      && (AllMinimal(data, o) <==> StandsAt(data, o, encode(record)) && AllMinimal(data, next))
      && (StandsAt(data, o, encode(record)) ==> next == o + |encode(record)|) && next <= |data|
  }

  lemma {:induction false} ManyMinimal<T>(
      data: seq<Byte>, offset: nat, left: nat, done: seq<T>, one: Decoder<T>, encode: T -> seq<Byte>, accept: (seq<T>, T) -> bool)
    requires ReadsMinimal(data, one, encode) && DecodeMany(data, offset, left, done, one, accept).Ok? && offset <= |data|
    ensures var (all, end) := DecodeMany(data, offset, left, done, one, accept).value;
            && done <= all
            && (AllMinimal(data, offset) <==> StandsAt(data, offset, EncodeMany(all[|done|..], encode)) && AllMinimal(data, end))
            && (StandsAt(data, offset, EncodeMany(all[|done|..], encode)) ==> end == offset + |EncodeMany(all[|done|..], encode)|)
    decreases left
  {
    var (all, end) := DecodeMany(data, offset, left, done, one, accept).value;
    if left == 0 {
      assert EncodeMany(all[|done|..], encode) == [];
    } else {
      var (record, next) := one(data, offset).value;
      ManyMinimal(data, next, left - 1, done + [record], one, encode, accept);
      assert all[|done|..] == [record] + all[|done| + 1..];
      StandsAtJoin(data, offset, encode(record), EncodeMany(all[|done| + 1..], encode));
      hide DecodeMany;
      hide StandsAt;
      hide AllMinimal;
    }
  }

  lemma {:induction false} FrameUnique(one: seq<Byte>, other: seq<Byte>, version: Byte, count: nat, body: seq<Byte>)
    requires Framed(one, version, count, body) && Framed(other, version, count, body)
    ensures one == other
  {
    var head := AppendUvarint(count);
    forall i | 0 <= i < |one|
      ensures one[i] == other[i]
    {
      if i == 0 {
      } else if i <= |head| {
        assert one[i] == head[i - 1] == other[i];
      } else {
        assert one[i] == body[i - 1 - |head|] == other[i];
      }
    }
  }

  /** Accepted bytes are the encoder's own exactly if all their numbers are minimal. */
  lemma {:induction false} FormatMinimal<T>(
      data: seq<Byte>, version: Byte, limit: nat, one: Decoder<T>, encode: T -> seq<Byte>, accept: (seq<T>, T) -> bool)
    requires DecodeList(data, version, limit, one, accept).Ok? && ReadsMinimal(data, one, encode)
    ensures var records := DecodeList(data, version, limit, one, accept).value;
            data == EncodeList(records, version, encode) <==> AllMinimal(data, 1)
  {
    var records := DecodeList(data, version, limit, one, accept).value;
    var (count, offset) := ReadUvarint(data, 1).value;
    var own := EncodeList(records, version, encode);
    AllMinimalStep(data, 1);
    ManyMinimal(data, offset, count, [], one, encode, accept);
    DecodeManyAccepted(data, offset, count, [], one, accept);
    assert records[0..] == records;
    hide DecodeMany;
    hide AllMinimal;
    hide StandsAt;
    assert AllMinimal(data, |data|) by {
      NothingLeft(data);
    }
    if AllMinimal(data, 1) {
      FrameUnique(data, own, version, count, EncodeMany(records, encode));
    }
  }

  lemma NothingLeft(data: seq<Byte>)
    ensures AllMinimal(data, |data|)
  {
  }
}
