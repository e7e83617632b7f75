/** Writing commands in, and reading values from, the Redis serialization protocol. */
module Resp {
  import opened Wrappers
  import opened Varint

  type Bytes = seq<Byte>

  const MAX_BULK := 4 * 1024 * 1024
  const MAX_ARRAY := 10_000
  const MAX_TOTAL := 16 * 1024 * 1024
  const MAX_LINE := 4096
  const MAX_DEPTH := 4

  const PLUS: Byte := 43
  const MINUS: Byte := 45
  const DOLLAR: Byte := 36
  const STAR: Byte := 42
  const ZERO: Byte := 48
  const CR: Byte := 13
  const LF: Byte := 10
  const CRLF: Bytes := [13, 10]

  datatype Value = Simple(line: Bytes) | Error(line: Bytes) | Bulk(bytes: Bytes) | Array(items: seq<Value>) | Nil

  // ----- numbers -----

  function Decimal(n: nat): (r: Bytes)
    ensures r != []
  {
    if n < 10 then [ZERO + n] else Decimal(n / 10) + [ZERO + n % 10]
  }

  predicate IsDigit(b: Byte) {
    ZERO <= b <= ZERO + 9
  }

  function DigitsValue(s: Bytes): int {
    if s == [] then 0 else 10 * DigitsValue(s[..|s| - 1]) + (s[|s| - 1] - ZERO)
  }

  predicate AllDigits(s: Bytes) {
    forall i :: 0 <= i < |s| ==> IsDigit(s[i])
  }

  /** A sign if any, at least one digit, and a value that fits 64 bits. */
  function Atoi(s: Bytes): Result<int> {
    var negative := s != [] && s[0] == MINUS;
    var digits := if s != [] && (s[0] == MINUS || s[0] == PLUS) then s[1..] else s;
    if digits == [] || !AllDigits(digits) then Err
    else
      var v := if negative then -DigitsValue(digits) else DigitsValue(digits);
      if -TWO_63 <= v < TWO_63 then Ok(v) else Err
  }

  lemma {:induction false} DecimalDigits(n: nat)
    ensures AllDigits(Decimal(n)) && DigitsValue(Decimal(n)) == n
  {
    if n >= 10 {
      DecimalDigits(n / 10);
      var d := Decimal(n);
      assert d[..|d| - 1] == Decimal(n / 10);
    } else {
      assert [ZERO + n][..0] == [];
    }
  }

  function Pow10(k: nat): nat {
    if k == 0 then 1 else 10 * Pow10(k - 1)
  }

  lemma {:induction false} DecimalLength(n: nat, k: nat)
    requires 0 < k && n < Pow10(k)
    ensures |Decimal(n)| <= k
  {
    assert Pow10(0) == 1;
    if n >= 10 {
      assert k > 1 && n / 10 < Pow10(k - 1);
      DecimalLength(n / 10, k - 1);
    }
  }

  lemma {:induction false} AtoiDecimal(n: nat)
    requires n < TWO_63
    ensures Atoi(Decimal(n)) == Ok(n)
  {
    DecimalDigits(n);
    assert IsDigit(Decimal(n)[0]);
  }

  // ----- writing -----

  function EncodeBulk(part: Bytes): Bytes {
    [DOLLAR] + Decimal(|part|) + CRLF + part + CRLF
  }

  function EncodeBulks(parts: seq<Bytes>): Bytes {
    if parts == [] then [] else EncodeBulks(parts[..|parts| - 1]) + EncodeBulk(parts[|parts| - 1])
  }

  function EncodeCommand(parts: seq<Bytes>): Bytes {
    [STAR] + Decimal(|parts|) + CRLF + EncodeBulks(parts)
  }

  /** The connection's output so far. */
  class Writer {
    var written: Bytes

    constructor ()
      ensures written == []
    {
      written := [];
    }

    method WriteCommand(parts: seq<Bytes>)
      modifies this
      ensures written == old(written) + EncodeCommand(parts)
    {
      hide Decimal;
      written := written + [STAR] + Decimal(|parts|) + CRLF;
      ghost var start := written;
      assert parts[..0] == [];
      for n := 0 to |parts|
        invariant written == start + EncodeBulks(parts[..n])
      {
        written := written + ([DOLLAR] + Decimal(|parts[n]|) + CRLF + parts[n] + CRLF);
        assert parts[..n + 1][..n] == parts[..n];
      }
      assert parts[..|parts|] == parts;
    }
  }

  // ----- reading, as a function of the bytes -----

  datatype Line = Line(line: Bytes, pos: nat)

  /** The position of the next line feed, or the end of the data. */
  function NextLF(data: Bytes, pos: nat): (e: nat)
    requires pos <= |data|
    ensures pos <= e <= |data| && (e < |data| ==> data[e] == LF) && forall i :: pos <= i < e ==> data[i] != LF
    decreases |data| - pos
  {
    if pos == |data| || data[pos] == LF then pos else NextLF(data, pos + 1)
  }

  /** A line of at most so many bytes that ends in CR LF. */
  function ParseLine(data: Bytes, pos: nat): (r: Result<Line>)
    requires pos <= |data|
    ensures r.Ok? ==> pos < r.value.pos <= |data|
  {
    var e := NextLF(data, pos);
    if e == |data| || e + 1 - pos > MAX_LINE || e == pos || data[e - 1] != CR then Err
    else Ok(Line(data[pos..e - 1], e + 1))
  }

  /** A value, where reading goes on, and how many bulk bytes are left to spend. */
  datatype Parsed = Parsed(value: Value, pos: nat, remaining: int)

  function ParseBulk(data: Bytes, pos: nat, remaining: int): (r: Result<Parsed>)
    requires pos <= |data|
    ensures r.Ok? ==> pos <= r.value.pos <= |data|
  {
    match ParseLine(data, pos)
    case Err => Err
    case Ok(line) =>
      match Atoi(line.line)
      case Err => Err
      case Ok(size) =>
        if size < 0 then Ok(Parsed(Nil, line.pos, remaining))
        else if size > MAX_BULK || size > remaining then Err
        else
          var end := line.pos + size;
          if end + 2 > |data| || data[end..end + 2] != CRLF then Err
          else Ok(Parsed(Bulk(data[line.pos..end]), end + 2, remaining - size))
  }

  datatype ParsedItems = ParsedItems(items: seq<Value>, pos: nat, remaining: int)

  function ParseItems(data: Bytes, pos: nat, count: nat, max: nat, remaining: int, depth: nat): (r: Result<ParsedItems>)
    requires pos <= |data|
    ensures r.Ok? ==> pos <= r.value.pos <= |data| && |r.value.items| == count
    decreases MAX_DEPTH + 2 - depth, 1, count
  {
    if count == 0 then Ok(ParsedItems([], pos, remaining))
    else
      match ParseItems(data, pos, count - 1, max, remaining, depth)
      case Err => Err
      case Ok(before) =>
        match ParseValue(data, before.pos, max, before.remaining, depth)
        case Err => Err
        case Ok(p) => Ok(ParsedItems(before.items + [p.value], p.pos, p.remaining))
  }

  function ParseArray(data: Bytes, pos: nat, max: nat, remaining: int, depth: nat): (r: Result<Parsed>)
    requires pos <= |data| && depth <= MAX_DEPTH
    ensures r.Ok? ==> pos <= r.value.pos <= |data|
    decreases MAX_DEPTH + 1 - depth, 2
  {
    match ParseLine(data, pos)
    case Err => Err
    case Ok(line) =>
      match Atoi(line.line)
      case Err => Err
      case Ok(count) =>
        if count < 0 then Ok(Parsed(Nil, line.pos, remaining))
        else if count > max then Err
        else
          match ParseItems(data, line.pos, count, max, remaining, depth + 1)
          case Err => Err
          case Ok(p) => Ok(Parsed(Array(p.items), p.pos, p.remaining))
  }

  function ParseValue(data: Bytes, pos: nat, max: nat, remaining: int, depth: nat): (r: Result<Parsed>)
    requires pos <= |data|
    ensures r.Ok? ==> pos <= r.value.pos <= |data|
    decreases MAX_DEPTH + 2 - depth, 0
  {
    if depth > MAX_DEPTH || pos == |data| then Err
    else if data[pos] == PLUS || data[pos] == MINUS then
      match ParseLine(data, pos + 1)
      case Err => Err
      case Ok(line) => Ok(Parsed(if data[pos] == PLUS then Simple(line.line) else Error(line.line), line.pos, remaining))
    else if data[pos] == DOLLAR then ParseBulk(data, pos + 1, remaining)
    else if data[pos] == STAR then ParseArray(data, pos + 1, max, remaining, depth)
    else Err
  }

  lemma {:induction false} ItemsErr(data: Bytes, pos: nat, n: nat, count: nat, max: nat, remaining: int, depth: nat)
    requires pos <= |data| && n <= count && ParseItems(data, pos, n, max, remaining, depth).Err?
    ensures ParseItems(data, pos, count, max, remaining, depth).Err?
    decreases count
  {
    if n < count {
      ItemsErr(data, pos, n, count - 1, max, remaining, depth);
    }
  }

  // ----- the reader -----

  /** The bytes of the connection and how far they have been read. `remaining` is the
      bulk budget of the value being read. */
  class Reader {
    const data: Bytes
    var pos: nat
    var remaining: int

    ghost predicate Valid()
      reads this
    {
      pos <= |data|
    }

    constructor (data: Bytes)
      ensures Valid() && this.data == data && pos == 0
    {
      this.data, pos, remaining := data, 0, MAX_TOTAL;
    }

    method ReadLine() returns (r: Result<Bytes>)
      requires Valid()
      modifies this`pos
      ensures Valid()
      ensures match ParseLine(data, old(pos))
              case Err => r.Err?
              case Ok(line) => r == Ok(line.line) && pos == line.pos
    {
      var start := pos;
      while pos < |data| && data[pos] != LF
        invariant start <= pos <= |data| && NextLF(data, start) == NextLF(data, pos)
      {
        pos := pos + 1;
      }
      if pos == |data| {
        return Err;
      }
      var line := data[start..pos + 1];
      pos := pos + 1;
      if |line| > MAX_LINE || |line| < 2 || line[|line| - 2] != CR {
        return Err;
      }
      assert line[..|line| - 2] == data[start..pos - 2];
      return Ok(line[..|line| - 2]);
    }

    method ReadBulk() returns (r: Result<Value>)
      requires Valid()
      modifies this
      ensures Valid()
      ensures match ParseBulk(data, old(pos), old(remaining))
              case Err => r.Err?
              case Ok(p) => r == Ok(p.value) && pos == p.pos && remaining == p.remaining
    {
      hide Atoi;
      hide ParseLine;
      var line := ReadLine();
      if line.Err? {
        return Err;
      }
      var size := Atoi(line.value);
      if size.Err? {
        return Err;
      }
      if size.value < 0 {
        return Ok(Nil);
      }
      if size.value > MAX_BULK || size.value > remaining {
        return Err;
      }
      remaining := remaining - size.value;
      if pos + size.value + 2 > |data| {
        return Err;
      }
      var buf := data[pos..pos + size.value + 2];
      assert buf[size.value..] == data[pos + size.value..pos + size.value + 2] && buf[..size.value] == data[pos..pos + size.value];
      pos := pos + size.value + 2;
      if buf[size.value..] != CRLF {
        return Err;
      }
      return Ok(Bulk(buf[..size.value]));
    }

    method ReadArray(max: nat, depth: nat) returns (r: Result<Value>)
      requires Valid() && depth <= MAX_DEPTH
      modifies this
      ensures Valid()
      ensures match ParseArray(data, old(pos), max, old(remaining), depth)
              case Err => r.Err?
              case Ok(p) => r == Ok(p.value) && pos == p.pos && remaining == p.remaining
      decreases MAX_DEPTH + 1 - depth, 2
    {
      hide Atoi;
      hide ParseLine;
      hide ParseValue;
      var line := ReadLine();
      if line.Err? {
        return Err;
      }
      var count := Atoi(line.value);
      if count.Err? {
        return Err;
      }
      if count.value < 0 {
        return Ok(Nil);
      }
      if count.value > max {
        return Err;
      }
      var items: seq<Value> := [];
      ghost var start, budget := pos, remaining;
      for n := 0 to count.value
        invariant Valid() && ParseItems(data, start, n, max, budget, depth + 1) == Ok(ParsedItems(items, pos, remaining))
      {
        var item := ReadValue(max, depth + 1);
        if item.Err? {
          ItemsErr(data, start, n + 1, count.value, max, budget, depth + 1);
          return Err;
        }
        items := items + [item.value];
      }
      return Ok(Array(items));
    }

    method ReadValue(max: nat, depth: nat) returns (r: Result<Value>)
      requires Valid()
      modifies this
      ensures Valid()
      ensures match ParseValue(data, old(pos), max, old(remaining), depth)
              case Err => r.Err?
              case Ok(p) => r == Ok(p.value) && pos == p.pos && remaining == p.remaining
      decreases MAX_DEPTH + 2 - depth, 0
    {
      hide ParseLine;
      hide ParseArray;
      hide ParseBulk;
      if depth > MAX_DEPTH || pos == |data| {
        return Err;
      }
      var prefix := data[pos];
      pos := pos + 1;
      if prefix == PLUS || prefix == MINUS {
        var line := ReadLine();
        if line.Err? {
          return Err;
        }
        return Ok(if prefix == PLUS then Simple(line.value) else Error(line.value));
      }
      if prefix == DOLLAR {
        r := ReadBulk();
        return;
      }
      if prefix == STAR {
        r := ReadArray(max, depth);
        return;
      }
      return Err;
    }

    /** Reads one value within all limits; an array limit out of range means the default. */
    method ReadWithLimits(maxArrayLength: int) returns (r: Result<Value>)
      requires Valid()
      modifies this
      ensures Valid()
      ensures var limit := if 0 < maxArrayLength <= 10_000 then maxArrayLength else 10_000;
              match ParseValue(data, old(pos), limit, 16 * 1024 * 1024, 0)
              case Err => r.Err?
              case Ok(p) => r == Ok(p.value) && pos == p.pos
    {
      remaining := MAX_TOTAL;
      r := ReadValue(ArrayLimit(maxArrayLength), 0);
    }
  }

  function ArrayLimit(maxArrayLength: int): nat {
    if maxArrayLength <= 0 || maxArrayLength > MAX_ARRAY then MAX_ARRAY else maxArrayLength
  }

  // ----- what is accepted is bounded -----

  function BulkBytes(v: Value): nat
    decreases v
  {
    match v
    case Bulk(bytes) => |bytes|
    case Array(items) => ItemsBytes(items)
    case _ => 0
  }

  function ItemsBytes(items: seq<Value>): nat
    decreases items
  {
    if items == [] then 0 else ItemsBytes(items[..|items| - 1]) + BulkBytes(items[|items| - 1])
  }

  /** Arrays are short and nested at most so deep, and no bulk string is too long. */
  predicate Bounded(v: Value, max: nat, levels: int)
    decreases v
  {
    match v
    case Bulk(bytes) => |bytes| <= MAX_BULK
    case Array(items) => |items| <= max && 0 <= levels && forall i :: 0 <= i < |items| ==> Bounded(items[i], max, levels - 1)
    case _ => true
  }

  lemma {:induction false} ItemsBounded(data: Bytes, pos: nat, count: nat, max: nat, remaining: int, depth: nat)
    requires pos <= |data| && ParseItems(data, pos, count, max, remaining, depth).Ok?
    ensures var p := ParseItems(data, pos, count, max, remaining, depth).value;
            && (forall i :: 0 <= i < |p.items| ==> Bounded(p.items[i], max, MAX_DEPTH - depth))
            && p.remaining == remaining - ItemsBytes(p.items) && (0 <= remaining ==> 0 <= p.remaining)
    decreases MAX_DEPTH + 2 - depth, 1, count
  {
    hide ParseValue;
    if count > 0 {
      ItemsBounded(data, pos, count - 1, max, remaining, depth);
      var before := ParseItems(data, pos, count - 1, max, remaining, depth).value;
      ValueBounded(data, before.pos, max, before.remaining, depth);
      var item := ParseValue(data, before.pos, max, before.remaining, depth).value.value;
      assert (before.items + [item])[..|before.items|] == before.items;
    }
  }

  /** Depth, array lengths, bulk lengths and the total bulk size of every accepted value
      stay within the limits, and the budget is charged exactly what was read. */
  lemma {:induction false} ValueBounded(data: Bytes, pos: nat, max: nat, remaining: int, depth: nat)
    requires pos <= |data| && ParseValue(data, pos, max, remaining, depth).Ok?
    ensures var p := ParseValue(data, pos, max, remaining, depth).value;
            && Bounded(p.value, max, MAX_DEPTH - depth)
            && p.remaining == remaining - BulkBytes(p.value) && (0 <= remaining ==> 0 <= p.remaining)
    decreases MAX_DEPTH + 2 - depth, 0
  {
    hide ParseItems;
    hide Atoi;
    hide ParseLine;
    if data[pos] == STAR {
      var line := ParseLine(data, pos + 1).value;
      var count := Atoi(line.line).value;
      if count >= 0 {
        ItemsBounded(data, line.pos, count, max, remaining, depth + 1);
      }
    }
  }

  lemma AcceptedTotal(data: Bytes, pos: nat, max: nat)
    requires pos <= |data| && ParseValue(data, pos, max, MAX_TOTAL, 0).Ok?
    ensures Bounded(ParseValue(data, pos, max, MAX_TOTAL, 0).value.value, max, MAX_DEPTH)
    ensures BulkBytes(ParseValue(data, pos, max, MAX_TOTAL, 0).value.value) <= 16 * 1024 * 1024
  {
    ValueBounded(data, pos, max, MAX_TOTAL, 0);
  }

  // ----- what is written is read back -----

  /** `s` stands in `data` at `pos`. */
  predicate Stands(data: Bytes, pos: nat, s: Bytes) {
    pos + |s| <= |data| && data[pos..pos + |s|] == s
  }

  lemma StandsSplit(data: Bytes, pos: nat, a: Bytes, b: Bytes)
    requires Stands(data, pos, a + b)
    ensures Stands(data, pos, a) && Stands(data, pos + |a|, b)
  {
    assert a == (a + b)[..|a|] && b == (a + b)[|a|..];
  }

  lemma LineStands(data: Bytes, pos: nat, s: Bytes)
    requires Stands(data, pos, s + CRLF) && |s| + 2 <= MAX_LINE && AllDigits(s)
    ensures ParseLine(data, pos) == Ok(Line(s, pos + |s| + 2))
  {
    StandsSplit(data, pos, s, CRLF);
    var e := pos + |s| + 1;
    assert data[e] == CRLF[1] && data[e - 1] == CRLF[0];
    forall i | pos <= i < e
      ensures data[i] != LF
    {
      assert i < e - 1 ==> data[i] == s[i - pos];
    }
    assert NextLF(data, pos) == e;
    assert data[pos..e - 1] == s;
  }

  lemma Sixty3BitsInDigits()
    ensures TWO_63 < Pow10(19)
  {
    assert Pow10(2) == 100;
    assert Pow10(4) == 10_000;
    assert Pow10(6) == 1_000_000;
    assert Pow10(8) == 100_000_000;
    assert Pow10(10) == 10_000_000_000;
    assert Pow10(12) == 1_000_000_000_000;
    assert Pow10(14) == 100_000_000_000_000;
    assert Pow10(16) == 10_000_000_000_000_000;
    assert Pow10(18) == 1_000_000_000_000_000_000;
  }

  lemma NumberStands(data: Bytes, pos: nat, n: nat)
    requires Stands(data, pos, Decimal(n) + CRLF) && n < TWO_63
    ensures ParseLine(data, pos) == Ok(Line(Decimal(n), pos + |Decimal(n)| + 2)) && Atoi(Decimal(n)) == Ok(n)
  {
    hide Pow10;
    hide Decimal;
    hide ParseLine;
    DecimalDigits(n);
    Sixty3BitsInDigits();
    DecimalLength(n, 19);
    LineStands(data, pos, Decimal(n));
    AtoiDecimal(n);
  }

  lemma BulkStands(data: Bytes, pos: nat, part: Bytes, max: nat, remaining: int, depth: nat)
    requires Stands(data, pos, EncodeBulk(part)) && depth <= MAX_DEPTH && |part| < TWO_63
    ensures ParseValue(data, pos, max, remaining, depth) ==
              if |part| <= MAX_BULK && |part| <= remaining then Ok(Parsed(Bulk(part), pos + |EncodeBulk(part)|, remaining - |part|)) else Err
  {
    hide Atoi;
    hide ParseLine;
    hide Decimal;
    var head := Decimal(|part|) + CRLF;
    assert EncodeBulk(part) == [DOLLAR] + (head + (part + CRLF));
    StandsSplit(data, pos, [DOLLAR], head + (part + CRLF));
    StandsSplit(data, pos + 1, head, part + CRLF);
    NumberStands(data, pos + 1, |part|);
    StandsSplit(data, pos + 1 + |head|, part, CRLF);
    assert data[pos] == [DOLLAR][0];
  }

  function TotalBytes(parts: seq<Bytes>): nat {
    if parts == [] then 0 else TotalBytes(parts[..|parts| - 1]) + |parts[|parts| - 1]|
  }

  function Bulks(parts: seq<Bytes>): seq<Value> {
    seq(|parts|, i requires 0 <= i < |parts| => Bulk(parts[i]))
  }

  /** Every part is short enough, and all of them together are. */
  predicate Affordable(parts: seq<Bytes>, remaining: int) {
    TotalBytes(parts) <= remaining && forall i :: 0 <= i < |parts| ==> |parts[i]| <= MAX_BULK
  }

  lemma {:induction false} AffordableStep(parts: seq<Bytes>, remaining: int)
    requires parts != []
    ensures var before, last := parts[..|parts| - 1], parts[|parts| - 1];
            Affordable(parts, remaining) <==> Affordable(before, remaining) && |last| <= MAX_BULK && |last| <= remaining - TotalBytes(before)
  {
    assert forall i :: 0 <= i < |parts| - 1 ==> parts[..|parts| - 1][i] == parts[i];
  }

  lemma {:induction false} BulksStand(data: Bytes, pos: nat, parts: seq<Bytes>, max: nat, remaining: int, depth: nat)
    requires Stands(data, pos, EncodeBulks(parts)) && depth <= MAX_DEPTH && 0 <= remaining
    requires forall i :: 0 <= i < |parts| ==> |parts[i]| < TWO_63
    ensures ParseItems(data, pos, |parts|, max, remaining, depth) ==
              if Affordable(parts, remaining) then Ok(ParsedItems(Bulks(parts), pos + |EncodeBulks(parts)|, remaining - TotalBytes(parts))) else Err
  {
    hide ParseValue;
    hide EncodeBulk;
    if parts == [] {
      assert Bulks(parts) == [] && EncodeBulks(parts) == [] && TotalBytes(parts) == 0;
    } else {
      var n := |parts| - 1;
      var before, last := parts[..n], parts[n];
      StandsSplit(data, pos, EncodeBulks(before), EncodeBulk(last));
      AffordableStep(parts, remaining);
      hide Affordable;
      hide Stands;
      BulksStand(data, pos, before, max, remaining, depth);
      if Affordable(before, remaining) {
        BulkStands(data, pos + |EncodeBulks(before)|, last, max, remaining - TotalBytes(before), depth);
        assert Bulks(parts) == Bulks(before) + [Bulk(last)];
      }
    }
  }

  /** A written command is read back as its parts, for any bytes whatever, and what
      follows it is left unread. It is refused exactly when it breaks a limit. */
  lemma {:induction false} CommandRoundTrip(before: Bytes, parts: seq<Bytes>, after: Bytes, max: nat)
    requires |parts| < TWO_63 && forall i :: 0 <= i < |parts| ==> |parts[i]| < TWO_63
    ensures var data := before + EncodeCommand(parts) + after;
            ParseValue(data, |before|, max, MAX_TOTAL, 0) ==
              if |parts| <= max && Affordable(parts, MAX_TOTAL)
              then Ok(Parsed(Array(Bulks(parts)), |before| + |EncodeCommand(parts)|, MAX_TOTAL - TotalBytes(parts))) else Err
  {
    hide Atoi;
    hide ParseLine;
    hide ParseItems;
    hide Decimal;
    hide EncodeBulks;
    var data, pos := before + EncodeCommand(parts) + after, |before|;
    assert Stands(data, pos, EncodeCommand(parts));
    var head := Decimal(|parts|) + CRLF;
    assert EncodeCommand(parts) == [STAR] + (head + EncodeBulks(parts));
    StandsSplit(data, pos, [STAR], head + EncodeBulks(parts));
    StandsSplit(data, pos + 1, head, EncodeBulks(parts));
    NumberStands(data, pos + 1, |parts|);
    BulksStand(data, pos + 1 + |head|, parts, max, MAX_TOTAL, 1);
    assert data[pos] == [STAR][0];
  }
}
