/** The accepted bytes as a grammar: what stands where a value was read. */
module RespMeaning {
  import opened Wrappers
  import opened Varint
  import opened Resp

  /** The line and its CR LF stand at `pos` and end before `after`. */
  ghost predicate ReadsLine(data: Bytes, pos: nat, line: Bytes, after: nat) {
    && after == pos + |line| + 2 && after <= |data| && |line| + 2 <= 4096
    && data[pos..after] == line + CRLF && LF !in line
  }

  lemma LineExactly(data: Bytes, pos: nat, line: Bytes, after: nat)
    requires pos <= |data|
    ensures ParseLine(data, pos) == Ok(Line(line, after)) <==> ReadsLine(data, pos, line, after)
  {
    var e := NextLF(data, pos);
    if ParseLine(data, pos) == Ok(Line(line, after)) {
      assert data[pos..after] == line + CRLF;
    }
    if ReadsLine(data, pos, line, after) {
      assert data[after - 1] == (line + CRLF)[|line| + 1] && data[after - 2] == (line + CRLF)[|line|];
      assert forall i :: pos <= i < after - 2 ==> data[i] == (line + CRLF)[i - pos] == line[i - pos];
      assert e == after - 1;
      assert data[pos..after - 2] == line;
    }
  }

  /** A line behind the type byte that is this number. */
  ghost predicate ReadsNumber(data: Bytes, pos: nat, v: int, after: nat) {
    exists line :: Atoi(line) == Ok(v) && ReadsLine(data, pos + 1, line, after)
  }

  /** A line; bytes behind their length; items behind their number; or nothing, behind a
      negative length or number. */
  ghost predicate Reads(data: Bytes, pos: nat, max: nat, remaining: int, depth: nat, p: Parsed)
    decreases p.value
  {
    && depth <= 4 && pos < |data|
    && match p.value
       case Simple(line) => data[pos] == PLUS && ReadsLine(data, pos + 1, line, p.pos) && p.remaining == remaining
       case Error(line) => data[pos] == MINUS && ReadsLine(data, pos + 1, line, p.pos) && p.remaining == remaining
       case Nil =>
         && (data[pos] == DOLLAR || data[pos] == STAR) && p.remaining == remaining
         && exists v :: v < 0 && ReadsNumber(data, pos, v, p.pos)
       case Bulk(bytes) =>
         && data[pos] == DOLLAR && |bytes| <= 4 * 1024 * 1024 && |bytes| <= remaining && p.remaining == remaining - |bytes|
         && exists mid: nat :: ReadsNumber(data, pos, |bytes|, mid) && ReadsBytes(data, mid, bytes, p.pos)
       case Array(items) =>
         && data[pos] == STAR && |items| <= max
         && exists mid: nat :: ReadsNumber(data, pos, |items|, mid) && ReadsItems(data, mid, max, remaining, depth + 1, items, p.pos, p.remaining)
  }

  ghost predicate ReadsBytes(data: Bytes, pos: nat, bytes: Bytes, after: nat) {
    after == pos + |bytes| + 2 && after <= |data| && data[pos..after] == bytes + CRLF
  }

  /** One value behind the other. */
  ghost predicate ReadsItems(data: Bytes, pos: nat, max: nat, remaining: int, depth: nat, items: seq<Value>, after: nat, left: int)
    decreases items, 1
  {
    if items == [] then after == pos && left == remaining
    else ReadsOneMore(data, pos, max, remaining, depth, items, items[..|items| - 1], after, left)
  }

  ghost predicate ReadsOneMore(data: Bytes, pos: nat, max: nat, remaining: int, depth: nat, items: seq<Value>, before: seq<Value>, after: nat, left: int)
    requires items != [] && before == items[..|items| - 1]
    decreases items, 0
  {
    exists mid: nat, budget: int ::
      && ReadsItems(data, pos, max, remaining, depth, before, mid, budget)
      && Reads(data, mid, max, budget, depth, Parsed(items[|items| - 1], after, left))
  }

  lemma NumberRead(data: Bytes, pos: nat)
    requires pos < |data| && ParseLine(data, pos + 1).Ok? && Atoi(ParseLine(data, pos + 1).value.line).Ok?
    ensures ReadsNumber(data, pos, Atoi(ParseLine(data, pos + 1).value.line).value, ParseLine(data, pos + 1).value.pos)
  {
    hide Atoi;
    var line := ParseLine(data, pos + 1).value;
    LineExactly(data, pos + 1, line.line, line.pos);
  }

  lemma NumberParsed(data: Bytes, pos: nat, v: int, after: nat)
    requires pos < |data| && ReadsNumber(data, pos, v, after)
    ensures var line := ParseLine(data, pos + 1); line.Ok? && line.value.pos == after && Atoi(line.value.line) == Ok(v)
  {
    hide Atoi;
    var line :| Atoi(line) == Ok(v) && ReadsLine(data, pos + 1, line, after);
    LineExactly(data, pos + 1, line, after);
  }

  lemma {:induction false} ItemsSound(data: Bytes, pos: nat, count: nat, max: nat, remaining: int, depth: nat)
    requires pos <= |data| && ParseItems(data, pos, count, max, remaining, depth).Ok?
    ensures var p := ParseItems(data, pos, count, max, remaining, depth).value;
            ReadsItems(data, pos, max, remaining, depth, p.items, p.pos, p.remaining)
    decreases MAX_DEPTH + 2 - depth, 1, count
  {
    hide ParseValue;
    hide Reads;
    if count > 0 {
      ItemsSound(data, pos, count - 1, max, remaining, depth);
      var before := ParseItems(data, pos, count - 1, max, remaining, depth).value;
      ValueSound(data, before.pos, max, before.remaining, depth);
      var p := ParseValue(data, before.pos, max, before.remaining, depth).value;
      var items := before.items + [p.value];
      assert items[..|items| - 1] == before.items && p == Parsed(p.value, p.pos, p.remaining);
    }
  }

  lemma {:induction false} ValueSound(data: Bytes, pos: nat, max: nat, remaining: int, depth: nat)
    requires pos <= |data| && ParseValue(data, pos, max, remaining, depth).Ok?
    ensures Reads(data, pos, max, remaining, depth, ParseValue(data, pos, max, remaining, depth).value)
    decreases MAX_DEPTH + 2 - depth, 0
  {
    hide Atoi;
    hide ParseLine;
    hide ParseItems;
    hide ReadsItems;
    hide ReadsNumber;
    hide ReadsLine;
    var line := ParseLine(data, pos + 1).value;
    if data[pos] == PLUS || data[pos] == MINUS {
      LineExactly(data, pos + 1, line.line, line.pos);
    } else {
      NumberRead(data, pos);
      var v := Atoi(line.line).value;
      if v < 0 {
      } else if data[pos] == DOLLAR {
        var end := line.pos + v;
        assert data[line.pos..end + 2] == data[line.pos..end] + data[end..end + 2];
        assert ReadsBytes(data, line.pos, data[line.pos..end], end + 2);
      } else {
        ItemsSound(data, line.pos, v, max, remaining, depth + 1);
      }
    }
  }

  lemma {:induction false} ItemsComplete(data: Bytes, pos: nat, max: nat, remaining: int, depth: nat, items: seq<Value>, after: nat, left: int)
    requires pos <= |data| && ReadsItems(data, pos, max, remaining, depth, items, after, left)
    ensures ParseItems(data, pos, |items|, max, remaining, depth) == Ok(ParsedItems(items, after, left))
    decreases items
  {
    hide ParseValue;
    hide Reads;
    if items != [] {
      var n := |items| - 1;
      var before := items[..n];
      assert ReadsOneMore(data, pos, max, remaining, depth, items, before, after, left);
      var mid: nat, budget: int :| ReadsItems(data, pos, max, remaining, depth, before, mid, budget)
                         && Reads(data, mid, max, budget, depth, Parsed(items[n], after, left));
      ItemsComplete(data, pos, max, remaining, depth, before, mid, budget);
      ValueComplete(data, mid, max, budget, depth, Parsed(items[n], after, left));
      assert items == before + [items[n]];
    }
  }

  lemma {:induction false} ValueComplete(data: Bytes, pos: nat, max: nat, remaining: int, depth: nat, p: Parsed)
    requires pos <= |data| && Reads(data, pos, max, remaining, depth, p)
    ensures ParseValue(data, pos, max, remaining, depth) == Ok(p)
    decreases p.value
  {
    hide Atoi;
    hide ParseLine;
    hide ParseItems;
    hide ReadsItems;
    hide ReadsNumber;
    hide ReadsLine;
    match p.value
    case Simple(line) => LineExactly(data, pos + 1, line, p.pos);
    case Error(line) => LineExactly(data, pos + 1, line, p.pos);
    case Nil =>
      var v :| v < 0 && ReadsNumber(data, pos, v, p.pos);
      NumberParsed(data, pos, v, p.pos);
    case Bulk(bytes) =>
      var mid: nat :| ReadsNumber(data, pos, |bytes|, mid) && ReadsBytes(data, mid, bytes, p.pos);
      NumberParsed(data, pos, |bytes|, mid);
      assert data[mid..mid + |bytes|] == data[mid..p.pos][..|bytes|] && data[mid + |bytes|..p.pos] == data[mid..p.pos][|bytes|..];
    case Array(items) =>
      var mid: nat :| ReadsNumber(data, pos, |items|, mid) && ReadsItems(data, mid, max, remaining, depth + 1, items, p.pos, p.remaining);
      NumberParsed(data, pos, |items|, mid);
      ItemsComplete(data, mid, max, remaining, depth + 1, items, p.pos, p.remaining);
  }

  /** A value is accepted exactly when it stands there by the grammar, within the limits. */
  lemma {:induction false} AcceptsGrammar(data: Bytes, pos: nat, max: nat, remaining: int, depth: nat, p: Parsed)
    requires pos <= |data|
    ensures ParseValue(data, pos, max, remaining, depth) == Ok(p) <==> Reads(data, pos, max, remaining, depth, p)
  {
    hide Reads;
    if ParseValue(data, pos, max, remaining, depth).Ok? {
      ValueSound(data, pos, max, remaining, depth);
    }
    if Reads(data, pos, max, remaining, depth, p) {
      ValueComplete(data, pos, max, remaining, depth, p);
    }
  }

  /** Read as this number, if it fits 64 bits. */
  predicate IsNumber(s: Bytes, v: int) {
    Atoi(s) == if -TWO_63 <= v < TWO_63 then Ok(v) else Err
  }

  lemma {:induction false} Unsigned(digits: Bytes)
    requires digits != [] && AllDigits(digits)
    ensures IsNumber(digits, DigitsValue(digits))
  {
    assert IsDigit(digits[0]);
    hide DigitsValue;
  }

  lemma {:induction false} Signed(sign: Byte, digits: Bytes)
    requires (sign == PLUS || sign == MINUS) && digits != [] && AllDigits(digits)
    ensures IsNumber([sign] + digits, if sign == MINUS then -DigitsValue(digits) else DigitsValue(digits))
  {
    hide DigitsValue;
    assert ([sign] + digits)[1..] == digits && ([sign] + digits)[0] == sign;
  }

  /** A number carries a sign or none. */
  lemma {:induction false} SignedNumbers(n: int)
    requires 0 <= n
    ensures IsNumber(Decimal(n), n) && IsNumber([PLUS] + Decimal(n), n) && IsNumber([MINUS] + Decimal(n), -n)
  {
    hide IsNumber;
    hide AllDigits;
    hide Decimal;
    hide DigitsValue;
    DecimalDigits(n);
    Unsigned(Decimal(n));
    Signed(PLUS, Decimal(n));
    Signed(MINUS, Decimal(n));
  }
}
