/** Strings in byte-wise order, and records ordered by a few strings and a time. */
module Text {
  import opened Lists

  // ----- surrounding blanks -----

  predicate IsSpace(c: char) {
    c == ' ' || '\t' <= c <= '\r'
  }

  function TrimLeft(s: string): string {
    if s != [] && IsSpace(s[0]) then TrimLeft(s[1..]) else s
  }

  function TrimRight(s: string): string {
    if s != [] && IsSpace(s[|s| - 1]) then TrimRight(s[..|s| - 1]) else s
  }

  function Trim(s: string): string {
    TrimRight(TrimLeft(s))
  }

  function Lower(s: string): string {
    if s == [] then [] else [if 'A' <= s[0] <= 'Z' then s[0] - 'A' + 'a' else s[0]] + Lower(s[1..])
  }

  // ----- order -----

  function Compare(a: string, b: string): (r: int)
    ensures r == 0 <==> a == b
    ensures -1 <= r <= 1
  {
    if a == [] then (if b == [] then 0 else -1)
    else if b == [] then 1
    else if a[0] != b[0] then (if a[0] < b[0] then -1 else 1)
    else
      assert a == [a[0]] + a[1..] && b == [b[0]] + b[1..];
      Compare(a[1..], b[1..])
  }

  lemma {:induction false} CompareFlips(a: string, b: string)
    ensures Compare(a, b) == -Compare(b, a)
  {
    if a != [] && b != [] && a[0] == b[0] {
      CompareFlips(a[1..], b[1..]);
    }
  }

  lemma {:induction false} CompareThrough(a: string, b: string, c: string)
    requires Compare(a, b) <= 0 && Compare(b, c) <= 0
    ensures Compare(a, c) <= 0
    ensures Compare(a, c) == 0 ==> Compare(a, b) == 0 && Compare(b, c) == 0
  {
    if a != [] && b != [] && c != [] && a[0] == b[0] == c[0] {
      CompareThrough(a[1..], b[1..], c[1..]);
    }
  }

  /** What a record is ordered by: strings first, then a time. */
  datatype Rank = Rank(names: seq<string>, time: int)

  function CompareNames(a: seq<string>, b: seq<string>): (r: int)
    ensures -1 <= r <= 1
    ensures r == 0 <==> a == b
  {
    if a == [] then (if b == [] then 0 else -1)
    else if b == [] then 1
    else
      var c := Compare(a[0], b[0]);
      assert a == [a[0]] + a[1..] && b == [b[0]] + b[1..];
      if c != 0 then c else CompareNames(a[1..], b[1..])
  }

  predicate RankBefore(a: Rank, b: Rank) {
    var c := CompareNames(a.names, b.names);
    c < 0 || (c == 0 && a.time < b.time)
  }

  lemma {:induction false} NamesFlip(a: seq<string>, b: seq<string>)
    ensures CompareNames(a, b) == -CompareNames(b, a)
  {
    if a != [] && b != [] {
      CompareFlips(a[0], b[0]);
      NamesFlip(a[1..], b[1..]);
    }
  }

  lemma {:induction false} NamesThrough(a: seq<string>, b: seq<string>, c: seq<string>)
    requires CompareNames(a, b) <= 0 && CompareNames(b, c) <= 0
    ensures CompareNames(a, c) <= 0
    ensures CompareNames(a, c) == 0 ==> CompareNames(a, b) == 0 && CompareNames(b, c) == 0
  {
    hide Compare;
    if a != [] && b != [] && c != [] {
      CompareThrough(a[0], b[0], c[0]);
      if Compare(a[0], b[0]) == 0 && Compare(b[0], c[0]) == 0 {
        NamesThrough(a[1..], b[1..], c[1..]);
      }
    }
  }

  function ByRank<T(!new)>(rank: T -> Rank): (T, T) -> bool {
    (a, b) => RankBefore(rank(a), rank(b))
  }

  /** Ordering by rank is an order, whatever the records are. */
  lemma {:induction false} RankIsOrder<T(!new)>(rank: T -> Rank, all: set<T>)
    ensures StrictOrder(ByRank(rank), all)
  {
    hide CompareNames;
    var less := ByRank(rank);
    forall a, b
      ensures !(less(a, b) && less(b, a))
    {
      NamesFlip(rank(a).names, rank(b).names);
    }
    forall a, b, c | !less(b, a) && !less(c, b)
      ensures !less(c, a)
    {
      NamesFlip(rank(a).names, rank(b).names);
      NamesFlip(rank(b).names, rank(c).names);
      NamesFlip(rank(a).names, rank(c).names);
      NamesThrough(rank(a).names, rank(b).names, rank(c).names);
    }
  }
}
