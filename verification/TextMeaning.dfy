/** Trimming, lower case and the order of strings, said character by character. */
module TextMeaning {
  import opened Text

  predicate Blank(c: char) {
    c == ' ' || c == '\t' || c == '\n' || c == 11 as char || c == 12 as char || c == '\r'
  }

  /** Everything before `i` and from `j` on is blank, and what is between neither begins
      nor ends so. */
  ghost predicate TrimmedAt(s: string, i: int, j: int) {
    && 0 <= i <= j <= |s|
    && (forall k :: 0 <= k < i || j <= k < |s| ==> Blank(s[k]))
    && (i < j ==> !Blank(s[i]) && !Blank(s[j - 1]))
  }

  lemma {:induction false} LeftEdge(s: string) returns (i: nat)
    ensures i <= |s| && TrimLeft(s) == s[i..] && (forall k :: 0 <= k < i ==> Blank(s[k])) && (i < |s| ==> !Blank(s[i]))
  {
    if s != [] && IsSpace(s[0]) {
      var n := LeftEdge(s[1..]);
      i := n + 1;
      forall k | 0 <= k < i
        ensures Blank(s[k])
      {
        assert k > 0 ==> s[k] == s[1..][k - 1];
      }
    } else {
      i := 0;
    }
  }

  lemma {:induction false} RightEdge(s: string) returns (j: nat)
    ensures j <= |s| && TrimRight(s) == s[..j] && (forall k :: j <= k < |s| ==> Blank(s[k])) && (0 < j ==> !Blank(s[j - 1]))
  {
    if s != [] && IsSpace(s[|s| - 1]) {
      j := RightEdge(s[..|s| - 1]);
      assert s[..|s| - 1][..j] == s[..j];
    } else {
      j := |s|;
    }
  }

  /** Trimming takes the blanks away at both ends, and nothing else. */
  lemma {:induction false} TrimMeans(s: string) returns (i: int, j: int)
    ensures TrimmedAt(s, i, j) && Trim(s) == s[i..j]
  {
    i := LeftEdge(s);
    var n := RightEdge(TrimLeft(s));
    j := i + n;
    forall k | j <= k < |s|
      ensures Blank(s[k])
    {
      assert s[k] == TrimLeft(s)[k - i];
    }
  }

  lemma {:induction false} LowerMeans(s: string)
    ensures |Lower(s)| == |s|
    ensures forall i :: 0 <= i < |s| ==> Lower(s)[i] == if 'A' <= s[i] <= 'Z' then (s[i] as int + 32) as char else s[i]
  {
    if s != [] {
      LowerMeans(s[1..]);
      assert forall i :: 1 <= i < |s| ==> s[1..][i - 1] == s[i];
    }
  }

  /** The first `i` characters are the same. */
  ghost predicate Agree(a: string, b: string, i: int) {
    0 <= i <= |a| && i <= |b| && forall k :: 0 <= k < i ==> a[k] == b[k]
  }

  ghost predicate SmallerAt(a: string, b: string, i: int) {
    Agree(a, b, i) && i < |a| && i < |b| && a[i] < b[i]
  }

  /** A string comes first if it is a proper beginning of the other, or smaller where
      they first differ. */
  ghost predicate ComesFirst(a: string, b: string) {
    (|a| < |b| && Agree(a, b, |a|)) || exists i :: SmallerAt(a, b, i)
  }

  lemma {:induction false} SameHeads(a: string, b: string)
    requires a != [] && b != [] && a[0] == b[0]
    ensures ComesFirst(a, b) <==> ComesFirst(a[1..], b[1..])
  {
    forall i | 0 < i
      ensures Agree(a, b, i) <==> Agree(a[1..], b[1..], i - 1)
      ensures SmallerAt(a, b, i) <==> SmallerAt(a[1..], b[1..], i - 1)
    {
      HeadsGone(a, b, i);
    }
    hide Agree;
    if i :| SmallerAt(a[1..], b[1..], i) {
      assert SmallerAt(a, b, i + 1);
    }
  }

  lemma {:induction false} HeadsGone(a: string, b: string, i: int)
    requires a != [] && b != [] && a[0] == b[0] && 0 < i
    ensures Agree(a, b, i) <==> Agree(a[1..], b[1..], i - 1)
    ensures SmallerAt(a, b, i) <==> SmallerAt(a[1..], b[1..], i - 1)
  {
    if Agree(a[1..], b[1..], i - 1) {
      forall k | 0 <= k < i
        ensures a[k] == b[k]
      {
        assert k > 0 ==> a[1..][k - 1] == b[1..][k - 1];
      }
    }
  }

  lemma {:induction false} DifferentHeads(a: string, b: string)
    requires a != [] && b != [] && a[0] != b[0]
    ensures ComesFirst(a, b) <==> a[0] < b[0]
  {
    assert forall i :: Agree(a, b, i) ==> i == 0;
    if a[0] < b[0] {
      assert SmallerAt(a, b, 0);
    }
  }

  /** Strings are compared byte by byte. */
  lemma {:induction false} CompareMeans(a: string, b: string)
    ensures Compare(a, b) < 0 <==> ComesFirst(a, b)
  {
    hide ComesFirst;
    if a == [] || b == [] {
      EmptyFirst(a, b);
    } else if a[0] == b[0] {
      CompareMeans(a[1..], b[1..]);
      SameHeads(a, b);
    } else {
      DifferentHeads(a, b);
    }
  }

  lemma EmptyFirst(a: string, b: string)
    requires a == [] || b == []
    ensures ComesFirst(a, b) <==> a == [] && b != []
  {
  }
}
