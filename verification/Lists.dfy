/** Selecting from lists and sorting them. */
module Lists {
  /** The elements satisfying `p`, in order. */
  function Select<T>(s: seq<T>, p: T -> bool): (r: seq<T>) {
    if s == [] then []
    else Select(s[..|s| - 1], p) + if p(s[|s| - 1]) then [s[|s| - 1]] else []
  }

  /** The sum of one number over a list. */
  function SumOf<T>(s: seq<T>, number: T -> int): int {
    if s == [] then 0 else SumOf(s[..|s| - 1], number) + number(s[|s| - 1])
  }

  lemma {:induction false} SelectStep<T>(s: seq<T>, p: T -> bool, n: nat)
    requires n < |s|
    ensures Select(s[..n + 1], p) == Select(s[..n], p) + if p(s[n]) then [s[n]] else []
  {
    assert s[..n + 1][..n] == s[..n];
  }

  lemma {:induction false} SelectMember<T>(s: seq<T>, p: T -> bool, x: T)
    ensures x in Select(s, p) <==> x in s && p(x)
  {
    if s != [] {
      SelectMember(s[..|s| - 1], p, x);
      assert s == s[..|s| - 1] + [s[|s| - 1]];
    }
  }

  /** Elements past `n` that do not qualify can be left unread. */
  lemma {:induction false} SelectPrefix<T>(s: seq<T>, p: T -> bool, n: nat)
    requires n <= |s| && forall j :: n <= j < |s| ==> !p(s[j])
    ensures Select(s, p) == Select(s[..n], p)
    decreases |s|
  {
    if n < |s| {
      assert s[..|s| - 1][..n] == s[..n];
      SelectPrefix(s[..|s| - 1], p, n);
    } else {
      assert s[..n] == s;
    }
  }

  /** Reading a wider selection first changes nothing. */
  lemma {:induction false} SelectWithin<T>(s: seq<T>, wide: T -> bool, p: T -> bool)
    requires forall x :: p(x) ==> wide(x)
    ensures Select(Select(s, wide), p) == Select(s, p)
  {
    if s != [] {
      var n := |s| - 1;
      SelectWithin(s[..n], wide, p);
      if wide(s[n]) {
        var more := Select(s[..n], wide) + [s[n]];
        assert more[..|more| - 1] == Select(s[..n], wide);
      } else {
        assert Select(s, wide) == Select(s[..n], wide);
        assert Select(s, p) == Select(s[..n], p);
      }
    }
  }

  lemma {:induction false} EitherSide<T>(yes: seq<T>, no: seq<T>, x: T, all: seq<T>)
    requires multiset(yes + no) == multiset(all)
    ensures multiset((yes + [x]) + no) == multiset(all + [x]) && multiset(yes + (no + [x])) == multiset(all + [x])
  {
    assert multiset(yes + no) == multiset(yes) + multiset(no);
  }

  /** Those that qualify and those that do not are all there are. */
  lemma {:induction false} SplitKeepsAll<T>(s: seq<T>, p: T -> bool, q: T -> bool)
    requires forall x :: q(x) <==> !p(x)
    ensures multiset(Select(s, p) + Select(s, q)) == multiset(s)
  {
    if s != [] {
      var n := |s| - 1;
      SplitKeepsAll(s[..n], p, q);
      EitherSide(Select(s[..n], p), Select(s[..n], q), s[n], s[..n]);
      SelectStep(s, p, n);
      SelectStep(s, q, n);
      assert s[..n + 1] == s == s[..n] + [s[n]];
      hide Select;
      if p(s[n]) {
        assert Select(s, q) == Select(s[..n], q);
      } else {
        assert Select(s, p) == Select(s[..n], p);
      }
    }
  }

  // ----- sorting -----

  /** A strict order in which any two different elements are related. */
  ghost predicate StrictOrder<T(!new)>(less: (T, T) -> bool, s: set<T>) {
    && (forall a, b :: a in s && b in s ==> !(less(a, b) && less(b, a)))
    && (forall a, b, c :: a in s && b in s && c in s && !less(b, a) && !less(c, b) ==> !less(c, a))
  }

  ghost predicate Sorted<T>(s: seq<T>, less: (T, T) -> bool) {
    forall i, j :: 0 <= i < j < |s| ==> !less(s[j], s[i])
  }

  function Elements<T>(s: seq<T>): set<T> {
    set x | x in s
  }

  /** Where an element goes: behind everything it does not precede. */
  function Place<T>(s: seq<T>, less: (T, T) -> bool, x: T): (at: nat)
    ensures at <= |s| && (at > 0 ==> !less(x, s[at - 1])) && (at < |s| ==> less(x, s[at]))
  {
    if s == [] || !less(x, s[|s| - 1]) then |s| else Place(s[..|s| - 1], less, x)
  }

  /** Stable sorting: the smaller elements first, equal ones in their old order. */
  function SortedBy<T>(s: seq<T>, less: (T, T) -> bool): seq<T> {
    if s == [] then []
    else
      var before, x := SortedBy(s[..|s| - 1], less), s[|s| - 1];
      var at := Place(before, less, x);
      before[..at] + [x] + before[at..]
  }

  lemma {:induction false} InsertSorts<T(!new)>(s: seq<T>, less: (T, T) -> bool, x: T, at: nat, all: set<T>)
    requires Sorted(s, less) && at <= |s| && StrictOrder(less, all) && x in all && forall y :: y in s ==> y in all
    requires at > 0 ==> !less(x, s[at - 1])
    requires at < |s| ==> less(x, s[at])
    ensures Sorted(s[..at] + [x] + s[at..], less)
    ensures forall j :: at <= j < |s| ==> less(x, s[j])
  {
    forall i | 0 <= i < at
      ensures !less(x, s[i])
    {
      assert i < at - 1 ==> !less(s[at - 1], s[i]);
    }
    forall j | at <= j < |s|
      ensures !less(s[j], x) && less(x, s[j])
    {
      assert at < j ==> !less(s[j], s[at]);
    }
  }

  lemma {:induction false} InsertElements<T>(s: seq<T>, x: T, at: nat, before: seq<T>)
    requires at <= |s| && multiset(s) == multiset(before)
    ensures multiset(s[..at] + [x] + s[at..]) == multiset(before + [x])
  {
    assert s == s[..at] + s[at..];
  }

  lemma {:induction false} SortedByUnfolds<T>(s: seq<T>, less: (T, T) -> bool)
    requires s != []
    ensures var before, x := SortedBy(s[..|s| - 1], less), s[|s| - 1];
            var at := Place(before, less, x);
            SortedBy(s, less) == before[..at] + [x] + before[at..]
  {
  }

  lemma {:induction false} PlacedInOrder<T(!new)>(before: seq<T>, x: T, s: seq<T>, less: (T, T) -> bool, all: set<T>)
    requires multiset(before) == multiset(s) && Sorted(before, less) && StrictOrder(less, all) && x in all && forall y :: y in s ==> y in all
    ensures var at := Place(before, less, x);
            var after := before[..at] + [x] + before[at..];
            multiset(after) == multiset(s + [x]) && Sorted(after, less) && forall j :: at <= j < |before| ==> less(x, before[j])
  {
    hide Sorted;
    hide StrictOrder;
    hide Place;
    var at := Place(before, less, x);
    SameElements(before, s);
    InsertSorts(before, less, x, at, all);
    InsertElements(before, x, at, s);
  }

  lemma {:induction false} SortedByStep<T(!new)>(s: seq<T>, less: (T, T) -> bool, all: set<T>)
    requires s != [] && StrictOrder(less, all) && forall x :: x in s ==> x in all
    requires var before := SortedBy(s[..|s| - 1], less); multiset(before) == multiset(s[..|s| - 1]) && Sorted(before, less)
    ensures multiset(SortedBy(s, less)) == multiset(s) && Sorted(SortedBy(s, less), less)
    ensures var before, x := SortedBy(s[..|s| - 1], less), s[|s| - 1];
            forall j :: Place(before, less, x) <= j < |before| ==> less(x, before[j])
  {
    hide Sorted;
    hide StrictOrder;
    hide SortedBy;
    hide Place;
    PlacedInOrder(SortedBy(s[..|s| - 1], less), s[|s| - 1], s[..|s| - 1], less, all);
    SortedByUnfolds(s, less);
    assert s == s[..|s| - 1] + [s[|s| - 1]];
  }

  lemma {:induction false} SortedBySorts<T(!new)>(s: seq<T>, less: (T, T) -> bool, all: set<T>)
    requires StrictOrder(less, all) && forall x :: x in s ==> x in all
    ensures multiset(SortedBy(s, less)) == multiset(s) && Sorted(SortedBy(s, less), less)
  {
    if s != [] {
      SortedBySorts(s[..|s| - 1], less, all);
      SortedByStep(s, less, all);
    }
  }

  lemma {:induction false} SelectConcat<T>(a: seq<T>, b: seq<T>, p: T -> bool)
    ensures Select(a + b, p) == Select(a, p) + Select(b, p)
  {
    if b == [] {
      assert a + b == a;
    } else {
      var n := |b| - 1;
      SelectConcat(a, b[..n], p);
      assert (a + b)[..|a| + n] == a + b[..n];
    }
  }

  lemma {:induction false} SelectNone<T>(s: seq<T>, p: T -> bool)
    requires forall i :: 0 <= i < |s| ==> !p(s[i])
    ensures Select(s, p) == []
  {
    if s != [] {
      SelectNone(s[..|s| - 1], p);
    }
  }

  lemma {:induction false} SortedPrefix<T>(s: seq<T>, less: (T, T) -> bool, n: nat)
    requires n <= |s| && Sorted(s, less)
    ensures Sorted(s[..n], less)
  {
  }

  lemma {:induction false} SelectInserted<T>(before: seq<T>, p: T -> bool, x: T, at: nat)
    requires at <= |before| && (p(x) ==> forall j :: at <= j < |before| ==> !p(before[j]))
    ensures Select(before[..at] + [x] + before[at..], p) == Select(before, p) + if p(x) then [x] else []
  {
    hide Select;
    var low, high := before[..at], before[at..];
    assert low + high == before;
    SelectConcat(low, high, p);
    SelectConcat(low + [x], high, p);
    SelectConcat(low, [x], p);
    SelectOne(x, p);
    if p(x) {
      SelectNone(high, p);
    }
  }

  lemma SelectOne<T>(x: T, p: T -> bool)
    ensures Select([x], p) == if p(x) then [x] else []
  {
  }

  /** Elements that are in order among themselves keep their order. */
  lemma {:induction false} SortKeepsOrder<T(!new)>(s: seq<T>, less: (T, T) -> bool, p: T -> bool, all: set<T>)
    requires StrictOrder(less, all) && forall x :: x in s ==> x in all
    requires Sorted(Select(s, p), less)
    ensures Select(SortedBy(s, less), p) == Select(s, p)
  {
    if s != [] {
      var n := |s| - 1;
      var before, x := SortedBy(s[..n], less), s[n];
      var at, mine := Place(before, less, x), Select(s[..n], p);
      assert mine == Select(s, p)[..|mine|];
      assert Select(s, p) == mine + if p(x) then [x] else [];
      hide Select;
      hide StrictOrder;
      SortedPrefix(Select(s, p), less, |mine|);
      SortKeepsOrder(s[..n], less, p, all);
      SortedBySorts(s[..n], less, all);
      SortedByStep(s, less, all);
      if p(x) {
        forall j | at <= j < |before|
          ensures !p(before[j])
        {
          InsertedLast(before, less, p, mine, x, j);
        }
      }
      SelectInserted(before, p, x, at);
    }
  }

  lemma {:induction false} InsertedLast<T(!new)>(before: seq<T>, less: (T, T) -> bool, p: T -> bool, mine: seq<T>, x: T, j: nat)
    requires j < |before| && less(x, before[j]) && Select(before, p) == mine && Sorted(mine + [x], less)
    ensures !p(before[j])
  {
    SelectMember(before, p, before[j]);
    forall i | 0 <= i < |mine|
      ensures !less(x, mine[i])
    {
      assert (mine + [x])[i] == mine[i] && (mine + [x])[|mine|] == x;
    }
  }

  method PositionFor<T(!new)>(s: seq<T>, less: (T, T) -> bool, x: T) returns (at: nat)
    ensures at == Place(s, less, x)
  {
    at := |s|;
    assert s[..|s|] == s;
    while at > 0 && less(x, s[at - 1])
      invariant 0 <= at <= |s| && Place(s, less, x) == Place(s[..at], less, x)
    {
      assert s[..at][..at - 1] == s[..at - 1];
      at := at - 1;
    }
  }

  /** Insertion sort. */
  method SortBy<T(!new)>(s: seq<T>, less: (T, T) -> bool) returns (r: seq<T>)
    requires StrictOrder(less, Elements(s))
    ensures r == SortedBy(s, less) && multiset(r) == multiset(s) && Sorted(r, less)
  {
    r := [];
    for n := 0 to |s|
      invariant r == SortedBy(s[..n], less)
    {
      var at := PositionFor(r, less, s[n]);
      assert s[..n + 1][..n] == s[..n];
      r := r[..at] + [s[n]] + r[at..];
    }
    assert s[..|s|] == s;
    SortedBySorts(s, less, Elements(s));
  }

  lemma {:induction false} SameElements<T>(a: seq<T>, b: seq<T>)
    requires multiset(a) == multiset(b)
    ensures |a| == |b| && forall x :: x in a <==> x in b
  {
    assert |multiset(a)| == |a| && |multiset(b)| == |b|;
    forall x
      ensures x in a <==> x in b
    {
      assert x in a <==> x in multiset(a);
      assert x in b <==> x in multiset(b);
    }
  }

  /** No two positions agree under `key`. */
  ghost predicate DistinctBy<T, K>(s: seq<T>, key: T -> K) {
    forall i, j :: 0 <= i < j < |s| ==> key(s[i]) != key(s[j])
  }

  lemma {:induction false} SelectDistinct<T, K>(s: seq<T>, p: T -> bool, key: T -> K)
    requires DistinctBy(s, key)
    ensures DistinctBy(Select(s, p), key)
  {
    if s != [] {
      var n := |s| - 1;
      var before := Select(s[..n], p);
      SelectDistinct(s[..n], p, key);
      forall i | 0 <= i < |before|
        ensures key(before[i]) != key(s[n])
      {
        SelectMember(s[..n], p, before[i]);
        var j :| 0 <= j < n && s[..n][j] == before[i];
        assert key(s[j]) != key(s[n]);
      }
    }
  }

  lemma {:induction false} MultiplicityOne<T, K>(s: seq<T>, key: T -> K, i: nat)
    requires DistinctBy(s, key) && i < |s|
    ensures multiset(s)[s[i]] == 1
    decreases |s|
  {
    var n := |s| - 1;
    assert s == s[..n] + [s[n]];
    if i < n {
      MultiplicityOne(s[..n], key, i);
    } else {
      assert s[n] !in s[..n];
      assert s[n] !in multiset(s[..n]);
    }
  }

  /** A rearrangement of elements with different keys still has different keys. */
  lemma {:induction false} DistinctKept<T, K>(s: seq<T>, r: seq<T>, key: T -> K)
    requires multiset(r) == multiset(s) && DistinctBy(s, key)
    ensures DistinctBy(r, key)
  {
    SameElements(s, r);
    forall i, j | 0 <= i < j < |r|
      ensures key(r[i]) != key(r[j])
    {
      assert r[i] in s && r[j] in s;
      var a :| 0 <= a < |s| && s[a] == r[i];
      var b :| 0 <= b < |s| && s[b] == r[j];
      if a == b {
        MultiplicityOne(s, key, a);
        TwiceInside(r, i, j);
        assert false;
      }
    }
  }

  lemma {:induction false} TwiceInside<T>(r: seq<T>, i: nat, j: nat)
    requires i < j < |r| && r[i] == r[j]
    ensures multiset(r)[r[i]] >= 2
  {
    assert r == r[..j] + r[j..];
    assert r[i] in r[..j] && r[j] in r[j..];
    assert r[i] in multiset(r[..j]) && r[j] in multiset(r[j..]);
    assert multiset(r) == multiset(r[..j]) + multiset(r[j..]);
  }
}
