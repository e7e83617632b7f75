/** Rows of counters collected under keys. */
module RowSums {
  import opened Lists

  datatype Counters = Counters(
    requests: int, success: int, failure: int, input: int, output: int, reasoning: int, cached: int, cacheRead: int, cacheCreation: int,
    total: int)

  const ZERO := Counters(0, 0, 0, 0, 0, 0, 0, 0, 0, 0)

  function Plus(a: Counters, b: Counters): Counters {
    Counters(a.requests + b.requests, a.success + b.success, a.failure + b.failure, a.input + b.input, a.output + b.output,
             a.reasoning + b.reasoning, a.cached + b.cached, a.cacheRead + b.cacheRead, a.cacheCreation + b.cacheCreation, a.total + b.total)
  }

  /** One contribution to one row. */
  datatype Entry<K> = Entry(key: K, counters: Counters)

  type Rows<K> = map<K, Counters>

  function Get<K>(rows: Rows<K>, k: K): Counters {
    if k in rows then rows[k] else ZERO
  }

  function AddTo<K>(rows: Rows<K>, e: Entry<K>): Rows<K> {
    rows[e.key := Plus(Get(rows, e.key), e.counters)]
  }

  function Collect<K>(entries: seq<Entry<K>>): Rows<K> {
    if entries == [] then map[] else AddTo(Collect(entries[..|entries| - 1]), entries[|entries| - 1])
  }

  /** Rows of two collections, key by key. */
  function Merge<K>(a: Rows<K>, b: Rows<K>): Rows<K> {
    map k | k in a.Keys + b.Keys :: Plus(Get(a, k), Get(b, k))
  }

  lemma MergeAdd<K>(a: Rows<K>, b: Rows<K>, e: Entry<K>)
    ensures Merge(a, AddTo(b, e)) == AddTo(Merge(a, b), e)
  {
  }

  lemma MergeCommutes<K>(a: Rows<K>, b: Rows<K>)
    ensures Merge(a, b) == Merge(b, a)
  {
  }

  /** Collecting from both at once is collecting from each and merging the rows. */
  lemma {:induction false} CollectConcat<K>(a: seq<Entry<K>>, b: seq<Entry<K>>)
    ensures Collect(a + b) == Merge(Collect(a), Collect(b))
  {
    if b == [] {
      assert a + b == a;
      assert Merge(Collect(a), map[]) == Collect(a);
    } else {
      var n := |b| - 1;
      assert (a + b)[..|a| + n] == a + b[..n];
      CollectConcat(a, b[..n]);
      MergeAdd(Collect(a), Collect(b[..n]), b[n]);
    }
  }

  function Tally<K>(entries: seq<Entry<K>>): Counters {
    if entries == [] then ZERO else Plus(Tally(entries[..|entries| - 1]), entries[|entries| - 1].counters)
  }

  function KeyIs<K(==)>(k: K): Entry<K> -> bool {
    (e: Entry<K>) => e.key == k
  }

  /** A row is the tally of the entries under its key, and there is a row only for keys
      that occur. */
  lemma {:induction false} RowMeaning<K>(entries: seq<Entry<K>>, k: K)
    ensures k in Collect(entries) <==> exists i :: 0 <= i < |entries| && entries[i].key == k
    ensures Get(Collect(entries), k) == Tally(Select(entries, KeyIs(k)))
  {
    if entries != [] {
      var n := |entries| - 1;
      RowMeaning(entries[..n], k);
      assert entries == entries[..n] + [entries[n]];
      var mine := Select(entries[..n], KeyIs(k));
      if entries[n].key == k {
        assert (mine + [entries[n]])[..|mine|] == mine;
      } else {
        assert Select(entries, KeyIs(k)) == mine;
      }
    }
  }

  /** The sum of all rows. */
  ghost function Total<K>(rows: Rows<K>): Counters {
    if rows.Keys == {} then ZERO
    else
      var k :| k in rows.Keys;
      Plus(rows[k], Total(rows - {k}))
  }

  lemma PlusSwaps(a: Counters, b: Counters, c: Counters)
    ensures Plus(a, Plus(b, c)) == Plus(b, Plus(a, c))
  {
  }

  lemma {:induction false} TotalRemove<K>(rows: Rows<K>, k: K)
    requires k in rows
    ensures Total(rows) == Plus(rows[k], Total(rows - {k}))
    decreases |rows|
  {
    var first :| first in rows.Keys && Total(rows) == Plus(rows[first], Total(rows - {first}));
    if first != k {
      TotalRemove(rows - {first}, k);
      TotalRemove(rows - {k}, first);
      assert rows - {first} - {k} == rows - {k} - {first};
      PlusSwaps(rows[first], rows[k], Total(rows - {first} - {k}));
    }
  }

  lemma {:induction false} TotalAdd<K>(rows: Rows<K>, e: Entry<K>)
    ensures Total(AddTo(rows, e)) == Plus(Total(rows), e.counters)
  {
    var after := AddTo(rows, e);
    TotalRemove(after, e.key);
    if e.key in rows {
      TotalRemove(rows, e.key);
      assert after - {e.key} == rows - {e.key};
    } else {
      assert after - {e.key} == rows;
    }
  }

  /** Nothing is lost or counted twice. */
  lemma {:induction false} TotalIsTally<K>(entries: seq<Entry<K>>)
    ensures Total(Collect(entries)) == Tally(entries)
  {
    if entries != [] {
      var n := |entries| - 1;
      TotalIsTally(entries[..n]);
      TotalAdd(Collect(entries[..n]), entries[n]);
    }
  }
}
