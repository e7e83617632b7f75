/** The worst-at-root heap kept in the prefix `a[..n]` of an array. */
module SampleHeap {
  import opened SamplePoints

  function Parent(i: int): int
    requires 0 < i
  {
    (i - 1) / 2
  }

  /** No point ranks behind its parent, for parents at `lo` and beyond. */
  ghost predicate HeapFrom(h: seq<SamplePoint>, lo: nat) {
    forall i :: 0 < i < |h| && lo <= Parent(i) ==> !Less(h[Parent(i)], h[i])
  }

  ghost predicate IsHeap(h: seq<SamplePoint>) {
    HeapFrom(h, 0)
  }

  /** Nothing in a heap ranks behind its root. */
  lemma {:induction false} RootIsWorst(h: seq<SamplePoint>, i: nat)
    requires IsHeap(h) && i < |h|
    ensures !Less(h[0], h[i])
  {
    if i > 0 {
      RootIsWorst(h, Parent(i));
    }
  }

  /** `HeapFrom(h, lo)` but for the children of `hole`, which need only stay
      behind the parent of `hole`. */
  ghost predicate HeapExcept(h: seq<SamplePoint>, lo: nat, hole: nat) {
    && (forall i :: 0 < i < |h| && lo <= Parent(i) != hole ==> !Less(h[Parent(i)], h[i]))
    && (0 < hole < |h| && lo <= Parent(hole) ==>
          forall i :: 0 < i < |h| && Parent(i) == hole ==> !Less(h[Parent(hole)], h[i]))
  }

  method Swap(a: array<SamplePoint>, n: nat, i: nat, j: nat)
    requires i < j < n <= a.Length
    modifies a
    ensures a[..n] == old(a[..n])[i := old(a[j])][j := old(a[i])]
    ensures multiset(a[..n]) == multiset(old(a[..n]))
    ensures a[n..] == old(a[n..])
  {
    SwapKeeps(a[..n], i, j);
    ghost var swapped := a[..n][i := a[j]][j := a[i]];
    a[i], a[j] := a[j], a[i];
    assert a[..n] == swapped;
  }

  method SiftDownWorst(a: array<SamplePoint>, n: nat, start: nat)
    requires start < n <= a.Length
    requires HeapFrom(a[..n], start + 1)
    modifies a
    ensures HeapFrom(a[..n], start)
    ensures multiset(a[..n]) == multiset(old(a[..n]))
    ensures a[n..] == old(a[n..])
  {
    var parent := start;
    while true
      invariant start <= parent < n
      invariant HeapExcept(a[..n], start, parent)
      invariant multiset(a[..n]) == multiset(old(a[..n]))
      invariant a[n..] == old(a[n..])
      decreases n - parent
    {
      var child := parent * 2 + 1;
      if child >= n {
        return;
      }
      var right := child + 1;
      if right < n && Less(a[child], a[right]) {
        child := right;
      }
      if !Less(a[parent], a[child]) {
        return;
      }
      SwapDown(a[..n], start, parent, child);
      Swap(a, n, parent, child);
      parent := child;
    }
  }

  lemma SwapKeeps(h: seq<SamplePoint>, i: nat, j: nat)
    requires i < j < |h|
    ensures multiset(h[i := h[j]][j := h[i]]) == multiset(h)
  {
    assert h == h[..i] + [h[i]] + h[i + 1..j] + [h[j]] + h[j + 1..];
    assert h[i := h[j]][j := h[i]] == h[..i] + [h[j]] + h[i + 1..j] + [h[i]] + h[j + 1..];
  }

  lemma SwapDown(h: seq<SamplePoint>, lo: nat, parent: nat, child: nat)
    requires lo <= parent < |h| && parent < child < |h| && Parent(child) == parent
    requires HeapExcept(h, lo, parent)
    requires Less(h[parent], h[child])
    requires forall i :: 0 < i < |h| && Parent(i) == parent ==> !Less(h[child], h[i])
    ensures HeapExcept(h[parent := h[child]][child := h[parent]], lo, child)
  {
  }

  /** The bubbling-up half of an append: `a[n - 1]` is new, the rest is a heap. */
  method SiftUp(a: array<SamplePoint>, n: nat)
    requires 0 < n <= a.Length
    requires IsHeap(a[..n - 1])
    modifies a
    ensures IsHeap(a[..n])
    ensures multiset(a[..n]) == multiset(old(a[..n]))
    ensures a[n..] == old(a[n..])
  {
    var child := n - 1;
    assert forall i :: 0 < i < n - 1 ==> a[..n - 1][Parent(i)] == a[..n][Parent(i)] && a[..n - 1][i] == a[..n][i];
    while child > 0
      invariant 0 <= child < n
      invariant HeapButChild(a[..n], child)
      invariant multiset(a[..n]) == multiset(old(a[..n]))
      invariant a[n..] == old(a[n..])
    {
      var parent := (child - 1) / 2;
      if !Less(a[parent], a[child]) {
        return;
      }
      SwapUp(a[..n], child);
      Swap(a, n, parent, child);
      child := parent;
    }
  }

  /** A heap but for `child`, which may rank behind its parent. */
  ghost predicate HeapButChild(h: seq<SamplePoint>, child: nat) {
    && (forall i :: 0 < i < |h| && i != child ==> !Less(h[Parent(i)], h[i]))
    && (0 < child < |h| ==>
          forall i :: 0 < i < |h| && Parent(i) == child ==> !Less(h[Parent(child)], h[i]))
  }

  lemma SwapUp(h: seq<SamplePoint>, child: nat)
    requires 0 < child < |h| && HeapButChild(h, child)
    requires Less(h[Parent(child)], h[child])
    ensures HeapButChild(h[Parent(child) := h[child]][child := h[Parent(child)]], Parent(child))
  {
  }
}
