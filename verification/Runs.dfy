/** Finite runs of a step relation. */
module Runs {
  type Relation<!W(!new), !A> = (W, A, W) -> bool

  /** `actions` can lead from `w0` to `w`. */
  ghost predicate Path<W(!new), A>(step: Relation<W, A>, w0: W, actions: seq<A>, w: W)
    decreases |actions|
  {
    if actions == [] then w0 == w
    else
      var n := |actions| - 1;
      exists before :: Path(step, w0, actions[..n], before) && step(before, actions[n], w)
  }

  lemma PathLast<W(!new), A>(step: Relation<W, A>, w0: W, actions: seq<A>, w: W) returns (before: W)
    requires actions != [] && Path(step, w0, actions, w)
    ensures Path(step, w0, actions[..|actions| - 1], before) && step(before, actions[|actions| - 1], w)
  {
    var n := |actions| - 1;
    before :| Path(step, w0, actions[..n], before) && step(before, actions[n], w);
  }

  lemma PathExtend<W(!new), A>(step: Relation<W, A>, w0: W, most: seq<A>, before: W, a: A, w: W)
    requires Path(step, w0, most, before) && step(before, a, w)
    ensures Path(step, w0, most + [a], w)
  {
    var all := most + [a];
    assert all[..|all| - 1] == most && all[|all| - 1] == a;
  }

  lemma PathOne<W(!new), A>(step: Relation<W, A>, w0: W, a: A, w: W)
    requires step(w0, a, w)
    ensures Path(step, w0, [a], w)
  {
    PathExtend(step, w0, [], w0, a, w);
    assert [] + [a] == [a];
  }

  lemma {:induction false} PathConcat<W(!new), A>(step: Relation<W, A>, w0: W, one: seq<A>, w1: W, two: seq<A>, w2: W)
    requires Path(step, w0, one, w1) && Path(step, w1, two, w2)
    ensures Path(step, w0, one + two, w2)
    decreases |two|
  {
    if two == [] {
      assert one + two == one;
    } else {
      var n := |two| - 1;
      var before := PathLast(step, w1, two, w2);
      PathConcat(step, w0, one, w1, two[..n], before);
      PathExtend(step, w0, one + two[..n], before, two[n], w2);
      assert one + two == (one + two[..n]) + [two[n]];
    }
  }

  /** What holds at the start and is kept by every step holds after every run. */
  lemma {:induction false} PathInvariant<W(!new), A(!new)>(step: Relation<W, A>, inv: W -> bool, w0: W, actions: seq<A>, w: W)
    requires Path(step, w0, actions, w) && inv(w0)
    requires forall before, a, after :: inv(before) && step(before, a, after) ==> inv(after)
    ensures inv(w)
    decreases |actions|
  {
    if actions != [] {
      var n := |actions| - 1;
      var before := PathLast(step, w0, actions, w);
      PathInvariant(step, inv, w0, actions[..n], before);
      assert inv(before) && step(before, actions[n], w);
    }
  }
}
