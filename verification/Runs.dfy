/** Runs of a system that a step function describes, one action after the other. */
module Runs {
  function Fold<S, A>(step: (S, A) -> S, from: S, actions: seq<A>): S
    decreases |actions|
  {
    if actions == [] then from else Fold(step, step(from, actions[0]), actions[1..])
  }

  lemma {:induction false} FoldAppend<S, A>(step: (S, A) -> S, from: S, a: seq<A>, b: seq<A>)
    ensures Fold(step, from, a + b) == Fold(step, Fold(step, from, a), b)
    decreases |a|
  {
    if a == [] {
      assert a + b == b;
    } else {
      assert (a + b)[1..] == a[1..] + b;
      FoldAppend(step, step(from, a[0]), a[1..], b);
    }
  }

  lemma FoldOne<S, A>(step: (S, A) -> S, from: S, a: A)
    ensures Fold(step, from, [a]) == step(from, a)
  {
    assert [a][1..] == [];
    assert Fold(step, from, [a]) == Fold(step, step(from, a), []);
  }

  lemma FoldTwo<S, A>(step: (S, A) -> S, from: S, a: A, b: A)
    ensures Fold(step, from, [a, b]) == step(step(from, a), b)
  {
    assert [a, b] == [a] + [b];
    FoldAppend(step, from, [a], [b]);
    FoldOne(step, from, a);
    FoldOne(step, step(from, a), b);
  }

  // The first three actions, and the rest from there.
  lemma FoldThree<S, A>(step: (S, A) -> S, from: S, a: A, b: A, c: A, rest: seq<A>)
    ensures Fold(step, from, [a, b, c] + rest) == Fold(step, step(step(step(from, a), b), c), rest)
  {
    FoldAppend(step, from, [a, b, c], rest);
    assert [a, b, c] == [a, b] + [c];
    FoldAppend(step, from, [a, b], [c]);
    FoldTwo(step, from, a, b);
    FoldOne(step, step(step(from, a), b), c);
  }
}
