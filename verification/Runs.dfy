/** Running a state machine over a list of events, for any step function. */
module Runs {

  function Fold<S, E>(step: (S, E) -> S, s: S, events: seq<E>): S {
    if events == [] then s else step(Fold(step, s, events[..|events| - 1]), events[|events| - 1])
  }

  lemma FoldAppend<S, E>(step: (S, E) -> S, s: S, events: seq<E>, ev: E)
    ensures Fold(step, s, events + [ev]) == step(Fold(step, s, events), ev)
  {
    assert (events + [ev])[..|events|] == events;
  }

  lemma {:induction false} FoldJoin<S, E>(step: (S, E) -> S, s: S, a: seq<E>, b: seq<E>)
    ensures Fold(step, s, a + b) == Fold(step, Fold(step, s, a), b)
    decreases |b|
  {
    if b == [] {
      assert a + b == a;
    } else {
      var init, last := b[..|b| - 1], b[|b| - 1];
      FoldJoin(step, s, a, init);
      FoldAppend(step, s, a + init, last);
      FoldAppend(step, Fold(step, s, a), init, last);
      assert a + b == (a + init) + [last] && b == init + [last];
    }
  }

  /** A relation every step keeps, and that can be chained, holds between any two states of a run. */
  lemma {:induction false} FoldRelates<S(!new), E(!new)>(step: (S, E) -> S, rel: (S, S) -> bool, s: S,
                                                         before: seq<E>, after: seq<E>)
    requires forall x :: rel(x, x)
    requires forall x, y, z :: rel(x, y) && rel(y, z) ==> rel(x, z)
    requires forall x, e :: rel(x, step(x, e))
    ensures rel(Fold(step, s, before), Fold(step, s, before + after))
    decreases |after|
  {
    if after == [] {
      assert before + after == before;
    } else {
      var init, last := after[..|after| - 1], after[|after| - 1];
      FoldRelates(step, rel, s, before, init);
      FoldAppend(step, s, before + init, last);
      assert before + after == (before + init) + [last];
      assert rel(Fold(step, s, before + init), step(Fold(step, s, before + init), last));
    }
  }
}
