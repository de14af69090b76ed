/**
Runs of a state machine: the state after a sequence of events, for any step function.
*/
module Runs {

  function Run<S, E>(step: (S, E) -> S, s: S, es: seq<E>): S
    decreases |es|
  {
    if es == [] then s else Run(step, step(s, es[0]), es[1..])
  }

  lemma {:induction false} RunConcat<S, E>(step: (S, E) -> S, s: S, es: seq<E>, more: seq<E>)
    ensures Run(step, s, es + more) == Run(step, Run(step, s, es), more)
    decreases |es|
  {
    if es == [] {
      assert es + more == more;
    } else {
      assert (es + more)[1..] == es[1..] + more;
      RunConcat(step, step(s, es[0]), es[1..], more);
    }
  }

  /** Adding one event at the end of a run takes one more step. */
  lemma RunSnoc<S, E>(step: (S, E) -> S, s: S, es: seq<E>, e: E)
    ensures Run(step, s, es + [e]) == step(Run(step, s, es), e)
  {
    RunConcat(step, s, es, [e]);
    assert Run(step, Run(step, s, es), [e]) == Run(step, step(Run(step, s, es), e), []);
  }

  lemma RunFour<S, E>(step: (S, E) -> S, s: S, a: E, b: E, c: E, d: E)
    ensures Run(step, s, [a, b, c, d]) == step(step(step(step(s, a), b), c), d)
  {
    RunSnoc(step, s, [], a);
    RunSnoc(step, s, [a], b);
    RunSnoc(step, s, [a, b], c);
    RunSnoc(step, s, [a, b, c], d);
    assert [] + [a] == [a] && [a] + [b] == [a, b] && [a, b] + [c] == [a, b, c] && [a, b, c] + [d] == [a, b, c, d];
  }
}
