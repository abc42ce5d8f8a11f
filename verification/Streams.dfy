/** Stateful transducers: a step function threaded through a sequence. */
module Streams {

  /** Feeds `input` through `step`, left to right, collecting one output per element. */
  function Run<S, A, B>(step: (S, A) -> (S, B), st: S, input: seq<A>): (r: (S, seq<B>))
    ensures |r.1| == |input|
    decreases |input|
  {
    if input == [] then (st, [])
    else
      var (next, out) := step(st, input[0]);
      var (last, rest) := Run(step, next, input[1..]);
      (last, [out] + rest)
  }

  lemma RunOne<S, A, B>(step: (S, A) -> (S, B), st: S, a: A)
    ensures Run(step, st, [a]) == (step(st, a).0, [step(st, a).1])
  {
    assert [step(st, a).1] + [] == [step(st, a).1];
  }

  /** Two inputs one after the other, with the state threaded through, are one input. */
  lemma {:induction false} RunConcat<S, A, B>(step: (S, A) -> (S, B), st: S, a: seq<A>, b: seq<A>)
    ensures var (mid, first) := Run(step, st, a);
            var (last, second) := Run(step, mid, b);
            Run(step, st, a + b) == (last, first + second)
    decreases |a|
  {
    if a == [] {
      assert a + b == b;
      assert [] + Run(step, st, b).1 == Run(step, st, b).1;
    } else {
      var (next, out) := step(st, a[0]);
      RunConcat(step, next, a[1..], b);
      assert (a + b)[1..] == a[1..] + b;
      var (mid, first) := Run(step, next, a[1..]);
      var (last, second) := Run(step, mid, b);
      assert [out] + (first + second) == ([out] + first) + second;
    }
  }

  /** A step that undoes another, state for state, undoes whole messages. */
  lemma {:induction false} RunInverse<S(!new), A(!new), B>(step: (S, A) -> (S, B), undo: (S, B) -> (S, A),
                                                                 st: S, input: seq<A>)
    requires forall s, a :: undo(s, step(s, a).1) == (step(s, a).0, a)
    ensures Run(undo, st, Run(step, st, input).1) == (Run(step, st, input).0, input)
    decreases |input|
  {
    if input != [] {
      var (next, out) := step(st, input[0]);
      RunInverse(step, undo, next, input[1..]);
      assert Run(step, st, input).1[1..] == Run(step, next, input[1..]).1;
      assert [input[0]] + input[1..] == input;
    }
  }

  /** What every step keeps, every run keeps. */
  lemma {:induction false} RunKeeps<S(!new), A(!new), B>(step: (S, A) -> (S, B), inv: S -> bool, st: S, input: seq<A>)
    requires forall s, a :: inv(s) ==> inv(step(s, a).0)
    requires inv(st)
    ensures inv(Run(step, st, input).0)
    decreases |input|
  {
    if input != [] {
      RunKeeps(step, inv, step(st, input[0]).0, input[1..]);
    }
  }
}
