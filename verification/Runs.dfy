/** Runs of a state machine: what holds of any `run` that applies `step` to one event after the other. */
module Runs {

  /** A run over two lists of events is the run over the second from where the first one led. */
  lemma {:induction false} RunJoin<S(!new), E(!new)>(
    step: (S, E) -> S, run: (S, seq<E>) -> S, s: S, first: seq<E>, second: seq<E>)
    requires forall t: S :: run(t, []) == t
    requires forall t: S, events: seq<E> :: events != [] ==> run(t, events) == run(step(t, events[0]), events[1..])
    ensures run(s, first + second) == run(run(s, first), second)
    decreases |first|
  {
    if first == [] {
      assert first + second == second;
    } else {
      var all := first + second;
      assert all[0] == first[0] && all[1..] == first[1..] + second;
      assert run(s, all) == run(step(s, all[0]), all[1..]);
      RunJoin(step, run, step(s, first[0]), first[1..], second);
    }
  }
}
