/** Machines that take one event at a time: what is common to their runs. */
module Machines {
  import opened Options

  /** The state after events, or None where one of them cannot happen. */
  ghost function Steps<S(!new), E(!new)>(step: (S, E) -> Option<S>, s: S, events: seq<E>): Option<S>
    decreases |events|
  {
    if events == [] then Some(s)
    else match step(s, events[0])
      case None => None
      case Some(s') => Steps(step, s', events[1..])
  }

  lemma StepsFirst<S(!new), E(!new)>(step: (S, E) -> Option<S>, s: S, e: E, rest: seq<E>)
    ensures Steps(step, s, [e] + rest)
            == if step(s, e).None? then None else Steps(step, step(s, e).value, rest)
  {
    assert ([e] + rest)[1..] == rest;
  }

  lemma {:induction false} StepsAppend<S(!new), E(!new)>(step: (S, E) -> Option<S>, s: S, a: seq<E>, b: seq<E>)
    ensures Steps(step, s, a + b)
            == if Steps(step, s, a).None? then None else Steps(step, Steps(step, s, a).value, b)
    decreases |a|
  {
    if a == [] {
      assert a + b == b;
    } else {
      assert (a + b)[1..] == a[1..] + b;
      if step(s, a[0]).Some? {
        StepsAppend(step, step(s, a[0]).value, a[1..], b);
      }
    }
  }

  /** What every step keeps, every run keeps. */
  lemma {:induction false} StepsKeep<S(!new), E(!new)>(step: (S, E) -> Option<S>, inv: S -> bool, s: S, events: seq<E>)
    requires forall s, e :: inv(s) && step(s, e).Some? ==> inv(step(s, e).value)
    requires inv(s) && Steps(step, s, events).Some?
    ensures inv(Steps(step, s, events).value)
    decreases |events|
  {
    if events != [] {
      StepsKeep(step, inv, step(s, events[0]).value, events[1..]);
    }
  }
}
