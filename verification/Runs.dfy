/** Runs of a state machine given by its next-state relation. */
module Runs {

  /** The states passed through under a sequence of events. */
  ghost predicate RunOf<S, E>(next: (S, E, S) -> bool, init: S, es: seq<E>, ss: seq<S>) {
    && |ss| == |es| + 1 && ss[0] == init
    && forall i {:trigger es[i]} | 0 <= i < |es| :: next(ss[i], es[i], ss[i + 1])
  }

  lemma RunStep<S, E>(next: (S, E, S) -> bool, init: S, es: seq<E>, ss: seq<S>, i: nat)
    requires RunOf(next, init, es, ss) && i < |es|
    ensures next(ss[i], es[i], ss[i + 1])
  {
  }

  lemma RunOn<S, E>(next: (S, E, S) -> bool, init: S, es: seq<E>, ss: seq<S>, e: E, t: S)
    requires RunOf(next, init, es, ss) && next(ss[|es|], e, t)
    ensures RunOf(next, init, es + [e], ss + [t])
  {
    var fs, ts := es + [e], ss + [t];
    forall i | 0 <= i < |fs|
      ensures next(ts[i], fs[i], ts[i + 1])
    {
      if i < |es| {
        assert fs[i] == es[i];
      }
    }
  }
}
