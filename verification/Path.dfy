/** Runs of a transition system, whatever its states and events. */
module Paths {
  /** The state after all the events. */
  function Final<S, E>(step: (S, E) -> S, s: S, es: seq<E>): S
    decreases |es|
  {
    if es == [] then s else Final(step, step(s, es[0]), es[1..])
  }

  /** Enabled transitions one after the other. */
  ghost predicate Path<S, E>(enabled: (S, E) -> bool, step: (S, E) -> S, s: S, es: seq<E>)
    decreases |es|
  {
    es == [] || (enabled(s, es[0]) && Path(enabled, step, step(s, es[0]), es[1..]))
  }

  lemma PathOfOne<S, E>(enabled: (S, E) -> bool, step: (S, E) -> S, s: S, e: E)
    requires enabled(s, e)
    ensures Path(enabled, step, s, [e]) && Final(step, s, [e]) == step(s, e)
  {
    assert [e][1..] == [];
    assert Final(step, s, [e]) == Final(step, step(s, e), []);
  }

  lemma PathFirst<S, E>(enabled: (S, E) -> bool, step: (S, E) -> S, s: S, es: seq<E>)
    requires es != [] && Path(enabled, step, s, es)
    ensures var s1 := step(s, es[0]);
            && enabled(s, es[0]) && Path(enabled, step, s1, es[1..]) && Final(step, s, es) == Final(step, s1, es[1..])
            && (es[1..] == [] ==> Final(step, s, es) == s1) && (es[1..] != [] ==> enabled(s1, es[1..][0]))
  {
    var rest := es[1..];
    assert Path(enabled, step, step(s, es[0]), rest);
  }

  /** Where nothing is enabled a run ends. */
  lemma StuckPathEnds<S, E>(enabled: (S, E) -> bool, step: (S, E) -> S, s: S, es: seq<E>)
    requires Path(enabled, step, s, es) && forall e :: !enabled(s, e)
    ensures es == [] && Final(step, s, es) == s
  {
  }

  lemma {:induction false} PathThen<S, E>(enabled: (S, E) -> bool, step: (S, E) -> S, s: S, es: seq<E>, more: seq<E>)
    requires Path(enabled, step, s, es) && Path(enabled, step, Final(step, s, es), more)
    ensures Path(enabled, step, s, es + more) && Final(step, s, es + more) == Final(step, Final(step, s, es), more)
    decreases |es|
  {
    if es == [] {
      assert es + more == more;
    } else {
      assert (es + more)[1..] == es[1..] + more;
      PathThen(enabled, step, step(s, es[0]), es[1..], more);
    }
  }
}
