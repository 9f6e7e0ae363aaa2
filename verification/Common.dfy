/** What several models share: optional values, failing API calls, and runs of a state machine. */
module Common {

  datatype Option<+T> = None | Some(value: T)

  /** A call may be rejected before it is applied, or applied without the caller learning so. */
  datatype Fault = NoFault | Rejected | ReplyLost

  /** The state after a sequence of actions. */
  function RunFrom<S, A>(step: (S, A) -> S, s: S, actions: seq<A>): S
    decreases |actions|
  {
    if actions == [] then s else RunFrom(step, step(s, actions[0]), actions[1..])
  }

  lemma {:induction false} RunAppend<S, A>(step: (S, A) -> S, s: S, a: seq<A>, b: seq<A>)
    ensures RunFrom(step, s, a + b) == RunFrom(step, RunFrom(step, s, a), b)
    decreases |a|
  {
    if a == [] {
      assert a + b == b;
    } else {
      assert (a + b)[1..] == a[1..] + b;
      RunAppend(step, step(s, a[0]), a[1..], b);
    }
  }

  lemma RunOne<S, A>(step: (S, A) -> S, s: S, trace: seq<A>, a: A)
    ensures RunFrom(step, s, trace + [a]) == step(RunFrom(step, s, trace), a)
  {
    RunAppend(step, s, trace, [a]);
    assert [a][1..] == [];
  }
}
