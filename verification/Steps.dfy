/**
 * Step systems: a state changes by actions, each of which may happen where the
 * step function's precondition holds. A run is any sequence of such actions.
 */
module Steps {

  ghost predicate Runs<S, A>(step: (S, A) --> S, s: S, actions: seq<A>)
    decreases |actions|
  {
    actions == [] || (step.requires(s, actions[0]) && Runs(step, step(s, actions[0]), actions[1..]))
  }

  ghost function Exec<S, A>(step: (S, A) --> S, s: S, actions: seq<A>): S
    requires Runs(step, s, actions)
    decreases |actions|
  {
    if actions == [] then s else Exec(step, step(s, actions[0]), actions[1..])
  }

  /** What every step keeps, every run keeps. */
  lemma {:induction false} RunsKeep<S(!new), A(!new)>(step: (S, A) --> S, inv: S -> bool, s: S, actions: seq<A>)
    requires inv(s) && Runs(step, s, actions)
    requires forall t, a :: inv(t) && step.requires(t, a) ==> inv(step(t, a))
    ensures inv(Exec(step, s, actions))
    decreases |actions|
  {
    if actions != [] {
      RunsKeep(step, inv, step(s, actions[0]), actions[1..]);
    }
  }

  lemma {:induction false} RunMore<S, A>(step: (S, A) --> S, s: S, actions: seq<A>, a: A)
    requires Runs(step, s, actions) && step.requires(Exec(step, s, actions), a)
    ensures Runs(step, s, actions + [a]) && Exec(step, s, actions + [a]) == step(Exec(step, s, actions), a)
    decreases |actions|
  {
    if actions == [] {
      assert actions + [a] == [a];
    } else {
      assert (actions + [a])[1..] == actions[1..] + [a];
      RunMore(step, step(s, actions[0]), actions[1..], a);
    }
  }

  /** A run and a run from where it ended make one run. */
  lemma {:induction false} RunOn<S, A>(step: (S, A) --> S, s: S, first: seq<A>, second: seq<A>)
    requires Runs(step, s, first) && Runs(step, Exec(step, s, first), second)
    ensures Runs(step, s, first + second)
    ensures Exec(step, s, first + second) == Exec(step, Exec(step, s, first), second)
    decreases |first|
  {
    if first == [] {
      assert first + second == second;
    } else {
      assert (first + second)[1..] == first[1..] + second;
      RunOn(step, step(s, first[0]), first[1..], second);
    }
  }

  /** Extends a run by an action that leads to `t`. */
  lemma Next<S, A>(step: (S, A) --> S, s: S, actions: seq<A>, a: A, t: S) returns (more: seq<A>)
    requires Runs(step, s, actions) && step.requires(Exec(step, s, actions), a) && step(Exec(step, s, actions), a) == t
    ensures more == actions + [a] && Runs(step, s, more) && Exec(step, s, more) == t
  {
    RunMore(step, s, actions, a);
    more := actions + [a];
  }
}
