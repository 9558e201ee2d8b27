/** Runs of a deterministic state machine, and invariants over them. */
module Runs {

  /** The state after the first n events of run. */
  ghost function After<S, E>(step: (S, E) -> S, st: S, run: seq<E>, n: nat): S
    requires n <= |run|
  {
    if n == 0 then st else step(After(step, st, run, n - 1), run[n - 1])
  }

  /** Every event of run is possible in the state it meets. */
  ghost predicate IsRun<S, E>(step: (S, E) -> S, ok: (S, E) -> bool, st: S, run: seq<E>) {
    forall n | 0 <= n < |run| :: ok(After(step, st, run, n), run[n])
  }

  ghost predicate Keeps<S(!new), E(!new)>(step: (S, E) -> S, ok: (S, E) -> bool, inv: S -> bool) {
    forall s, e | inv(s) && ok(s, e) :: inv(step(s, e))
  }

  /** What every possible step keeps holds in every state of every run. */
  lemma {:induction false} Invariant<S(!new), E(!new)>(step: (S, E) -> S, ok: (S, E) -> bool, inv: S -> bool,
                                                        st: S, run: seq<E>, n: nat)
    requires inv(st) && IsRun(step, ok, st, run) && Keeps(step, ok, inv) && n <= |run|
    ensures inv(After(step, st, run, n))
  {
    if n > 0 {
      Invariant(step, ok, inv, st, run, n - 1);
      assert ok(After(step, st, run, n - 1), run[n - 1]);
    }
  }
}
