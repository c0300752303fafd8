/**
 * Finite runs of a transition system, given by a predicate on initial states and a
 * relation between a state and the next. Every protocol below is such a system; the
 * constants of a protocol (pool size, chunk plan, throttle) are fields of its state.
 */
module Runs {

  ghost predicate Run<S(!new)>(init: S -> bool, next: (S, S) -> bool, run: seq<S>)
  {
    && |run| > 0
    && init(run[0])
    && forall i, j :: 0 <= i && j == i + 1 && j < |run| ==> next(run[i], run[j])
  }

  ghost predicate Reachable<S(!new)>(init: S -> bool, next: (S, S) -> bool, s: S)
  {
    exists run :: Run(init, next, run) && run[|run| - 1] == s
  }

  /** `later` can be reached from `s` by steps of the system. */
  ghost predicate Leads<S(!new)>(next: (S, S) -> bool, s: S, later: S)
  {
    exists run :: Run((x: S) => true, next, run) && run[0] == s && run[|run| - 1] == later
  }

  ghost predicate Inductive<S(!new)>(next: (S, S) -> bool, inv: S -> bool)
  {
    forall s, s' :: inv(s) && next(s, s') ==> inv(s')
  }

  /** What holds initially and is kept by every step holds in every state of every run. */
  lemma {:induction false} RunInvariant<S(!new)>(init: S -> bool, next: (S, S) -> bool, inv: S -> bool, run: seq<S>, k: nat)
    requires Run(init, next, run) && k < |run|
    requires inv(run[0])
    requires Inductive(next, inv)
    ensures inv(run[k])
  {
    if k > 0 {
      RunInvariant(init, next, inv, run, k - 1);
      assert next(run[k - 1], run[k]);
    }
  }

  lemma ReachableInvariant<S(!new)>(init: S -> bool, next: (S, S) -> bool, inv: S -> bool, s: S)
    requires Reachable(init, next, s)
    requires forall x :: init(x) ==> inv(x)
    requires Inductive(next, inv)
    ensures inv(s)
  {
    var run :| Run(init, next, run) && run[|run| - 1] == s;
    RunInvariant(init, next, inv, run, |run| - 1);
  }

  lemma LeadsInvariant<S(!new)>(next: (S, S) -> bool, inv: S -> bool, s: S, later: S)
    requires Leads(next, s, later)
    requires inv(s)
    requires Inductive(next, inv)
    ensures inv(later)
  {
    var run :| Run((x: S) => true, next, run) && run[0] == s && run[|run| - 1] == later;
    RunInvariant((x: S) => true, next, inv, run, |run| - 1);
  }

  lemma NoStep<S(!new)>(next: (S, S) -> bool, s: S)
    ensures Leads(next, s, s)
  {
    assert Run((x: S) => true, next, [s]);
  }

  lemma OneStep<S(!new)>(next: (S, S) -> bool, s: S, s': S)
    requires next(s, s')
    ensures Leads(next, s, s')
  {
    var run := [s, s'];
    assert Run((x: S) => true, next, run) && run[|run| - 1] == s';
  }

  lemma Start<S(!new)>(init: S -> bool, next: (S, S) -> bool, s: S)
    requires init(s)
    ensures Reachable(init, next, s)
  {
    assert Run(init, next, [s]);
  }

  lemma Extend<S(!new)>(init: S -> bool, next: (S, S) -> bool, s: S, s': S)
    requires Reachable(init, next, s)
    requires next(s, s')
    ensures Reachable(init, next, s')
  {
    var run :| Run(init, next, run) && run[|run| - 1] == s;
    var longer := run + [s'];
    assert Run(init, next, longer) && longer[|longer| - 1] == s';
  }

  lemma Extend4<S(!new)>(init: S -> bool, next: (S, S) -> bool, s: S, a: S, b: S, c: S, d: S)
    requires Reachable(init, next, s)
    requires next(s, a) && next(a, b) && next(b, c) && next(c, d)
    ensures Reachable(init, next, d)
  {
    Extend(init, next, s, a);
    Extend(init, next, a, b);
    Extend(init, next, b, c);
    Extend(init, next, c, d);
  }
}
