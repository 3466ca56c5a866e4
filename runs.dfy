/** Runs of a state machine: a step maps a state to an outcome and the next
    state, and a run of n steps collects the n outcomes in order. */
module Runs {

  /** n successive steps from s: the outcomes, first to last, and the state
      the last step leaves. */
  function Steps<S, R>(step: S -> (R, S), s: S, n: nat): (out: (seq<R>, S))
    ensures |out.0| == n
  {
    if n == 0 then ([], s)
    else
      var before := Steps(step, s, n - 1);
      var last := step(before.1);
      (before.0 + [last.0], last.1)
  }

  /** m + n steps are m steps and then n steps from where those ended. */
  lemma {:induction false} StepsSplit<S, R>(step: S -> (R, S), s: S, m: nat, n: nat)
    ensures Steps(step, s, m + n) == (Steps(step, s, m).0 + Steps(step, Steps(step, s, m).1, n).0, Steps(step, Steps(step, s, m).1, n).1)
  {
    if n == 0 {
      assert Steps(step, s, m).0 + [] == Steps(step, s, m).0;
    } else {
      StepsSplit(step, s, m, n - 1);
      var done := Steps(step, s, m).0;
      var rest := Steps(step, Steps(step, s, m).1, n - 1);
      assert (done + rest.0) + [step(rest.1).0] == done + (rest.0 + [step(rest.1).0]);
    }
  }

  /** n copies of r. */
  function Repeat<R>(r: R, n: nat): (rs: seq<R>)
    ensures |rs| == n && forall j :: 0 <= j < n ==> rs[j] == r
  {
    if n == 0 then [] else Repeat(r, n - 1) + [r]
  }

  /** A state that a step leaves as it is, with outcome r, stays put for
      ever and answers r every time. */
  lemma {:induction false} StepsStuck<S, R>(step: S -> (R, S), s: S, r: R, n: nat)
    requires step(s) == (r, s)
    ensures Steps(step, s, n) == (Repeat(r, n), s)
  {
    if n > 0 {
      StepsStuck(step, s, r, n - 1);
    }
  }

  /** Outcome i of a run is what step i makes of the state the first i
      steps leave. */
  lemma {:induction false} StepsAt<S, R>(step: S -> (R, S), s: S, n: nat, i: nat)
    requires i < n
    ensures Steps(step, s, n).0[i] == step(Steps(step, s, i).1).0
  {
    if i < n - 1 {
      StepsAt(step, s, n - 1, i);
    }
  }

  /** If step i leaves a state that is stuck with that same outcome, every
      later outcome repeats it and the state no longer changes. */
  lemma {:induction false} StepsStuckFrom<S, R>(step: S -> (R, S), s: S, n: nat, i: nat)
    requires i < n
    requires step(step(Steps(step, s, i).1).1) == step(Steps(step, s, i).1)
    ensures forall j :: i <= j < n ==> Steps(step, s, n).0[j] == step(Steps(step, s, i).1).0
    ensures Steps(step, s, n).1 == step(Steps(step, s, i).1).1
  {
    var (r, mid) := step(Steps(step, s, i).1);
    StepsSplit(step, s, i + 1, n - (i + 1));
    StepsStuck(step, mid, r, n - (i + 1));
    forall j | i <= j < n
      ensures Steps(step, s, n).0[j] == r
    {
      if j == i {
        StepsAt(step, s, n, i);
      }
    }
  }
}
