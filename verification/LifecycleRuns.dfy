/** Runs put together from steps. */
module LifecycleRuns {
  import opened Common
  import opened Workorders
  import opened Lifecycles

  lemma RunPush(lim: Limits, s: Server, steps: seq<Step>, step: Step)
    ensures Run(lim, s, steps + [step]) == Do(lim, Run(lim, s, steps), step)
  {
    assert (steps + [step])[..|steps|] == steps;
  }

  lemma {:induction false} RunAppend(lim: Limits, s: Server, a: seq<Step>, b: seq<Step>)
    ensures Run(lim, s, a + b) == Run(lim, Run(lim, s, a), b)
    decreases |b|
  {
    hide Do;
    if b == [] {
      assert a + b == a;
    } else {
      var n := |b| - 1;
      assert a + b == (a + b[..n]) + [b[n]];
      RunPush(lim, s, a + b[..n], b[n]);
      RunAppend(lim, s, a, b[..n]);
    }
  }

  lemma RunSplitAt(lim: Limits, s: Server, steps: seq<Step>, i: nat)
    requires i < |steps|
    ensures Run(lim, s, steps) == Run(lim, Do(lim, Run(lim, s, steps[..i]), steps[i]), steps[i + 1..])
  {
    hide Do, Run;
    assert steps == (steps[..i] + [steps[i]]) + steps[i + 1..];
    RunPush(lim, s, steps[..i], steps[i]);
    RunAppend(lim, s, steps[..i] + [steps[i]], steps[i + 1..]);
  }

  lemma TwoSteps(lim: Limits, s: Server, a: Step, b: Step)
    ensures Run(lim, s, [a, b]) == Do(lim, Do(lim, s, a), b)
  {
    hide Do;
    assert [a, b] == [] + [a] + [b];
    RunPush(lim, s, [], a);
    RunPush(lim, s, [] + [a], b);
  }
}
