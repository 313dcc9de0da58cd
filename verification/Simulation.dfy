/** The adapters inside the run: whatever one of them does during a call, the run can follow, state by state. */
module Simulation {
  import opened Contract
  import Adapters
  import P = Protocol
  import opened Invariants
  import opened Progress
  import opened Schedules

  /** marks[k] is the place in the schedule where the run has come as far as run[k]. */
  ghost predicate IsMarking(steps: seq<P.Step>, marks: seq<nat>, n: nat) {
    && |marks| == n
    && (forall k :: 0 <= k < n ==> marks[k] <= |steps|)
    && (forall j, k :: 0 <= j < k < n ==> marks[j] <= marks[k])
  }

  /** After m steps of the schedule, message i looks like x to the contract. */
  ghost predicate ShowsAt(c: P.Config, s: P.State, i: nat, steps: seq<P.Step>, m: nat, x: Submission) {
    && m <= |steps| && P.ValidFrom(c, s, steps[..m])
    && i < |P.After(c, s, steps[..m]).msgs|
    && SubmissionOf(P.After(c, s, steps[..m]), i) == x
  }

  lemma ShowsInLonger(c: P.Config, s: P.State, i: nat, steps: seq<P.Step>, step: P.Step, m: nat, x: Submission)
    requires ShowsAt(c, s, i, steps, m, x)
    ensures ShowsAt(c, s, i, steps + [step], m, x)
  {
    assert (steps + [step])[..m] == steps[..m];
  }

  /** Every callback of the schedule has this outcome. */
  ghost predicate CallsBackWith(steps: seq<P.Step>, failed: bool) {
    forall m :: 0 <= m < |steps| && steps[m].CallBack? ==> steps[m].failed == failed
  }

  /** One more contract step is no step of the run, or one. */
  lemma FollowOne(c: P.Config, s: P.State, i: nat, steps: seq<P.Step>, x: Submission, y: Submission, failed: bool)
    returns (more: seq<P.Step>)
    requires Inv(c, s) && P.ValidFrom(c, s, steps) && ShowsAt(c, s, i, steps, |steps|, x) && !x.Idle? && Next(x, y)
    ensures P.ValidFrom(c, s, more) && ShowsAt(c, s, i, more, |more|, y) && !y.Idle?
    ensures more == steps || (more != [] && more[..|more| - 1] == steps)
    ensures CallsBackWith(steps, failed) ==> CallsBackWith(more, failed)
  {
    hide Inv, P.Apply, P.Enabled, SubmissionOf;
    assert steps[..|steps|] == steps;
    if x == y {
      more := steps;
    } else {
      InvAfter(c, s, steps);
      var step := ContractIsAllowed(c, P.After(c, s, steps), i, y, failed);
      Snoc(c, s, steps, P.After(c, s, steps), step);
      more := steps + [step];
      assert more[..|more|] == more;
    }
  }

  /**
   From the moment the producer enters the adapter, any contract behaviour of the call is a schedule of the run that
   passes through each of its states in turn.
   */
  lemma {:induction false} ContractRunFollowed(c: P.Config, s: P.State, i: nat, run: seq<Submission>, failed: bool)
    returns (steps: seq<P.Step>, marks: seq<nat>)
    requires Inv(c, s) && i < |s.msgs|
    requires IsRun(run) && run[0] == Calling && SubmissionOf(s, i) == Calling
    ensures P.ValidFrom(c, s, steps) && IsMarking(steps, marks, |run|)
    ensures forall k :: 0 <= k < |run| ==> ShowsAt(c, s, i, steps, marks[k], run[k])
    ensures marks[|run| - 1] == |steps| && !run[|run| - 1].Idle?
    ensures CallsBackWith(steps, failed)
  {
    hide Inv, P.Apply, P.Enabled, SubmissionOf;
    var last := |run| - 1;
    if last == 0 {
      steps, marks := [], [0];
      assert P.After(c, s, []) == s;
    } else {
      var front := run[..last];
      assert front[last - 1] == run[last - 1];
      var before, fewer := ContractRunFollowed(c, s, i, front, failed);
      assert Next(run[last - 1], run[last]);
      steps := FollowOne(c, s, i, before, run[last - 1], run[last], failed);
      marks := fewer + [|steps|];
      forall k | 0 <= k < last
        ensures ShowsAt(c, s, i, steps, marks[k], run[k])
      {
        assert ShowsAt(c, s, i, before, fewer[k], front[k]);
        if steps != before {
          ShowsInLonger(c, s, i, before, steps[|steps| - 1], fewer[k], front[k]);
          assert steps == before + [steps[|steps| - 1]];
        }
      }
    }
  }

  /** The CallBack steps up to a mark are the firings of the contract run up to that state. */
  lemma CallbacksAtMark(c: P.Config, s: P.State, i: nat, run: seq<Submission>, steps: seq<P.Step>, m: nat)
    requires Inv(c, s) && i < |s.msgs| && SubmissionOf(s, i) == Calling
    requires IsRun(run) && ShowsAt(c, s, i, steps, m, run[|run| - 1])
    ensures Callbacks(steps[..m], i) == Firings(run)
  {
    hide Inv, P.Apply, P.Enabled, SubmissionOf;
    CallbacksFire(c, s, steps[..m], i);
    AtMostOnce(run);
  }

  /**
   So each of the three adapters is a possible adapter of the run: the schedule passes through every state of the
   call in turn, up to each it has called the message back as often as the adapter has called `on_ack`, and it passes
   on the same outcome.
   */
  lemma AdapterFollowed(c: P.Config, s: P.State, i: nat, run: seq<Adapters.Call>)
    returns (steps: seq<P.Step>, marks: seq<nat>)
    requires Inv(c, s) && i < |s.msgs| && SubmissionOf(s, i) == Calling
    requires Adapters.IsCallRun(run)
    ensures P.ValidFrom(c, s, steps) && IsMarking(steps, marks, |run|)
    ensures forall k :: 0 <= k < |run| ==> ShowsAt(c, s, i, steps, marks[k], Adapters.View(run[k]))
    ensures forall k :: 0 <= k < |run| ==> Callbacks(steps[..marks[k]], i) == Adapters.Fires(run[k])
    ensures forall f :: f in Adapters.Passed(run[|run| - 1]) ==> CallsBackWith(steps, f)
  {
    hide Inv, SubmissionOf, Adapters.View, Adapters.Fires, Adapters.Passed;
    Adapters.RunKeepsContract(run);
    assert Adapters.View(run[0]) == Calling by { Adapters.StartsCalling(run[0]); }
    var failed := Adapters.Verdict(run[|run| - 1]).Failed?;
    Adapters.OutcomePassedOn(run);
    steps, marks := ContractRunFollowed(c, s, i, Adapters.Views(run), failed);
    forall k | 0 <= k < |run|
      ensures Callbacks(steps[..marks[k]], i) == Adapters.Fires(run[k])
    {
      var part := run[..k + 1];
      assert Adapters.IsCallRun(part);
      Adapters.RunKeepsContract(part);
      assert Adapters.Views(part)[|part| - 1] == Adapters.View(run[k]);
      assert ShowsAt(c, s, i, steps, marks[k], Adapters.Views(run)[k]);
      CallbacksAtMark(c, s, i, Adapters.Views(part), steps, marks[k]);
    }
  }
}
