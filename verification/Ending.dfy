/** How a run ends: what the stop flag does to the consumer, and what a finish in time says about the counters. */
module Ending {
  import opened Protocol
  import opened Tallies
  import opened Invariants
  import opened Safety
  import opened TiedClock

  // ---- after the stop flag

  function Polls(steps: seq<Step>): nat {
    if steps == [] then 0 else (if steps[0].ConsumerPoll? then 1 else 0) + Polls(steps[1..])
  }

  lemma StoppedStep(c: Config, s: State, step: Step)
    requires s.stop && Enabled(c, s, step)
    ensures !step.ConsumerCheck? && Apply(c, s, step).stop
    ensures step.ConsumerPoll? ==> s.consumer.Fetching?
    ensures Apply(c, s, step).consumer.Fetching? ==> s.consumer.Fetching? && !step.ConsumerPoll?
  {
    hide PerPhase.At, PerPhase.With, AfterCallback, AfterMessage, AfterError, GateAdmits;
    match step case _ =>
  }

  /** Once the flag is set it stays set, no check passes any more, and only a poll that was under way still returns. */
  lemma {:induction false} StopIsFinal(c: Config, s: State, more: seq<Step>)
    requires s.stop && ValidFrom(c, s, more)
    ensures After(c, s, more).stop
    ensures forall k :: 0 <= k < |more| ==> !more[k].ConsumerCheck?
    ensures Polls(more) <= if s.consumer.Fetching? then 1 else 0
    decreases |more|
  {
    if more != [] {
      StoppedStep(c, s, more[0]);
      hide Apply, Enabled;
      StopIsFinal(c, Apply(c, s, more[0]), more[1..]);
      assert forall k :: 0 < k < |more| ==> more[k] == more[1..][k - 1];
    }
  }

  /** A run whose producer is through: in no continuation does the consumer start another poll. */
  lemma ThroughMeansStopped(c: Config, steps: seq<Step>, more: seq<Step>)
    requires Run(c, steps) && ValidFrom(c, Reached(c, steps), more)
    requires Reached(c, steps).pc.Finished? || Reached(c, steps).pc.Aborted?
    ensures forall k :: 0 <= k < |more| ==> !more[k].ConsumerCheck?
    ensures Polls(more) <= if Reached(c, steps).consumer.Fetching? then 1 else 0
  {
    StopIffThrough(c, steps);
    StopIsFinal(c, Reached(c, steps), more);
  }

  /** And the consumer at its check can leave at once. */
  lemma StoppedCanLeave(c: Config, steps: seq<Step>)
    requires Run(c, steps) && (Reached(c, steps).pc.Finished? || Reached(c, steps).pc.Aborted?)
    requires Reached(c, steps).consumer.Top?
    ensures Enabled(c, Reached(c, steps), ConsumerExit(Reached(c, steps).clock + 1))
  {
    StopIffThrough(c, steps);
  }

  // ---- a finish in time

  /** At the moment the trailing wait ends without a time-out, as many record messages have been consumed as acked. */
  lemma FinishInTime(c: Config, steps: seq<Step>, k: nat)
    requires Run(c, steps) && k < |steps| && steps[k] == DoStop(false)
    ensures ValidFrom(c, Init(c), steps[..k])
    ensures var m := Reached(c, steps[..k]).counters.record; m.acked <= m.consumed
  {
    Split(c, Init(c), steps, k);
    assert steps[k..][0] == steps[k];
  }

  /** Nothing is outstanding after the last of complete drains. */
  ghost predicate Clean(s: State) {
    s.pc.Trailing? || s.pc.Finished? ==> AllSettled(s)
  }

  lemma CleanStep(c: Config, s: State, step: Step)
    requires c.fullDrains && Clean(s) && Enabled(c, s, step)
    ensures Clean(Apply(c, s, step))
  {
    hide PerPhase.At, PerPhase.With, AfterCallback, AfterMessage, AfterError, GateAdmits;
    match step case _ =>
  }

  /** What holds once a run has finished in time. */
  predicate CaughtUp(s: State) {
    s.pc.Finished? ==> s.counters.record.acked <= s.counters.record.consumed
  }

  lemma CaughtUpStep(c: Config, s: State, step: Step)
    requires c.fullDrains && Clean(s) && CaughtUp(s) && Enabled(c, s, step) && step != DoStop(true)
    ensures CaughtUp(Apply(c, s, step))
  {
    CountersStep(c, s, step, Record);
    FinishedBefore(c, s, step);
    if s.pc.Finished? {
      assert !step.CallbackCount?;
      hide Apply;
      ConsumedGrows(c, s, step);
    }
  }

  lemma FinishedBefore(c: Config, s: State, step: Step)
    requires Enabled(c, s, step)
    ensures Apply(c, s, step).pc.Finished? ==> s.pc.Finished? || step.DoStop?
    ensures step.DoStop? ==> Apply(c, s, step).counters == s.counters
  {
    hide PerPhase.At, PerPhase.With, AfterCallback, AfterMessage, AfterError, GateAdmits, Reads;
    match step case _ =>
  }

  lemma ConsumedGrows(c: Config, s: State, step: Step)
    requires Enabled(c, s, step) && !step.CallbackCount?
    ensures var before, after := s.counters.record, CountersAfter(c, s, step, Record);
            after.acked == before.acked && before.consumed <= after.consumed
  {
    hide Apply, PerPhase.At;
    assert s.counters.At(Record) == s.counters.record by { RecordAt(s.counters); }
  }

  lemma RecordAt<T>(x: PerPhase<T>)
    ensures x.At(Record) == x.record
  {
  }

  lemma {:induction false} FinishedRun(c: Config, s: State, steps: seq<Step>)
    requires c.fullDrains && Clean(s) && CaughtUp(s) && ValidFrom(c, s, steps) && DoStop(true) !in steps
    ensures Clean(After(c, s, steps)) && CaughtUp(After(c, s, steps))
    decreases |steps|
  {
    if steps != [] {
      hide Apply, Enabled, Clean, CaughtUp;
      CleanStep(c, s, steps[0]);
      CaughtUpStep(c, s, steps[0]);
      FinishedRun(c, Apply(c, s, steps[0]), steps[1..]);
    }
  }

  /**
   With complete drains, a strict clock and no duplicates, a run that finishes without a time-out and without errors
   has lost nothing: what was produced was acked, and consumed, exactly once each.
   */
  lemma FinishedInTimeIsComplete(c: Config, steps: seq<Step>)
    requires Run(c, steps) && c.fullDrains && c.strictClock && c.noDuplicates
    requires Reached(c, steps).pc.Finished? && DoStop(true) !in steps
    ensures var m := Reached(c, steps).counters.record;
            && m.produced == m.acked + m.errors
            && m.acked <= m.consumed <= m.produced
            && (m.errors == 0 ==> m.consumed == m.acked == m.produced)
  {
    FinishedRun(c, Init(c), steps);
    SettledAccounting(c, steps);
    ConsumedWasProduced(c, steps);
  }
}
