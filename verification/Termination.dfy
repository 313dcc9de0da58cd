/** The whole run comes to an end, and what it has counted then. */
module Termination {
  import opened Protocol
  import opened Invariants
  import opened Progress
  import opened Safety
  import TiedClock

  /** Steps between the phases. */
  predicate IsPhaseStep(step: Step) {
    step.DoBegin? || step.DoDrain? || step.DoAbort? || step.DoOpenGate? || step.DoStop?
  }

  function Positive(x: int): nat { if x < 0 then 0 else x }

  /** What a phase that has not begun can still take. */
  function Window(c: Config, p: Phase): nat { 50 * (Positive(c.duration.At(p)) + 1) + 100 }

  /** The phases that have not begun. */
  function Future(c: Config, s: State): nat {
    (if s.pc.Begin? then Window(c, s.phase) else 0)
    + match s.phase
      case Warm => Window(c, Discard) + Window(c, Record)
      case Discard => Window(c, Record)
      case Record => 0
  }

  function WholePotential(c: Config, s: State, last: int): nat { Potential(s, last) + Future(c, s) }

  lemma LoopKeepsFuture(c: Config, s: State, step: Step)
    requires Enabled(c, s, step) && !IsPhaseStep(step)
    requires IsLoopStep(step) ==> InLoop(s.pc) || IsLibraryStep(step)
    ensures Future(c, Apply(c, s, step)) == Future(c, s)
  {
    hide PerPhase.At, PerPhase.With, AfterCallback, AfterMessage, AfterError, GateAdmits, Window;
    match step case _ =>
  }

  lemma PhaseStepDecreases(c: Config, s: State, step: Step, last: int)
    requires Gate(s) && Enabled(c, s, step) && IsPhaseStep(step)
    ensures WholePotential(c, Apply(c, s, step), LastCheck(step, last)) < WholePotential(c, s, last)
  {
    hide PerPhase.With, TotalWork;
    match step case _ =>
  }

  lemma LoopStepInLoop(c: Config, s: State, step: Step)
    requires Enabled(c, s, step) && IsLoopStep(step) && !IsLibraryStep(step)
    ensures InLoop(s.pc)
  {
    hide PerPhase.At;
    match step case _ =>
  }

  lemma EveryStep(step: Step)
    ensures IsLoopStep(step) || IsPhaseStep(step) || IsConsumerStep(step)
    ensures IsConsumerStep(step) ==> !IsLoopStep(step) && !IsPhaseStep(step)
    ensures IsPhaseStep(step) ==> !IsLoopStep(step)
  {
    match step case _ =>
  }

  /** Every step of producer, library or callback uses up potential; broker and consumer add none. */
  lemma StepDecreases(c: Config, s: State, step: Step, last: int)
    requires Inv(c, s) && Enabled(c, s, step) && CheckAdvances(step, last)
    ensures var before := WholePotential(c, s, last);
            var after := WholePotential(c, Apply(c, s, step), LastCheck(step, last));
            if IsConsumerStep(step) then after <= before else after < before
  {
    EveryStep(step);
    hide Apply, Enabled, Potential, Future, LastCheck, CheckAdvances;
    if IsPhaseStep(step) {
      PhaseStepDecreases(c, s, step, last);
    } else if IsConsumerStep(step) {
      ConsumerKeepsPotential(c, s, step, last);
      LoopKeepsFuture(c, s, step);
    } else {
      LoopStepDecreases(c, s, step, last);
      if !IsLibraryStep(step) {
        LoopStepInLoop(c, s, step);
      }
      LoopKeepsFuture(c, s, step);
    }
  }

  /** The steps of a schedule that are neither the broker's nor the consumer's. */
  function WorkSteps(steps: seq<Step>): nat {
    if steps == [] then 0 else (if IsConsumerStep(steps[0]) then 0 else 1) + WorkSteps(steps[1..])
  }

  /** However broker and consumer interleave, there are no more of them than the potential at the start. */
  lemma {:induction false} ScheduleBounded(c: Config, s: State, steps: seq<Step>, last: int)
    requires Inv(c, s) && ValidFrom(c, s, steps) && Advances(steps, last)
    ensures WorkSteps(steps) <= WholePotential(c, s, last)
    decreases |steps|
  {
    if steps != [] {
      hide Inv, Apply, Enabled, WholePotential, LastCheck, CheckAdvances;
      StepDecreases(c, s, steps[0], last);
      InvStep(c, s, steps[0]);
      ScheduleBounded(c, Apply(c, s, steps[0]), steps[1..], LastCheck(steps[0], last));
    }
  }

  /** The bound in numbers: fifty steps for each tick of the three windows, and a constant. */
  lemma RunBounded(c: Config, steps: seq<Step>)
    requires Run(c, steps) && Advances(steps, START)
    ensures WorkSteps(steps) <=
            50 * (Positive(c.duration.warm) + Positive(c.duration.discard) + Positive(c.duration.record)) + 455
  {
    InvInit(c);
    ScheduleBounded(c, Init(c), steps, START);
  }

  /** The producer is through and no callback is left. */
  predicate Over(s: State) { (s.pc.Finished? || s.pc.Aborted?) && AllSettled(s) }

  /** Outside the loop, a message that is not settled is on its way to be. */
  lemma CallbackPossible(c: Config, s: State, i: nat) returns (step: Step)
    requires Inv(c, s) && !HasCurrent(s.pc) && i < |s.msgs| && !s.msgs[i].status.Settled?
    ensures Enabled(c, s, step) && IsLibraryStep(step)
  {
    assert !ProducerOwned(s.msgs[i].status);
    var st := s.msgs[i].status;
    step := if st.InFlight? then CallBack(i, false, s.clock + 1)
            else if st.Acking? then CallbackRelease(i) else CallbackCount(i);
  }

  /** Until the run is over, producer, library or a callback can move, without any drain raising. */
  lemma NeverStuckInRun(c: Config, s: State) returns (step: Step)
    requires Inv(c, s) && 0 < c.inFlight && !Over(s)
    ensures Enabled(c, s, step) && !IsConsumerStep(step) && !step.DoAbort?
  {
    if InLoop(s.pc) {
      step := NeverStuck(c, s);
    } else if s.pc.Begin? {
      step := DoBegin(s.clock + 1);
    } else if s.pc.OpenGate? {
      step := DoOpenGate(s.clock + 1);
    } else if s.pc.Trailing? {
      step := DoStop(true);
    } else if AllSettled(s) {
      step := DoDrain;
    } else {
      var i :| 0 <= i < |s.msgs| && !s.msgs[i].status.Settled?;
      step := CallbackPossible(c, s, i);
    }
  }

  /**
   The run ends: once producer, library and callbacks have no step left, short of a drain raising, the producer is
   through, the consumer is told to stop, every callback is counted, and what was produced is acked or failed. That is
   after a bounded number of their steps if the clock advances from check to check.
   */
  lemma RunEnds(c: Config, steps: seq<Step>)
    requires Run(c, steps) && Advances(steps, START) && 0 < c.inFlight
    requires forall step :: !IsConsumerStep(step) && !step.DoAbort? ==> !Enabled(c, Reached(c, steps), step)
    ensures var s := Reached(c, steps); var m := s.counters.record;
            Over(s) && s.stop && m.produced == m.acked + m.errors
    ensures WorkSteps(steps) <=
            50 * (Positive(c.duration.warm) + Positive(c.duration.discard) + Positive(c.duration.record)) + 455
  {
    var s := Reached(c, steps);
    RunBounded(c, steps);
    InvReached(c, steps);
    if !Over(s) {
      var step := NeverStuckInRun(c, s);
    }
    SettledAccounting(c, steps);
    TiedClock.StopIffThrough(c, steps);
  }
}
