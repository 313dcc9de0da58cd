/** Which configurations can run into a tie between a stamp and the gate, and so leak an earlier message. */
module GateTies {
  import opened Protocol
  import opened Tallies
  import opened Invariants
  import opened Safety
  import opened TiedClock
  import opened Schedules

  /** The durations are not negative, and the consumer's deadline lies after the end of the discard window. */
  predicate Timed(c: Config) {
    0 <= c.duration.warm && 0 <= c.duration.discard && 0 < c.duration.record + c.slack
  }

  /** After the schedule, the gate can open with reading t. */
  predicate Opens(c: Config, steps: seq<Step>, t: int) {
    Run(c, steps) && Enabled(c, Reached(c, steps), DoOpenGate(t))
  }

  function Opened(c: Config, steps: seq<Step>, t: int): State
    requires Opens(c, steps, t)
  {
    Apply(c, Reached(c, steps), DoOpenGate(t))
  }

  // ---- a run with a tie

  predicate AtGate(c: Config, s: State, end: int, settle: bool) {
    && s.pc.OpenGate? && s.clock == end && s.log == [] && s.consumer == Top(0) && !s.stop
    && |s.msgs| == 1 && !s.msgs[0].phase.Record? && s.msgs[0].ts == end && s.msgs[0].accepted
    && (if settle then s.msgs[0].status.Settled? else s.msgs[0].status.InFlight?)
  }

  /** The message is stamped at the end of the discard window. */
  lemma DiscardTie(c: Config, settle: bool) returns (steps: seq<Step>, s: State)
    requires Timed(c) && !c.strictClock && 0 < c.inFlight && 0 < c.duration.discard
    requires c.fullDrains ==> settle
    ensures Leads(c, Init(c), steps, s)
    ensures AtGate(c, s, START + c.duration.warm + c.duration.discard, settle)
  {
    hide Leads;
    var begin := START + c.duration.warm;
    var s1 := NextPhase(Checked(c, Init(c), begin));
    EmptyPhase(c, Init(c), begin);
    var end := begin + c.duration.discard;
    var sending, u := SendingPhase(c, s1, end, end, settle);
    s := Apply(c, u, DoDrain);
    Snoc(c, s1, sending, u, DoDrain);
    steps := EmptySteps(c, Init(c), begin) + (sending + [DoDrain]);
    Then(c, Init(c), EmptySteps(c, Init(c), begin), s1, sending + [DoDrain], s);
  }

  /** Without a discard window, at the end of the pre-warm. */
  lemma WarmTie(c: Config, settle: bool) returns (steps: seq<Step>, s: State)
    requires Timed(c) && !c.strictClock && 0 < c.inFlight && c.duration.discard == 0 < c.duration.warm
    requires c.fullDrains ==> settle
    ensures Leads(c, Init(c), steps, s)
    ensures AtGate(c, s, START + c.duration.warm, settle)
  {
    hide Leads;
    var end := START + c.duration.warm;
    var sending, u := SendingPhase(c, Init(c), end, end, settle);
    var s1 := Apply(c, u, DoDrain);
    Snoc(c, Init(c), sending, u, DoDrain);
    EmptyPhase(c, s1, end);
    s := NextPhase(Checked(c, s1, end));
    steps := sending + [DoDrain] + EmptySteps(c, s1, end);
    Then(c, Init(c), sending + [DoDrain], s1, EmptySteps(c, s1, end), s);
  }

  lemma TieRun(c: Config, settle: bool) returns (steps: seq<Step>, end: int)
    requires Timed(c) && !c.strictClock && 0 < c.inFlight && 0 < c.duration.warm + c.duration.discard
    requires c.fullDrains ==> settle
    ensures Opens(c, steps, end) && CanLeak(c, Opened(c, steps, end), 0)
    ensures !settle ==> TiedAt(Opened(c, steps, end), Opened(c, steps, end).msgs[0].phase, 0)
  {
    var s: State;
    if 0 < c.duration.discard {
      steps, s := DiscardTie(c, settle);
    } else {
      steps, s := WarmTie(c, settle);
    }
    end := s.clock;
  }

  /** What is reached after a schedule and a continuation is reached by a schedule. */
  lemma Reachable(c: Config, steps: seq<Step>, t: int, more: seq<Step>) returns (all: seq<Step>)
    requires Opens(c, steps, t) && ValidFrom(c, Opened(c, steps, t), more)
    ensures Run(c, all) && Reached(c, all) == After(c, Opened(c, steps, t), more)
  {
    var s := Reached(c, steps);
    Snoc(c, Init(c), steps, s, DoOpenGate(t));
    all := steps + [DoOpenGate(t)] + more;
    Then(c, Init(c), steps + [DoOpenGate(t)], Opened(c, steps, t), more, After(c, Opened(c, steps, t), more));
  }

  // ---- where there can be none

  /** No message of an earlier phase exists, and none can be sent any more. */
  ghost predicate Barren(c: Config, s: State) {
    && (forall i :: 0 <= i < |s.msgs| ==> s.msgs[i].phase.Record?)
    && (s.phase.Record? || NothingYet(c, s))
  }

  predicate NothingYet(c: Config, s: State) {
    && s.msgs == [] && !s.pc.Stamp? && !HasCurrent(s.pc)
    && !s.pc.Pace?
    && (0 < c.inFlight ==> !s.pc.Acquire? && (s.pc.Schedule? || s.pc.Check? ==> s.deadline <= s.clock))
  }

  lemma NothingYetStep(c: Config, s: State, step: Step)
    requires c.inFlight == 0 || (c.duration.warm <= 0 && c.duration.discard <= 0)
    requires Inv(c, s) && !s.phase.Record? && NothingYet(c, s) && Enabled(c, s, step)
    ensures Apply(c, s, step).msgs == []
    ensures Apply(c, s, step).phase.Record? || NothingYet(c, Apply(c, s, step))
  {
    assert PermitsAt(c, s, s.phase);
    hide Inv, PerPhase.With, AfterCallback, AfterMessage, AfterError, GateAdmits;
    match step case _ =>
  }

  lemma BarrenStep(c: Config, s: State, step: Step)
    requires c.inFlight == 0 || (c.duration.warm <= 0 && c.duration.discard <= 0)
    requires Inv(c, s) && Barren(c, s) && Enabled(c, s, step)
    ensures Barren(c, Apply(c, s, step))
  {
    hide Apply, Enabled, NothingYet;
    if s.phase.Record? {
      MessagesStep(c, s, step);
      GateStaysOpen(c, s, step);
    } else {
      NothingYetStep(c, s, step);
    }
  }

  lemma {:induction false} BarrenAfter(c: Config, s: State, steps: seq<Step>)
    requires c.inFlight == 0 || (c.duration.warm <= 0 && c.duration.discard <= 0)
    requires Inv(c, s) && Barren(c, s) && ValidFrom(c, s, steps)
    ensures Barren(c, After(c, s, steps))
    decreases |steps|
  {
    if steps != [] {
      hide Inv, Apply, Enabled, Barren;
      InvStep(c, s, steps[0]);
      BarrenStep(c, s, steps[0]);
      BarrenAfter(c, Apply(c, s, steps[0]), steps[1..]);
    }
  }

  /** An earlier message that the gate admits takes a clock that ties, and an earlier phase that sends. */
  lemma AdmittedNeeds(c: Config, steps: seq<Step>, i: int)
    requires Timed(c) && Run(c, steps)
    requires var s := Reached(c, steps);
             0 <= i < |s.msgs| && !s.msgs[i].phase.Record? && GateAdmits(s.gate, s.msgs[i].ts)
    ensures !c.strictClock && 0 < c.inFlight && 0 < c.duration.warm + c.duration.discard
  {
    var s := Reached(c, steps);
    InvReached(c, steps);
    assert TimeOf(c, s, s.msgs[i]);
    if c.inFlight == 0 || c.duration.warm + c.duration.discard == 0 {
      InvInit(c);
      BarrenAfter(c, Init(c), steps);
    }
  }

  /** Under complete drains, no message of an earlier phase is counted as acked. */
  ghost predicate EarlierUncounted(s: State) {
    forall i :: 0 <= i < |s.msgs| && !s.msgs[i].phase.Record? ==> !Is(s.msgs[i], s.msgs[i].phase, AckCounted)
  }

  lemma MovedUncounted(c: Config, s: State, step: Step, i: nat)
    requires c.fullDrains && Inv(c, s) && Enabled(c, s, step)
    requires Moves(s, step) == i < |s.msgs| == |Apply(c, s, step).msgs| && !s.msgs[i].phase.Record?
    ensures !Is(Apply(c, s, step).msgs[i], s.msgs[i].phase, AckCounted)
  {
    if step.CallbackCount? {
      assert !s.phase.Record?;
      assert s.gate <= 0;
    } else {
      MovedNotCounted(c, s, step);
      hide Inv, PerPhase.At, PerPhase.With, AfterCallback, AfterMessage, AfterError;
      match step case _ =>
    }
  }

  lemma {:induction false} EarlierUncountedAfter(c: Config, s: State, steps: seq<Step>)
    requires c.fullDrains && Inv(c, s) && EarlierUncounted(s) && ValidFrom(c, s, steps)
    ensures EarlierUncounted(After(c, s, steps))
    decreases |steps|
  {
    if steps != [] {
      hide Inv, Apply, Enabled;
      var i, s' := Moves(s, steps[0]), Apply(c, s, steps[0]);
      InvStep(c, s, steps[0]);
      MessagesStep(c, s, steps[0]);
      if 0 <= i && !s.msgs[i].phase.Record? {
        MovedUncounted(c, s, steps[0], i);
      }
      EarlierUncountedAfter(c, s', steps[1..]);
    }
  }

  // ---- over configurations

  ghost predicate SamplesEarlier(c: Config, steps: seq<Step>) { Run(c, steps) && Leaked(Reached(c, steps)) }

  ghost predicate AcksEarlier(c: Config, steps: seq<Step>) {
    Run(c, steps) && exists p: Phase :: p != Record && 0 < Reached(c, steps).counters.At(p).acked
  }

  predicate EarlierPhasesSend(c: Config) { 0 < c.inFlight && 0 < c.duration.warm + c.duration.discard }

  /**
   Some run samples a message of an earlier phase exactly if two clock readings can be equal and the earlier phases
   send at all: whatever is assumed of drains, broker and consumer.
   */
  lemma EarlierSampledIff(c: Config)
    requires Timed(c)
    ensures (exists steps :: SamplesEarlier(c, steps)) <==> !c.strictClock && EarlierPhasesSend(c)
  {
    if steps :| SamplesEarlier(c, steps) {
      var r :| OldSample(Reached(c, steps), r);
      InvReached(c, steps);
      AdmittedNeeds(c, steps, r);
    } else if !c.strictClock && EarlierPhasesSend(c) {
      var steps, t := TieRun(c, true);
      OldSampleRecordedIffTie(c, steps, t);
      var more :| LeaksBy(c, Opened(c, steps, t), more);
      var all := Reachable(c, steps, t, more);
      assert SamplesEarlier(c, all);
    }
  }

  /** Some run counts an ack for an earlier phase exactly if, besides, drains may leave callbacks behind. */
  lemma EarlierAckedIff(c: Config)
    requires Timed(c)
    ensures (exists steps :: AcksEarlier(c, steps)) <==> !c.strictClock && !c.fullDrains && EarlierPhasesSend(c)
  {
    if steps :| AcksEarlier(c, steps) {
      var s := Reached(c, steps);
      var p: Phase :| p != Record && 0 < s.counters.At(p).acked;
      InvReached(c, steps);
      assert CountsAt(s, p);
      var i := TalliedWitness(s.msgs, p, AckCounted);
      assert TimeOf(c, s, s.msgs[i]);
      AdmittedNeeds(c, steps, i);
      if c.fullDrains {
        InvInit(c);
        EarlierUncountedAfter(c, Init(c), steps);
      }
    } else if !c.strictClock && !c.fullDrains && EarlierPhasesSend(c) {
      var steps, t := TieRun(c, false);
      var s := Opened(c, steps, t);
      var p := s.msgs[0].phase;
      InvReached(c, steps);
      assert 0 < s.gate;
      var more := TieLeaks(c, s, p, 0);
      var all := Reachable(c, steps, t, more);
      assert p != Record && 0 < Reached(c, all).counters.At(p).acked;
      assert AcksEarlier(c, all);
    }
  }
}
