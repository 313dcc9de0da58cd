/** The consumer's deadline against the three windows: when it outlasts the producer, and when it does not. */
module Slack {
  import opened Protocol
  import opened Tallies
  import opened Invariants
  import opened Progress
  import opened Schedules
  import TiedClock

  predicate Planned(c: Config) { 0 <= c.duration.warm && 0 <= c.duration.discard && 0 <= c.duration.record }

  function Max(x: int, y: int): int { if x < y then y else x }

  /** What the windows did not plan for, of the time until `now`: outside the produce loop, or past its deadline. */
  function LostUntil(s: State, now: int): int {
    if InLoop(s.pc) then Max(0, now - Max(s.clock, s.deadline)) else now - s.clock
  }

  function Lost(c: Config, s: State, step: Step): int
    requires Enabled(c, s, step)
  {
    LostUntil(s, Apply(c, s, step).clock)
  }

  /** All drains, pauses and overshoots of a schedule. */
  function TotalLost(c: Config, s: State, steps: seq<Step>): int
    requires ValidFrom(c, s, steps)
    decreases |steps|
  {
    if steps == [] then 0 else Lost(c, s, steps[0]) + TotalLost(c, Apply(c, s, steps[0]), steps[1..])
  }

  /** How much of the three windows is over. */
  function Used(c: Config, s: State): int {
    var earlier := match s.phase
      case Warm => 0
      case Discard => c.duration.warm
      case Record => c.duration.warm + c.duration.discard;
    if s.pc.Begin? then earlier
    else if InLoop(s.pc) then earlier + c.duration.At(s.phase) - Max(0, s.deadline - s.clock)
    else earlier + c.duration.At(s.phase)
  }

  /** Steps that may begin or end a phase. */
  predicate Crosses(step: Step) {
    step.DoBegin? || step.DoCheck? || step.DoDrain? || step.DoAbort? || step.DoOpenGate? || step.DoStop?
  }

  lemma StaysInside(c: Config, s: State, step: Step)
    requires Enabled(c, s, step) && !Crosses(step)
    ensures var s' := Apply(c, s, step);
            && s'.phase == s.phase && s'.deadline == s.deadline && s.clock <= s'.clock
            && (s'.pc == s.pc || (InLoop(s.pc) && InLoop(s'.pc)))
  {
    hide PerPhase.At, PerPhase.With, AfterCallback, AfterMessage, AfterError, GateAdmits;
    match step case _ =>
  }

  lemma TimeInside(c: Config, s: State, s': State)
    requires s'.phase == s.phase && s'.deadline == s.deadline && s.clock <= s'.clock
    requires s'.pc == s.pc || (InLoop(s.pc) && InLoop(s'.pc))
    ensures s'.clock - s.clock == LostUntil(s, s'.clock) + Used(c, s') - Used(c, s) && 0 <= LostUntil(s, s'.clock)
  {
  }

  lemma TimeAtBegin(c: Config, s: State, t: int)
    requires Planned(c) && Enabled(c, s, DoBegin(t))
    ensures t - s.clock == Lost(c, s, DoBegin(t)) + Used(c, Apply(c, s, DoBegin(t))) - Used(c, s)
    ensures Apply(c, s, DoBegin(t)).clock == t && 0 <= Lost(c, s, DoBegin(t))
  {
    assert 0 <= c.duration.At(s.phase);
    hide PerPhase.At;
  }

  lemma TimeAtCheck(c: Config, s: State, t: int)
    requires Enabled(c, s, DoCheck(t))
    ensures t - s.clock == Lost(c, s, DoCheck(t)) + Used(c, Apply(c, s, DoCheck(t))) - Used(c, s)
    ensures Apply(c, s, DoCheck(t)).clock == t && 0 <= Lost(c, s, DoCheck(t))
  {
    hide PerPhase.At;
  }

  lemma TimeAcross(c: Config, s: State, step: Step)
    requires Gate(s) && Enabled(c, s, step) && Crosses(step) && !step.DoBegin? && !step.DoCheck?
    ensures Apply(c, s, step).clock - s.clock == Lost(c, s, step) + Used(c, Apply(c, s, step)) - Used(c, s)
    ensures 0 <= Lost(c, s, step)
  {
    match step case _ =>
  }

  lemma LostStep(c: Config, s: State, step: Step)
    requires Planned(c) && Gate(s) && Enabled(c, s, step)
    ensures Apply(c, s, step).clock - s.clock == Lost(c, s, step) + Used(c, Apply(c, s, step)) - Used(c, s)
    ensures 0 <= Lost(c, s, step)
  {
    hide Apply, Enabled, Used, LostUntil;
    if step.DoBegin? {
      TimeAtBegin(c, s, step.t);
    } else if step.DoCheck? {
      TimeAtCheck(c, s, step.t);
    } else if Crosses(step) {
      TimeAcross(c, s, step);
    } else {
      StaysInside(c, s, step);
      TimeInside(c, s, Apply(c, s, step));
    }
  }

  /** The clock is the windows used so far and the time lost so far. */
  lemma {:induction false} Ledger(c: Config, s: State, steps: seq<Step>)
    requires Planned(c) && Inv(c, s) && ValidFrom(c, s, steps)
    ensures After(c, s, steps).clock - s.clock == TotalLost(c, s, steps) + Used(c, After(c, s, steps)) - Used(c, s)
    ensures 0 <= TotalLost(c, s, steps)
    decreases |steps|
  {
    if steps != [] {
      hide Inv, Apply, Enabled, Lost, Used;
      InvStep(c, s, steps[0]);
      assert Gate(s) by { GateOf(c, s); }
      LostStep(c, s, steps[0]);
      Ledger(c, Apply(c, s, steps[0]), steps[1..]);
    }
  }

  lemma GateOf(c: Config, s: State)
    requires Inv(c, s)
    ensures Gate(s)
  {
  }

  /** A steady consumer leaves at its deadline or after the stop flag, never before. */
  predicate LeftInTime(c: Config, s: State) {
    s.consumer.Gone? && !s.stop ==> ConsumerDeadline(c) <= s.clock
  }

  lemma LeftInTimeStep(c: Config, s: State, step: Step)
    requires c.steadyConsumer && LeftInTime(c, s) && Enabled(c, s, step)
    ensures LeftInTime(c, Apply(c, s, step))
  {
    hide PerPhase.At, PerPhase.With, AfterCallback, AfterMessage, AfterError, GateAdmits;
    match step case _ =>
  }

  lemma {:induction false} LeftInTimeAfter(c: Config, s: State, steps: seq<Step>)
    requires c.steadyConsumer && LeftInTime(c, s) && ValidFrom(c, s, steps)
    ensures LeftInTime(c, After(c, s, steps))
    decreases |steps|
  {
    if steps != [] {
      hide Apply, Enabled, LeftInTime;
      LeftInTimeStep(c, s, steps[0]);
      LeftInTimeAfter(c, Apply(c, s, steps[0]), steps[1..]);
    }
  }

  /** While drains, pauses and overshoots add up to less than the slack, the consumer runs until it is stopped. */
  lemma ConsumerOutlasts(c: Config, steps: seq<Step>)
    requires Run(c, steps) && Planned(c) && c.steadyConsumer
    requires TotalLost(c, Init(c), steps) < c.slack
    ensures Reached(c, steps).consumer.Gone? ==> Reached(c, steps).stop
  {
    var s := Reached(c, steps);
    InvInit(c);
    Ledger(c, Init(c), steps);
    LeftInTimeAfter(c, Init(c), steps);
    assert Used(c, s) <= c.duration.warm + c.duration.discard + c.duration.record;
  }

  // ---- and when they do not

  /** The record window is over, x was lost by then, the consumer has left, and an acked message was never consumed. */
  ghost predicate CutShort(c: Config, steps: seq<Step>, x: int) {
    && Run(c, steps) && TotalLost(c, Init(c), steps) == x
    && var s := Reached(c, steps);
       && s.pc.Trailing? && s.consumer.Gone?
       && s.counters.record.consumed < s.counters.record.acked
  }

  /** Windows and a slack of at least a few ticks, where the configurations in use have seconds. */
  predicate LongEnough(c: Config) {
    && 0 <= c.duration.warm && 0 <= c.duration.discard && 0 < c.duration.record
    && (c.strictClock ==> 2 <= c.duration.warm && 2 <= c.duration.discard && 6 <= c.duration.record && 5 <= c.slack)
  }

  /** Pre-warm and discard without a send, up to the opening of the gate. */
  lemma TwoEmptyPhases(c: Config) returns (steps: seq<Step>, s: State)
    requires LongEnough(c)
    ensures Leads(c, Init(c), steps, s) && s.pc.Begin? && s.phase.Record?
    ensures s.clock == START + c.duration.warm + c.duration.discard + 3 * Tick(c)
    ensures s.msgs == [] && s.log == [] && s.permits == Init(c).permits && s.consumer == Top(0)
    ensures 0 < s.gate == s.clock && !s.stop
  {
    hide Leads;
    var t1 := START + Tick(c) + c.duration.warm;
    var t2 := t1 + Tick(c) + c.duration.discard;
    EmptyPhase(c, Init(c), t1);
    var s1 := NextPhase(Checked(c, Init(c), t1));
    EmptyPhase(c, s1, t2);
    var s2 := NextPhase(Checked(c, s1, t2));
    s := Apply(c, s2, DoOpenGate(t2 + Tick(c)));
    steps := EmptySteps(c, Init(c), t1) + EmptySteps(c, s1, t2);
    Then(c, Init(c), EmptySteps(c, Init(c), t1), s1, EmptySteps(c, s1, t2), s2);
    Snoc(c, Init(c), steps, s2, DoOpenGate(t2 + Tick(c)));
    steps := steps + [DoOpenGate(t2 + Tick(c))];
  }

  /** One message is sent and acked in the record window, and with the drain after it x is lost in all. */
  lemma LongDrain(c: Config, x: int) returns (steps: seq<Step>)
    requires LongEnough(c) && 0 < c.inFlight && 0 <= x && c.slack <= x
    ensures CutShort(c, steps, x)
  {
    var before, s1 := TwoEmptyPhases(c);
    var end, d := s1.clock + Tick(c) + c.duration.record, Tick(c);
    var late := end + x - 4 * d;
    var sending, s2 := SendingPhase(c, s1, s1.clock + 5 * d, end, true);
    Then(c, Init(c), before, s1, sending, s2);
    var s3 := Apply(c, s2, ConsumerExit(late));
    Snoc(c, Init(c), before + sending, s2, ConsumerExit(late));
    Snoc(c, Init(c), before + sending + [ConsumerExit(late)], s3, DoDrain);
    steps := before + sending + [ConsumerExit(late)] + [DoDrain];
    AckedAndLost(c, steps, d, x);
  }

  /** The books of that run. */
  lemma AckedAndLost(c: Config, steps: seq<Step>, latency: int, x: int)
    requires LongEnough(c) && Run(c, steps)
    requires var s := Reached(c, steps);
             && s.pc.Trailing? && s.consumer.Gone? && s.log == []
             && s.clock == START + c.duration.warm + c.duration.discard + c.duration.record + x
             && |s.msgs| == 1 && s.msgs[0].phase.Record? && s.msgs[0].status == Settled(false, true, latency)
    ensures CutShort(c, steps, x)
  {
    var s := Reached(c, steps);
    InvReached(c, steps);
    InvInit(c);
    Ledger(c, Init(c), steps);
    assert CountsAt(s, Record);
    CountedOnce(s.msgs, Settled(false, true, latency));
    SomethingBehind(s.recorded, s.log[..s.consumer.pos]);
  }

  lemma CountedOnce(msgs: seq<Msg>, status: Status)
    requires |msgs| == 1 && msgs[0].phase.Record? && msgs[0].status == status && status.Settled? && status.counted
    ensures Tallied(msgs, Record, AckCounted) == 1
  {
    assert msgs[..0] == [];
  }

  lemma SomethingBehind(recorded: seq<nat>, behind: seq<nat>)
    requires forall r :: r in recorded ==> r in behind
    ensures recorded != [] ==> behind != []
  {
    if recorded != [] {
      assert recorded[0] in recorded;
    }
  }

  /**
   On any clock: a run can lose x and leave an acked message unsampled because its consumer ran out of time, exactly if
   x reaches the slack.
   */
  lemma CutShortIff(c: Config, x: int)
    requires LongEnough(c) && c.steadyConsumer && 0 < c.inFlight
    ensures (exists steps :: CutShort(c, steps, x)) <==> 0 <= x && c.slack <= x
  {
    if steps :| CutShort(c, steps, x) {
      InvInit(c);
      Ledger(c, Init(c), steps);
      if x < c.slack {
        ConsumerOutlasts(c, steps);
        TiedClock.StopIffThrough(c, steps);
      }
    } else if 0 <= x && c.slack <= x {
      var steps := LongDrain(c, x);
    }
  }
}
