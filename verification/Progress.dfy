/** The produce loop cannot get stuck and comes to an end; and it assumes of an adapter no more than Contract. */
module Progress {
  import opened Protocol
  import opened Tallies
  import opened Invariants
  import opened Contract

  // ---- messages as submissions

  function Returned(s: State, i: nat): bool { !(s.pc.InAdapter? && i + 1 == |s.msgs|) }

  /** What one message looks like to the submission contract. */
  function SubmissionOf(s: State, i: nat): Submission
    requires i < |s.msgs|
  {
    SubmissionFor(s.msgs[i], Returned(s, i))
  }

  function SubmissionFor(m: Msg, returned: bool): Submission {
    match m.status
    case Stamped => Idle
    case Ready => Idle
    case InCall => Calling
    case InFlight => Owed(returned)
    case Acking(_, _) => Fired(returned)
    case Released(_, _) => Fired(returned)
    case Raised => Refused
    case RaiseReleased => Refused
    case Settled(_, _, _) => if m.accepted then Fired(returned) else Refused
  }

  lemma ReturnIsContract(m: Msg, before: bool, after: bool)
    requires before ==> after
    ensures Next(SubmissionFor(m, before), SubmissionFor(m, after))
  {
  }

  /** Only the newest message's call can be running, and no step of another message starts one. */
  lemma ReturnedStays(c: Config, s: State, step: Step, i: nat)
    requires Enabled(c, s, step) && i < |s.msgs| && Moves(s, step) != i && Returned(s, i)
    requires i < |Apply(c, s, step).msgs|
    ensures Returned(Apply(c, s, step), i)
  {
    hide PerPhase.At, PerPhase.With, AfterCallback, AfterMessage, AfterError, GateAdmits, Reads;
    match step case _ =>
  }

  lemma MovedRespectsContract(c: Config, s: State, step: Step, i: nat)
    requires Shape(s) && Taken(s) && Enabled(c, s, step) && i < |s.msgs|
    requires Moves(s, step) == i < |Apply(c, s, step).msgs|
    ensures Next(SubmissionOf(s, i), SubmissionOf(Apply(c, s, step), i))
  {
    hide PerPhase.At, PerPhase.With, AfterCallback, AfterMessage, AfterError, GateAdmits, Reads;
    match step case _ =>
  }

  lemma UnmovedRespectsContract(c: Config, s: State, step: Step, i: nat)
    requires Enabled(c, s, step) && i < |s.msgs| && Moves(s, step) != i
    ensures i < |Apply(c, s, step).msgs| && Next(SubmissionOf(s, i), SubmissionOf(Apply(c, s, step), i))
  {
    hide Apply, Enabled, Returned, SubmissionFor, Next;
    MessagesStep(c, s, step);
    var s' := Apply(c, s, step);
    assert s'.msgs[i] == s.msgs[i];
    if Returned(s, i) {
      ReturnedStays(c, s, step, i);
    }
    ReturnIsContract(s.msgs[i], Returned(s, i), Returned(s', i));
  }

  /** Every step of a run moves every message by a contract step. */
  lemma StepRespectsContract(c: Config, s: State, step: Step, i: nat)
    requires Inv(c, s) && Enabled(c, s, step) && i < |s.msgs|
    ensures i < |Apply(c, s, step).msgs|
    ensures Next(SubmissionOf(s, i), SubmissionOf(Apply(c, s, step), i))
  {
    hide Apply, Shape, Taken, Next, SubmissionOf;
    MessagesStep(c, s, step);
    if Moves(s, step) == i {
      MovedRespectsContract(c, s, step, i);
    } else {
      UnmovedRespectsContract(c, s, step, i);
    }
  }

  /** And whatever the contract lets a started call do next, the run can do next. */
  lemma ContractIsAllowed(c: Config, s: State, i: nat, y: Submission, failed: bool) returns (step: Step)
    requires Inv(c, s) && i < |s.msgs|
    requires !SubmissionOf(s, i).Idle? && y != SubmissionOf(s, i) && Next(SubmissionOf(s, i), y)
    ensures Enabled(c, s, step) && i < |Apply(c, s, step).msgs| && SubmissionOf(Apply(c, s, step), i) == y
    ensures step.CallBack? ==> step.failed == failed
  {
    var x := SubmissionOf(s, i);
    if x.Calling? {
      step := if y.Refused? then DoRaise else DoAccept;
    } else if x.Owed? && y.Fired? {
      step := CallBack(i, failed, s.clock + 1);
    } else {
      assert s.pc.InAdapter? && s.msgs[i].accepted;
      step := DoReturn;
    }
  }

  /** How often a schedule calls message i back. */
  function Callbacks(steps: seq<Step>, i: nat): nat {
    if steps == [] then 0
    else (if steps[0].CallBack? && steps[0].i == i then 1 else 0) + Callbacks(steps[1..], i)
  }

  function FiredCount(s: State, i: nat): nat
    requires i < |s.msgs|
  {
    if SubmissionOf(s, i).Fired? then 1 else 0
  }

  predicate HasFired(m: Msg) { m.status.Acking? || m.status.Released? || (m.status.Settled? && m.accepted) }

  lemma FiredByStatus(s: State, i: nat)
    requires i < |s.msgs|
    ensures FiredCount(s, i) == if HasFired(s.msgs[i]) then 1 else 0
  {
  }

  lemma MovedFires(c: Config, s: State, step: Step, i: nat)
    requires Taken(s) && Shape(s) && Enabled(c, s, step)
    requires Moves(s, step) == i < |s.msgs| == |Apply(c, s, step).msgs|
    ensures HasFired(Apply(c, s, step).msgs[i]) <==> HasFired(s.msgs[i]) || step.CallBack?
    ensures step.CallBack? ==> !HasFired(s.msgs[i])
  {
    hide PerPhase.At, PerPhase.With, AfterCallback, AfterMessage, AfterError, GateAdmits, Reads;
    match step case _ =>
  }

  lemma StepFires(c: Config, s: State, step: Step, i: nat)
    requires Inv(c, s) && Enabled(c, s, step) && i < |s.msgs|
    ensures i < |Apply(c, s, step).msgs|
    ensures FiredCount(Apply(c, s, step), i) == FiredCount(s, i) + if step.CallBack? && step.i == i then 1 else 0
  {
    hide Apply, Enabled, FiredCount, HasFired, Shape, Taken;
    MessagesStep(c, s, step);
    FiredByStatus(s, i);
    FiredByStatus(Apply(c, s, step), i);
    if Moves(s, step) == i {
      MovedFires(c, s, step, i);
    }
  }

  /** The CallBack steps of a schedule are exactly the firings that the contract sees. */
  lemma {:induction false} CallbacksFire(c: Config, s: State, steps: seq<Step>, i: nat)
    requires Inv(c, s) && ValidFrom(c, s, steps) && i < |s.msgs|
    ensures i < |After(c, s, steps).msgs|
    ensures FiredCount(After(c, s, steps), i) == FiredCount(s, i) + Callbacks(steps, i)
    decreases |steps|
  {
    if steps != [] {
      hide Inv, Apply, Enabled, FiredCount;
      InvStep(c, s, steps[0]);
      StepFires(c, s, steps[0], i);
      CallbacksFire(c, Apply(c, s, steps[0]), steps[1..], i);
    }
  }

  // ---- never stuck

  predicate InLoop(pc: Pc) {
    pc.Schedule? || pc.Check? || pc.Pace? || pc.Acquire? || pc.Stamp? || HasCurrent(pc)
  }

  /** Steps of the producer loop, of the library and of its callbacks. */
  predicate IsLoopStep(step: Step) {
    || step.DoSchedule? || step.DoCheck? || step.DoPace? || step.DoAcquire? || step.DoStamp? || step.DoCount?
    || IsAdapterStep(step) || IsLibraryStep(step)
  }

  /** A producer without a permit waits for a message of its own phase that is on its way to give one back. */
  lemma BlockedHasPending(c: Config, s: State) returns (step: Step)
    requires Inv(c, s) && 0 < c.inFlight && s.pc.Acquire? && s.permits.At(s.phase) == 0
    ensures Enabled(c, s, step) && (step.CallBack? || step.CallbackRelease?)
    ensures s.msgs[step.i].phase == s.phase
  {
    assert PermitsAt(c, s, s.phase);
    var i := TalliedWitness(s.msgs, s.phase, Holding);
    assert !ProducerOwned(s.msgs[i].status);
    step := if s.msgs[i].status.InFlight? then CallBack(i, false, s.clock + 1) else CallbackRelease(i);
  }

  /** Inside the loop some thread can always move. */
  lemma NeverStuck(c: Config, s: State) returns (step: Step)
    requires Inv(c, s) && 0 < c.inFlight && InLoop(s.pc)
    ensures Enabled(c, s, step) && IsLoopStep(step)
  {
    if s.pc.Acquire? && s.permits.At(s.phase) == 0 {
      step := BlockedHasPending(c, s);
    } else {
      step :=
        if s.pc.Schedule? then DoSchedule(s.clock + 1)
        else if s.pc.Check? then DoCheck(s.clock + 1)
        else if s.pc.Pace? then DoPace(if s.clock < s.nextSend then s.nextSend else s.clock + 1)
        else if s.pc.Acquire? then DoAcquire
        else if s.pc.Stamp? then DoStamp(s.clock + 1)
        else if s.pc.Count? then DoCount
        else if s.pc.Enter? then DoEnter
        else if s.pc.RecoverRelease? then DoRecoverRelease
        else if s.pc.RecoverCount? then DoRecoverCount
        else if s.msgs[Last(s)].accepted then DoReturn
        else DoAccept;
    }
  }

  lemma AcquireWaits(c: Config, s: State, step: Step)
    requires Enabled(c, s, step) && s.pc.Acquire? && !step.DoAcquire?
    ensures Apply(c, s, step).pc.Acquire? && Apply(c, s, step).phase == s.phase
  {
    hide PerPhase.At, PerPhase.With, AfterCallback, AfterMessage, AfterError;
    match step case _ =>
  }

  /** A window of zero is the one size that blocks: the producer then never leaves its first acquire. */
  lemma {:induction false} ZeroWindowBlocks(c: Config, s: State, more: seq<Step>)
    requires Inv(c, s) && c.inFlight == 0 && s.pc.Acquire? && ValidFrom(c, s, more)
    ensures After(c, s, more).pc.Acquire?
    decreases |more|
  {
    if more != [] {
      assert PermitsAt(c, s, s.phase);
      assert !more[0].DoAcquire?;
      hide Inv, Apply, Enabled;
      InvStep(c, s, more[0]);
      AcquireWaits(c, s, more[0]);
      ZeroWindowBlocks(c, Apply(c, s, more[0]), more[1..]);
    }
  }

  // ---- ends

  function Rank(pc: Pc): nat {
    match pc
    case Schedule => 15
    case Pace => 12
    case Acquire => 11
    case Stamp => 10
    case Count => 9
    case Enter => 8
    case InAdapter => 7
    case RecoverRelease => 6
    case RecoverCount => 5
    case Check => 4
    case Drain => 3
    case OpenGate => 2
    case Trailing => 2
    case Begin => 1
    case _ => 0
  }

  /** Steps a message still has ahead of it outside the producer. */
  function Work(st: Status): nat {
    match st
    case Stamped => 4
    case Ready => 4
    case InCall => 4
    case InFlight => 3
    case Acking(_, _) => 2
    case Released(_, _) => 1
    case _ => 0
  }

  function TotalWork(msgs: seq<Msg>): nat {
    if msgs == [] then 0 else TotalWork(msgs[..|msgs| - 1]) + Work(msgs[|msgs| - 1].status)
  }

  lemma {:induction false} TotalWorkUpdate(msgs: seq<Msg>, i: nat, m: Msg)
    requires i < |msgs|
    ensures TotalWork(msgs[i := m]) == TotalWork(msgs) - Work(msgs[i].status) + Work(m.status)
  {
    var n := |msgs| - 1;
    if i == n {
      assert msgs[i := m][..n] == msgs[..n];
    } else {
      assert msgs[i := m][..n] == msgs[..n][i := m];
      TotalWorkUpdate(msgs[..n], i, m);
    }
  }

  /** `last` is the reading of the latest deadline check, or just before the phase began. */
  function TimeLeft(s: State, last: int): nat {
    if InLoop(s.pc) && last < s.deadline then s.deadline - last else 0
  }

  /** Ticks to the deadline, then the place in the loop, then what callbacks have to do: weighted into one number. */
  function Potential(s: State, last: int): nat { 50 * TimeLeft(s, last) + 5 * Rank(s.pc) + TotalWork(s.msgs) }

  function LastCheck(step: Step, last: int): int {
    if step.DoCheck? then step.t else if step.DoBegin? then step.t - 1 else last
  }

  predicate CheckAdvances(step: Step, last: int) { step.DoCheck? ==> last < step.t }

  /** The clock advances from each deadline check to the next; other readings may tie. */
  ghost predicate Advances(steps: seq<Step>, last: int)
    decreases |steps|
  {
    steps == [] || (CheckAdvances(steps[0], last) && Advances(steps[1..], LastCheck(steps[0], last)))
  }

  lemma WorkStep(c: Config, s: State, step: Step)
    requires Enabled(c, s, step)
    ensures var i, msgs := Moves(s, step), Apply(c, s, step).msgs;
            TotalWork(msgs) == TotalWork(s.msgs)
              + (if step.DoStamp? then 4
                 else if 0 <= i < |s.msgs| && i < |msgs| then Work(msgs[i].status) - Work(s.msgs[i].status)
                 else 0)
  {
    assert Work(Stamped) == 4;
    hide Apply, Enabled, Work;
    MessagesStep(c, s, step);
    var i, msgs := Moves(s, step), Apply(c, s, step).msgs;
    if step.DoStamp? {
      assert msgs[..|s.msgs|] == s.msgs;
    } else if 0 <= i {
      TotalWorkUpdate(s.msgs, i, msgs[i]);
    }
  }

  lemma LibraryDecreases(c: Config, s: State, step: Step, last: int)
    requires Shape(s) && Enabled(c, s, step) && IsLibraryStep(step)
    ensures Potential(Apply(c, s, step), LastCheck(step, last)) < Potential(s, last)
  {
    hide PerPhase.At, PerPhase.With, AfterCallback, AfterMessage, AfterError, TotalWork, GateAdmits;
    WorkStep(c, s, step);
    match step case _ =>
  }

  lemma AdapterDecreases(c: Config, s: State, step: Step, last: int)
    requires Current(s) && Enabled(c, s, step) && IsAdapterStep(step)
    ensures Potential(Apply(c, s, step), LastCheck(step, last)) < Potential(s, last)
  {
    hide PerPhase.At, PerPhase.With, AfterCallback, AfterMessage, AfterError, TotalWork, GateAdmits;
    WorkStep(c, s, step);
    match step case _ =>
  }

  lemma LoopDecreases(c: Config, s: State, step: Step, last: int)
    requires Shape(s) && Enabled(c, s, step) && CheckAdvances(step, last)
    requires IsLoopStep(step) && !IsAdapterStep(step) && !IsLibraryStep(step)
    ensures Potential(Apply(c, s, step), LastCheck(step, last)) < Potential(s, last)
  {
    hide PerPhase.At, PerPhase.With, AfterCallback, AfterMessage, AfterError, TotalWork, GateAdmits;
    WorkStep(c, s, step);
    match step case _ =>
  }

  /** Every step of loop, library or callback uses up potential, if the clock has moved on since the last check. */
  lemma LoopStepDecreases(c: Config, s: State, step: Step, last: int)
    requires Inv(c, s) && Enabled(c, s, step) && IsLoopStep(step) && CheckAdvances(step, last)
    ensures Potential(Apply(c, s, step), LastCheck(step, last)) < Potential(s, last)
  {
    hide Apply, Potential, Current, LastCheck, CheckAdvances;
    if IsLibraryStep(step) {
      LibraryDecreases(c, s, step, last);
    } else if IsAdapterStep(step) {
      assert HasCurrent(s.pc);
      AdapterDecreases(c, s, step, last);
    } else {
      LoopDecreases(c, s, step, last);
    }
  }

  /** Broker and consumer do not delay the loop. */
  lemma ConsumerKeepsPotential(c: Config, s: State, step: Step, last: int)
    requires Enabled(c, s, step) && IsConsumerStep(step)
    ensures Potential(Apply(c, s, step), LastCheck(step, last)) <= Potential(s, last)
  {
    hide PerPhase.At, PerPhase.With, AfterMessage, TotalWork, GateAdmits;
    match step case _ =>
  }

  ghost predicate InsideLoop(steps: seq<Step>) {
    forall i :: 0 <= i < |steps| ==> IsLoopStep(steps[i]) || IsConsumerStep(steps[i])
  }

  function LoopSteps(steps: seq<Step>): nat {
    if steps == [] then 0 else (if IsLoopStep(steps[0]) then 1 else 0) + LoopSteps(steps[1..])
  }

  /** However broker and consumer interleave, loop and callbacks take no more steps than the starting potential. */
  lemma {:induction false} LoopScheduleBounded(c: Config, s: State, more: seq<Step>, last: int)
    requires Inv(c, s) && ValidFrom(c, s, more) && InsideLoop(more) && Advances(more, last)
    ensures LoopSteps(more) <= Potential(s, last)
    ensures Inv(c, After(c, s, more))
    decreases |more|
  {
    if more != [] {
      hide Inv, Apply, Potential, Enabled, LastCheck, CheckAdvances;
      if IsLoopStep(more[0]) {
        LoopStepDecreases(c, s, more[0], last);
      } else {
        ConsumerKeepsPotential(c, s, more[0], last);
      }
      InvStep(c, s, more[0]);
      LoopScheduleBounded(c, Apply(c, s, more[0]), more[1..], LastCheck(more[0], last));
    }
  }

  /**
   The loop ends: once no step of the loop, the library or a callback is left to take, the producer has left the
   loop; and that is after a bounded number of them.
   */
  lemma LoopEnds(c: Config, s: State, more: seq<Step>, last: int)
    requires 0 < c.inFlight && Inv(c, s)
    requires ValidFrom(c, s, more) && InsideLoop(more) && Advances(more, last)
    requires forall step :: IsLoopStep(step) ==> !Enabled(c, After(c, s, more), step)
    ensures !InLoop(After(c, s, more).pc)
    ensures LoopSteps(more) <= Potential(s, last)
  {
    LoopScheduleBounded(c, s, more, last);
    if InLoop(After(c, s, more).pc) {
      var step := NeverStuck(c, After(c, s, more));
    }
  }

  /** A strict clock advances in particular from check to check. */
  lemma {:induction false} StrictClockAdvances(c: Config, s: State, more: seq<Step>, last: int)
    requires c.strictClock && last <= s.clock && ValidFrom(c, s, more)
    ensures Advances(more, last)
    decreases |more|
  {
    if more != [] {
      ClockMovesOn(c, s, more[0]);
      hide Apply, Enabled;
      StrictClockAdvances(c, Apply(c, s, more[0]), more[1..], LastCheck(more[0], last));
    }
  }

  lemma ClockMovesOn(c: Config, s: State, step: Step)
    requires Enabled(c, s, step)
    ensures s.clock <= Apply(c, s, step).clock
    ensures step.DoCheck? || step.DoBegin? ==> Apply(c, s, step).clock == step.t && (c.strictClock ==> s.clock < step.t)
  {
    hide PerPhase.At, PerPhase.With, AfterCallback, AfterMessage, AfterError, GateAdmits;
    match step case _ =>
  }
}
