/** The rate limit inside the run: when the messages of a phase are stamped, and how many there are. */
module Pacing {
  import opened Protocol
  import opened Invariants

  function PhaseSize(msgs: seq<Msg>, p: Phase): nat {
    if msgs == [] then 0
    else PhaseSize(msgs[..|msgs| - 1], p) + if msgs[|msgs| - 1].phase == p then 1 else 0
  }

  lemma PhaseSizeAppend(msgs: seq<Msg>, m: Msg, p: Phase)
    ensures PhaseSize(msgs + [m], p) == PhaseSize(msgs, p) + if m.phase == p then 1 else 0
  {
    assert (msgs + [m])[..|msgs|] == msgs;
  }

  lemma {:induction false} PhaseSizeSame(a: seq<Msg>, b: seq<Msg>, p: Phase)
    requires |a| == |b|
    requires forall i :: 0 <= i < |a| ==> a[i].phase == b[i].phase
    ensures PhaseSize(a, p) == PhaseSize(b, p)
  {
    if a != [] {
      PhaseSizeSame(a[..|a| - 1], b[..|b| - 1], p);
    }
  }

  lemma {:induction false} PhaseSizeNone(msgs: seq<Msg>, p: Phase)
    requires forall i :: 0 <= i < |msgs| ==> msgs[i].phase != p
    ensures PhaseSize(msgs, p) == 0
  {
    if msgs != [] {
      PhaseSizeNone(msgs[..|msgs| - 1], p);
    }
  }

  /** Apart from a stamp, a step leaves number, phases and stamps of the messages alone. */
  lemma StampsKept(c: Config, s: State, step: Step)
    requires Enabled(c, s, step)
    ensures var msgs := Apply(c, s, step).msgs;
            && |msgs| == |s.msgs| + (if step.DoStamp? then 1 else 0)
            && forall i :: 0 <= i < |s.msgs| ==> msgs[i].phase == s.msgs[i].phase && msgs[i].ts == s.msgs[i].ts
  {
    hide Apply, Enabled;
    MessagesStep(c, s, step);
  }

  /** Steps that touch the loop's clock variables or decide about the next send. */
  predicate IsPacingStep(step: Step) {
    || step.DoBegin? || step.DoSchedule? || step.DoCheck? || step.DoPace? || step.DoAcquire? || step.DoStamp?
    || step.DoDrain? || step.DoOpenGate?
  }

  /** The check of the next send has been passed. */
  predicate Passed(pc: Pc) { pc.Pace? || pc.Acquire? || pc.Stamp? }

  /** The next send has left the pacer. */
  predicate Released(pc: Pc) { pc.Acquire? || pc.Stamp? }

  predicate Starting(pc: Pc) { pc.Begin? || pc.Schedule? }

  lemma OtherStepsKeepPace(c: Config, s: State, step: Step)
    requires Enabled(c, s, step) && !IsPacingStep(step)
    ensures var s' := Apply(c, s, step);
            && s'.phase == s.phase && s'.deadline == s.deadline && s'.started == s.started && s'.nextSend == s.nextSend
            && s.clock <= s'.clock
            && Passed(s'.pc) == Passed(s.pc) && Released(s'.pc) == Released(s.pc)
            && Starting(s'.pc) == Starting(s.pc) && s'.pc.Begin? == s.pc.Begin?
  {
    hide PerPhase.At, PerPhase.With, AfterCallback, AfterMessage, AfterError, GateAdmits;
    match step case _ =>
  }

  // ---- the overshoot

  /** No message is of a phase that has not begun. */
  ghost predicate InOrder(s: State) {
    && (s.phase.Warm? ==> forall i :: 0 <= i < |s.msgs| ==> s.msgs[i].phase.Warm?)
    && (!s.phase.Record? ==> forall i :: 0 <= i < |s.msgs| ==> !s.msgs[i].phase.Record?)
    && (Starting(s.pc) ==> forall i :: 0 <= i < |s.msgs| ==> s.msgs[i].phase != s.phase)
  }

  /** A message of the current phase stamped at or after its deadline is the last. */
  ghost predicate LastIsLate(s: State) {
    forall i :: 0 <= i < |s.msgs| && s.msgs[i].phase == s.phase && s.deadline <= s.msgs[i].ts ==>
      i == |s.msgs| - 1 && !Passed(s.pc)
  }

  lemma InOrderPacing(c: Config, s: State, step: Step)
    requires InOrder(s) && Enabled(c, s, step) && IsPacingStep(step) && (s.pc.OpenGate? ==> s.phase.Discard?)
    ensures InOrder(Apply(c, s, step))
  {
    hide PerPhase.At, PerPhase.With, Reads;
    match step case _ =>
  }

  lemma InOrderStep(c: Config, s: State, step: Step)
    requires InOrder(s) && Enabled(c, s, step) && (s.pc.OpenGate? ==> s.phase.Discard?)
    ensures InOrder(Apply(c, s, step))
  {
    if IsPacingStep(step) {
      InOrderPacing(c, s, step);
    } else {
      hide Apply, Enabled;
      StampsKept(c, s, step);
      OtherStepsKeepPace(c, s, step);
    }
  }

  lemma LastIsLatePacing(c: Config, s: State, step: Step)
    requires InOrder(s) && LastIsLate(s) && Enabled(c, s, step) && IsPacingStep(step)
    requires s.pc.OpenGate? ==> s.phase.Discard?
    requires forall i :: 0 <= i < |s.msgs| ==> s.msgs[i].ts <= s.clock
    ensures LastIsLate(Apply(c, s, step))
  {
    hide PerPhase.At, PerPhase.With;
    match step case _ =>
  }

  lemma LastIsLateStep(c: Config, s: State, step: Step)
    requires InOrder(s) && LastIsLate(s) && Enabled(c, s, step) && (s.pc.OpenGate? ==> s.phase.Discard?)
    requires forall i :: 0 <= i < |s.msgs| ==> s.msgs[i].ts <= s.clock
    ensures LastIsLate(Apply(c, s, step))
  {
    if IsPacingStep(step) {
      LastIsLatePacing(c, s, step);
    } else {
      hide Apply, Enabled;
      StampsKept(c, s, step);
      OtherStepsKeepPace(c, s, step);
    }
  }

  // ---- the schedule

  /** The k-th slot of the record phase. */
  function Slot(c: Config, started: int, k: int): int { started + c.interval * k }

  lemma NextSlot(c: Config, started: int, k: int)
    ensures Slot(c, started, 0) == started
    ensures Slot(c, started, k + 1) == Slot(c, started, k) + c.interval
  {
  }

  /** How many sends have passed the check, and how many have left the pacer. */
  function Checks(s: State): nat { PhaseSize(s.msgs, Record) + if Passed(s.pc) then 1 else 0 }

  function Leaves(s: State): nat { PhaseSize(s.msgs, Record) + if Released(s.pc) then 1 else 0 }

  /** The variables of the pacer between the sends of a record phase with a rate. */
  predicate OnSchedule(c: Config, s: State) {
    && s.deadline <= s.started + c.duration.record
    && s.nextSend == Slot(c, s.started, Leaves(s))
    && (1 <= Leaves(s) ==> Slot(c, s.started, Leaves(s) - 1) <= s.clock)
    && (2 <= Checks(s) ==> Slot(c, s.started, Checks(s) - 2) < s.deadline)
  }

  /** No message is stamped before its slot. */
  ghost predicate NoneEarly(c: Config, s: State) {
    forall i :: 0 <= i < |s.msgs| && s.msgs[i].phase.Record? ==>
      Slot(c, s.started, PhaseSize(s.msgs[..i], Record)) <= s.msgs[i].ts
  }

  ghost predicate Paced(c: Config, s: State) {
    && (s.phase.Record? && s.pc.Schedule? ==> s.deadline <= s.clock + c.duration.record)
    && (s.phase.Record? && !Starting(s.pc) ==> OnSchedule(c, s) && NoneEarly(c, s))
  }

  lemma ScheduleBegins(c: Config, s: State, t: int)
    requires InOrder(s) && Paced(c, s) && s.phase.Record? && Enabled(c, s, DoSchedule(t))
    ensures Paced(c, Apply(c, s, DoSchedule(t)))
  {
    PhaseSizeNone(s.msgs, Record);
    NextSlot(c, t, 0);
  }

  lemma CheckKeepsPace(c: Config, s: State, t: int)
    requires 0 < c.interval && Paced(c, s) && s.phase.Record? && Enabled(c, s, DoCheck(t))
    ensures Paced(c, Apply(c, s, DoCheck(t)))
  {
    hide Slot;
  }

  lemma PaceKeepsPace(c: Config, s: State, t: int)
    requires 0 < c.interval && Paced(c, s) && s.phase.Record? && Enabled(c, s, DoPace(t))
    ensures Paced(c, Apply(c, s, DoPace(t)))
  {
    NextSlot(c, s.started, Leaves(s));
    hide Slot;
  }

  lemma StampKeepsPace(c: Config, s: State, t: int)
    requires Paced(c, s) && s.phase.Record? && Enabled(c, s, DoStamp(t))
    ensures Paced(c, Apply(c, s, DoStamp(t)))
  {
    hide Slot;
    var m := Msg(s.phase, t, Stamped, false);
    var s' := Apply(c, s, DoStamp(t));
    PhaseSizeAppend(s.msgs, m, Record);
    forall i | 0 <= i < |s'.msgs| && s'.msgs[i].phase.Record?
      ensures Slot(c, s.started, PhaseSize(s'.msgs[..i], Record)) <= s'.msgs[i].ts
    {
      assert s'.msgs[..i] == s.msgs[..i];
      if i == |s.msgs| {
        assert s.msgs[..i] == s.msgs;
      }
    }
  }

  lemma SameStampsKeepPace(c: Config, s: State, s': State)
    requires Paced(c, s) && s.phase.Record? && !Starting(s.pc) && !Starting(s'.pc)
    requires s'.phase == s.phase && s'.deadline == s.deadline && s'.started == s.started && s'.nextSend == s.nextSend
    requires s.clock <= s'.clock && Passed(s'.pc) == Passed(s.pc) && Released(s'.pc) == Released(s.pc)
    requires |s'.msgs| == |s.msgs|
    requires forall i :: 0 <= i < |s.msgs| ==> s'.msgs[i].phase == s.msgs[i].phase && s'.msgs[i].ts == s.msgs[i].ts
    ensures Paced(c, s')
  {
    hide Slot;
    PhaseSizeSame(s.msgs, s'.msgs, Record);
    forall i | 0 <= i < |s'.msgs| && s'.msgs[i].phase.Record?
      ensures Slot(c, s.started, PhaseSize(s'.msgs[..i], Record)) <= s'.msgs[i].ts
    {
      PhaseSizeSame(s.msgs[..i], s'.msgs[..i], Record);
    }
  }

  lemma OtherKeepsPace(c: Config, s: State, step: Step)
    requires Paced(c, s) && Enabled(c, s, step) && (!IsPacingStep(step) || step.DoAcquire?)
    ensures Paced(c, Apply(c, s, step))
  {
    hide Apply, OnSchedule, NoneEarly;
    StampsKept(c, s, step);
    if step.DoAcquire? {
      AcquireKeepsPlace(c, s);
    } else {
      OtherStepsKeepPace(c, s, step);
    }
    if s.phase.Record? && !Starting(s.pc) {
      SameStampsKeepPace(c, s, Apply(c, s, step));
    }
  }

  lemma AcquireKeepsPlace(c: Config, s: State)
    requires Enabled(c, s, DoAcquire)
    ensures var s' := Apply(c, s, DoAcquire);
            && s'.phase == s.phase && s'.deadline == s.deadline && s'.started == s.started
            && s'.nextSend == s.nextSend && s'.clock == s.clock && s'.pc.Stamp? && s.pc.Acquire?
  {
  }

  lemma BetweenPhases(c: Config, s: State, step: Step)
    requires Gate(s) && Paced(c, s) && Enabled(c, s, step)
    requires step.DoBegin? || step.DoDrain? || step.DoOpenGate? || (!s.phase.Record? && IsPacingStep(step))
    ensures Paced(c, Apply(c, s, step))
  {
    hide Slot, PerPhase.With, NoneEarly;
    if step.DoDrain? && s.phase.Record? {
      assert Apply(c, s, step) == s.(pc := Trailing);
      SameStampsKeepPace(c, s, s.(pc := Trailing));
    } else {
      match step case _ =>
    }
  }

  lemma PacedStep(c: Config, s: State, step: Step)
    requires 0 < c.interval && Gate(s) && InOrder(s) && Paced(c, s) && Enabled(c, s, step)
    ensures Paced(c, Apply(c, s, step))
  {
    hide Gate, Apply, Enabled, Paced;
    if !IsPacingStep(step) || step.DoAcquire? {
      OtherKeepsPace(c, s, step);
    } else if step.DoBegin? || step.DoDrain? || step.DoOpenGate? || !s.phase.Record? {
      BetweenPhases(c, s, step);
    } else {
      match step
      case DoSchedule(t) => ScheduleBegins(c, s, t);
      case DoCheck(t) => CheckKeepsPace(c, s, t);
      case DoPace(t) => PaceKeepsPace(c, s, t);
      case DoStamp(t) => StampKeepsPace(c, s, t);
      case _ =>
    }
  }

  // ---- whole runs

  lemma LateAndOrdered(c: Config, s: State, step: Step)
    requires InOrder(s) && LastIsLate(s) && Enabled(c, s, step) && (s.pc.OpenGate? ==> s.phase.Discard?)
    requires forall i :: 0 <= i < |s.msgs| ==> s.msgs[i].ts <= s.clock
    ensures InOrder(Apply(c, s, step)) && LastIsLate(Apply(c, s, step))
  {
    hide Apply, Enabled, InOrder, LastIsLate;
    InOrderStep(c, s, step);
    LastIsLateStep(c, s, step);
  }

  lemma {:induction false} InOrderAfter(c: Config, s: State, steps: seq<Step>)
    requires Inv(c, s) && InOrder(s) && LastIsLate(s) && ValidFrom(c, s, steps)
    ensures InOrder(After(c, s, steps)) && LastIsLate(After(c, s, steps))
    decreases |steps|
  {
    if steps != [] {
      InvStep(c, s, steps[0]);
      StampsPast(c, s);
      hide Inv, Apply, Enabled, InOrder, LastIsLate;
      LateAndOrdered(c, s, steps[0]);
      InOrderAfter(c, Apply(c, s, steps[0]), steps[1..]);
    }
  }

  lemma StampsPast(c: Config, s: State)
    requires Inv(c, s)
    ensures forall i :: 0 <= i < |s.msgs| ==> s.msgs[i].ts <= s.clock
    ensures s.pc.OpenGate? ==> s.phase.Discard?
    ensures Gate(s)
  {
    assert forall i :: 0 <= i < |s.msgs| ==> TimeOf(c, s, s.msgs[i]);
  }

  lemma {:induction false} PacedAfter(c: Config, s: State, steps: seq<Step>)
    requires 0 < c.interval && Inv(c, s) && InOrder(s) && Paced(c, s) && ValidFrom(c, s, steps)
    ensures Paced(c, After(c, s, steps))
    decreases |steps|
  {
    if steps != [] {
      InvStep(c, s, steps[0]);
      StampsPast(c, s);
      hide Inv, Apply, Enabled, InOrder, Paced;
      InOrderStep(c, s, steps[0]);
      PacedStep(c, s, steps[0]);
      PacedAfter(c, Apply(c, s, steps[0]), steps[1..]);
    }
  }

  /** With or without a rate: only the last message of the current phase can be stamped at or past its deadline. */
  lemma OneOvershoot(c: Config, steps: seq<Step>, i: nat)
    requires Run(c, steps)
    requires var s := Reached(c, steps);
             i < |s.msgs| && s.msgs[i].phase == s.phase && s.deadline <= s.msgs[i].ts
    ensures i == |Reached(c, steps).msgs| - 1
  {
    InvInit(c);
    InOrderAfter(c, Init(c), steps);
  }

  /** The record phase of any run: N messages leave N - 2 intervals strictly within the window, */
  lemma SendBound(c: Config, steps: seq<Step>)
    requires Run(c, steps) && 0 < c.interval && 0 <= c.duration.record
    ensures c.interval * (PhaseSize(Reached(c, steps).msgs, Record) - 2) < c.duration.record
  {
    var s := Reached(c, steps);
    var n: int := PhaseSize(s.msgs, Record);
    InvInit(c);
    InOrderAfter(c, Init(c), steps);
    PacedAfter(c, Init(c), steps);
    if s.phase.Record? && !Starting(s.pc) {
      if n < 2 {
        NegativeMultiple(c.interval, n - 2);
      } else {
        SlotsGrow(c, s.started, n - 2, Checks(s) - 2);
      }
    } else {
      PhaseSizeNone(s.msgs, Record);
    }
  }

  lemma NegativeMultiple(x: int, k: int)
    requires 0 < x && k < 0
    ensures x * k < 0
  {
  }

  lemma SlotsGrow(c: Config, started: int, j: int, k: int)
    requires j <= k
    ensures Slot(c, started, j) <= Slot(c, started, k)
  {
    assert c.interval * (k - j) >= 0;
  }

  /** and its k-th message is never stamped before the k-th slot. */
  lemma NeverEarly(c: Config, steps: seq<Step>, i: nat)
    requires Run(c, steps) && 0 < c.interval
    requires i < |Reached(c, steps).msgs| && Reached(c, steps).msgs[i].phase.Record?
    ensures var s := Reached(c, steps);
            s.started + c.interval * PhaseSize(s.msgs[..i], Record) <= s.msgs[i].ts
  {
    var s := Reached(c, steps);
    InvInit(c);
    InOrderAfter(c, Init(c), steps);
    PacedAfter(c, Init(c), steps);
    assert s.phase.Record? && !Starting(s.pc);
  }
}
