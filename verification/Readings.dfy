/** The clock readings of callbacks: which latency and which outcome a message carries, from its callback on. */
module Readings {
  import opened Metrics
  import opened Protocol
  import opened Tallies
  import opened Invariants

  /** Called back with this outcome and latency, whether or not they have been counted yet. */
  predicate AckOf(st: Status, failed: bool, latency: int) {
    || st == Acking(failed, latency)
    || st == Released(failed, latency)
    || (st.Settled? && st.failed == failed && st.latency == latency)
  }

  /** A callback measures from its own message's stamp. */
  lemma CallMeasures(c: Config, s: State, i: nat, failed: bool, t: int)
    requires Enabled(c, s, CallBack(i, failed, t))
    ensures var msgs := Apply(c, s, CallBack(i, failed, t)).msgs;
            && i < |s.msgs| == |msgs| && msgs[i].ts == s.msgs[i].ts
            && msgs[i].status == Acking(failed, t - s.msgs[i].ts)
            && AckOf(msgs[i].status, failed, t - s.msgs[i].ts)
  {
  }

  lemma MovedByCallback(c: Config, s: State, step: Step, i: nat)
    requires Shape(s) && Enabled(c, s, step) && Moves(s, step) == i
    requires s.msgs[i].status.Acking? || s.msgs[i].status.Released?
    ensures step == CallbackRelease(i) || step == CallbackCount(i)
  {
    hide PerPhase.At, PerPhase.With, Apply, Reads;
    match step case _ =>
  }

  lemma CallbackKeepsAck(c: Config, s: State, step: Step, i: nat, failed: bool, latency: int)
    requires Enabled(c, s, step) && (step == CallbackRelease(i) || step == CallbackCount(i))
    requires AckOf(s.msgs[i].status, failed, latency)
    ensures i < |Apply(c, s, step).msgs| && AckOf(Apply(c, s, step).msgs[i].status, failed, latency)
  {
    hide PerPhase.At, PerPhase.With, AfterCallback, GateAdmits;
  }

  lemma AckStep(c: Config, s: State, step: Step, i: nat, failed: bool, latency: int)
    requires Shape(s) && Enabled(c, s, step) && i < |s.msgs| && AckOf(s.msgs[i].status, failed, latency)
    ensures var msgs := Apply(c, s, step).msgs;
            i < |msgs| && msgs[i].ts == s.msgs[i].ts && AckOf(msgs[i].status, failed, latency)
  {
    hide Apply, Enabled, Shape;
    MessagesStep(c, s, step);
    if Moves(s, step) == i {
      MovedNotSettled(c, s, step);
      MovedByCallback(c, s, step, i);
      CallbackKeepsAck(c, s, step, i, failed, latency);
    }
  }

  lemma {:induction false} AckStays(c: Config, s: State, steps: seq<Step>, i: nat, failed: bool, latency: int)
    requires Inv(c, s) && ValidFrom(c, s, steps) && i < |s.msgs| && AckOf(s.msgs[i].status, failed, latency)
    ensures var msgs := After(c, s, steps).msgs;
            i < |msgs| && msgs[i].ts == s.msgs[i].ts && AckOf(msgs[i].status, failed, latency)
    decreases |steps|
  {
    if steps != [] {
      hide Apply, Enabled, AckOf;
      InvStep(c, s, steps[0]);
      AckStep(c, s, steps[0], i, failed, latency);
      AckStays(c, Apply(c, s, steps[0]), steps[1..], i, failed, latency);
    }
  }

  /**
   From a callback of message i on, whatever any thread does, the message carries the callback's outcome, and the time
   from its own stamp to the callback's reading as its latency.
   */
  lemma CallbackFixes(c: Config, steps: seq<Step>, k: nat, i: nat, failed: bool, t: int)
    requires Run(c, steps) && k < |steps| && steps[k] == CallBack(i, failed, t)
    ensures var msgs := Reached(c, steps).msgs; i < |msgs| && AckOf(msgs[i].status, failed, t - msgs[i].ts)
  {
    hide Apply, Enabled, Inv, AckOf;
    Split(c, Init(c), steps, k);
    var s := After(c, Init(c), steps[..k]);
    assert steps[k..][0] == steps[k] && steps[k..][1..] == steps[k + 1..];
    InvReached(c, steps[..k]);
    InvStep(c, s, steps[k]);
    CallMeasures(c, s, i, failed, t);
    AckStays(c, Apply(c, s, steps[k]), steps[k + 1..], i, failed, t - s.msgs[i].ts);
  }

  // ---- the readings of a schedule

  predicate Calls(step: Step, i: nat) { step.CallBack? && step.i == i }

  /** The first callback of message i. */
  function Call(steps: seq<Step>, i: nat): (r: Step)
    ensures Calls(r, i) <==> exists k :: 0 <= k < |steps| && Calls(steps[k], i)
    ensures Calls(r, i) ==> r in steps
  {
    if steps == [] then DoAcquire
    else if Calls(steps[0], i) then steps[0]
    else
      assert forall k :: 0 <= k < |steps| - 1 ==> steps[1..][k] == steps[k + 1];
      assert forall k :: 0 < k < |steps| ==> steps[k] == steps[1..][k - 1];
      Call(steps[1..], i)
  }

  predicate HasAck(s: State, i: nat) {
    && i < |s.msgs|
    && (|| s.msgs[i].status.Acking? || s.msgs[i].status.Released?
        || (s.msgs[i].status.Settled? && s.msgs[i].status.counted))
  }

  lemma MovedWithoutCall(c: Config, s: State, step: Step)
    requires Enabled(c, s, step) && 0 <= Moves(s, step) && !step.CallBack?
    requires !HasAck(s, Moves(s, step))
    ensures !HasAck(Apply(c, s, step), Moves(s, step))
  {
    hide PerPhase.At, PerPhase.With, AfterCallback, AfterMessage, AfterError, GateAdmits, Reads;
    match step case _ =>
  }

  lemma NoAckWithoutCall(c: Config, s: State, step: Step, i: nat)
    requires Enabled(c, s, step) && !Calls(step, i) && !HasAck(s, i)
    ensures !HasAck(Apply(c, s, step), i)
  {
    hide Apply, Enabled;
    MessagesStep(c, s, step);
    if Moves(s, step) == i {
      MovedWithoutCall(c, s, step);
    }
  }

  /** A counted ack has been called back, and nothing but that callback says how long it took. */
  lemma {:induction false} AckWasCalled(c: Config, s: State, steps: seq<Step>, i: nat)
    requires Inv(c, s) && ValidFrom(c, s, steps) && !HasAck(s, i) && HasAck(After(c, s, steps), i)
    ensures Calls(Call(steps, i), i)
    ensures var m := After(c, s, steps).msgs[i]; AckOf(m.status, Call(steps, i).failed, Call(steps, i).t - m.ts)
    decreases |steps|
  {
    hide Apply, Enabled, Inv, AckOf, HasAck;
    assert steps != [];
    var step, s' := steps[0], Apply(c, s, steps[0]);
    InvStep(c, s, step);
    if Calls(step, i) {
      CallMeasures(c, s, i, step.failed, step.t);
      AckStays(c, s', steps[1..], i, step.failed, step.t - s.msgs[i].ts);
    } else {
      NoAckWithoutCall(c, s, step, i);
      AckWasCalled(c, s', steps[1..], i);
    }
  }

  predicate ReadingFits(m: Msg, steps: seq<Step>, i: nat) {
    Calls(Call(steps, i), i) && m.status.Settled? && m.status.latency == Call(steps, i).t - m.ts
  }

  lemma CountedHasAck(s: State, i: nat)
    requires i < |s.msgs| && s.msgs[i].status.Settled? && s.msgs[i].status.counted
    ensures HasAck(s, i)
  {
  }

  lemma NoAckAtStart(c: Config, i: nat)
    ensures !HasAck(Init(c), i)
  {
  }

  lemma AckOfFits(m: Msg, steps: seq<Step>, i: nat)
    requires Calls(Call(steps, i), i) && m.status.Settled?
    requires AckOf(m.status, Call(steps, i).failed, Call(steps, i).t - m.ts)
    ensures ReadingFits(m, steps, i)
  {
    hide Call;
  }

  lemma CountedReading(c: Config, steps: seq<Step>, i: nat)
    requires Run(c, steps) && i < |Reached(c, steps).msgs|
    requires Reached(c, steps).msgs[i].status.Settled? && Reached(c, steps).msgs[i].status.counted
    ensures ReadingFits(Reached(c, steps).msgs[i], steps, i)
  {
    InvInit(c);
    hide Inv, Apply, Enabled, After, ValidFrom, HasAck, Call, Calls, AckOf, ReadingFits;
    CountedHasAck(Reached(c, steps), i);
    NoAckAtStart(c, i);
    AckWasCalled(c, Init(c), steps, i);
    AckOfFits(Reached(c, steps).msgs[i], steps, i);
  }

  /** From stamps and callback readings: the latencies of the counted acks of a phase. */
  function AckLatencies(msgs: seq<Msg>, steps: seq<Step>, p: Phase): seq<int> {
    if msgs == [] then []
    else
      var i := |msgs| - 1;
      AckLatencies(msgs[..i], steps, p)
      + if Is(msgs[i], p, AckCounted) && Calls(Call(steps, i), i) then [Call(steps, i).t - msgs[i].ts] else []
  }

  lemma SampleIsEntry(m: Msg, p: Phase)
    ensures AckSample(m, p) == if Is(m, p, AckCounted) then multiset(Entry(m.status.latency)) else multiset{}
  {
  }

  lemma {:induction false} SamplesFromReadings(msgs: seq<Msg>, steps: seq<Step>, p: Phase)
    requires forall i :: 0 <= i < |msgs| && Is(msgs[i], p, AckCounted) ==> ReadingFits(msgs[i], steps, i)
    ensures AckSamples(msgs, p) == multiset(Recordable(AckLatencies(msgs, steps, p)))
  {
    if msgs == [] {
      assert Recordable([]) == [];
    } else {
      hide Recordable, Call, Calls, AckSample, Is, Entry;
      var i := |msgs| - 1;
      var before := AckLatencies(msgs[..i], steps, p);
      AckSamplesLast(msgs, p);
      hide AckSamples;
      SamplesFromReadings(msgs[..i], steps, p);
      SampleIsEntry(msgs[i], p);
      if Is(msgs[i], p, AckCounted) {
        assert ReadingFits(msgs[i], steps, i);
        var latency := msgs[i].status.latency;
        RecordableConcat(before, [latency]);
        RecordableOne(latency);
      } else {
        assert before + [] == before;
      }
    }
  }

  /** Over whole runs: what the ack histogram's samples are, by readings and stamps. */
  lemma AckSamplesAreReadings(c: Config, steps: seq<Step>, p: Phase)
    requires Run(c, steps)
    ensures var msgs := Reached(c, steps).msgs;
            AckSamples(msgs, p) == multiset(Recordable(AckLatencies(msgs, steps, p)))
  {
    var s := Reached(c, steps);
    forall i | 0 <= i < |s.msgs| && Is(s.msgs[i], p, AckCounted)
      ensures ReadingFits(s.msgs[i], steps, i)
    {
      CountedReading(c, steps, i);
    }
    SamplesFromReadings(s.msgs, steps, p);
  }
}
