/** What equal clock readings do to the consumer's samples: when exactly an earlier phase leaks into them. */
module TiedClock {
  import opened Protocol
  import opened Grouping
  import opened Invariants
  import opened Safety

  /** The earliest that a clock can read next. */
  function NextReading(c: Config, s: State): int { if c.strictClock then s.clock + 1 else s.clock }

  /** The consumer is in a poll, or can still pass a check of its deadline. */
  predicate CanPoll(c: Config, s: State) {
    s.consumer.Fetching? || ((s.consumer.Top? || s.consumer.Delivering?) && NextReading(c, s) < ConsumerDeadline(c))
  }

  /** Message i is in the rest of the batch that the consumer is delivering. */
  predicate InBatch(s: State, i: int) {
    && s.consumer.Delivering? && s.consumer.pos <= s.consumer.end <= |s.log|
    && i in s.log[s.consumer.pos..s.consumer.end]
  }

  /** The consumer can still come to deliver message i. */
  predicate CanSee(c: Config, s: State, i: int) {
    || InBatch(s, i)
    || (CanPoll(c, s) && s.consumer.pos <= |s.log| && (c.noDuplicates ==> i !in s.log[..s.consumer.pos]))
  }

  /** An earlier message stamped exactly at the gate reading, which the consumer can still come to see. */
  predicate CanLeak(c: Config, s: State, i: int) {
    && 0 <= i < |s.msgs| && !s.msgs[i].phase.Record? && s.msgs[i].ts == s.gate && s.msgs[i].accepted
    && CanSee(c, s, i)
  }

  predicate OldSample(s: State, r: int) {
    r in s.recorded && 0 <= r < |s.msgs| && !s.msgs[r].phase.Record?
  }

  /** The consumer has recorded a message of an earlier phase. */
  ghost predicate Leaked(s: State) { exists r :: OldSample(s, r) }

  ghost predicate LeaksBy(c: Config, s: State, more: seq<Step>) {
    ValidFrom(c, s, more) && Leaked(After(c, s, more))
  }

  /** The gate is open, no earlier message has been recorded and none can be. */
  ghost predicate Sealed(c: Config, s: State) {
    && s.phase.Record?
    && (forall r :: !OldSample(s, r))
    && (forall i :: !CanLeak(c, s, i))
  }

  lemma OldAcceptanceFixed(c: Config, s: State, step: Step, i: nat)
    requires Inv(c, s) && Enabled(c, s, step) && i < |s.msgs| && s.msgs[i].phase != s.phase
    ensures i < |Apply(c, s, step).msgs|
    ensures Apply(c, s, step).msgs[i].accepted == s.msgs[i].accepted
    ensures Apply(c, s, step).msgs[i].phase == s.msgs[i].phase && Apply(c, s, step).msgs[i].ts == s.msgs[i].ts
  {
    if step.DoAccept? {
      assert HasCurrent(s.pc);
    }
    assert step.DoAccept? ==> i != Moves(s, step);
    hide Apply, Enabled, Inv;
    MessagesStep(c, s, step);
    if Moves(s, step) == i {
      MovedKeepsAccepted(c, s, step);
    }
  }

  lemma MovedKeepsAccepted(c: Config, s: State, step: Step)
    requires Enabled(c, s, step) && 0 <= Moves(s, step) && !step.DoAccept?
    ensures Moves(s, step) < |Apply(c, s, step).msgs|
    ensures Apply(c, s, step).msgs[Moves(s, step)].accepted == s.msgs[Moves(s, step)].accepted
  {
    hide PerPhase.At, PerPhase.With, AfterCallback, AfterMessage, AfterError, GateAdmits, Reads;
    match step case _ =>
  }

  /** Any other thread leaves the consumer alone. */
  lemma OthersLeaveConsumer(c: Config, s: State, step: Step)
    requires Enabled(c, s, step) && !IsConsumerStep(step)
    ensures var s' := Apply(c, s, step);
            s'.consumer == s.consumer && s'.log == s.log && s'.recorded == s.recorded
  {
    hide PerPhase.At, PerPhase.With, AfterCallback, AfterMessage, AfterError, GateAdmits, Reads;
    match step case _ =>
  }

  lemma ConsumerStepAdvances(c: Config, s: State, step: Step)
    requires LogTaken(s) && Enabled(c, s, step) && IsConsumerStep(step)
    ensures var s' := Apply(c, s, step);
            && s.consumer.pos <= s'.consumer.pos
            && s'.log == (if step.Append? then s.log + [step.i] else s.log)
            && (s.consumer.Gone? ==> s'.consumer.Gone?)
            && (step.ConsumerDeliver? || s'.recorded == s.recorded)
  {
    hide PerPhase.At, PerPhase.With, AfterMessage, GateAdmits, Reads;
    match step case _ =>
  }

  /** The consumer moves along the log and never comes back; only a delivery adds to the samples. */
  lemma ConsumerAdvances(c: Config, s: State, step: Step)
    requires LogTaken(s) && Enabled(c, s, step)
    ensures var s' := Apply(c, s, step);
            && s.consumer.pos <= s'.consumer.pos
            && |s.log| <= |s'.log| && s'.log[..|s.log|] == s.log
            && (s.consumer.Gone? ==> s'.consumer.Gone?)
            && (step.ConsumerDeliver? || s'.recorded == s.recorded)
  {
    hide Apply, Enabled;
    if IsConsumerStep(step) {
      ConsumerStepAdvances(c, s, step);
    } else {
      OthersLeaveConsumer(c, s, step);
    }
  }

  /** A sample that a delivery adds was one that could leak before. */
  lemma DeliveredLeaks(c: Config, s: State, r: int)
    requires Inv(c, s) && s.phase.Record? && Enabled(c, s, ConsumerDeliver)
    requires OldSample(Apply(c, s, ConsumerDeliver), r)
    ensures OldSample(s, r) || CanLeak(c, s, r)
  {
    var i := s.log[s.consumer.pos];
    if r !in s.recorded {
      assert r == i;
      AdmittedIsRecord(c, s, i);
      assert s.log[s.consumer.pos..s.consumer.end][0] == i;
    }
  }

  lemma OldSampleBefore(c: Config, s: State, step: Step, r: int)
    requires Inv(c, s) && s.phase.Record? && Enabled(c, s, step) && OldSample(Apply(c, s, step), r)
    ensures OldSample(s, r) || CanLeak(c, s, r)
  {
    if step.ConsumerDeliver? {
      DeliveredLeaks(c, s, r);
    } else {
      ConsumerAdvances(c, s, step);
      MessagesStep(c, s, step);
      hide Apply, Enabled;
      assert Logs(c, s);
      assert r < |s.msgs|;
    }
  }

  lemma PrefixKeeps(log: seq<nat>, longer: seq<nat>, p: nat, q: nat, i: int)
    requires p <= |log| <= |longer| && longer[..|log|] == log && p <= q <= |longer|
    ensures i in log[..p] ==> i in longer[..q]
  {
    if i in log[..p] {
      var k :| 0 <= k < p && log[k] == i;
      assert longer[..|log|][k] == i;
      assert longer[..q][k] == i;
    }
  }

  /** No step opens up a poll that was not possible before. */
  lemma CanPollBefore(c: Config, s: State, step: Step)
    requires LogTaken(s) && Enabled(c, s, step) && CanPoll(c, Apply(c, s, step))
    ensures CanPoll(c, s)
  {
    hide PerPhase.At, PerPhase.With, AfterCallback, AfterMessage, AfterError;
    match step case _ =>
  }

  lemma InSlice(log: seq<nat>, p: nat, q: nat, k: nat)
    requires p <= k < q <= |log|
    ensures log[k] in log[p..q]
  {
    assert log[p..q][k - p] == log[k];
  }

  /** A batch is what was to come in the log when it was polled. */
  lemma InBatchBefore(c: Config, s: State, step: Step, i: int)
    requires LogTaken(s) && Enabled(c, s, step) && InBatch(Apply(c, s, step), i)
    ensures InBatch(s, i) || (s.consumer.Fetching? && i in s.log[s.consumer.pos..])
  {
    var s' := Apply(c, s, step);
    if step.ConsumerPoll? {
      hide Apply;
      PolledIsAhead(c, s, step.k, step.t);
      var k :| s'.consumer.pos <= k < s'.consumer.end && s'.log[k] == i;
      InSlice(s.log, s.consumer.pos, |s.log|, k);
    } else {
      ConsumerAdvances(c, s, step);
      BatchShrinks(c, s, step);
      hide Apply, Enabled;
      var k :| s'.consumer.pos <= k < s'.consumer.end && s'.log[k] == i;
      assert s'.log[..|s.log|][k] == s.log[k];
      InSlice(s.log, s.consumer.pos, s.consumer.end, k);
    }
  }

  lemma PolledIsAhead(c: Config, s: State, k: nat, t: int)
    requires Enabled(c, s, ConsumerPoll(k, t))
    ensures var s' := Apply(c, s, ConsumerPoll(k, t));
            s.consumer.Fetching? && s'.log == s.log && s'.consumer.pos == s.consumer.pos && s'.consumer.end <= |s.log|
  {
  }

  lemma BatchShrinks(c: Config, s: State, step: Step)
    requires Enabled(c, s, step) && Apply(c, s, step).consumer.Delivering? && !step.ConsumerPoll?
    ensures s.consumer.Delivering? && s.consumer.pos <= Apply(c, s, step).consumer.pos
    ensures Apply(c, s, step).consumer.end == s.consumer.end
  {
    hide PerPhase.At, PerPhase.With, AfterCallback, AfterMessage, AfterError;
    match step case _ =>
  }

  lemma AheadIsNotBehind(log: seq<nat>, p: nat, i: int)
    requires NoDuplicates(log) && p <= |log| && i in log[p..]
    ensures i !in log[..p]
  {
    var k :| 0 <= k < |log[p..]| && log[p..][k] == i;
    assert log[p + k] == i;
    assert forall j :: 0 <= j < p ==> log[..p][j] == log[j];
  }

  lemma CanSeeBefore(c: Config, s: State, step: Step, i: int)
    requires Logs(c, s) && Enabled(c, s, step) && CanSee(c, Apply(c, s, step), i)
    ensures CanSee(c, s, i)
  {
    var s' := Apply(c, s, step);
    if InBatch(s', i) {
      InBatchBefore(c, s, step, i);
      if !InBatch(s, i) && c.noDuplicates {
        AheadIsNotBehind(s.log, s.consumer.pos, i);
      }
    } else {
      ConsumerAdvances(c, s, step);
      CanPollBefore(c, s, step);
      hide Apply, Enabled, CanPoll;
      PrefixKeeps(s.log, s'.log, s.consumer.pos, s'.consumer.pos, i);
    }
  }

  lemma CanLeakBefore(c: Config, s: State, step: Step, i: int)
    requires Inv(c, s) && s.phase.Record? && Enabled(c, s, step) && CanLeak(c, Apply(c, s, step), i)
    ensures CanLeak(c, s, i)
  {
    var s' := Apply(c, s, step);
    GateStaysOpen(c, s, step);
    MessagesStep(c, s, step);
    assert step.DoStamp? ==> s'.msgs[|s.msgs|].phase.Record?;
    hide Apply, Enabled, CanSee;
    assert i < |s.msgs|;
    OldAcceptanceFixed(c, s, step, i);
    CanSeeBefore(c, s, step, i);
  }

  lemma SealedStep(c: Config, s: State, step: Step)
    requires Inv(c, s) && Sealed(c, s) && Enabled(c, s, step)
    ensures Sealed(c, Apply(c, s, step))
  {
    var s' := Apply(c, s, step);
    GateStaysOpen(c, s, step);
    hide Apply, Enabled, Inv;
    forall r
      ensures !OldSample(s', r)
    {
      if OldSample(s', r) {
        OldSampleBefore(c, s, step, r);
      }
    }
    forall i
      ensures !CanLeak(c, s', i)
    {
      if CanLeak(c, s', i) {
        CanLeakBefore(c, s, step, i);
      }
    }
  }

  lemma {:induction false} SealedAfter(c: Config, s: State, more: seq<Step>)
    requires Inv(c, s) && Sealed(c, s) && ValidFrom(c, s, more)
    ensures forall r :: !OldSample(After(c, s, more), r)
    decreases |more|
  {
    hide Inv, Apply, Enabled;
    if more != [] {
      InvStep(c, s, more[0]);
      SealedStep(c, s, more[0]);
      SealedAfter(c, Apply(c, s, more[0]), more[1..]);
    }
  }

  /** The consumer's next step towards position k of the log. */
  function Towards(c: Config, s: State, k: nat): Step {
    match s.consumer
    case Top(_) => ConsumerCheck(NextReading(c, s))
    case Fetching(pos) => ConsumerPoll(if pos <= k then k + 1 - pos else 0, s.clock + 1)
    case Delivering(pos, end, _) => if pos < end then ConsumerDeliver else ConsumerLoop
    case Gone(_) => ConsumerFail
  }

  /** Position k is still ahead, in this batch or one that can still be polled. */
  predicate WithinReach(c: Config, s: State, k: nat) {
    && s.consumer.pos <= k < |s.log|
    && (CanPoll(c, s) || (s.consumer.Delivering? && k < s.consumer.end))
  }

  function Distance(s: State): nat {
    match s.consumer
    case Delivering(pos, end, _) => if pos < end then 0 else 3
    case Top(_) => 2
    case Fetching(_) => 1
    case Gone(_) => 0
  }

  lemma TowardsStep(c: Config, s: State, k: nat)
    requires Inv(c, s) && !s.stop && WithinReach(c, s, k)
    ensures Enabled(c, s, Towards(c, s, k))
    ensures var step := Towards(c, s, k); var s' := Apply(c, s, step);
            && s'.log == s.log && s'.msgs == s.msgs && s'.gate == s.gate && !s'.stop
            && s'.consumer.pos == s.consumer.pos + (if step.ConsumerDeliver? then 1 else 0)
            && (WithinReach(c, s', k) || (step.ConsumerDeliver? && s.consumer.pos == k))
            && (step.ConsumerDeliver? || Distance(s') < Distance(s))
            && (step.ConsumerDeliver? && s.consumer.pos == k && GateAdmits(s.gate, s.msgs[s.log[k]].ts) ==>
                  s.log[k] in s'.recorded)
  {
    assert s.consumer.pos < |s.log| ==> s.log[s.consumer.pos] < |s.msgs|;
  }

  /** A consumer that can still poll, or has it in its batch, reaches any position of its log. */
  lemma {:induction false} DriveConsumer(c: Config, s: State, k: nat) returns (more: seq<Step>)
    requires Inv(c, s) && !s.stop && WithinReach(c, s, k)
    requires GateAdmits(s.gate, s.msgs[s.log[k]].ts)
    ensures ValidFrom(c, s, more)
    ensures s.log[k] in After(c, s, more).recorded && After(c, s, more).msgs == s.msgs
    decreases k - s.consumer.pos, Distance(s)
  {
    hide Inv, Apply, Enabled, Towards, Distance;
    var step := Towards(c, s, k);
    TowardsStep(c, s, k);
    var s' := Apply(c, s, step);
    if step.ConsumerDeliver? && s.consumer.pos == k {
      more := [step];
      assert more[1..] == [];
      assert After(c, s', []) == s';
    } else {
      InvStep(c, s, step);
      var rest := DriveConsumer(c, s', k);
      more := [step] + rest;
      assert more[1..] == rest;
    }
  }

  lemma BeyondPrefix(log: seq<nat>, p: nat, k: nat)
    requires p <= |log| && k < |log| && log[k] !in log[..p]
    ensures p <= k
  {
    assert forall j :: 0 <= j < p ==> log[j] == log[..p][j];
  }

  /** If it is not in the batch, and not to come in the log, the broker can append it. */
  lemma LeakHappens(c: Config, s: State, i: nat) returns (more: seq<Step>)
    requires Inv(c, s) && 0 < s.gate && !s.stop && CanLeak(c, s, i)
    ensures ValidFrom(c, s, more) && OldSample(After(c, s, more), i)
  {
    if InBatch(s, i) {
      var k :| s.consumer.pos <= k < s.consumer.end && s.log[k] == i;
      more := DriveConsumer(c, s, k);
    } else if c.noDuplicates && i in s.log {
      var k :| 0 <= k < |s.log| && s.log[k] == i;
      BeyondPrefix(s.log, s.consumer.pos, k);
      more := DriveConsumer(c, s, k);
    } else {
      var s' := Apply(c, s, Append(i));
      InvStep(c, s, Append(i));
      var rest := DriveConsumer(c, s', |s.log|);
      more := [Append(i)] + rest;
      assert more[1..] == rest;
    }
  }

  /** The stop flag is set exactly when the producer is through. */
  lemma StopIffThrough(c: Config, steps: seq<Step>)
    requires Run(c, steps)
    ensures Reached(c, steps).stop <==> Reached(c, steps).pc.Finished? || Reached(c, steps).pc.Aborted?
  {
    StopAfter(c, Init(c), steps);
  }

  lemma {:induction false} StopAfter(c: Config, s: State, steps: seq<Step>)
    requires ValidFrom(c, s, steps)
    requires s.stop <==> s.pc.Finished? || s.pc.Aborted?
    ensures After(c, s, steps).stop <==> After(c, s, steps).pc.Finished? || After(c, s, steps).pc.Aborted?
    decreases |steps|
  {
    if steps != [] {
      StopStep(c, s, steps[0]);
      StopAfter(c, Apply(c, s, steps[0]), steps[1..]);
    }
  }

  lemma StopStep(c: Config, s: State, step: Step)
    requires Enabled(c, s, step)
    requires s.stop <==> s.pc.Finished? || s.pc.Aborted?
    ensures var s' := Apply(c, s, step); s'.stop <==> s'.pc.Finished? || s'.pc.Aborted?
  {
    hide PerPhase.At, PerPhase.With, AfterCallback, AfterMessage, AfterError;
    match step case _ =>
  }

  lemma ClosedGateRecordsNothing(c: Config, s: State)
    requires Inv(c, s) && !s.phase.Record?
    ensures forall r :: r !in s.recorded
  {
  }

  /**
   When the gate opens with reading t, the consumer can come to record a message of an earlier phase exactly if one
   that it can still see carries the stamp t.
   */
  lemma OldSampleRecordedIffTie(c: Config, steps: seq<Step>, t: int)
    requires Run(c, steps) && Enabled(c, Reached(c, steps), DoOpenGate(t))
    ensures var s := Apply(c, Reached(c, steps), DoOpenGate(t));
            (exists more :: LeaksBy(c, s, more))
            <==> (exists i :: CanLeak(c, s, i))
  {
    var before := Reached(c, steps);
    var s := Apply(c, before, DoOpenGate(t));
    InvReached(c, steps);
    InvStep(c, before, DoOpenGate(t));
    StopIffThrough(c, steps);
    if i :| CanLeak(c, s, i) {
      var more := LeakHappens(c, s, i);
      assert LeaksBy(c, s, more);
    } else {
      ClosedGateRecordsNothing(c, before);
      forall more | ValidFrom(c, s, more)
        ensures !LeaksBy(c, s, more)
      {
        SealedAfter(c, s, more);
      }
    }
  }
}
