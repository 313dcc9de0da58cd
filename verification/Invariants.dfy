/** What every step of the measurement run keeps. */
module Invariants {
  import opened Metrics
  import opened Protocol
  import opened Tallies
  import opened Grouping

  /** The producer thread itself has to take the next step on such a message. */
  predicate ProducerOwned(st: Status) {
    st.Stamped? || st.Ready? || st.InCall? || st.Raised? || st.RaiseReleased?
  }

  predicate PcOwns(pc: Pc, st: Status) {
    || (pc.Count? && st.Stamped?)
    || (pc.Enter? && st.Ready?)
    || (pc.InAdapter? && st.InCall?)
    || (pc.RecoverRelease? && st.Raised?)
    || (pc.RecoverCount? && st.RaiseReleased?)
  }

  predicate HasCurrent(pc: Pc) {
    pc.Count? || pc.Enter? || pc.InAdapter? || pc.RecoverRelease? || pc.RecoverCount?
  }

  /** Only the newest message can be in the producer's hands, and it is where the program counter says. */
  ghost predicate Shape(s: State) {
    && (forall i :: 0 <= i < |s.msgs| && ProducerOwned(s.msgs[i].status) ==>
          i == |s.msgs| - 1 && PcOwns(s.pc, s.msgs[i].status))
    && (HasCurrent(s.pc) ==> Current(s))
  }

  predicate Current(s: State) {
    && s.msgs != []
    && s.msgs[Last(s)].phase == s.phase
    && (PcOwns(s.pc, s.msgs[Last(s)].status) || (s.pc.InAdapter? && s.msgs[Last(s)].accepted))
  }

  /** What the library has taken, and only that, can be called back. */
  ghost predicate Taken(s: State) {
    forall i :: 0 <= i < |s.msgs| ==> TakenOne(s.msgs[i])
  }

  function AtStamp(s: State, p: Phase): nat { if s.pc.Stamp? && s.phase == p then 1 else 0 }

  /** Free permits and held permits of a phase add up. */
  predicate PermitsAt(c: Config, s: State, p: Phase) {
    s.permits.At(p) + Tallied(s.msgs, p, Holding) + AtStamp(s, p) == c.inFlight
  }

  ghost predicate Permits(c: Config, s: State) { forall p :: PermitsAt(c, s, p) }

  /** Each counter of a phase is the number of messages in the state it counts. */
  predicate CountsAt(s: State, p: Phase) {
    && s.counters.At(p).produced == (if p.Record? then Tallied(s.msgs, p, Produced) else 0)
    && s.counters.At(p).acked == Tallied(s.msgs, p, AckCounted)
    && s.counters.At(p).errors == Tallied(s.msgs, p, ErrorCounted)
    && s.counters.At(p).consumed == (if p.Record? then |s.recorded| else 0)
  }

  ghost predicate Counts(s: State) { forall p :: CountsAt(s, p) }

  ghost predicate Gate(s: State) {
    && (0 < s.gate <==> s.phase.Record?)
    && (s.pc.OpenGate? ==> s.phase.Discard?)
    && (s.pc.Trailing? || s.pc.Finished? ==> s.phase.Record?)
    && 0 < s.clock
    && s.gate <= s.clock
  }

  predicate Latency(c: Config, x: int) { if c.strictClock then 0 < x else 0 <= x }

  /** Stamps lie before the clock; the gate separates the record phase from the earlier ones. */
  predicate TimeOf(c: Config, s: State, m: Msg) {
    && m.ts <= s.clock
    && (m.phase.Record? ==> s.phase.Record? && s.gate <= m.ts)
    && (!m.phase.Record? && s.phase.Record? ==> m.ts <= s.gate)
    && (!m.phase.Record? && s.phase.Record? && c.strictClock ==> m.ts < s.gate)
    && (m.status.Acking? || m.status.Released? ==> Latency(c, m.status.latency))
    && (m.status.Settled? && m.status.counted ==> !m.status.failed && GateAdmits(s.gate, m.ts))
    && (m.status.Settled? && m.phase.Record? ==> m.status.counted == !m.status.failed)
  }

  ghost predicate Times(c: Config, s: State) {
    forall i :: 0 <= i < |s.msgs| ==> TimeOf(c, s, s.msgs[i])
  }

  /** Histograms hold recordable values, one per event at most, and all of them on a strict clock. */
  ghost predicate HistogramsAt(c: Config, m: Counters) {
    && InRange(m.ack) && InRange(m.e2e)
    && |m.ack| <= m.acked && |m.e2e| <= m.consumed
    && (c.strictClock ==> |m.ack| == m.acked && |m.e2e| == m.consumed)
  }

  ghost predicate Histograms(c: Config, s: State) { forall p: Phase :: HistogramsAt(c, s.counters.At(p)) }

  /** The consumer walks along a log of taken messages, */
  ghost predicate LogTaken(s: State) {
    && s.consumer.pos <= |s.log|
    && (s.consumer.Delivering? ==> s.consumer.pos <= s.consumer.end <= |s.log|)
    && (forall k :: 0 <= k < |s.log| ==> s.log[k] < |s.msgs| && s.msgs[s.log[k]].accepted)
  }

  /** receives them no earlier than they were stamped, */
  ghost predicate LogTimes(c: Config, s: State)
    requires LogTaken(s)
  {
    s.consumer.Delivering? ==>
      forall k :: s.consumer.pos <= k < s.consumer.end ==> Latency(c, s.consumer.recv - s.msgs[s.log[k]].ts)
  }

  /** records only what it has passed and the gate admits, */
  ghost predicate RecordedFromLog(s: State)
    requires LogTaken(s)
  {
    forall r :: r in s.recorded ==> r in s.log[..s.consumer.pos] && r < |s.msgs| && GateAdmits(s.gate, s.msgs[r].ts)
  }

  /** and nothing twice if the broker shows nothing twice. */
  ghost predicate NothingTwice(c: Config, s: State) {
    c.noDuplicates ==> NoDuplicates(s.log) && NoDuplicates(s.recorded)
  }

  ghost predicate Logs(c: Config, s: State) {
    LogTaken(s) && LogTimes(c, s) && RecordedFromLog(s) && NothingTwice(c, s)
  }

  function Delay(msgs: seq<Msg>, i: nat, recv: int): int { if i < |msgs| then recv - msgs[i].ts else 0 }

  /** The end-to-end latencies of the recorded messages, from their stamps and receipts. */
  function Delays(msgs: seq<Msg>, recorded: seq<nat>, receipts: seq<int>): (r: seq<int>)
    requires |recorded| == |receipts|
    ensures |r| == |recorded|
  {
    seq(|recorded|, k requires 0 <= k < |recorded| => Delay(msgs, recorded[k], receipts[k]))
  }

  /** The ack histogram of a phase holds what its counted messages put there, whatever the clock. */
  predicate AckSamplesAt(s: State, p: Phase) { multiset(s.counters.At(p).ack) == AckSamples(s.msgs, p) }

  predicate E2eOf(s: State, p: Phase)
    requires |s.recorded| == |s.receipts|
  {
    s.counters.At(p).e2e == if p.Record? then Recordable(Delays(s.msgs, s.recorded, s.receipts)) else []
  }

  ghost predicate Samples(s: State) {
    && |s.recorded| == |s.receipts|
    && forall p: Phase :: AckSamplesAt(s, p) && E2eOf(s, p)
  }

  /** Under complete drains, no earlier phase has anything left. */
  ghost predicate Drained(c: Config, s: State) {
    c.fullDrains ==>
      forall i :: 0 <= i < |s.msgs| && (s.msgs[i].phase != s.phase || s.pc.Begin? || s.pc.OpenGate?) ==>
        s.msgs[i].status.Settled?
  }

  ghost predicate Inv(c: Config, s: State) {
    && Shape(s) && Taken(s) && Permits(c, s) && Counts(s) && Gate(s)
    && Times(c, s) && Histograms(c, s) && Samples(s) && Logs(c, s) && Drained(c, s)
  }

  // ---- one lemma per part

  predicate IsLibraryStep(step: Step) {
    step.CallBack? || step.CallbackRelease? || step.CallbackCount? || step.DoAccept?
  }

  predicate IsConsumerStep(step: Step) {
    || step.Append? || step.ConsumerCheck? || step.ConsumerExit? || step.ConsumerFail?
    || step.ConsumerPoll? || step.ConsumerDeliver? || step.ConsumerLoop?
  }

  predicate IsAdapterStep(step: Step) {
    step.DoEnter? || step.DoReturn? || step.DoRaise? || step.DoRecoverRelease? || step.DoRecoverCount?
  }

  lemma ShapeLibrary(c: Config, s: State, step: Step)
    requires Shape(s) && Taken(s) && Enabled(c, s, step) && IsLibraryStep(step)
    ensures Shape(Apply(c, s, step))
  {
    match step case _ =>
  }

  lemma ShapeAdapter(c: Config, s: State, step: Step)
    requires Shape(s) && Taken(s) && Enabled(c, s, step) && IsAdapterStep(step)
    ensures Shape(Apply(c, s, step))
  {
    match step case _ =>
  }

  lemma ShapeConsumer(c: Config, s: State, step: Step)
    requires Shape(s) && Enabled(c, s, step) && IsConsumerStep(step)
    ensures Shape(Apply(c, s, step))
  {
    ConsumerKeepsProducer(c, s, step);
    hide Apply, Enabled, PcOwns, ProducerOwned;
  }

  lemma ConsumerKeepsProducer(c: Config, s: State, step: Step)
    requires Enabled(c, s, step) && IsConsumerStep(step)
    ensures var s' := Apply(c, s, step); s'.msgs == s.msgs && s'.pc == s.pc && s'.phase == s.phase
  {
    hide PerPhase.At, PerPhase.With, AfterMessage, GateAdmits, Reads;
    match step case _ =>
  }

  lemma ShapeOther(c: Config, s: State, step: Step)
    requires Shape(s) && Taken(s) && Enabled(c, s, step)
    requires !IsLibraryStep(step) && !IsAdapterStep(step) && !IsConsumerStep(step)
    ensures Shape(Apply(c, s, step))
  {
    hide PerPhase.At, PerPhase.With, AfterCallback, AfterMessage, AfterError, GateAdmits, Reads;
    match step case _ =>
  }

  lemma ShapeStep(c: Config, s: State, step: Step)
    requires Shape(s) && Taken(s) && Enabled(c, s, step)
    ensures Shape(Apply(c, s, step))
  {
    hide Apply, Shape, Taken, Enabled;
    if IsLibraryStep(step) {
      ShapeLibrary(c, s, step);
    } else if IsAdapterStep(step) {
      ShapeAdapter(c, s, step);
    } else if IsConsumerStep(step) {
      ShapeConsumer(c, s, step);
    } else {
      ShapeOther(c, s, step);
    }
  }

  predicate TakenOne(m: Msg) {
    && (m.accepted ==> !ProducerOwned(m.status))
    && (m.status.InFlight? || m.status.Acking? || m.status.Released? ==> m.accepted)
  }

  lemma TakenMoved(c: Config, s: State, step: Step, i: nat)
    requires Shape(s) && Enabled(c, s, step) && Moves(s, step) == i < |s.msgs| == |Apply(c, s, step).msgs|
    requires TakenOne(s.msgs[i])
    ensures TakenOne(Apply(c, s, step).msgs[i])
  {
    hide PerPhase.At, PerPhase.With, AfterCallback, AfterMessage, AfterError, GateAdmits, Reads;
    match step case _ =>
  }

  lemma TakenStep(c: Config, s: State, step: Step)
    requires Shape(s) && Taken(s) && Enabled(c, s, step)
    ensures Taken(Apply(c, s, step))
  {
    var i, s' := Moves(s, step), Apply(c, s, step);
    hide Apply, Enabled, Shape, TakenOne;
    MessagesStep(c, s, step);
    if 0 <= i {
      TakenMoved(c, s, step, i);
    } else if step.DoStamp? {
      assert TakenOne(Msg(s.phase, step.t, Stamped, false)) by { StampedIsTakenOne(s.phase, step.t); }
    }
  }

  lemma StampedIsTakenOne(p: Phase, t: int)
    ensures TakenOne(Msg(p, t, Stamped, false))
  {
  }

  lemma GateStep(c: Config, s: State, step: Step)
    requires Gate(s) && Enabled(c, s, step)
    ensures Gate(Apply(c, s, step))
  {
    hide PerPhase.At, PerPhase.With, AfterCallback, AfterMessage, AfterError, GateAdmits;
    match step case _ =>
  }

  /** A message that does not move stays on the right side of clock and gate. */
  lemma TimeOfOther(c: Config, s: State, step: Step, m: Msg)
    requires Gate(s) && TimeOf(c, s, m) && Enabled(c, s, step)
    ensures TimeOf(c, Apply(c, s, step), m)
  {
    hide PerPhase.At, PerPhase.With, AfterCallback, AfterMessage, AfterError;
    match step case _ =>
  }

  /** Nor does the one that moves leave it. */
  lemma TimeOfMoved(c: Config, s: State, step: Step, i: nat)
    requires Gate(s) && Enabled(c, s, step) && Moves(s, step) == i < |s.msgs| == |Apply(c, s, step).msgs|
    requires TimeOf(c, s, s.msgs[i])
    ensures TimeOf(c, Apply(c, s, step), Apply(c, s, step).msgs[i])
  {
    hide PerPhase.At, PerPhase.With, AfterCallback, AfterMessage, AfterError;
    match step case _ =>
  }

  lemma TimesStep(c: Config, s: State, step: Step)
    requires Gate(s) && Times(c, s) && Enabled(c, s, step)
    ensures Times(c, Apply(c, s, step))
  {
    var i, s' := Moves(s, step), Apply(c, s, step);
    assert step.DoStamp? ==> TimeOf(c, s', Msg(s.phase, step.t, Stamped, false));
    hide Apply, Gate, TimeOf, Enabled;
    MessagesStep(c, s, step);
    forall j | 0 <= j < |s'.msgs|
      ensures TimeOf(c, s', s'.msgs[j])
    {
      if j == i {
        TimeOfMoved(c, s, step, i);
      } else if j < |s.msgs| {
        TimeOfOther(c, s, step, s.msgs[j]);
      }
    }
  }

  lemma DrainedStep(c: Config, s: State, step: Step)
    requires Shape(s) && Gate(s) && Drained(c, s) && Enabled(c, s, step)
    ensures Drained(c, Apply(c, s, step))
  {
    hide PerPhase.At, PerPhase.With, AfterCallback, AfterMessage, AfterError;
    match step case _ =>
  }

  lemma RecordKeeps(histogram: seq<int>, latency: int)
    requires InRange(histogram)
    ensures InRange(Metrics.Record(histogram, latency))
    ensures |Metrics.Record(histogram, latency)| == |histogram| + if 0 < latency then 1 else 0
  {
  }

  /** The counters of phase p after a step: only four kinds of step touch any. */
  function CountersAfter(c: Config, s: State, step: Step, p: Phase): Counters
    requires Enabled(c, s, step)
  {
    var m := s.counters.At(p);
    match step
    case DoCount => if p == s.phase && GateAdmits(s.gate, s.msgs[Last(s)].ts) then m.(produced := m.produced + 1) else m
    case DoRecoverCount => if p == s.phase then AfterError(m) else m
    case CallbackCount(i) =>
      var x := s.msgs[i];
      if p == x.phase then AfterCallback(m, s.gate, x.ts, x.status.failed, x.status.latency) else m
    case ConsumerDeliver =>
      if p.Record? then AfterMessage(m, s.gate, s.msgs[s.log[s.consumer.pos]].ts, s.consumer.recv) else m
    case _ => m
  }

  /** Steps that touch a counter. */
  predicate TouchesCounters(step: Step) {
    step.DoCount? || step.DoRecoverCount? || step.CallbackCount? || step.ConsumerDeliver?
  }

  lemma CountersUntouched(c: Config, s: State, step: Step)
    requires Enabled(c, s, step) && !TouchesCounters(step)
    ensures Apply(c, s, step).counters == s.counters
  {
    hide PerPhase.At, PerPhase.With, GateAdmits, Reads;
    match step case _ =>
  }

  lemma CountersTouched(c: Config, s: State, step: Step, p: Phase)
    requires Enabled(c, s, step) && TouchesCounters(step)
    ensures Apply(c, s, step).counters.At(p) == CountersAfter(c, s, step, p)
  {
    hide AfterError, AfterCallback, AfterMessage, GateAdmits;
    match step case _ =>
  }

  lemma CountersStep(c: Config, s: State, step: Step, p: Phase)
    requires Enabled(c, s, step)
    ensures Apply(c, s, step).counters.At(p) == CountersAfter(c, s, step, p)
  {
    hide Apply, Enabled;
    if TouchesCounters(step) {
      CountersTouched(c, s, step, p);
    } else {
      CountersUntouched(c, s, step);
    }
  }

  lemma HistogramsStep(c: Config, s: State, step: Step, p: Phase)
    requires Times(c, s) && Logs(c, s) && HistogramsAt(c, s.counters.At(p)) && Enabled(c, s, step)
    ensures HistogramsAt(c, CountersAfter(c, s, step, p))
  {
    hide Metrics.Record, InRange;
    match step
    case CallbackCount(i) =>
      RecordKeeps(s.counters.At(p).ack, s.msgs[i].status.latency);
    case ConsumerDeliver =>
      RecordKeeps(s.counters.At(p).e2e, s.consumer.recv - s.msgs[s.log[s.consumer.pos]].ts);
    case _ =>
  }

  // ---- tallies

  /** The message a step moves on, if any. */
  function Moves(s: State, step: Step): int {
    match step
    case DoCount | DoEnter | DoAccept | DoRaise | DoRecoverRelease | DoRecoverCount => |s.msgs| - 1
    case CallBack(i, _, _) => i
    case CallbackRelease(i) => i
    case CallbackCount(i) => i
    case _ => -1
  }

  /** A step adds one message, or moves one on, or leaves all alone. */
  lemma MessagesStep(c: Config, s: State, step: Step)
    requires Enabled(c, s, step)
    ensures var i, msgs := Moves(s, step), Apply(c, s, step).msgs;
            && i < |s.msgs|
            && (step.DoStamp? ==> msgs == s.msgs + [Msg(s.phase, step.t, Stamped, false)])
            && (!step.DoStamp? && i < 0 ==> msgs == s.msgs)
            && (0 <= i ==> |msgs| == |s.msgs| && msgs == s.msgs[i := msgs[i]]
                           && msgs[i].phase == s.msgs[i].phase && msgs[i].ts == s.msgs[i].ts)
  {
    hide PerPhase.At, PerPhase.With, AfterCallback, AfterMessage, AfterError, GateAdmits, Reads;
    match step case _ =>
  }

  /** By how much a tally changes when message i moves on, or one message is added. */
  function Gain(before: seq<Msg>, after: seq<Msg>, i: int, p: Phase, k: Tally): int {
    if |before| < |after| then One(after[|before|], p, k)
    else if 0 <= i < |before| && i < |after| then One(after[i], p, k) - One(before[i], p, k)
    else 0
  }

  lemma GainIsDifference(before: seq<Msg>, after: seq<Msg>, i: int, p: Phase, k: Tally)
    requires
      || (|after| == |before| + 1 && after == before + [after[|before|]])
      || (0 <= i < |before| && |after| == |before| && after == before[i := after[i]])
      || (i < 0 && after == before)
    ensures Tallied(after, p, k) == Tallied(before, p, k) + Gain(before, after, i, p, k)
  {
    if |before| < |after| {
      TalliedAppend(before, after[|before|], p, k);
    } else if 0 <= i {
      TalliedUpdate(before, i, after[i], p, k);
    }
  }

  function StepGain(c: Config, s: State, step: Step, p: Phase, k: Tally): int
    requires Enabled(c, s, step)
  {
    Gain(s.msgs, Apply(c, s, step).msgs, Moves(s, step), p, k)
  }

  lemma TallyStep(c: Config, s: State, step: Step, p: Phase, k: Tally)
    requires Enabled(c, s, step)
    ensures Tallied(Apply(c, s, step).msgs, p, k) == Tallied(s.msgs, p, k) + StepGain(c, s, step, p, k)
  {
    hide Apply, One, Enabled, Tallied, Gain;
    MessagesStep(c, s, step);
    GainIsDifference(s.msgs, Apply(c, s, step).msgs, Moves(s, step), p, k);
  }

  ghost predicate PermitsBalance(c: Config, s: State, step: Step, p: Phase)
    requires Enabled(c, s, step)
  {
    Apply(c, s, step).permits.At(p) + StepGain(c, s, step, p, Holding) + AtStamp(Apply(c, s, step), p)
    == s.permits.At(p) + AtStamp(s, p)
  }

  lemma LibraryBalance(c: Config, s: State, step: Step, p: Phase)
    requires Shape(s) && Enabled(c, s, step) && IsLibraryStep(step)
    ensures PermitsBalance(c, s, step, p)
  {
    hide AfterCallback, AfterMessage, AfterError, GateAdmits, Reads;
    match step case _ =>
  }

  lemma AdapterBalance(c: Config, s: State, step: Step, p: Phase)
    requires Current(s) && Enabled(c, s, step) && IsAdapterStep(step)
    ensures PermitsBalance(c, s, step, p)
  {
    hide AfterCallback, AfterMessage, AfterError, GateAdmits, Reads;
    match step case _ =>
  }

  lemma OtherBalance(c: Config, s: State, step: Step, p: Phase)
    requires Shape(s) && Enabled(c, s, step) && !IsLibraryStep(step) && !IsAdapterStep(step)
    ensures PermitsBalance(c, s, step, p)
  {
    hide AfterCallback, AfterMessage, AfterError, GateAdmits, Reads;
    match step case _ =>
  }

  lemma StepBalance(c: Config, s: State, step: Step, p: Phase)
    requires Shape(s) && Enabled(c, s, step)
    ensures PermitsBalance(c, s, step, p)
  {
    hide PermitsBalance, Current;
    if IsLibraryStep(step) {
      LibraryBalance(c, s, step, p);
    } else if IsAdapterStep(step) {
      assert HasCurrent(s.pc);
      AdapterBalance(c, s, step, p);
    } else {
      OtherBalance(c, s, step, p);
    }
  }

  lemma PermitsStep(c: Config, s: State, step: Step, p: Phase)
    requires Shape(s) && PermitsAt(c, s, p) && Enabled(c, s, step)
    ensures PermitsAt(c, Apply(c, s, step), p)
  {
    hide Tallied, Apply, StepGain, Shape, AtStamp, Enabled;
    TallyStep(c, s, step, p, Holding);
    StepBalance(c, s, step, p);
  }

  /** Each counter moves with the messages it counts. */
  ghost predicate CountersBalance(c: Config, s: State, step: Step, p: Phase)
    requires Enabled(c, s, step)
  {
    var before, after := s.counters.At(p), CountersAfter(c, s, step, p);
    && after.produced - before.produced == (if p.Record? then StepGain(c, s, step, p, Produced) else 0)
    && after.acked - before.acked == StepGain(c, s, step, p, AckCounted)
    && after.errors - before.errors == StepGain(c, s, step, p, ErrorCounted)
  }

  lemma ProducedBalance(c: Config, s: State, p: Phase)
    requires Shape(s) && Gate(s) && Times(c, s) && Enabled(c, s, DoCount)
    ensures CountersBalance(c, s, DoCount, p)
  {
    hide PerPhase.At, PerPhase.With;
    var m := s.msgs[Last(s)];
    assert GateAdmits(s.gate, m.ts) <==> s.phase.Record?;
    assert Apply(c, s, DoCount).msgs[Last(s)] == m.(status := Ready);
  }

  lemma CallbackBalance(c: Config, s: State, i: nat, p: Phase)
    requires Enabled(c, s, CallbackCount(i))
    ensures CountersBalance(c, s, CallbackCount(i), p)
  {
    hide PerPhase.At, PerPhase.With, Metrics.Record;
    var m, failed := s.msgs[i], s.msgs[i].status.failed;
    assert Apply(c, s, CallbackCount(i)).msgs[i]
        == m.(status := Settled(failed, !failed && GateAdmits(s.gate, m.ts), m.status.latency));
  }

  lemma RecoverBalance(c: Config, s: State, p: Phase)
    requires Current(s) && Enabled(c, s, DoRecoverCount)
    ensures CountersBalance(c, s, DoRecoverCount, p)
  {
    hide PerPhase.At, PerPhase.With;
    assert Apply(c, s, DoRecoverCount).msgs[Last(s)] == s.msgs[Last(s)].(status := Settled(true, false, 0));
  }

  /** Steps at which a counter that counts messages may move. */
  predicate IsCountingStep(step: Step) { step.DoCount? || step.CallbackCount? || step.DoRecoverCount? }

  predicate IsCounterTally(k: Tally) { k.Produced? || k.AckCounted? || k.ErrorCounted? }

  lemma MovedSameClass(c: Config, s: State, step: Step, p: Phase, k: Tally)
    requires Enabled(c, s, step) && 0 <= Moves(s, step) && !IsCountingStep(step) && IsCounterTally(k)
    requires !s.msgs[Moves(s, step)].status.Stamped? && !s.msgs[Moves(s, step)].status.Settled?
    ensures Moves(s, step) < |Apply(c, s, step).msgs|
    ensures Is(Apply(c, s, step).msgs[Moves(s, step)], p, k) == Is(s.msgs[Moves(s, step)], p, k)
  {
    hide PerPhase.At, PerPhase.With, AfterCallback, AfterMessage, AfterError, GateAdmits, Reads;
    match step case _ =>
  }

  lemma CountersKept(c: Config, s: State, step: Step, p: Phase)
    requires Enabled(c, s, step) && !IsCountingStep(step)
    ensures var before, after := s.counters.At(p), CountersAfter(c, s, step, p);
            after.produced == before.produced && after.acked == before.acked && after.errors == before.errors
  {
    hide PerPhase.At, AfterMessage;
    if step.ConsumerDeliver? {
      MessageCounters(s.counters.At(p), s.gate, s.msgs[s.log[s.consumer.pos]].ts, s.consumer.recv);
    }
  }

  lemma StampedNotCounted(p: Phase, q: Phase, t: int, k: Tally)
    requires IsCounterTally(k)
    ensures One(Msg(p, t, Stamped, false), q, k) == 0
  {
  }

  lemma NoGain(c: Config, s: State, step: Step, p: Phase, k: Tally)
    requires Shape(s) && Enabled(c, s, step) && !IsCountingStep(step) && IsCounterTally(k)
    ensures StepGain(c, s, step, p, k) == 0
  {
    if 0 <= Moves(s, step) {
      MovedNotStamped(c, s, step);
      MovedNotSettled(c, s, step);
    }
    hide Apply, Enabled, Shape, Is;
    MessagesStep(c, s, step);
    if 0 <= Moves(s, step) {
      MovedSameClass(c, s, step, p, k);
    } else if step.DoStamp? {
      StampedNotCounted(s.phase, p, step.t, k);
    }
  }

  lemma MovedNotStamped(c: Config, s: State, step: Step)
    requires Shape(s) && Enabled(c, s, step) && 0 <= Moves(s, step) && !step.DoCount?
    ensures !s.msgs[Moves(s, step)].status.Stamped?
  {
    hide PerPhase.At, PerPhase.With, Apply, Reads;
    match step case _ =>
  }

  lemma UncountedBalance(c: Config, s: State, step: Step, p: Phase)
    requires Shape(s) && Enabled(c, s, step) && !IsCountingStep(step)
    ensures CountersBalance(c, s, step, p)
  {
    hide Shape, Enabled, CountersAfter, StepGain;
    CountersKept(c, s, step, p);
    NoGain(c, s, step, p, Produced);
    NoGain(c, s, step, p, AckCounted);
    NoGain(c, s, step, p, ErrorCounted);
  }

  lemma MessageCounters(m: Counters, gate: int, ts: int, recv: int)
    ensures var m' := AfterMessage(m, gate, ts, recv);
            m'.produced == m.produced && m'.acked == m.acked && m'.errors == m.errors
  {
  }

  lemma ConsumedBalance(c: Config, s: State, step: Step, p: Phase)
    requires Enabled(c, s, step)
    ensures CountersAfter(c, s, step, p).consumed - s.counters.At(p).consumed
         == if p.Record? then |Apply(c, s, step).recorded| - |s.recorded| else 0
  {
    hide PerPhase.At, PerPhase.With, Metrics.Record;
    match step case _ =>
  }

  lemma StepCounters(c: Config, s: State, step: Step, p: Phase)
    requires Shape(s) && Gate(s) && Times(c, s) && Enabled(c, s, step)
    ensures CountersBalance(c, s, step, p)
  {
    hide CountersBalance, Current, Gate, Times;
    if step.DoCount? {
      ProducedBalance(c, s, p);
    } else if step.CallbackCount? {
      CallbackBalance(c, s, step.i, p);
    } else if step.DoRecoverCount? {
      assert HasCurrent(s.pc);
      RecoverBalance(c, s, p);
    } else {
      UncountedBalance(c, s, step, p);
    }
  }

  lemma CountsStep(c: Config, s: State, step: Step, p: Phase)
    requires Shape(s) && Gate(s) && Times(c, s) && CountsAt(s, p) && Enabled(c, s, step)
    ensures CountsAt(Apply(c, s, step), p)
  {
    hide Tallied, Apply, StepGain, Shape, Gate, Times, CountersAfter, Enabled;
    TallyStep(c, s, step, p, Produced);
    TallyStep(c, s, step, p, AckCounted);
    TallyStep(c, s, step, p, ErrorCounted);
    CountersStep(c, s, step, p);
    StepCounters(c, s, step, p);
    ConsumedBalance(c, s, step, p);
  }

  // ---- the consumer's side

  /** Any other thread leaves the consumer's state alone and keeps what it needs of the messages. */
  lemma ConsumerFrame(c: Config, s: State, step: Step)
    requires Shape(s) && Taken(s) && Gate(s) && Enabled(c, s, step) && !IsConsumerStep(step)
    ensures var s' := Apply(c, s, step);
            && s'.log == s.log && s'.consumer == s.consumer
            && s'.recorded == s.recorded && s'.receipts == s.receipts
            && |s.msgs| <= |s'.msgs|
            && (s'.gate != s.gate ==> s.gate <= 0)
            && forall i :: 0 <= i < |s.msgs| ==>
                 s'.msgs[i].ts == s.msgs[i].ts && (s.msgs[i].accepted ==> s'.msgs[i].accepted)
  {
    hide PerPhase.At, PerPhase.With, AfterCallback, AfterMessage, AfterError, GateAdmits, Reads, Shape, Taken;
    MessagesStep(c, s, step);
    match step case _ =>
  }

  lemma DeliverKeepsLogs(c: Config, s: State)
    requires Gate(s) && Logs(c, s) && Enabled(c, s, ConsumerDeliver)
    ensures Logs(c, Apply(c, s, ConsumerDeliver))
  {
    hide PerPhase.At, PerPhase.With, AfterMessage;
    var s', pos := Apply(c, s, ConsumerDeliver), s.consumer.pos;
    assert s.log[..pos + 1] == s.log[..pos] + [s.log[pos]];
    assert c.noDuplicates ==> s.log[pos] !in s.log[..pos];
    assert LogTaken(s') && LogTimes(c, s');
    assert RecordedFromLog(s');
  }

  lemma ConsumerKeepsLogs(c: Config, s: State, step: Step)
    requires Times(c, s) && Logs(c, s) && Enabled(c, s, step) && IsConsumerStep(step) && !step.ConsumerDeliver?
    ensures Logs(c, Apply(c, s, step))
  {
    var s' := Apply(c, s, step);
    assert step.Append? ==> s'.log[..s.consumer.pos] == s.log[..s.consumer.pos];
    match step case _ =>
  }

  lemma OtherKeepsLogs(c: Config, s: State, step: Step)
    requires Shape(s) && Taken(s) && Gate(s) && Logs(c, s) && Enabled(c, s, step) && !IsConsumerStep(step)
    ensures Logs(c, Apply(c, s, step))
  {
    hide Apply, Enabled, Shape, Taken;
    ConsumerFrame(c, s, step);
  }

  lemma LogsStep(c: Config, s: State, step: Step)
    requires Shape(s) && Taken(s) && Gate(s) && Times(c, s) && Logs(c, s) && Enabled(c, s, step)
    ensures Logs(c, Apply(c, s, step))
  {
    hide Apply, Enabled, Shape, Taken, Gate, Times, Logs;
    if step.ConsumerDeliver? {
      DeliverKeepsLogs(c, s);
    } else if IsConsumerStep(step) {
      ConsumerKeepsLogs(c, s, step);
    } else {
      OtherKeepsLogs(c, s, step);
    }
  }

  // ---- the histograms' contents

  lemma MovedNotSettled(c: Config, s: State, step: Step)
    requires Shape(s) && Enabled(c, s, step) && 0 <= Moves(s, step)
    ensures !s.msgs[Moves(s, step)].status.Settled?
  {
    hide PerPhase.At, PerPhase.With, Apply, Reads;
    match step case _ =>
  }

  lemma MovedNotCounted(c: Config, s: State, step: Step)
    requires Enabled(c, s, step) && 0 <= Moves(s, step) && !step.CallbackCount?
    ensures Moves(s, step) < |Apply(c, s, step).msgs|
    ensures forall p :: AckSample(Apply(c, s, step).msgs[Moves(s, step)], p) == multiset{}
  {
    hide PerPhase.At, PerPhase.With, AfterCallback, AfterMessage, AfterError, GateAdmits, Reads;
    match step case _ =>
  }

  lemma RecordAsSample(histogram: seq<int>, latency: int)
    ensures multiset(Metrics.Record(histogram, latency))
         == multiset(histogram) + if 0 < latency then multiset{Clamp(latency)} else multiset{}
  {
  }

  /** A counted callback adds its message's sample to its phase's histogram. */
  lemma CountedSample(c: Config, s: State, i: nat, p: Phase)
    requires Enabled(c, s, CallbackCount(i))
    ensures i < |Apply(c, s, CallbackCount(i)).msgs|
    ensures multiset(CountersAfter(c, s, CallbackCount(i), p).ack)
         == multiset(s.counters.At(p).ack) + AckSample(Apply(c, s, CallbackCount(i)).msgs[i], p)
  {
    hide PerPhase.At, PerPhase.With, Metrics.Record;
    RecordAsSample(s.counters.At(p).ack, s.msgs[i].status.latency);
  }

  lemma OtherStepsKeepAck(c: Config, s: State, step: Step, p: Phase)
    requires Enabled(c, s, step) && !step.CallbackCount?
    ensures CountersAfter(c, s, step, p).ack == s.counters.At(p).ack
  {
    hide PerPhase.At, PerPhase.With, Metrics.Record;
    match step case _ =>
  }

  /** The message that a step moves on had no sample before. */
  lemma MovedSamples(c: Config, s: State, step: Step, p: Phase)
    requires Shape(s) && Enabled(c, s, step) && 0 <= Moves(s, step)
    ensures Moves(s, step) < |Apply(c, s, step).msgs|
    ensures AckSamples(Apply(c, s, step).msgs, p)
         == AckSamples(s.msgs, p) + AckSample(Apply(c, s, step).msgs[Moves(s, step)], p)
  {
    var i := Moves(s, step);
    hide Apply, Enabled, Shape, AckSample, AckSamples;
    MessagesStep(c, s, step);
    MovedNotSettled(c, s, step);
    UnsettledHasNoSample(s.msgs[i], p);
    AckSamplesUpdate(s.msgs, i, Apply(c, s, step).msgs[i], p);
  }

  /** A step that moves a message on adds that message's sample, if any. */
  lemma AckSamplesMoved(c: Config, s: State, step: Step, p: Phase)
    requires Shape(s) && AckSamplesAt(s, p) && Enabled(c, s, step) && 0 <= Moves(s, step)
    ensures AckSamplesAt(Apply(c, s, step), p)
  {
    hide Apply, Enabled, Shape, AckSample, AckSamples, CountersAfter;
    MovedSamples(c, s, step, p);
    CountersStep(c, s, step, p);
    if step.CallbackCount? {
      CountedSample(c, s, step.i, p);
    } else {
      OtherStepsKeepAck(c, s, step, p);
      MovedNotCounted(c, s, step);
    }
  }

  /** Any other step leaves histogram and samples alone. */
  lemma AckSamplesOther(c: Config, s: State, step: Step, p: Phase)
    requires AckSamplesAt(s, p) && Enabled(c, s, step) && Moves(s, step) < 0
    ensures AckSamplesAt(Apply(c, s, step), p)
  {
    hide Apply, Enabled, AckSample, AckSamples, CountersAfter;
    MessagesStep(c, s, step);
    CountersStep(c, s, step, p);
    OtherStepsKeepAck(c, s, step, p);
    if step.DoStamp? {
      var m := Msg(s.phase, step.t, Stamped, false);
      UnsettledHasNoSample(m, p);
      AckSamplesAppend(s.msgs, m, p);
    }
  }

  lemma AckSamplesStep(c: Config, s: State, step: Step, p: Phase)
    requires Shape(s) && AckSamplesAt(s, p) && Enabled(c, s, step)
    ensures AckSamplesAt(Apply(c, s, step), p)
  {
    hide Apply, Enabled, Shape, AckSamplesAt;
    if 0 <= Moves(s, step) {
      AckSamplesMoved(c, s, step, p);
    } else {
      AckSamplesOther(c, s, step, p);
    }
  }

  lemma UnsettledHasNoSample(m: Msg, p: Phase)
    requires !m.status.Settled?
    ensures AckSample(m, p) == multiset{}
  {
  }

  lemma OtherStepsKeepE2e(c: Config, s: State, step: Step, p: Phase)
    requires Enabled(c, s, step) && !step.ConsumerDeliver?
    ensures CountersAfter(c, s, step, p).e2e == s.counters.At(p).e2e
    ensures Apply(c, s, step).recorded == s.recorded && Apply(c, s, step).receipts == s.receipts
  {
    hide PerPhase.At, PerPhase.With, Metrics.Record;
    match step case _ =>
  }

  /** A delivery that passes the filter appends one latency. */
  lemma DeliveredSample(c: Config, s: State, p: Phase)
    requires LogTaken(s) && |s.recorded| == |s.receipts| && E2eOf(s, p) && Enabled(c, s, ConsumerDeliver)
    ensures |Apply(c, s, ConsumerDeliver).recorded| == |Apply(c, s, ConsumerDeliver).receipts|
    ensures E2eOf(Apply(c, s, ConsumerDeliver), p)
  {
    hide Recordable, Metrics.Record;
    CountersStep(c, s, ConsumerDeliver, p);
    hide PerPhase.At, PerPhase.With;
    var s', i := Apply(c, s, ConsumerDeliver), s.log[s.consumer.pos];
    if p.Record? && GateAdmits(s.gate, s.msgs[i].ts) {
      var latency := s.consumer.recv - s.msgs[i].ts;
      var before := Delays(s.msgs, s.recorded, s.receipts);
      assert Delays(s'.msgs, s'.recorded, s'.receipts) == before + [latency];
      RecordableConcat(before, [latency]);
      RecordAsMap(Recordable(before), latency);
    }
  }

  /** Delays depend on the stamps only. */
  lemma DelaysKept(msgs: seq<Msg>, after: seq<Msg>, recorded: seq<nat>, receipts: seq<int>)
    requires |recorded| == |receipts| && |msgs| <= |after|
    requires forall r :: r in recorded ==> r < |msgs|
    requires forall i :: 0 <= i < |msgs| ==> after[i].ts == msgs[i].ts
    ensures Delays(after, recorded, receipts) == Delays(msgs, recorded, receipts)
  {
    assert forall k :: 0 <= k < |recorded| ==> recorded[k] in recorded;
  }

  lemma OtherStepsKeepStamps(c: Config, s: State, step: Step)
    requires Enabled(c, s, step)
    ensures |s.msgs| <= |Apply(c, s, step).msgs|
    ensures forall i :: 0 <= i < |s.msgs| ==> Apply(c, s, step).msgs[i].ts == s.msgs[i].ts
  {
    hide Apply, Enabled;
    MessagesStep(c, s, step);
  }

  lemma RecordedExist(s: State)
    requires LogTaken(s) && RecordedFromLog(s)
    ensures forall r :: r in s.recorded ==> r < |s.msgs|
  {
  }

  lemma E2eStep(c: Config, s: State, step: Step, p: Phase)
    requires LogTaken(s) && RecordedFromLog(s) && |s.recorded| == |s.receipts| && E2eOf(s, p) && Enabled(c, s, step)
    ensures |Apply(c, s, step).recorded| == |Apply(c, s, step).receipts|
    ensures E2eOf(Apply(c, s, step), p)
  {
    hide Apply, Enabled, CountersAfter, Recordable, LogTaken, RecordedFromLog, Delays;
    if step.ConsumerDeliver? {
      DeliveredSample(c, s, p);
    } else {
      CountersStep(c, s, step, p);
      OtherStepsKeepE2e(c, s, step, p);
      OtherStepsKeepStamps(c, s, step);
      RecordedExist(s);
      DelaysKept(s.msgs, Apply(c, s, step).msgs, s.recorded, s.receipts);
    }
  }

  // ---- all parts together

  lemma InvInit(c: Config)
    ensures Inv(c, Init(c))
  {
    assert Init(c).log[..0] == [];
  }

  lemma SamplesStep(c: Config, s: State, step: Step)
    requires Shape(s) && Logs(c, s) && Samples(s) && Enabled(c, s, step)
    ensures Samples(Apply(c, s, step))
  {
    hide Apply, Enabled, Shape, AckSamplesAt, E2eOf;
    forall p: Phase
      ensures AckSamplesAt(Apply(c, s, step), p)
      ensures |Apply(c, s, step).recorded| == |Apply(c, s, step).receipts| && E2eOf(Apply(c, s, step), p)
    {
      AckSamplesStep(c, s, step, p);
      E2eStep(c, s, step, p);
    }
    E2eStep(c, s, step, Record);
  }

  lemma InvStep(c: Config, s: State, step: Step)
    requires Inv(c, s) && Enabled(c, s, step)
    ensures Inv(c, Apply(c, s, step))
  {
    hide Apply, Enabled, Shape, Taken, Gate, Times, Logs, Samples, Drained,
      PermitsAt, CountsAt, HistogramsAt, CountersAfter, AckSamplesAt, E2eOf;
    var s' := Apply(c, s, step);
    ShapeStep(c, s, step);
    TakenStep(c, s, step);
    GateStep(c, s, step);
    TimesStep(c, s, step);
    LogsStep(c, s, step);
    DrainedStep(c, s, step);
    SamplesStep(c, s, step);
    forall p: Phase
      ensures PermitsAt(c, s', p) && CountsAt(s', p) && HistogramsAt(c, s'.counters.At(p))
    {
      PermitsStep(c, s, step, p);
      CountsStep(c, s, step, p);
      HistogramsStep(c, s, step, p);
      CountersStep(c, s, step, p);
    }
  }

  lemma {:induction false} InvAfter(c: Config, s: State, steps: seq<Step>)
    requires Inv(c, s) && ValidFrom(c, s, steps)
    ensures Inv(c, After(c, s, steps))
    decreases |steps|
  {
    hide Inv, Apply, Enabled;
    if steps != [] {
      InvStep(c, s, steps[0]);
      InvAfter(c, Apply(c, s, steps[0]), steps[1..]);
    }
  }

  /** Everything above holds in every state of every run. */
  lemma InvReached(c: Config, steps: seq<Step>)
    requires Run(c, steps)
    ensures Inv(c, Reached(c, steps))
  {
    hide Inv;
    InvInit(c);
    InvAfter(c, Init(c), steps);
  }
}
