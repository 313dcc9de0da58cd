/**
 One measurement repeat as a transition system: the producer loop run in three phases, the callbacks of
 every submitted message, the broker and the consumer thread. Each step is one atomic action of one thread.
 */
module Protocol {
  import opened Metrics

  datatype Phase = Warm | Discard | Record

  datatype PerPhase<T> = PerPhase(warm: T, discard: T, record: T) {
    function At(p: Phase): T {
      match p
      case Warm => warm
      case Discard => discard
      case Record => record
    }

    function With(p: Phase, v: T): PerPhase<T> {
      match p
      case Warm => this.(warm := v)
      case Discard => this.(discard := v)
      case Record => this.(record := v)
    }
  }

  /** How far a message has come. Up to Released, and in Raised, it holds a permit of its phase's semaphore. */
  datatype Status =
    | Stamped                                   // timestamp written
    | Ready                                     // `produced` has been dealt with
    | InCall                                    // inside produce_async, not yet taken by the library
    | InFlight                                  // taken by the library
    | Raised                                    // produce_async raised
    | RaiseReleased                             // the producer gave the permit back, the error is not counted yet
    | Acking(failed: bool, latency: int)        // on_ack has been called
    | Released(failed: bool, latency: int)      // on_ack gave the permit back, the result is not counted yet
    | Settled(failed: bool, counted: bool, latency: int)  // result counted; `counted`: it went through record_ack

  datatype Msg = Msg(phase: Phase, ts: int, status: Status, accepted: bool)

  /** The next statement of the producer thread. */
  datatype Pc =
    | Begin            // deadline = now + duration
    | Schedule         // next_send = now
    | Check            // if now >= deadline: break
    | Pace             // with a rate: sleep until next_send, then add the interval to it
    | Acquire          // sem.acquire()
    | Stamp            // ts = now; msg.stamp(ts)
    | Count            // if the gate admits ts: produced += 1
    | Enter            // call produce_async
    | InAdapter
    | RecoverRelease   // except: sem.release()
    | RecoverCount     // except: errors += 1
    | Drain
    | OpenGate         // gate.start_ns = now
    | Trailing         // wait for the consumer
    | Finished
    | Aborted          // drain raised

  datatype Consumer =
    | Top(pos: nat)
    | Fetching(pos: nat)
    | Delivering(pos: nat, end: nat, recv: int)
    | Gone(pos: nat)

  datatype State = State(
    clock: int,                     // the latest clock reading of any thread
    gate: int,                      // gate.start_ns
    phase: Phase, pc: Pc, deadline: int,
    started: int, nextSend: int,    // the first value of next_send, and the current one
    permits: PerPhase<nat>,
    counters: PerPhase<Counters>,
    msgs: seq<Msg>,                 // every stamped message of the run, oldest first
    log: seq<nat>,                  // messages in the order the consumer is to see them
    consumer: Consumer,
    stop: bool,
    recorded: seq<nat>,             // the messages for which record_e2e was called,
    receipts: seq<int>)             // and when each of them was received

  /** A run's parameters, and which hypotheses about clock, broker and drain it is under. */
  datatype Config = Config(
    inFlight: nat,
    duration: PerPhase<int>,
    interval: nat,                  // 1 / target_rate, or 0 without a rate
    slack: int,                     // what the consumer's deadline adds to the three durations
    strictClock: bool,              // no two clock readings are equal
    noDuplicates: bool,             // the broker shows a message at most once
    fullDrains: bool,               // a drain that returns leaves no callback behind
    steadyConsumer: bool)           // no setup or poll of the consumer raises

  datatype Step =
    | DoBegin(t: int)
    | DoSchedule(t: int)
    | DoCheck(t: int)
    | DoPace(t: int)                // t: when the sleep, if any, is over
    | DoAcquire
    | DoStamp(t: int)
    | DoCount
    | DoEnter
    | DoAccept
    | DoReturn
    | DoRaise
    | DoRecoverRelease
    | DoRecoverCount
    | DoDrain
    | DoAbort
    | DoOpenGate(t: int)
    | DoStop(timedOut: bool)
    | CallBack(i: nat, failed: bool, t: int)
    | CallbackRelease(i: nat)
    | CallbackCount(i: nat)
    | Append(i: nat)
    | ConsumerCheck(t: int)
    | ConsumerExit(t: int)
    | ConsumerFail
    | ConsumerPoll(k: nat, t: int)
    | ConsumerDeliver
    | ConsumerLoop

  /** The reading at which the consumer thread is started. */
  const START := 1

  /** `deadline_ns` of the consumer. */
  function ConsumerDeadline(c: Config): int {
    START + c.duration.warm + c.duration.discard + c.duration.record + c.slack
  }

  function Init(c: Config): State {
    State(START, 0, Warm, Begin, 0, 0, 0,
          PerPhase(c.inFlight, c.inFlight, c.inFlight),
          PerPhase(ZERO, ZERO, ZERO),
          [], [], Top(0), false, [], [])
  }

  /** A monotonic clock never runs backwards; a strict one never stands still between two readings. */
  predicate Reads(c: Config, s: State, t: int) {
    if c.strictClock then s.clock < t else s.clock <= t
  }

  /** Only the record phase is given a rate. */
  function Interval(c: Config, p: Phase): nat { if p.Record? then c.interval else 0 }

  predicate GateAdmits(gate: int, ts: int) { 0 < gate && gate <= ts }

  function Last(s: State): nat
    requires s.msgs != []
  {
    |s.msgs| - 1
  }

  predicate AllSettled(s: State) {
    forall i :: 0 <= i < |s.msgs| ==> s.msgs[i].status.Settled?
  }

  predicate HasMsg(s: State, i: nat) { i < |s.msgs| }

  predicate Enabled(c: Config, s: State, step: Step) {
    match step
    case DoBegin(t) => s.pc.Begin? && Reads(c, s, t)
    case DoSchedule(t) => s.pc.Schedule? && Reads(c, s, t)
    case DoCheck(t) => s.pc.Check? && Reads(c, s, t)
    case DoPace(t) => s.pc.Pace? && Reads(c, s, t) && s.nextSend <= t
    case DoAcquire => s.pc.Acquire? && 0 < s.permits.At(s.phase)
    case DoStamp(t) => s.pc.Stamp? && Reads(c, s, t)
    case DoCount => s.pc.Count? && s.msgs != []
    case DoEnter => s.pc.Enter? && s.msgs != []
    case DoAccept => s.pc.InAdapter? && s.msgs != [] && s.msgs[Last(s)].status.InCall?
    case DoReturn => s.pc.InAdapter? && s.msgs != [] && s.msgs[Last(s)].accepted
    case DoRaise => s.pc.InAdapter? && s.msgs != [] && s.msgs[Last(s)].status.InCall?
    case DoRecoverRelease => s.pc.RecoverRelease? && s.msgs != []
    case DoRecoverCount => s.pc.RecoverCount? && s.msgs != []
    case DoDrain => s.pc.Drain? && (c.fullDrains ==> AllSettled(s))
    case DoAbort => s.pc.Drain?
    case DoOpenGate(t) => s.pc.OpenGate? && Reads(c, s, t)
    case DoStop(timedOut) => s.pc.Trailing? && (timedOut || s.counters.record.acked <= s.counters.record.consumed)
    case CallBack(i, failed, t) => HasMsg(s, i) && s.msgs[i].status.InFlight? && Reads(c, s, t)
    case CallbackRelease(i) => HasMsg(s, i) && s.msgs[i].status.Acking?
    case CallbackCount(i) => HasMsg(s, i) && s.msgs[i].status.Released?
    case Append(i) => HasMsg(s, i) && s.msgs[i].accepted && (c.noDuplicates ==> i !in s.log)
    case ConsumerCheck(t) => s.consumer.Top? && Reads(c, s, t) && t < ConsumerDeadline(c) && !s.stop
    case ConsumerExit(t) => s.consumer.Top? && Reads(c, s, t) && (ConsumerDeadline(c) <= t || s.stop)
    case ConsumerFail => (s.consumer.Top? || s.consumer.Fetching?) && !c.steadyConsumer
    case ConsumerPoll(k, t) => s.consumer.Fetching? && s.consumer.pos + k <= |s.log| && Reads(c, s, t)
    case ConsumerDeliver =>
      && s.consumer.Delivering? && s.consumer.pos < s.consumer.end && s.consumer.pos < |s.log|
      && HasMsg(s, s.log[s.consumer.pos])
    case ConsumerLoop => s.consumer.Delivering? && s.consumer.pos == s.consumer.end
  }

  function SetStatus(s: State, i: nat, status: Status): State
    requires HasMsg(s, i)
  {
    s.(msgs := s.msgs[i := s.msgs[i].(status := status)])
  }

  /** `sem.release()` on the semaphore of phase p. */
  function Release(s: State, p: Phase): State {
    s.(permits := s.permits.With(p, s.permits.At(p) + 1))
  }

  /** `metrics.errors += 1` */
  function AfterError(m: Counters): Counters { m.(errors := m.errors + 1) }

  /** The tail of `on_ack` after the release. */
  function AfterCallback(m: Counters, gate: int, ts: int, failed: bool, latency: int): Counters {
    if failed then AfterError(m)
    else if GateAdmits(gate, ts) then AfterAck(m, latency)
    else m
  }

  /** `_on_msg`, for a message stamped ts. */
  function AfterMessage(m: Counters, gate: int, ts: int, recv: int): Counters {
    if GateAdmits(gate, ts) then AfterE2e(m, recv - ts) else m
  }

  function NextPhase(s: State): State {
    match s.phase
    case Warm => s.(phase := Discard, pc := Begin)
    case Discard => s.(pc := OpenGate)
    case Record => s.(pc := Trailing)
  }

  function Apply(c: Config, s: State, step: Step): State
    requires Enabled(c, s, step)
  {
    match step
    case DoBegin(t) => s.(clock := t, deadline := t + c.duration.At(s.phase), pc := Schedule)
    case DoSchedule(t) => s.(clock := t, started := t, nextSend := t, pc := Check)
    case DoCheck(t) =>
      s.(clock := t, pc := if t >= s.deadline then Drain else if Interval(c, s.phase) == 0 then Acquire else Pace)
    case DoPace(t) => s.(clock := t, nextSend := s.nextSend + c.interval, pc := Acquire)
    case DoAcquire => s.(permits := s.permits.With(s.phase, s.permits.At(s.phase) - 1), pc := Stamp)
    case DoStamp(t) => s.(clock := t, pc := Count, msgs := s.msgs + [Msg(s.phase, t, Stamped, false)])
    case DoCount =>
      var m := s.counters.At(s.phase);
      var counters :=
        if GateAdmits(s.gate, s.msgs[Last(s)].ts) then s.counters.With(s.phase, m.(produced := m.produced + 1))
        else s.counters;
      SetStatus(s, Last(s), Ready).(counters := counters, pc := Enter)
    case DoEnter => SetStatus(s, Last(s), InCall).(pc := InAdapter)
    case DoAccept => s.(msgs := s.msgs[Last(s) := s.msgs[Last(s)].(status := InFlight, accepted := true)])
    case DoReturn => s.(pc := Check)
    case DoRaise => SetStatus(s, Last(s), Raised).(pc := RecoverRelease)
    case DoRecoverRelease => Release(SetStatus(s, Last(s), RaiseReleased), s.phase).(pc := RecoverCount)
    case DoRecoverCount =>
      SetStatus(s, Last(s), Settled(true, false, 0)).(
        counters := s.counters.With(s.phase, AfterError(s.counters.At(s.phase))), pc := Check)
    case DoDrain => NextPhase(s)
    case DoAbort => s.(stop := true, pc := Aborted)
    case DoOpenGate(t) => s.(clock := t, gate := t, phase := Record, pc := Begin)
    case DoStop(_) => s.(stop := true, pc := Finished)
    case CallBack(i, failed, t) => SetStatus(s, i, Acking(failed, t - s.msgs[i].ts)).(clock := t)
    case CallbackRelease(i) =>
      Release(SetStatus(s, i, Released(s.msgs[i].status.failed, s.msgs[i].status.latency)), s.msgs[i].phase)
    case CallbackCount(i) =>
      var x := s.msgs[i];
      SetStatus(s, i, Settled(x.status.failed, !x.status.failed && GateAdmits(s.gate, x.ts), x.status.latency)).(
        counters := s.counters.With(x.phase,
          AfterCallback(s.counters.At(x.phase), s.gate, x.ts, x.status.failed, x.status.latency)))
    case Append(i) => s.(log := s.log + [i])
    case ConsumerCheck(t) => s.(clock := t, consumer := Fetching(s.consumer.pos))
    case ConsumerExit(t) => s.(clock := t, consumer := Gone(s.consumer.pos))
    case ConsumerFail => s.(consumer := Gone(s.consumer.pos))
    case ConsumerPoll(k, t) => s.(clock := t, consumer := Delivering(s.consumer.pos, s.consumer.pos + k, t))
    case ConsumerDeliver =>
      var i := s.log[s.consumer.pos];
      s.(counters := s.counters.With(Record, AfterMessage(s.counters.record, s.gate, s.msgs[i].ts, s.consumer.recv)),
         recorded := if GateAdmits(s.gate, s.msgs[i].ts) then s.recorded + [i] else s.recorded,
         receipts := if GateAdmits(s.gate, s.msgs[i].ts) then s.receipts + [s.consumer.recv] else s.receipts,
         consumer := s.consumer.(pos := s.consumer.pos + 1))
    case ConsumerLoop => s.(consumer := Top(s.consumer.pos))
  }

  // ---- whole runs

  predicate ValidFrom(c: Config, s: State, steps: seq<Step>)
    decreases |steps|
  {
    steps == [] || (Enabled(c, s, steps[0]) && ValidFrom(c, Apply(c, s, steps[0]), steps[1..]))
  }

  /** The state a schedule leads to. */
  function After(c: Config, s: State, steps: seq<Step>): State
    requires ValidFrom(c, s, steps)
    decreases |steps|
  {
    if steps == [] then s else After(c, Apply(c, s, steps[0]), steps[1..])
  }

  /** A schedule of a whole run, from the start. */
  predicate Run(c: Config, steps: seq<Step>) { ValidFrom(c, Init(c), steps) }

  function Reached(c: Config, steps: seq<Step>): State
    requires Run(c, steps)
  {
    After(c, Init(c), steps)
  }

  /** A schedule can be cut anywhere. */
  lemma {:induction false} Split(c: Config, s: State, steps: seq<Step>, k: nat)
    requires ValidFrom(c, s, steps) && k <= |steps|
    ensures ValidFrom(c, s, steps[..k]) && ValidFrom(c, After(c, s, steps[..k]), steps[k..])
    ensures After(c, s, steps) == After(c, After(c, s, steps[..k]), steps[k..])
    decreases k
  {
    if k != 0 {
      Split(c, Apply(c, s, steps[0]), steps[1..], k - 1);
      assert steps[..k][1..] == steps[1..][..k - 1] && steps[k..] == steps[1..][k - 1..];
    } else {
      assert steps[..0] == [] && steps[0..] == steps;
    }
  }

  lemma {:induction false} AfterConcat(c: Config, s: State, a: seq<Step>, b: seq<Step>)
    requires ValidFrom(c, s, a)
    requires ValidFrom(c, After(c, s, a), b)
    ensures ValidFrom(c, s, a + b)
    ensures After(c, s, a + b) == After(c, After(c, s, a), b)
    decreases |a|
  {
    if a == [] {
      assert a + b == b;
    } else {
      assert (a + b)[0] == a[0] && (a + b)[1..] == a[1..] + b;
      AfterConcat(c, Apply(c, s, a[0]), a[1..], b);
    }
  }
}
