/**
 One `produce_async` call of each client adapter, step by step against its library: the adapter's own
 statements interleave with the library completing the message. Each adapter is shown to keep Contract.
 */
module Adapters {
  import opened Contract

  /** What becomes of a message in the library. */
  datatype Future = Pending | Succeeded | Failed

  // ---- confluent-kafka: produce, and once more after a BufferError

  datatype ConfluentPc = First | PollForRoom | Second | Accepted | Returned | Raised

  /** `passed`: for each call of `on_ack`, whether it was given an error. */
  datatype Confluent = Confluent(pc: ConfluentPc, queued: nat, verdict: Future, passed: seq<bool>, bufferErrors: nat)

  predicate ConfluentNext(x: Confluent, y: Confluent) {
    || (x.pc.First? && y == x.(pc := Accepted, queued := x.queued + 1))
    || (x.pc.First? && y == x.(pc := PollForRoom, bufferErrors := x.bufferErrors + 1))
    || (x.pc.First? && y == x.(pc := Raised))                                  // any other exception
    || (x.pc.PollForRoom? && y == x.(pc := Second))
    || (x.pc.Second? && y == x.(pc := Accepted, queued := x.queued + 1))
    || (x.pc.Second? && y == x.(pc := Raised))                                 // a second BufferError too
    || (x.pc.Accepted? && y == x.(pc := Returned))
    || (0 < x.queued && x.verdict.Pending? && y == x.(verdict := Succeeded))
    || (0 < x.queued && x.verdict.Pending? && y == x.(verdict := Failed))
    // delivery report from a poll, with the error if there is one
    || (|x.passed| < x.queued && x.verdict.Succeeded? && y == x.(passed := x.passed + [false]))
    || (|x.passed| < x.queued && x.verdict.Failed? && y == x.(passed := x.passed + [true]))
  }

  predicate ConfluentInv(x: Confluent) {
    && x.queued == (if x.pc in {Accepted, Returned} then 1 else 0)
    && |x.passed| <= x.queued
    && Honest(x.passed, x.verdict)
  }

  /** Every call of `on_ack` was given an error exactly if the message failed. */
  predicate Honest(passed: seq<bool>, verdict: Future) {
    passed != [] ==> !verdict.Pending? && forall i :: 0 <= i < |passed| ==> passed[i] == verdict.Failed?
  }

  function ConfluentView(x: Confluent): Submission {
    if x.pc.Raised? then Refused
    else if x.queued == 0 then Calling
    else if x.passed == [] then Owed(x.pc.Returned?)
    else Fired(x.pc.Returned?)
  }

  // ---- kafka-python: send returns a future, then callback and errback are registered one after the other

  datatype KafkaPythonPc = Send | AddCallback | AddErrback | Leave | Left | SendRaised

  datatype KafkaPython = KafkaPython(
    pc: KafkaPythonPc, future: Future, callback: bool, errback: bool, due: nat, passed: seq<bool>)

  /** `send` raises, or hands back a future that may be done already. */
  predicate KafkaPythonSend(x: KafkaPython, y: KafkaPython) {
    x.pc.Send? && (y == x.(pc := SendRaised) || exists f: Future :: y == x.(pc := AddCallback, future := f))
  }

  /** The later statements of `produce_async`; registering with a done future calls back on the spot. */
  function KafkaPythonRegister(x: KafkaPython): KafkaPython {
    if x.pc.AddCallback? then
      if x.future.Pending? then x.(pc := AddErrback, callback := true)
      else if x.future.Succeeded? then x.(pc := AddErrback, passed := x.passed + [false])
      else x.(pc := AddErrback)
    else if x.pc.AddErrback? then
      if x.future.Pending? then x.(pc := Leave, errback := true)
      else if x.future.Failed? then x.(pc := Leave, passed := x.passed + [true])
      else x.(pc := Leave)
    else if x.pc.Leave? then x.(pc := Left)
    else x
  }

  /** The sender thread completes the future once, taking along what is registered by then, and runs that. */
  predicate KafkaPythonLibrary(x: KafkaPython, y: KafkaPython) {
    if x.due != 0 then y == x.(due := x.due - 1, passed := x.passed + [!x.future.Succeeded?])
    else
      && (x.pc.AddCallback? || CallbackPassed(x))
      && x.future.Pending?
      && (|| y == x.(future := Succeeded, due := if x.callback then 1 else 0)
          || y == x.(future := Failed, due := if x.errback then 1 else 0))
  }

  predicate KafkaPythonNext(x: KafkaPython, y: KafkaPython) {
    KafkaPythonSend(x, y) || y == KafkaPythonRegister(x) || KafkaPythonLibrary(x, y)
  }

  predicate CallbackPassed(x: KafkaPython) { x.pc.AddErrback? || x.pc.Leave? || x.pc.Left? }

  predicate ErrbackPassed(x: KafkaPython) { x.pc.Leave? || x.pc.Left? }

  predicate KafkaPythonInv(x: KafkaPython) {
    && (x.pc.Send? || x.pc.SendRaised? ==> x.future.Pending?)
    && (x.future.Pending? ==> x.callback == CallbackPassed(x) && x.errback == ErrbackPassed(x))
    && (if KafkaPythonDelivered(x) then |x.passed| + x.due == 1 else x.passed == [] && x.due == 0)
    && Honest(x.passed, x.future)
  }

  /** The future is done and the callback for its outcome has been registered. */
  predicate KafkaPythonDelivered(x: KafkaPython) {
    (x.future.Succeeded? && CallbackPassed(x)) || (x.future.Failed? && ErrbackPassed(x))
  }

  function KafkaPythonView(x: KafkaPython): Submission {
    if x.pc.SendRaised? then Refused
    else if x.pc.Send? then Calling
    else if x.passed == [] then Owed(x.pc.Left?)
    else Fired(x.pc.Left?)
  }

  // ---- aiokafka: a coroutine is scheduled on the loop thread

  datatype AiokafkaPc = Submit | Scheduled | Done | SubmitRaised

  datatype Coroutine = Absent | NotStarted | Sending | AckingSuccess | AckingError | Finished | Dropped

  datatype Aiokafka = Aiokafka(
    pc: AiokafkaPc, coroutine: Coroutine, verdict: Future, passed: seq<bool>, ackRaised: bool)

  /** `raising`: whether `on_ack` itself may raise. */
  predicate AiokafkaNext(x: Aiokafka, y: Aiokafka, raising: bool) {
    || (x.pc.Submit? && y == x.(pc := Scheduled, coroutine := NotStarted))
    || (x.pc.Submit? && y == x.(pc := SubmitRaised))
    || (x.pc.Scheduled? && y == x.(pc := Done))
    || (x.coroutine.NotStarted? && y == x.(coroutine := Sending))
    || (x.coroutine.NotStarted? && y == x.(coroutine := Dropped))              // cancelled before its first step
    || (x.coroutine.Sending? && y == x.(coroutine := AckingSuccess, verdict := Succeeded))
    || (x.coroutine.Sending? && y == x.(coroutine := AckingError, verdict := Failed))  // or cancelled
    || (x.coroutine.AckingSuccess? && y == x.(coroutine := Finished, passed := x.passed + [false]))
    // an exception out of on_ack lands in the handler around it, which calls on_ack again
    || (raising && x.coroutine.AckingSuccess?
        && y == x.(coroutine := AckingError, passed := x.passed + [false], ackRaised := true))
    || (x.coroutine.AckingError? && y == x.(coroutine := Finished, passed := x.passed + [true]))
  }

  predicate AiokafkaInv(x: Aiokafka) {
    && (x.coroutine.Absent? <==> x.pc in {Submit, SubmitRaised})
    && (x.ackRaised ==> x.coroutine in {AckingError, Finished})
    && |x.passed| == (if x.coroutine.Finished? then 1 else 0) + (if x.ackRaised then 1 else 0)
    && (x.coroutine.AckingSuccess? ==> x.verdict.Succeeded?)
    && (x.coroutine.AckingError? && !x.ackRaised ==> x.verdict.Failed?)
    && (!x.ackRaised ==> Honest(x.passed, x.verdict))
  }

  function AiokafkaView(x: Aiokafka): Submission {
    if x.pc.SubmitRaised? then Refused
    else if x.pc.Submit? then Calling
    else if x.passed == [] then Owed(x.pc.Done?)
    else Fired(x.pc.Done?)
  }

  // ---- the three together

  datatype Call = ByConfluent(c: Confluent) | ByKafkaPython(k: KafkaPython) | ByAiokafka(a: Aiokafka)

  predicate Init(x: Call) {
    match x
    case ByConfluent(c) => c.pc.First? && c.queued == 0 && c.verdict.Pending? && c.passed == []
    case ByKafkaPython(k) => k == KafkaPython(Send, Pending, false, false, 0, [])
    case ByAiokafka(a) => a == Aiokafka(Submit, Absent, Pending, [], false)
  }

  predicate Step(x: Call, y: Call) {
    || (x.ByConfluent? && y.ByConfluent? && ConfluentNext(x.c, y.c))
    || (x.ByKafkaPython? && y.ByKafkaPython? && KafkaPythonNext(x.k, y.k))
    || (x.ByAiokafka? && y.ByAiokafka? && AiokafkaNext(x.a, y.a, false))
  }

  predicate Inv(x: Call) {
    match x
    case ByConfluent(c) => ConfluentInv(c)
    case ByKafkaPython(k) => KafkaPythonInv(k)
    case ByAiokafka(a) => AiokafkaInv(a) && !a.ackRaised
  }

  function View(x: Call): Submission {
    match x
    case ByConfluent(c) => ConfluentView(c)
    case ByKafkaPython(k) => KafkaPythonView(k)
    case ByAiokafka(a) => AiokafkaView(a)
  }

  function Passed(x: Call): seq<bool> {
    match x
    case ByConfluent(c) => c.passed
    case ByKafkaPython(k) => k.passed
    case ByAiokafka(a) => a.passed
  }

  function Fires(x: Call): nat { |Passed(x)| }

  function Verdict(x: Call): Future {
    match x
    case ByConfluent(c) => c.verdict
    case ByKafkaPython(k) => k.future
    case ByAiokafka(a) => a.verdict
  }

  /** The library has nothing left to do for this message. */
  predicate LibraryDone(x: Call) {
    match x
    case ByConfluent(c) => |c.passed| == c.queued
    case ByKafkaPython(k) => !k.future.Pending? && k.due == 0
    case ByAiokafka(a) => a.coroutine.Finished?
  }

  predicate HasReturned(x: Call) {
    match x
    case ByConfluent(c) => c.pc.Returned?
    case ByKafkaPython(k) => k.pc.Left?
    case ByAiokafka(a) => a.pc.Done?
  }

  predicate HasRaised(x: Call) {
    match x
    case ByConfluent(c) => c.pc.Raised?
    case ByKafkaPython(k) => k.pc.SendRaised?
    case ByAiokafka(a) => a.pc.SubmitRaised?
  }

  ghost predicate IsCallRun(run: seq<Call>) {
    && run != []
    && Init(run[0])
    && forall i :: 0 <= i < |run| - 1 ==> Step(run[i], run[i + 1])
  }

  lemma StartsCalling(x: Call)
    requires Init(x)
    ensures View(x) == Calling
  {
  }

  lemma ConfluentStep(x: Confluent, y: Confluent)
    requires ConfluentInv(x) && ConfluentNext(x, y)
    ensures ConfluentInv(y) && Next(ConfluentView(x), ConfluentView(y))
    ensures |y.passed| == |x.passed| + if !ConfluentView(x).Fired? && ConfluentView(y).Fired? then 1 else 0
  {
  }

  lemma KafkaPythonSendStep(x: KafkaPython, y: KafkaPython)
    requires KafkaPythonInv(x) && KafkaPythonSend(x, y)
    ensures KafkaPythonInv(y) && Next(KafkaPythonView(x), KafkaPythonView(y))
    ensures y.passed == x.passed && !KafkaPythonView(y).Fired?
  {
  }

  lemma KafkaPythonRegisterStep(x: KafkaPython, y: KafkaPython)
    requires KafkaPythonInv(x) && y == KafkaPythonRegister(x)
    ensures KafkaPythonInv(y) && Next(KafkaPythonView(x), KafkaPythonView(y))
    ensures |y.passed| == |x.passed| + if !KafkaPythonView(x).Fired? && KafkaPythonView(y).Fired? then 1 else 0
  {
  }

  lemma KafkaPythonLibraryStep(x: KafkaPython, y: KafkaPython)
    requires KafkaPythonInv(x) && KafkaPythonLibrary(x, y)
    ensures KafkaPythonInv(y) && Next(KafkaPythonView(x), KafkaPythonView(y))
    ensures |y.passed| == |x.passed| + if !KafkaPythonView(x).Fired? && KafkaPythonView(y).Fired? then 1 else 0
  {
  }

  lemma KafkaPythonStep(x: KafkaPython, y: KafkaPython)
    requires KafkaPythonInv(x) && KafkaPythonNext(x, y)
    ensures KafkaPythonInv(y) && Next(KafkaPythonView(x), KafkaPythonView(y))
    ensures |y.passed| == |x.passed| + if !KafkaPythonView(x).Fired? && KafkaPythonView(y).Fired? then 1 else 0
  {
    hide KafkaPythonInv, KafkaPythonView, KafkaPythonSend, KafkaPythonRegister, KafkaPythonLibrary, Next;
    if KafkaPythonSend(x, y) {
      KafkaPythonSendStep(x, y);
    } else if y == KafkaPythonRegister(x) {
      KafkaPythonRegisterStep(x, y);
    } else {
      KafkaPythonLibraryStep(x, y);
    }
  }

  lemma AiokafkaStep(x: Aiokafka, y: Aiokafka)
    requires AiokafkaInv(x) && !x.ackRaised && AiokafkaNext(x, y, false)
    ensures AiokafkaInv(y) && !y.ackRaised && Next(AiokafkaView(x), AiokafkaView(y))
    ensures |y.passed| == |x.passed| + if !AiokafkaView(x).Fired? && AiokafkaView(y).Fired? then 1 else 0
  {
  }

  /** Every adapter or library step is a contract step. */
  lemma StepKeepsContract(x: Call, y: Call)
    requires Inv(x) && Step(x, y)
    ensures Inv(y) && Next(View(x), View(y))
    ensures Fires(y) == Fires(x) + (if !View(x).Fired? && View(y).Fired? then 1 else 0)
  {
    hide Next, ConfluentInv, ConfluentNext, ConfluentView, KafkaPythonInv, KafkaPythonNext, KafkaPythonView,
      AiokafkaInv, AiokafkaNext, AiokafkaView;
    match x
    case ByConfluent(c) => ConfluentStep(c, y.c);
    case ByKafkaPython(k) => KafkaPythonStep(k, y.k);
    case ByAiokafka(a) => AiokafkaStep(a, y.a);
  }

  function Views(run: seq<Call>): (r: seq<Submission>)
    ensures |r| == |run| && forall i :: 0 <= i < |run| ==> r[i] == View(run[i])
  {
    seq(|run|, i requires 0 <= i < |run| => View(run[i]))
  }

  lemma {:induction false} RunKeepsContract(run: seq<Call>)
    requires IsCallRun(run)
    ensures IsRun(Views(run))
    ensures Inv(run[|run| - 1])
    ensures Fires(run[|run| - 1]) == Firings(Views(run))
  {
    var last := |run| - 1;
    if last != 0 {
      hide Step, Inv, View, Next, Init, Fires, Firings;
      assert Firings(Views(run)) == Firings(Views(run)[..last])
          + if !View(run[last - 1]).Fired? && View(run[last]).Fired? then 1 else 0 by {
        FiringsStep(Views(run));
      }
      RunKeepsContract(run[..last]);
      assert Views(run)[..last] == Views(run[..last]);
      StepKeepsContract(run[last - 1], run[last]);
      forall i | 0 <= i < last
        ensures Next(Views(run)[i], Views(run)[i + 1])
      {
        if i < last - 1 {
          assert Next(Views(run[..last])[i], Views(run[..last])[i + 1]);
        }
      }
    }
  }

  /**
   For every interleaving: `on_ack` fires at most once, never if the call raised, and exactly once as soon as
   the call has returned and the library is done with the message.
   */
  lemma CallbackExactlyOnce(run: seq<Call>)
    requires IsCallRun(run)
    ensures Fires(run[|run| - 1]) <= 1
    ensures forall i :: 0 <= i < |run| && HasRaised(run[i]) ==> Fires(run[|run| - 1]) == 0 && HasRaised(run[|run| - 1])
    ensures HasReturned(run[|run| - 1]) && LibraryDone(run[|run| - 1]) ==> Fires(run[|run| - 1]) == 1
  {
    RunKeepsContract(run);
    AtMostOnce(Views(run));
    forall i | 0 <= i < |run| && HasRaised(run[i])
      ensures Fires(run[|run| - 1]) == 0 && HasRaised(run[|run| - 1])
    {
      assert Views(run)[i].Refused?;
    }
  }

  /** Every `on_ack` of every adapter is given an error exactly if the library's verdict on the message was failure. */
  lemma OutcomePassedOn(run: seq<Call>)
    requires IsCallRun(run)
    ensures var x := run[|run| - 1];
            Passed(x) != [] ==> !Verdict(x).Pending? && forall f :: f in Passed(x) ==> f == Verdict(x).Failed?
  {
    hide Firings, Views, Step, Init;
    RunKeepsContract(run);
  }

  /** A run of one aiokafka call. */
  ghost predicate IsAiokafkaRun(run: seq<Aiokafka>, raising: bool) {
    && run != [] && run[0] == Aiokafka(Submit, Absent, Pending, [], false)
    && forall i :: 0 <= i < |run| - 1 ==> AiokafkaNext(run[i], run[i + 1], raising)
  }

  /** With an `on_ack` that may raise, aiokafka fires twice exactly when it raised on the success path. */
  lemma {:induction false} AiokafkaFiresTwiceIff(run: seq<Aiokafka>, raising: bool)
    requires IsAiokafkaRun(run, raising)
    ensures AiokafkaInv(run[|run| - 1])
    ensures run[|run| - 1].coroutine.Finished? ==> (|run[|run| - 1].passed| == 2 <==> run[|run| - 1].ackRaised)
    ensures run[|run| - 1].ackRaised ==> raising
  {
    if 1 < |run| {
      var front := run[..|run| - 1];
      AiokafkaFiresTwiceIff(front, raising);
      assert AiokafkaNext(front[|front| - 1], run[|run| - 1], raising);
    }
  }

  /** A raising `on_ack` does break the contract: a run that fires twice. */
  lemma AiokafkaCanFireTwice() returns (run: seq<Aiokafka>)
    ensures IsAiokafkaRun(run, true) && |run[|run| - 1].passed| == 2
  {
    run := [
      Aiokafka(Submit, Absent, Pending, [], false),
      Aiokafka(Scheduled, NotStarted, Pending, [], false),
      Aiokafka(Scheduled, Sending, Pending, [], false),
      Aiokafka(Scheduled, AckingSuccess, Succeeded, [], false),
      Aiokafka(Scheduled, AckingError, Succeeded, [false], true),
      Aiokafka(Scheduled, Finished, Succeeded, [false, true], true)];
  }

  /** aiokafka calls `on_ack` at most once in every run if and only if `on_ack` does not raise; never over twice. */
  lemma AiokafkaAtMostOnceIff(raising: bool)
    ensures (forall run: seq<Aiokafka> :: IsAiokafkaRun(run, raising) ==> |run[|run| - 1].passed| <= 1) <==> !raising
    ensures forall run: seq<Aiokafka> :: IsAiokafkaRun(run, raising) ==> |run[|run| - 1].passed| <= 2
  {
    forall run: seq<Aiokafka> | IsAiokafkaRun(run, raising)
      ensures |run[|run| - 1].passed| <= if raising then 2 else 1
    {
      AiokafkaFiresTwiceIff(run, raising);
    }
    if raising {
      var run := AiokafkaCanFireTwice();
    }
  }

  // ---- the adapter object itself

  /** What one call of librdkafka's `produce` does. */
  datatype Outcome = Enqueues | BufferFull | OtherError

  class ConfluentProducer {
    var bufferErrorCount: nat

    constructor ()
      ensures bufferErrorCount == 0
    {
      bufferErrorCount := 0;
    }

    /** The statements of `produce_async` in order; the ghost result is the run of Confluent they perform. */
    method ProduceAsync(first: Outcome, second: Outcome) returns (raised: bool, ghost run: seq<Call>)
      modifies this
      ensures bufferErrorCount == old(bufferErrorCount) + if first.BufferFull? then 1 else 0
      ensures raised <==> first.OtherError? || (first.BufferFull? && !second.Enqueues?)
      ensures IsCallRun(run)
      ensures run[|run| - 1] == ByConfluent(Confluent(if raised then Raised else Returned,
                                                      if raised then 0 else 1, Pending, [], bufferErrorCount))
    {
      ghost var x := Confluent(First, 0, Pending, [], bufferErrorCount);
      run := [ByConfluent(x)];
      var outcome := first;
      if outcome.BufferFull? {
        bufferErrorCount := bufferErrorCount + 1;
        x := x.(pc := PollForRoom, bufferErrors := x.bufferErrors + 1);
        run := run + [ByConfluent(x)];
        x := x.(pc := Second);
        run := run + [ByConfluent(x)];
        outcome := second;
      }
      raised := !outcome.Enqueues?;
      if raised {
        x := x.(pc := Raised);
        run := run + [ByConfluent(x)];
      } else {
        x := x.(pc := Accepted, queued := 1);
        run := run + [ByConfluent(x)];
        x := x.(pc := Returned);
        run := run + [ByConfluent(x)];
      }
    }
  }
}
