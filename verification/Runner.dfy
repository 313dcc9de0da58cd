/** The objects the threads of bench/runner.py share, and the closures that change them. */
module Runner {
  import opened Metrics
  import Protocol
  import Codec

  /** `_StartGate` */
  class StartGate {
    var startNs: int

    constructor ()
      ensures startNs == 0 && !IsOpen()
    {
      startNs := 0;
    }

    predicate IsOpen()
      reads this
    {
      startNs > 0
    }
  }

  /** `threading.Semaphore` */
  class Semaphore {
    var permits: nat

    constructor (permits: nat)
      ensures this.permits == permits
    {
      this.permits := permits;
    }

    /** Blocks without a permit; here, past the blocking. */
    method Acquire()
      requires 0 < permits
      modifies this
      ensures permits == old(permits) - 1
    {
      permits := permits - 1;
    }

    method Release()
      modifies this
      ensures permits == old(permits) + 1
    {
      permits := permits + 1;
    }
  }

  /** The callback made for one message: give the permit back, then count. */
  method OnAck(sem: Semaphore, metrics: LatencyMetrics, gate: StartGate, produceTs: int, latency: int, failed: bool)
    modifies sem, metrics
    ensures sem.permits == old(sem.permits) + 1
    ensures metrics.Value() == Protocol.AfterCallback(old(metrics.Value()), gate.startNs, produceTs, failed, latency)
  {
    sem.Release();
    if failed {
      metrics.errors := metrics.errors + 1;
      return;
    }
    if gate.IsOpen() && produceTs >= gate.startNs {
      metrics.RecordAck(latency);
    }
  }

  /** The consumer's `_on_msg`: an unreadable body is dropped, an early stamp ignored. */
  method OnMessage(metrics: LatencyMetrics, gate: StartGate, value: seq<Codec.Byte>, recv: int)
    modifies metrics
    ensures metrics.Value() ==
            if Codec.Parse(value).Ok? then
              Protocol.AfterMessage(old(metrics.Value()), gate.startNs, Codec.Parse(value).value.0, recv)
            else old(metrics.Value())
  {
    var parsed := Codec.Parse(value);
    if !parsed.Ok? {
      return;
    }
    var sendTs := parsed.value.0;
    if !gate.IsOpen() || sendTs < gate.startNs || sendTs <= 0 {
      return;
    }
    metrics.RecordE2e(recv - sendTs);
  }

  /**
   The loop body from the acquire on: stamp, count, submit; a raise gives the permit back and counts an error.
   `raises` is what the adapter does.
   */
  method SendOne(sem: Semaphore, metrics: LatencyMetrics, gate: StartGate,
                 message: Codec.Message, ts: int, raises: bool)
    requires 0 < sem.permits
    requires Codec.Fits(ts, 8) && 8 <= message.value.Length
    modifies sem, metrics, message.value
    ensures sem.permits == old(sem.permits) - if raises then 0 else 1
    ensures message.value[..] == Codec.Packed(old(message.value[..]), 0, ts, 8)
    ensures metrics.Value() ==
            var m := old(metrics.Value());
            m.(produced := m.produced + (if Protocol.GateAdmits(gate.startNs, ts) then 1 else 0),
               errors := m.errors + (if raises then 1 else 0))
  {
    sem.Acquire();
    var stamped := message.Stamp(ts);
    if gate.IsOpen() && ts >= gate.startNs {
      metrics.produced := metrics.produced + 1;
    }
    if raises {
      sem.Release();
      metrics.errors := metrics.errors + 1;
    }
  }

  /** The consumer's filter sees the stamp the producer wrote last, whatever the buffer held before. */
  lemma FilterSeesLastStamp(m: Counters, gate: int, seqNo: nat, filler: seq<Codec.Byte>,
                            stamps: seq<nat>, ts: nat, recv: int)
    requires Codec.Fits(seqNo, 4) && Codec.Fits(ts, 8)
    requires forall i :: 0 <= i < |stamps| ==> Codec.Fits(stamps[i], 8)
    ensures var value := Codec.Packed(Codec.StampAll(Codec.Body(seqNo, filler), stamps), 0, ts, 8);
            && Codec.Parse(value).Ok?
            && Protocol.AfterMessage(m, gate, Codec.Parse(value).value.0, recv)
               == Protocol.AfterMessage(m, gate, ts, recv)
  {
    var all := stamps + [ts];
    assert all[..|all| - 1] == stamps;
    Codec.RoundTrip(seqNo, filler, all);
  }
}
