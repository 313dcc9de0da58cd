/** The counters and histograms of bench/metrics.py. A histogram is the list of values recorded into it. */
module Metrics {
  import opened Sorting

  const HIGHEST_NS := 60_000_000_000

  datatype Counters = Counters(produced: nat, acked: nat, consumed: nat, errors: nat, ack: seq<int>, e2e: seq<int>)

  const ZERO := Counters(0, 0, 0, 0, [], [])

  function Clamp(latency: int): int { if latency < HIGHEST_NS then latency else HIGHEST_NS }

  predicate Positive(latency: int) { 0 < latency }

  /** `if latency_ns > 0: histogram.record_value(min(latency_ns, HIGHEST_NS))` */
  function Record(histogram: seq<int>, latency: int): seq<int> {
    if 0 < latency then histogram + [Clamp(latency)] else histogram
  }

  /** What a histogram gets from a list of latencies: the positive ones, clamped. */
  function Recordable(latencies: seq<int>): seq<int> { Map(Clamp, Filter(Positive, latencies)) }

  function AfterAck(m: Counters, latency: int): Counters {
    m.(acked := m.acked + 1, ack := Record(m.ack, latency))
  }

  function AfterE2e(m: Counters, latency: int): Counters {
    m.(consumed := m.consumed + 1, e2e := Record(m.e2e, latency))
  }

  /** A histogram holds recordable values only. */
  ghost predicate InRange(histogram: seq<int>) {
    forall i :: 0 <= i < |histogram| ==> 1 <= histogram[i] <= HIGHEST_NS
  }

  /** What one latency adds to a histogram: nothing, itself, or the ceiling of 60 s. */
  function Entry(latency: int): (r: seq<int>)
    ensures latency <= 0 ==> r == []
    ensures 1 <= latency <= 60_000_000_000 ==> r == [latency]
    ensures 60_000_000_000 < latency ==> r == [60_000_000_000]
  {
    Record([], latency)
  }

  class LatencyMetrics {
    var ack: seq<int>
    var endToEnd: seq<int>
    var produced: nat
    var acked: nat
    var consumed: nat
    var errors: nat

    ghost function Value(): Counters
      reads this
    {
      Counters(produced, acked, consumed, errors, ack, endToEnd)
    }

    constructor ()
      ensures Value() == ZERO
    {
      ack, endToEnd := [], [];
      produced, acked, consumed, errors := 0, 0, 0, 0;
    }

    method RecordAck(latency: int)
      modifies this
      ensures Value() == AfterAck(old(Value()), latency)
      ensures acked == old(acked) + 1 && ack == old(ack) + Entry(latency)
      ensures produced == old(produced) && consumed == old(consumed) && errors == old(errors)
      ensures endToEnd == old(endToEnd)
    {
      acked := acked + 1;
      if latency > 0 {
        ack := ack + [if latency < HIGHEST_NS then latency else HIGHEST_NS];
      }
    }

    method RecordE2e(latency: int)
      modifies this
      ensures Value() == AfterE2e(old(Value()), latency)
      ensures consumed == old(consumed) + 1 && endToEnd == old(endToEnd) + Entry(latency)
      ensures produced == old(produced) && acked == old(acked) && errors == old(errors)
      ensures ack == old(ack)
    {
      consumed := consumed + 1;
      if latency > 0 {
        endToEnd := endToEnd + [if latency < HIGHEST_NS then latency else HIGHEST_NS];
      }
    }
  }

  function AckAll(m: Counters, latencies: seq<int>): Counters {
    if latencies == [] then m
    else AfterAck(AckAll(m, latencies[..|latencies| - 1]), latencies[|latencies| - 1])
  }

  lemma RecordAsMap(histogram: seq<int>, latency: int)
    ensures Record(histogram, latency) == histogram + Recordable([latency])
    ensures InRange(histogram) ==> InRange(Record(histogram, latency))
  {
    if Positive(latency) {
      assert Filter(Positive, [latency]) == [latency] + Filter(Positive, []);
      assert Map(Clamp, [latency]) == [Clamp(latency)];
    } else {
      assert Filter(Positive, [latency]) == Filter(Positive, []);
    }
  }

  lemma RecordableConcat(a: seq<int>, b: seq<int>)
    ensures Recordable(a + b) == Recordable(a) + Recordable(b)
  {
    FilterConcat(Positive, a, b);
    MapConcat(Clamp, Filter(Positive, a), Filter(Positive, b));
  }

  /** Acks are counted one by one, but only positive latencies reach the histogram, clamped to its ceiling. */
  lemma {:induction false} AckAllRecords(m: Counters, latencies: seq<int>)
    ensures AckAll(m, latencies).acked == m.acked + |latencies|
    ensures AckAll(m, latencies).ack == m.ack + Recordable(latencies)
    ensures InRange(m.ack) ==> InRange(AckAll(m, latencies).ack)
  {
    if latencies == [] {
      assert Filter(Positive, latencies) == [];
    } else {
      hide Record, Recordable;
      var front, last := latencies[..|latencies| - 1], latencies[|latencies| - 1];
      AckAllRecords(m, front);
      assert latencies == front + [last];
      RecordAsMap(AckAll(m, front).ack, last);
      RecordableConcat(front, [last]);
    }
  }

  function E2eAll(m: Counters, latencies: seq<int>): Counters {
    if latencies == [] then m
    else AfterE2e(E2eAll(m, latencies[..|latencies| - 1]), latencies[|latencies| - 1])
  }

  lemma {:induction false} E2eAllRecords(m: Counters, latencies: seq<int>)
    ensures E2eAll(m, latencies).consumed == m.consumed + |latencies|
    ensures E2eAll(m, latencies).e2e == m.e2e + Recordable(latencies)
    ensures InRange(m.e2e) ==> InRange(E2eAll(m, latencies).e2e)
  {
    if latencies == [] {
      assert Filter(Positive, latencies) == [];
    } else {
      hide Record, Recordable;
      var front, last := latencies[..|latencies| - 1], latencies[|latencies| - 1];
      E2eAllRecords(m, front);
      assert latencies == front + [last];
      RecordAsMap(E2eAll(m, front).e2e, last);
      RecordableConcat(front, [last]);
    }
  }

  lemma RecordableOne(latency: int)
    ensures Recordable([latency]) == Entry(latency)
  {
    RecordAsMap([], latency);
  }

  /** Latencies on the scale are recorded as they are. */
  lemma {:induction false} RecordableAsTheyAre(latencies: seq<int>)
    requires forall i :: 0 <= i < |latencies| ==> 1 <= latencies[i] <= 60_000_000_000
    ensures Recordable(latencies) == latencies
  {
    if latencies == [] {
      assert Filter(Positive, latencies) == [];
    } else {
      hide Recordable;
      var front, last := latencies[..|latencies| - 1], latencies[|latencies| - 1];
      RecordableAsTheyAre(front);
      assert latencies == front + [last];
      RecordableConcat(front, [last]);
      RecordableOne(last);
    }
  }

  /** Acks and samples on the scale stand in their histograms with their own values, in order. */
  lemma LatenciesRecordedAsTheyAre(m: Counters, latencies: seq<int>)
    requires forall i :: 0 <= i < |latencies| ==> 1 <= latencies[i] <= 60_000_000_000
    ensures AckAll(m, latencies).ack == m.ack + latencies
    ensures E2eAll(m, latencies).e2e == m.e2e + latencies
  {
    AckAllRecords(m, latencies);
    E2eAllRecords(m, latencies);
    RecordableAsTheyAre(latencies);
  }
}
