/** The `consume_until` loops of the three consumer adapters. */
module Consumers {
  import opened Codec
  import opened Names
  import opened Sorting
  import opened Enumeration

  datatype Record = Record(key: Option<seq<Byte>>, value: Option<seq<Byte>>)

  /** `x or b""` */
  function OrEmpty(x: Option<seq<Byte>>): seq<Byte> { if x.Some? then x.value else [] }

  datatype Delivery = Delivery(key: seq<Byte>, value: seq<Byte>, recv: int)

  /**
   One pass through the loop: the clock reading against the deadline, the look at the stop flag, the poll's result
   with the reading after it, and the time the last callback returned.
   */
  datatype Round = Round(now: int, look: int, recv: int, done: int, records: seq<Record>)

  /** When the stop flag is set, if ever. */
  datatype Stop = Never | At(time: int)

  predicate Stopped(stop: Stop, time: int) { stop.At? && stop.time <= time }

  ghost predicate InTime(rounds: seq<Round>) {
    && (forall i :: 0 <= i < |rounds| ==> rounds[i].now <= rounds[i].look <= rounds[i].recv <= rounds[i].done)
    && (forall i, j :: 0 <= i < j < |rounds| ==> rounds[i].done <= rounds[j].now)
  }

  predicate Goes(deadline: int, stop: Stop, r: Round) { r.now < deadline && !Stopped(stop, r.look) }

  /** The loop makes its first n passes and is over, or the given rounds are. */
  ghost predicate Passes(deadline: int, stop: Stop, rounds: seq<Round>, n: nat) {
    && n <= |rounds|
    && (forall i :: 0 <= i < n ==> Goes(deadline, stop, rounds[i]))
    && (n < |rounds| ==> !Goes(deadline, stop, rounds[n]))
  }

  function DeliveryOf(recv: int): Record -> Delivery { (r: Record) => Delivery(OrEmpty(r.key), OrEmpty(r.value), recv) }

  function DeliveriesOf(r: Round): seq<Delivery> { Map(DeliveryOf(r.recv), r.records) }

  function Deliveries(rounds: seq<Round>): seq<Delivery> { Flat(DeliveriesOf, rounds) }

  /** The record stands at this place, with its key and value or empty bytes, and its poll's own reading. */
  predicate DeliveredAt(delivered: seq<Delivery>, place: nat, r: Record, recv: int) {
    && place < |delivered|
    && delivered[place].key == (if r.key.Some? then r.key.value else [])
    && delivered[place].value == (if r.value.Some? then r.value.value else [])
    && delivered[place].recv == recv
  }

  lemma DeliveredLater(before: seq<Delivery>, delivered: seq<Delivery>, place: nat, r: Record, recv: int)
    requires DeliveredAt(delivered, place, r, recv)
    ensures DeliveredAt(before + delivered, |before| + place, r, recv)
  {
  }

  // ---- confluent: one message, an error or nothing per poll

  datatype Polled = Nothing | Failed | Message(r: Record)

  datatype SinglePoll = SinglePoll(now: int, look: int, recv: int, done: int, polled: Polled)

  function FromSingle(p: SinglePoll): Round {
    Round(p.now, p.look, p.recv, p.done, if p.polled.Message? then [p.polled.r] else [])
  }

  /** How many of the polls returned a message. */
  function Messages(polls: seq<SinglePoll>): nat {
    if polls == [] then 0
    else Messages(polls[..|polls| - 1]) + if polls[|polls| - 1].polled.Message? then 1 else 0
  }

  lemma SingleDelivery(p: SinglePoll)
    ensures DeliveriesOf(FromSingle(p)) ==
            if p.polled.Message? then [Delivery(OrEmpty(p.polled.r.key), OrEmpty(p.polled.r.value), p.recv)] else []
  {
  }

  /** The messages of the first n polls, and nothing else, stand one after the other. */
  ghost predicate SinglesAt(delivered: seq<Delivery>, polls: seq<SinglePoll>, n: nat)
    requires n <= |polls|
  {
    && |delivered| == Messages(polls[..n])
    && forall i :: 0 <= i < n && polls[i].polled.Message? ==>
         DeliveredAt(delivered, Messages(polls[..i]), polls[i].polled.r, polls[i].recv)
  }

  lemma OneMoreSingle(before: seq<Delivery>, polls: seq<SinglePoll>, n: nat)
    requires n < |polls| && SinglesAt(before, polls, n)
    ensures SinglesAt(before + DeliveriesOf(FromSingle(polls[n])), polls, n + 1)
  {
    hide DeliveriesOf;
    SingleDelivery(polls[n]);
    assert polls[..n + 1][..n] == polls[..n];
    var after := before + DeliveriesOf(FromSingle(polls[n]));
    forall i | 0 <= i < n + 1 && polls[i].polled.Message?
      ensures DeliveredAt(after, Messages(polls[..i]), polls[i].polled.r, polls[i].recv)
    {
      if i < n {
        assert DeliveredAt(before, Messages(polls[..i]), polls[i].polled.r, polls[i].recv);
      }
    }
  }

  lemma NoSingles(polls: seq<SinglePoll>)
    ensures SinglesAt(Deliveries(Map(FromSingle, polls)[..0]), polls, 0)
  {
    FlatNone(DeliveriesOf, Map(FromSingle, polls));
    assert polls[..0] == [];
  }

  lemma SinglesStep(polls: seq<SinglePoll>, n: nat)
    requires n < |polls|
    ensures Deliveries(Map(FromSingle, polls)[..n + 1])
         == Deliveries(Map(FromSingle, polls)[..n]) + DeliveriesOf(FromSingle(polls[n]))
  {
    hide Flat;
    FlatStep(DeliveriesOf, Map(FromSingle, polls), n);
  }

  lemma {:induction false} SinglePlaces(polls: seq<SinglePoll>, n: nat)
    requires n <= |polls|
    ensures SinglesAt(Deliveries(Map(FromSingle, polls)[..n]), polls, n)
  {
    hide SinglesAt, DeliveriesOf, Deliveries, FromSingle, Map;
    if n != 0 {
      SinglePlaces(polls, n - 1);
      SinglesStep(polls, n - 1);
      OneMoreSingle(Deliveries(Map(FromSingle, polls)[..n - 1]), polls, n - 1);
    } else {
      NoSingles(polls);
    }
  }

  lemma SinglePasses(deadline: int, stop: Stop, polls: seq<SinglePoll>, n: nat)
    requires Passes(deadline, stop, Map(FromSingle, polls), n)
    ensures forall i :: 0 <= i < n ==> polls[i].now < deadline && (stop.Never? || polls[i].look < stop.time)
    ensures n < |polls| ==> deadline <= polls[n].now || (stop.At? && stop.time <= polls[n].look)
  {
    assert forall i :: 0 <= i < |polls| ==> Map(FromSingle, polls)[i] == FromSingle(polls[i]);
    forall i | 0 <= i < n
      ensures polls[i].now < deadline && (stop.Never? || polls[i].look < stop.time)
    {
      assert Goes(deadline, stop, Map(FromSingle, polls)[i]);
    }
  }

  method ConfluentConsumeUntil(deadline: int, stop: Stop, polls: seq<SinglePoll>)
    returns (delivered: seq<Delivery>, n: nat)
    ensures n <= |polls|
    ensures forall i :: 0 <= i < n ==> polls[i].now < deadline && (stop.Never? || polls[i].look < stop.time)
    ensures n < |polls| ==> deadline <= polls[n].now || (stop.At? && stop.time <= polls[n].look)
    ensures |delivered| == Messages(polls[..n])
    ensures forall i :: 0 <= i < n && polls[i].polled.Message? ==>
              DeliveredAt(delivered, Messages(polls[..i]), polls[i].polled.r, polls[i].recv)
    ensures Passes(deadline, stop, Map(FromSingle, polls), n)
    ensures delivered == Deliveries(Map(FromSingle, polls)[..n])
  {
    hide DeliveriesOf, OrEmpty, Flat, DeliveredAt, Messages;
    ghost var rounds := Map(FromSingle, polls);
    FlatNone(DeliveriesOf, rounds);
    delivered, n := [], 0;
    while n < |polls|
      invariant n <= |polls|
      invariant forall i :: 0 <= i < n ==> Goes(deadline, stop, rounds[i])
      invariant delivered == Deliveries(rounds[..n])
    {
      var p := polls[n];
      assert rounds[n] == FromSingle(p);
      if p.now >= deadline || Stopped(stop, p.look) {
        break;
      }
      FlatStep(DeliveriesOf, rounds, n);
      SingleDelivery(p);
      n := n + 1;
      if p.polled.Message? {
        delivered := delivered + [Delivery(OrEmpty(p.polled.r.key), OrEmpty(p.polled.r.value), p.recv)];
      }
    }
    SinglePlaces(polls, n);
    SinglePasses(deadline, stop, polls, n);
  }

  // ---- kafka-python and aiokafka: a dictionary of record lists per poll

  datatype BatchPoll = BatchPoll(now: int, look: int, recv: int, done: int, batch: seq<seq<Record>>)

  function Itself(records: seq<Record>): seq<Record> { records }

  function FromBatch(p: BatchPoll): Round { Round(p.now, p.look, p.recv, p.done, Flat(Itself, p.batch)) }

  /** The number of records in the lists of a poll. */
  function Size(batch: seq<seq<Record>>): nat {
    if batch == [] then 0 else Size(batch[..|batch| - 1]) + |batch[|batch| - 1]|
  }

  function Total(polls: seq<BatchPoll>): nat {
    if polls == [] then 0 else Total(polls[..|polls| - 1]) + Size(polls[|polls| - 1].batch)
  }

  /** Record k of list b stands at its place, counted from `start`. */
  predicate PlacedAt(delivered: seq<Delivery>, start: nat, batch: seq<seq<Record>>, b: nat, k: nat, recv: int) {
    b < |batch| && k < |batch[b]| ==> DeliveredAt(delivered, start + Size(batch[..b]) + k, batch[b][k], recv)
  }

  /** So does every record of every partition's list. */
  ghost predicate BatchAt(delivered: seq<Delivery>, start: nat, batch: seq<seq<Record>>, recv: int) {
    forall b: nat, k: nat {:trigger PlacedAt(delivered, start, batch, b, k, recv)} ::
      PlacedAt(delivered, start, batch, b, k, recv)
  }

  lemma BatchStays(delivered: seq<Delivery>, more: seq<Delivery>, start: nat, batch: seq<seq<Record>>, recv: int)
    requires BatchAt(delivered, start, batch, recv)
    ensures BatchAt(delivered + more, start, batch, recv)
  {
    forall b: nat, k: nat
      ensures PlacedAt(delivered + more, start, batch, b, k, recv)
    {
      assert PlacedAt(delivered, start, batch, b, k, recv);
    }
  }

  lemma BatchMoves(delivered: seq<Delivery>, more: seq<Delivery>, batch: seq<seq<Record>>, recv: int)
    requires BatchAt(more, 0, batch, recv)
    ensures BatchAt(delivered + more, |delivered|, batch, recv)
  {
    forall b: nat, k: nat
      ensures PlacedAt(delivered + more, |delivered|, batch, b, k, recv)
    {
      assert PlacedAt(more, 0, batch, b, k, recv);
      hide Size;
      if b < |batch| && k < |batch[b]| {
        DeliveredLater(delivered, more, 0 + Size(batch[..b]) + k, batch[b][k], recv);
      }
    }
  }

  lemma ListPlaces(start: seq<Delivery>, records: seq<Record>, recv: int)
    ensures |Map(DeliveryOf(recv), records)| == |records|
    ensures forall k :: 0 <= k < |records| ==>
              DeliveredAt(start + Map(DeliveryOf(recv), records), |start| + k, records[k], recv)
  {
  }

  lemma EarlierList(start: seq<Delivery>, delivered: seq<Delivery>, front: seq<seq<Record>>, last: seq<Record>,
                    b: nat, k: nat, recv: int)
    requires b < |front| && start <= delivered && PlacedAt(start, 0, front, b, k, recv)
    ensures PlacedAt(delivered, 0, front + [last], b, k, recv)
  {
    hide Size;
    assert (front + [last])[..b] == front[..b];
  }

  lemma LastList(start: seq<Delivery>, delivered: seq<Delivery>, front: seq<seq<Record>>, last: seq<Record>,
                 k: nat, recv: int)
    requires |start| == Size(front)
    requires k < |last| ==> DeliveredAt(delivered, |start| + k, last[k], recv)
    ensures PlacedAt(delivered, 0, front + [last], |front|, k, recv)
  {
    hide Size;
    assert (front + [last])[..|front|] == front;
  }

  lemma SizeLast(front: seq<seq<Record>>, last: seq<Record>)
    ensures Size(front + [last]) == Size(front) + |last|
  {
    assert (front + [last])[..|front|] == front;
  }

  lemma OneMoreList(start: seq<Delivery>, delivered: seq<Delivery>, front: seq<seq<Record>>,
                    last: seq<Record>, recv: int)
    requires |start| == Size(front) && BatchAt(start, 0, front, recv)
    requires start <= delivered && |delivered| == |start| + |last|
    requires forall k :: 0 <= k < |last| ==> DeliveredAt(delivered, |start| + k, last[k], recv)
    ensures |delivered| == Size(front + [last]) && BatchAt(delivered, 0, front + [last], recv)
  {
    hide Size, DeliveredAt;
    SizeLast(front, last);
    forall b: nat, k: nat
      ensures PlacedAt(delivered, 0, front + [last], b, k, recv)
    {
      if b < |front| {
        assert PlacedAt(start, 0, front, b, k, recv);
        hide PlacedAt;
        EarlierList(start, delivered, front, last, b, k, recv);
      } else if b == |front| {
        LastList(start, delivered, front, last, k, recv);
      }
    }
  }

  /** Partition after partition, every record of every list. */
  lemma {:induction false} BatchPlaces(batch: seq<seq<Record>>, recv: int)
    ensures var delivered := Map(DeliveryOf(recv), Flat(Itself, batch));
            |delivered| == Size(batch) && BatchAt(delivered, 0, batch, recv)
  {
    if batch != [] {
      var front, last := batch[..|batch| - 1], batch[|batch| - 1];
      BatchPlaces(front, recv);
      assert Flat(Itself, batch) == Flat(Itself, front) + last;
      assert batch == front + [last];
      hide Flat, BatchAt, DeliveredAt, Size;
      MapConcat(DeliveryOf(recv), Flat(Itself, front), last);
      var start := Map(DeliveryOf(recv), Flat(Itself, front));
      ListPlaces(start, last, recv);
      OneMoreList(start, start + Map(DeliveryOf(recv), last), front, last, recv);
    }
  }

  /** The records of the first n polls, and nothing else, stand poll after poll. */
  ghost predicate BatchesAt(delivered: seq<Delivery>, polls: seq<BatchPoll>, n: nat)
    requires n <= |polls|
  {
    && |delivered| == Total(polls[..n])
    && forall i :: 0 <= i < n ==> BatchAt(delivered, Total(polls[..i]), polls[i].batch, polls[i].recv)
  }

  lemma OneMoreBatch(before: seq<Delivery>, polls: seq<BatchPoll>, n: nat)
    requires n < |polls| && BatchesAt(before, polls, n)
    ensures BatchesAt(before + DeliveriesOf(FromBatch(polls[n])), polls, n + 1)
  {
    var p, more := polls[n], DeliveriesOf(FromBatch(polls[n]));
    BatchPlaces(p.batch, p.recv);
    hide DeliveriesOf, BatchAt, FromBatch;
    assert polls[..n + 1][..n] == polls[..n];
    forall i | 0 <= i < n + 1
      ensures BatchAt(before + more, Total(polls[..i]), polls[i].batch, polls[i].recv)
    {
      if i < n {
        BatchStays(before, more, Total(polls[..i]), polls[i].batch, polls[i].recv);
      } else {
        BatchMoves(before, more, p.batch, p.recv);
      }
    }
  }

  lemma NoBatches(polls: seq<BatchPoll>)
    ensures BatchesAt(Deliveries(Map(FromBatch, polls)[..0]), polls, 0)
  {
    FlatNone(DeliveriesOf, Map(FromBatch, polls));
    assert polls[..0] == [];
  }

  lemma BatchesStep(polls: seq<BatchPoll>, n: nat)
    requires n < |polls|
    ensures Deliveries(Map(FromBatch, polls)[..n + 1])
         == Deliveries(Map(FromBatch, polls)[..n]) + DeliveriesOf(FromBatch(polls[n]))
  {
    hide Flat, FromBatch;
    FlatStep(DeliveriesOf, Map(FromBatch, polls), n);
  }

  lemma {:induction false} PollPlaces(polls: seq<BatchPoll>, n: nat)
    requires n <= |polls|
    ensures BatchesAt(Deliveries(Map(FromBatch, polls)[..n]), polls, n)
  {
    hide BatchesAt, DeliveriesOf, Deliveries, FromBatch, Map;
    if n != 0 {
      PollPlaces(polls, n - 1);
      BatchesStep(polls, n - 1);
      OneMoreBatch(Deliveries(Map(FromBatch, polls)[..n - 1]), polls, n - 1);
    } else {
      NoBatches(polls);
    }
  }

  lemma BatchPasses(deadline: int, stop: Stop, polls: seq<BatchPoll>, n: nat)
    requires Passes(deadline, stop, Map(FromBatch, polls), n)
    ensures forall i :: 0 <= i < n ==> polls[i].now < deadline && (stop.Never? || polls[i].look < stop.time)
    ensures n < |polls| ==> deadline <= polls[n].now || (stop.At? && stop.time <= polls[n].look)
  {
    hide Flat;
    assert forall i :: 0 <= i < |polls| ==> Map(FromBatch, polls)[i] == FromBatch(polls[i]);
    forall i | 0 <= i < n
      ensures polls[i].now < deadline && (stop.Never? || polls[i].look < stop.time)
    {
      assert Goes(deadline, stop, Map(FromBatch, polls)[i]);
    }
  }

  method BatchConsumeUntil(deadline: int, stop: Stop, polls: seq<BatchPoll>) returns (delivered: seq<Delivery>, n: nat)
    ensures n <= |polls|
    ensures forall i :: 0 <= i < n ==> polls[i].now < deadline && (stop.Never? || polls[i].look < stop.time)
    ensures n < |polls| ==> deadline <= polls[n].now || (stop.At? && stop.time <= polls[n].look)
    ensures |delivered| == Total(polls[..n])
    ensures forall i :: 0 <= i < n ==> BatchAt(delivered, Total(polls[..i]), polls[i].batch, polls[i].recv)
    ensures Passes(deadline, stop, Map(FromBatch, polls), n)
    ensures delivered == Deliveries(Map(FromBatch, polls)[..n])
  {
    hide DeliveriesOf, Flat, BatchAt, Total;
    ghost var rounds := Map(FromBatch, polls);
    FlatNone(DeliveriesOf, rounds);
    delivered, n := [], 0;
    while n < |polls|
      invariant n <= |polls|
      invariant forall i :: 0 <= i < n ==> Goes(deadline, stop, rounds[i])
      invariant delivered == Deliveries(rounds[..n])
    {
      var p := polls[n];
      assert rounds[n] == FromBatch(p);
      if p.now >= deadline || Stopped(stop, p.look) {
        break;
      }
      var more := DeliverBatch(p.batch, p.recv);
      BatchDeliveries(p, more);
      FlatStep(DeliveriesOf, rounds, n);
      delivered := delivered + more;
      n := n + 1;
    }
    PollPlaces(polls, n);
    BatchPasses(deadline, stop, polls, n);
  }

  lemma BatchDeliveries(p: BatchPoll, more: seq<Delivery>)
    requires more == Map(DeliveryOf(p.recv), Flat(Itself, p.batch))
    ensures more == DeliveriesOf(FromBatch(p))
  {
  }

  /** `for records in batch.values(): for r in records: on_message(…)` */
  method DeliverBatch(batch: seq<seq<Record>>, recv: int) returns (delivered: seq<Delivery>)
    ensures |delivered| == Size(batch) && BatchAt(delivered, 0, batch, recv)
    ensures delivered == Map(DeliveryOf(recv), Flat(Itself, batch))
  {
    hide Flat, BatchAt, Size;
    delivered := [];
    ghost var seen: seq<Record> := [];
    FlatNone(Itself, batch);
    for i := 0 to |batch|
      invariant seen == Flat(Itself, batch[..i])
      invariant delivered == Map(DeliveryOf(recv), seen)
    {
      var records := batch[i];
      ghost var before := seen;
      for j := 0 to |records|
        invariant seen == before + records[..j]
        invariant delivered == Map(DeliveryOf(recv), seen)
      {
        MapConcat(DeliveryOf(recv), seen, [records[j]]);
        delivered := delivered + [Delivery(OrEmpty(records[j].key), OrEmpty(records[j].value), recv)];
        seen := seen + [records[j]];
      }
      assert records[..|records|] == records;
      FlatStep(Itself, batch, i);
    }
    assert batch[..|batch|] == batch;
    BatchPlaces(batch, recv);
  }

  // ---- one stream

  datatype Content = Content(key: seq<Byte>, value: seq<Byte>)

  function ContentOfRecord(r: Record): Content { Content(OrEmpty(r.key), OrEmpty(r.value)) }

  function ContentOfDelivery(d: Delivery): Content { Content(d.key, d.value) }

  function RecordsOf(r: Round): seq<Record> { r.records }

  /** All polled records in order. */
  function Stream(rounds: seq<Round>): seq<Record> { Flat(RecordsOf, rounds) }

  /** The callbacks see the polled stream: every record once, none invented, in order. */
  lemma {:induction false} DeliveriesAreTheStream(rounds: seq<Round>)
    ensures Map(ContentOfDelivery, Deliveries(rounds)) == Map(ContentOfRecord, Stream(rounds))
  {
    if rounds != [] {
      var front, last := rounds[..|rounds| - 1], rounds[|rounds| - 1];
      DeliveriesAreTheStream(front);
      MapConcat(ContentOfDelivery, Deliveries(front), DeliveriesOf(last));
      MapConcat(ContentOfRecord, Stream(front), last.records);
      assert Map(ContentOfDelivery, DeliveriesOf(last)) == Map(ContentOfRecord, last.records);
    }
  }

  /** Receive times never decrease. */
  lemma {:induction false} ReceiveTimesOrdered(rounds: seq<Round>)
    requires InTime(rounds)
    ensures var ds := Deliveries(rounds);
            && (forall i, j :: 0 <= i < j < |ds| ==> ds[i].recv <= ds[j].recv)
            && (forall i :: 0 <= i < |ds| ==> ds[i].recv <= rounds[|rounds| - 1].recv)
  {
    if rounds != [] {
      var n := |rounds| - 1;
      var front, last := rounds[..n], rounds[n];
      ReceiveTimesOrdered(front);
      var before, new_ := Deliveries(front), DeliveriesOf(last);
      assert forall i :: 0 <= i < |new_| ==> new_[i].recv == last.recv;
      if n != 0 {
        assert rounds[n - 1].recv <= last.recv;
      }
    }
  }

  /** Only the last pass can still be delivering when the stop flag is set, or past it. */
  lemma OnePollAfterStop(deadline: int, stop: Stop, rounds: seq<Round>, n: nat)
    requires InTime(rounds) && Passes(deadline, stop, rounds, n)
    ensures forall i :: 0 <= i < n - 1 ==> !Stopped(stop, rounds[i].done)
  {
    forall i | 0 <= i < n - 1
      ensures !Stopped(stop, rounds[i].done)
    {
      assert Goes(deadline, stop, rounds[i + 1]);
    }
  }
}
