/** The polling loops inside the run: the passes of a loop are the consumer's steps of a schedule. */
module ConsumerRuns {
  import opened Metrics
  import opened Sorting
  import opened Consumers
  import Codec
  import P = Protocol
  import opened Invariants
  import opened Schedules

  /** What the broker hands out for each message. */
  type Bodies = nat -> Record

  /** A body carries its message's stamp. */
  predicate Carries(r: Record, ts: int) {
    Codec.Parse(OrEmpty(r.value)).Ok? && Codec.Parse(OrEmpty(r.value)).value.0 == ts
  }

  ghost predicate Faithful(body: Bodies, msgs: seq<P.Msg>) {
    forall i :: 0 <= i < |msgs| ==> Carries(body(i), msgs[i].ts)
  }

  /** `_on_msg` on one delivery. */
  function AfterDelivery(m: Counters, gate: int, d: Delivery): Counters {
    if Codec.Parse(d.value).Ok? then P.AfterMessage(m, gate, Codec.Parse(d.value).value.0, d.recv) else m
  }

  function Received(m: Counters, gate: int, ds: seq<Delivery>): Counters {
    if ds == [] then m else AfterDelivery(Received(m, gate, ds[..|ds| - 1]), gate, ds[|ds| - 1])
  }

  lemma {:induction false} ReceivedConcat(m: Counters, gate: int, a: seq<Delivery>, b: seq<Delivery>)
    ensures Received(m, gate, a + b) == Received(Received(m, gate, a), gate, b)
  {
    if b == [] {
      assert a + b == a;
    } else {
      assert (a + b)[..|a + b| - 1] == a + b[..|b| - 1];
      ReceivedConcat(m, gate, a, b[..|b| - 1]);
    }
  }

  lemma ReceivedOne(m: Counters, gate: int, d: Delivery)
    ensures Received(m, gate, [d]) == AfterDelivery(m, gate, d)
  {
    assert [d][..0] == [];
  }

  /** The consumer's part of the state apart from its position. */
  predicate ConsumedTo(s: P.State, t: P.State, clock: int, consumer: P.Consumer) {
    t == s.(clock := clock, consumer := consumer, counters := s.counters.(record := t.counters.record),
            recorded := t.recorded, receipts := t.receipts)
  }

  // ---- from the loop to the run

  lemma DeliverOne(c: P.Config, s: P.State, body: Bodies) returns (t: P.State)
    requires P.Enabled(c, s, P.ConsumerDeliver)
    requires Carries(body(s.log[s.consumer.pos]), s.msgs[s.log[s.consumer.pos]].ts)
    ensures Leads(c, s, [P.ConsumerDeliver], t)
    ensures ConsumedTo(s, t, s.clock, s.consumer.(pos := s.consumer.pos + 1))
    ensures t.counters.record
         == AfterDelivery(s.counters.record, s.gate, DeliveryOf(s.consumer.recv)(body(s.log[s.consumer.pos])))
  {
    hide P.AfterMessage, Codec.Parse;
    t := P.Apply(c, s, P.ConsumerDeliver);
    Single(c, s, P.ConsumerDeliver);
  }

  /** The deliveries of a batch from position pos on. */
  function BatchFrom(body: Bodies, log: seq<nat>, pos: nat, end: nat, recv: int): seq<Delivery>
    requires pos <= end <= |log|
  {
    Map(DeliveryOf(recv), Map(body, log[pos..end]))
  }

  lemma BatchSplits(body: Bodies, log: seq<nat>, pos: nat, end: nat, recv: int)
    requires pos < end <= |log|
    ensures BatchFrom(body, log, pos, end, recv)
         == [DeliveryOf(recv)(body(log[pos]))] + BatchFrom(body, log, pos + 1, end, recv)
  {
    assert log[pos..end] == [log[pos]] + log[pos + 1..end];
    MapCons(body, log[pos], log[pos + 1..end]);
    MapCons(DeliveryOf(recv), body(log[pos]), Map(body, log[pos + 1..end]));
  }

  lemma ReceivedBatch(m: Counters, gate: int, body: Bodies, log: seq<nat>, pos: nat, end: nat, recv: int)
    requires pos < end <= |log|
    ensures Received(m, gate, BatchFrom(body, log, pos, end, recv))
         == Received(AfterDelivery(m, gate, DeliveryOf(recv)(body(log[pos]))), gate,
                     BatchFrom(body, log, pos + 1, end, recv))
  {
    hide BatchFrom, AfterDelivery, Received;
    var d := DeliveryOf(recv)(body(log[pos]));
    BatchSplits(body, log, pos, end, recv);
    ReceivedConcat(m, gate, [d], BatchFrom(body, log, pos + 1, end, recv));
    ReceivedOne(m, gate, d);
  }

  lemma CanDeliver(c: P.Config, s: P.State, body: Bodies)
    requires LogTaken(s) && Faithful(body, s.msgs) && s.consumer.Delivering? && s.consumer.pos < s.consumer.end
    ensures P.Enabled(c, s, P.ConsumerDeliver)
    ensures Carries(body(s.log[s.consumer.pos]), s.msgs[s.log[s.consumer.pos]].ts)
  {
  }

  lemma ConsumedKeepsLog(s: P.State, t: P.State, clock: int, consumer: P.Consumer)
    requires LogTaken(s) && ConsumedTo(s, t, clock, consumer)
    requires consumer.pos <= |s.log| && (consumer.Delivering? ==> consumer.pos <= consumer.end <= |s.log|)
    ensures LogTaken(t)
  {
  }

  lemma ConsumedOnwards(s: P.State, t: P.State, u: P.State, x: int, a: P.Consumer, y: int, b: P.Consumer)
    requires ConsumedTo(s, t, x, a) && ConsumedTo(t, u, y, b)
    ensures ConsumedTo(s, u, y, b)
  {
  }

  /** The schedule delivers the rest of a batch, up to state t. */
  ghost predicate DeliversRest(c: P.Config, s: P.State, body: Bodies, steps: seq<P.Step>, t: P.State)
    requires s.consumer.Delivering? && s.consumer.pos <= s.consumer.end <= |s.log|
  {
    && Leads(c, s, steps, t)
    && ConsumedTo(s, t, s.clock, s.consumer.(pos := s.consumer.end))
    && t.counters.record == Received(s.counters.record, s.gate,
         BatchFrom(body, s.log, s.consumer.pos, s.consumer.end, s.consumer.recv))
  }

  lemma NothingRest(c: P.Config, s: P.State, body: Bodies)
    requires s.consumer.Delivering? && s.consumer.pos == s.consumer.end <= |s.log|
    ensures DeliversRest(c, s, body, [], s)
  {
  }

  /** One delivery, and the consumer is still in the batch. */
  lemma FirstOfRest(c: P.Config, s: P.State, body: Bodies) returns (t: P.State)
    requires LogTaken(s) && Faithful(body, s.msgs)
    requires s.consumer.Delivering? && s.consumer.pos < s.consumer.end <= |s.log|
    ensures Leads(c, s, [P.ConsumerDeliver], t)
    ensures ConsumedTo(s, t, s.clock, s.consumer.(pos := s.consumer.pos + 1))
    ensures t.counters.record
         == AfterDelivery(s.counters.record, s.gate, DeliveryOf(s.consumer.recv)(body(s.log[s.consumer.pos])))
    ensures LogTaken(t) && Faithful(body, t.msgs) && t.consumer == s.consumer.(pos := s.consumer.pos + 1)
    ensures t.log == s.log && t.clock == s.clock && t.gate == s.gate
  {
    CanDeliver(c, s, body);
    hide Leads, AfterDelivery, P.Apply, P.Enabled, Faithful, Carries, LogTaken;
    t := DeliverOne(c, s, body);
    ConsumedKeepsLog(s, t, s.clock, s.consumer.(pos := s.consumer.pos + 1));
  }

  lemma RestAfterFirst(c: P.Config, s: P.State, body: Bodies, s1: P.State, more: seq<P.Step>, t: P.State)
    requires s.consumer.Delivering? && s.consumer.pos < s.consumer.end <= |s.log|
    requires Leads(c, s, [P.ConsumerDeliver], s1)
    requires ConsumedTo(s, s1, s.clock, s.consumer.(pos := s.consumer.pos + 1))
    requires s1.counters.record
          == AfterDelivery(s.counters.record, s.gate, DeliveryOf(s.consumer.recv)(body(s.log[s.consumer.pos])))
    requires s1.consumer == s.consumer.(pos := s.consumer.pos + 1)
    requires s1.log == s.log && s1.clock == s.clock && s1.gate == s.gate
    requires DeliversRest(c, s1, body, more, t)
    ensures DeliversRest(c, s, body, [P.ConsumerDeliver] + more, t)
  {
    hide Leads, AfterDelivery, Received, BatchFrom, ConsumedTo;
    var pos, end := s.consumer.pos, s.consumer.end;
    ConsumedOnwards(s, s1, t, s.clock, s1.consumer, s.clock, s.consumer.(pos := end));
    Then(c, s, [P.ConsumerDeliver], s1, more, t);
    ReceivedBatch(s.counters.record, s.gate, body, s.log, pos, end, s.consumer.recv);
  }

  /** The rest of a batch. */
  lemma {:induction false} DeliverRest(c: P.Config, s: P.State, body: Bodies) returns (steps: seq<P.Step>, t: P.State)
    requires LogTaken(s) && Faithful(body, s.msgs)
    requires s.consumer.Delivering? && s.consumer.pos <= s.consumer.end <= |s.log|
    ensures DeliversRest(c, s, body, steps, t)
    decreases s.consumer.end - s.consumer.pos
  {
    if s.consumer.pos == s.consumer.end {
      NothingRest(c, s, body);
      steps, t := [], s;
    } else {
      hide DeliversRest, Leads, ConsumedTo, AfterDelivery, LogTaken, Faithful;
      var s1 := FirstOfRest(c, s, body);
      var more, s2 := DeliverRest(c, s1, body);
      RestAfterFirst(c, s, body, s1, more, s2);
      steps, t := [P.ConsumerDeliver] + more, s2;
    }
  }

  lemma MapCons<A, B>(f: A -> B, x: A, rest: seq<A>)
    ensures Map(f, [x] + rest) == [f(x)] + Map(f, rest)
  {
  }

  /** A clock reading no earlier than x, and later on a strict clock. */
  predicate Next(c: P.Config, x: int, y: int) { if c.strictClock then x < y else x <= y }

  lemma Polled(c: P.Config, s: P.State, now: int, k: nat, recv: int) returns (t: P.State)
    requires s.consumer.Top? && !s.stop && now < P.ConsumerDeadline(c) && s.consumer.pos + k <= |s.log|
    requires Next(c, s.clock, now) && Next(c, now, recv)
    ensures Leads(c, s, [P.ConsumerCheck(now)] + [P.ConsumerPoll(k, recv)], t)
    ensures t == s.(clock := recv, consumer := P.Delivering(s.consumer.pos, s.consumer.pos + k, recv))
  {
    var s1 := P.Apply(c, s, P.ConsumerCheck(now));
    t := P.Apply(c, s1, P.ConsumerPoll(k, recv));
    Single(c, s, P.ConsumerCheck(now));
    Snoc(c, s, [P.ConsumerCheck(now)], s1, P.ConsumerPoll(k, recv));
  }

  lemma Looped(c: P.Config, s: P.State) returns (t: P.State)
    requires s.consumer.Delivering? && s.consumer.pos == s.consumer.end
    ensures Leads(c, s, [P.ConsumerLoop], t) && t == s.(consumer := P.Top(s.consumer.pos))
  {
    t := P.Apply(c, s, P.ConsumerLoop);
    Single(c, s, P.ConsumerLoop);
  }

  /** One pass of a loop, from check to check. */
  lemma PassFollowed(c: P.Config, s: P.State, body: Bodies, r: Round) returns (steps: seq<P.Step>, t: P.State)
    requires LogTaken(s) && Faithful(body, s.msgs) && s.consumer.Top? && !s.stop
    requires Next(c, s.clock, r.now) && Next(c, r.now, r.recv) && r.now < P.ConsumerDeadline(c)
    requires s.consumer.pos + |r.records| <= |s.log|
    requires r.records == Map(body, s.log[s.consumer.pos..s.consumer.pos + |r.records|])
    ensures Leads(c, s, steps, t)
    ensures ConsumedTo(s, t, r.recv, P.Top(s.consumer.pos + |r.records|))
    ensures t.counters.record == Received(s.counters.record, s.gate, DeliveriesOf(r))
  {
    hide Leads, Received, Map, Faithful;
    var s1 := Polled(c, s, r.now, |r.records|, r.recv);
    var more, s2 := DeliverRest(c, s1, body);
    t := Looped(c, s2);
    steps := [P.ConsumerCheck(r.now)] + [P.ConsumerPoll(|r.records|, r.recv)] + more;
    Then(c, s, [P.ConsumerCheck(r.now)] + [P.ConsumerPoll(|r.records|, r.recv)], s1, more, s2);
    Then(c, s, steps, s2, [P.ConsumerLoop], t);
    steps := steps + [P.ConsumerLoop];
  }

  /** Readings that the run's clock can give. */
  ghost predicate Timely(c: P.Config, clock: int, rounds: seq<Round>) {
    && (forall i :: 0 <= i < |rounds| ==> Next(c, rounds[i].now, rounds[i].recv))
    && (rounds != [] ==> Next(c, clock, rounds[0].now))
    && (forall i :: 0 <= i < |rounds| - 1 ==> Next(c, rounds[i].recv, rounds[i + 1].now))
  }

  lemma TimelyPrefix(c: P.Config, clock: int, rounds: seq<Round>, n: nat)
    requires Timely(c, clock, rounds) && n <= |rounds|
    ensures Timely(c, clock, rounds[..n])
    ensures n < |rounds| ==> Next(c, LastReading(clock, rounds[..n]), rounds[n].now)
  {
    var front := rounds[..n];
    forall i | 0 <= i < |front| - 1
      ensures Next(c, front[i].recv, front[i + 1].now)
    {
      assert Next(c, rounds[i].recv, rounds[i + 1].now);
    }
    if 0 < n < |rounds| {
      assert Next(c, rounds[n - 1].recv, rounds[n - 1 + 1].now);
    }
  }

  function LastReading(clock: int, rounds: seq<Round>): int {
    if rounds == [] then clock else rounds[|rounds| - 1].recv
  }

  lemma StreamStep(rounds: seq<Round>)
    requires rounds != []
    ensures var n := |rounds| - 1;
            && Stream(rounds) == Stream(rounds[..n]) + rounds[n].records
            && Deliveries(rounds) == Deliveries(rounds[..n]) + DeliveriesOf(rounds[n])
  {
  }

  /** The polls return the log in order from position pos on. */
  predicate Polls(body: Bodies, log: seq<nat>, pos: nat, rounds: seq<Round>) {
    pos + |Stream(rounds)| <= |log| && Stream(rounds) == Map(body, log[pos..pos + |Stream(rounds)|])
  }

  lemma PollsSplit(body: Bodies, log: seq<nat>, pos: nat, rounds: seq<Round>)
    requires rounds != [] && Polls(body, log, pos, rounds)
    ensures var n := |rounds| - 1; var mid := pos + |Stream(rounds[..n])|;
            && Polls(body, log, pos, rounds[..n])
            && mid + |rounds[n].records| == pos + |Stream(rounds)| <= |log|
            && rounds[n].records == Map(body, log[mid..mid + |rounds[n].records|])
  {
    hide Map;
    var n := |rounds| - 1;
    var front, last := rounds[..n], rounds[n];
    StreamStep(rounds);
    hide Stream;
    var mid := pos + |Stream(front)|;
    MapSlice(body, log, pos, mid, mid + |last.records|);
    assert Stream(front) == Stream(rounds)[..|Stream(front)|];
    assert last.records == Stream(rounds)[|Stream(front)|..];
  }

  lemma ReceivedStep(m: Counters, gate: int, rounds: seq<Round>)
    requires rounds != []
    ensures Received(m, gate, Deliveries(rounds))
         == Received(Received(m, gate, Deliveries(rounds[..|rounds| - 1])), gate, DeliveriesOf(rounds[|rounds| - 1]))
  {
    StreamStep(rounds);
    ReceivedConcat(m, gate, Deliveries(rounds[..|rounds| - 1]), DeliveriesOf(rounds[|rounds| - 1]));
  }

  /** The consumer is at its check, and every check of the passes succeeds. */
  ghost predicate AllGo(c: P.Config, s: P.State, body: Bodies, rounds: seq<Round>) {
    && LogTaken(s) && Faithful(body, s.msgs) && s.consumer.Top?
    && forall i :: 0 <= i < |rounds| ==> !s.stop && rounds[i].now < P.ConsumerDeadline(c)
  }

  lemma AllGoPrefix(c: P.Config, s: P.State, body: Bodies, rounds: seq<Round>, n: nat)
    requires AllGo(c, s, body, rounds) && n <= |rounds|
    ensures AllGo(c, s, body, rounds[..n])
  {
    hide LogTaken, Faithful;
    forall i | 0 <= i < n
      ensures !s.stop && rounds[..n][i].now < P.ConsumerDeadline(c)
    {
      assert rounds[..n][i] == rounds[i];
    }
  }

  /** After the passes before it, the last one can be made. */
  lemma LastGoes(c: P.Config, s: P.State, t: P.State, body: Bodies, rounds: seq<Round>, clock: int, pos: nat)
    requires rounds != [] && AllGo(c, s, body, rounds) && ConsumedTo(s, t, clock, P.Top(pos)) && pos <= |s.log|
    ensures LogTaken(t) && Faithful(body, t.msgs) && t.consumer == P.Top(pos) && !t.stop
    ensures t.log == s.log && t.clock == clock && t.gate == s.gate
    ensures rounds[|rounds| - 1].now < P.ConsumerDeadline(c)
  {
    ConsumedKeepsLog(s, t, clock, P.Top(pos));
  }

  /** The schedule makes the passes, up to state t. */
  ghost predicate Follows(c: P.Config, s: P.State, rounds: seq<Round>, steps: seq<P.Step>, t: P.State) {
    && Leads(c, s, steps, t)
    && ConsumedTo(s, t, LastReading(s.clock, rounds), P.Top(s.consumer.pos + |Stream(rounds)|))
    && t.counters.record == Received(s.counters.record, s.gate, Deliveries(rounds))
  }

  lemma NoPasses(c: P.Config, s: P.State)
    requires s.consumer.Top?
    ensures Follows(c, s, [], [], s)
  {
  }

  lemma OneMorePass(c: P.Config, s: P.State, body: Bodies, rounds: seq<Round>, before: seq<P.Step>, s1: P.State)
    returns (steps: seq<P.Step>, t: P.State)
    requires rounds != [] && AllGo(c, s, body, rounds) && Polls(body, s.log, s.consumer.pos, rounds)
    requires Follows(c, s, rounds[..|rounds| - 1], before, s1)
    requires var last := rounds[|rounds| - 1];
             Next(c, last.now, last.recv) && Next(c, LastReading(s.clock, rounds[..|rounds| - 1]), last.now)
    ensures Follows(c, s, rounds, steps, t)
  {
    hide Leads, Received, Map, Polls, Stream, Deliveries, LogTaken, Faithful, Next, AllGo, ConsumedTo;
    var n, pos := |rounds| - 1, s.consumer.pos;
    var clock, mid := LastReading(s.clock, rounds[..n]), pos + |Stream(rounds[..n])|;
    PollsSplit(body, s.log, pos, rounds);
    LastGoes(c, s, s1, body, rounds, clock, mid);
    var more, s2 := PassFollowed(c, s1, body, rounds[n]);
    ConsumedOnwards(s, s1, s2, clock, P.Top(mid), rounds[n].recv, P.Top(pos + |Stream(rounds)|));
    Then(c, s, before, s1, more, s2);
    steps, t := before + more, s2;
    ReceivedStep(s.counters.record, s.gate, rounds);
  }

  /**
   The passes of a loop, from any state in which the consumer is at its check: if each would be made by the deadline
   and the polls return the log in order, they are steps of the run, and leave in the counters what `_on_msg` makes
   of their deliveries.
   */
  lemma {:induction false} PassesFollowed(c: P.Config, s: P.State, body: Bodies, rounds: seq<Round>)
    returns (steps: seq<P.Step>, t: P.State)
    requires AllGo(c, s, body, rounds) && Timely(c, s.clock, rounds)
    requires Polls(body, s.log, s.consumer.pos, rounds)
    ensures Follows(c, s, rounds, steps, t)
  {
    if rounds == [] {
      NoPasses(c, s);
      steps, t := [], s;
    } else {
      var n := |rounds| - 1;
      assert Next(c, rounds[n].now, rounds[n].recv);
      hide Follows, Polls, Timely, AllGo, Next;
      PollsSplit(body, s.log, s.consumer.pos, rounds);
      TimelyPrefix(c, s.clock, rounds, n);
      AllGoPrefix(c, s, body, rounds, n);
      var before, s1 := PassesFollowed(c, s, body, rounds[..n]);
      steps, t := OneMorePass(c, s, body, rounds, before, s1);
    }
  }

  lemma MapSlice<A, B>(f: A -> B, s: seq<A>, i: nat, j: nat, k: nat)
    requires i <= j <= k <= |s|
    ensures Map(f, s[i..k])[..j - i] == Map(f, s[i..j])
    ensures Map(f, s[i..k])[j - i..] == Map(f, s[j..k])
  {
  }

  /**
   So every behaviour of a polling loop is one of the run's consumer: it makes the same passes, and leaves where the
   loop leaves, at its deadline or because of the stop flag.
   */
  lemma LoopFollowed(c: P.Config, s: P.State, body: Bodies, stop: Stop, rounds: seq<Round>, n: nat)
    returns (steps: seq<P.Step>, t: P.State)
    requires Inv(c, s) && Faithful(body, s.msgs) && s.consumer.Top?
    requires stop == (if s.stop then At(s.clock) else Never)
    requires InTime(rounds) && Timely(c, s.clock, rounds) && Passes(P.ConsumerDeadline(c), stop, rounds, n)
    requires Polls(body, s.log, s.consumer.pos, rounds[..n])
    ensures Follows(c, s, rounds[..n], steps, t)
    ensures n < |rounds| ==> P.Enabled(c, t, P.ConsumerExit(rounds[n].now))
  {
    hide Leads, Received, Map;
    LooksAfterClock(c, s.clock, rounds);
    forall i | 0 <= i < n
      ensures !s.stop && rounds[i].now < P.ConsumerDeadline(c)
    {
      assert Goes(P.ConsumerDeadline(c), stop, rounds[i]);
    }
    TimelyPrefix(c, s.clock, rounds, n);
    steps, t := PassesFollowed(c, s, body, rounds[..n]);
  }

  lemma {:induction false} LooksAfterClock(c: P.Config, clock: int, rounds: seq<Round>)
    requires InTime(rounds) && Timely(c, clock, rounds)
    ensures forall i :: 0 <= i < |rounds| ==> clock <= rounds[i].look && clock <= rounds[i].recv
  {
    if rounds != [] {
      var n := |rounds| - 1;
      TimelyPrefix(c, clock, rounds, n);
      LooksAfterClock(c, clock, rounds[..n]);
      assert n != 0 ==> clock <= rounds[..n][n - 1].recv;
      assert clock <= rounds[n].now;
    }
  }
}
