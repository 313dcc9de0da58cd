/** The other direction: in every run, however its threads interleave, the consumer is a polling loop. */
module ConsumerTraces {
  import opened Metrics
  import opened Sorting
  import opened Consumers
  import opened ConsumerRuns
  import P = Protocol
  import opened Invariants

  /** The passes so far after one more step. */
  function Track(c: P.Config, s: P.State, body: Bodies, rounds: seq<Round>, step: P.Step): seq<Round>
    requires P.Enabled(c, s, step)
  {
    match step
    case ConsumerCheck(t) => rounds + [Round(t, t, t, t, [])]
    case ConsumerPoll(k, t) =>
      if rounds == [] then []
      else
        var polled := Map(body, s.log[s.consumer.pos..s.consumer.pos + k]);
        rounds[..|rounds| - 1] + [rounds[|rounds| - 1].(recv := t, done := t, records := polled)]
    case ConsumerLoop =>
      if rounds == [] then [] else rounds[|rounds| - 1 := rounds[|rounds| - 1].(done := s.clock)]
    case _ => rounds
  }

  function TrackAll(c: P.Config, s: P.State, body: Bodies, rounds: seq<Round>, steps: seq<P.Step>): seq<Round>
    requires P.ValidFrom(c, s, steps)
    decreases |steps|
  {
    if steps == [] then rounds
    else TrackAll(c, P.Apply(c, s, steps[0]), body, Track(c, s, body, rounds, steps[0]), steps[1..])
  }

  /** How far into the log the polls have come. */
  function Ahead(consumer: P.Consumer): nat { if consumer.Delivering? then consumer.end else consumer.pos }

  /** The readings of a pass are in order and the check was in time. */
  predicate InOrder(c: P.Config, r: Round) {
    r.now <= r.look <= r.recv <= r.done && r.now < P.ConsumerDeadline(c)
  }

  predicate EndsBy(c: P.Config, rounds: seq<Round>, clock: int) {
    forall i :: 0 <= i < |rounds| ==> InOrder(c, rounds[i]) && rounds[i].done <= clock
  }

  ghost predicate TimesTracked(c: P.Config, s: P.State, rounds: seq<Round>) {
    InTime(rounds) && EndsBy(c, rounds, s.clock)
  }

  /** What the passes have polled is the log as far as the consumer has come. */
  ghost predicate RecordsTracked(s: P.State, body: Bodies, rounds: seq<Round>) {
    && Ahead(s.consumer) <= |s.log|
    && Stream(rounds) == Map(body, s.log[..Ahead(s.consumer)])
    && (s.consumer.Fetching? ==> rounds != [] && rounds[|rounds| - 1].records == [])
    && (s.consumer.Delivering? ==>
          && rounds != [] && rounds[|rounds| - 1].recv == s.consumer.recv
          && |Stream(rounds[..|rounds| - 1])| <= s.consumer.pos)
  }

  // ---- times

  lemma AppendInTime(rounds: seq<Round>, r: Round)
    requires InTime(rounds) && r.now <= r.look <= r.recv <= r.done
    requires forall i :: 0 <= i < |rounds| ==> rounds[i].done <= r.now
    ensures InTime(rounds + [r])
  {
  }

  lemma PrefixInTime(rounds: seq<Round>, n: nat)
    requires InTime(rounds) && n <= |rounds|
    ensures InTime(rounds[..n])
  {
  }

  lemma ClockMovesOn(c: P.Config, s: P.State, step: P.Step)
    requires P.Enabled(c, s, step)
    ensures s.clock <= P.Apply(c, s, step).clock
    ensures step.ConsumerCheck? || step.ConsumerPoll? ==> P.Apply(c, s, step).clock == step.t
  {
    hide P.PerPhase.At, P.PerPhase.With, P.AfterCallback, P.AfterMessage, P.AfterError, P.GateAdmits;
    match step case _ =>
  }

  /** The last pass with a later end and maybe other records. */
  lemma LastReplaced(c: P.Config, rounds: seq<Round>, r: Round, clock: int)
    requires rounds != [] && InTime(rounds) && EndsBy(c, rounds, clock)
    requires r.now == rounds[|rounds| - 1].now && r.look == rounds[|rounds| - 1].look
    requires r.look <= r.recv <= r.done <= clock
    ensures InTime(rounds[..|rounds| - 1] + [r]) && EndsBy(c, rounds[..|rounds| - 1] + [r], clock)
  {
    var n := |rounds| - 1;
    PrefixInTime(rounds, n);
    assert forall i :: 0 <= i < n ==> rounds[i].done <= rounds[n].now;
    AppendInTime(rounds[..n], r);
  }

  lemma CheckInTime(c: P.Config, rounds: seq<Round>, clock: int, t: int)
    requires InTime(rounds) && EndsBy(c, rounds, clock) && clock <= t < P.ConsumerDeadline(c)
    ensures InTime(rounds + [Round(t, t, t, t, [])]) && EndsBy(c, rounds + [Round(t, t, t, t, [])], t)
  {
    AppendInTime(rounds, Round(t, t, t, t, []));
  }

  lemma TimesStep(c: P.Config, s: P.State, body: Bodies, rounds: seq<Round>, step: P.Step)
    requires TimesTracked(c, s, rounds) && P.Enabled(c, s, step)
    ensures TimesTracked(c, P.Apply(c, s, step), Track(c, s, body, rounds, step))
  {
    ClockMovesOn(c, s, step);
    assert step.ConsumerCheck? ==> step.t < P.ConsumerDeadline(c);
    EndsLater(c, rounds, s.clock, P.Apply(c, s, step).clock);
    hide P.Apply, P.Enabled, InTime, EndsBy;
    if step.ConsumerCheck? {
      CheckInTime(c, rounds, s.clock, step.t);
    } else if step.ConsumerPoll? && rounds != [] {
      var polled := Map(body, s.log[s.consumer.pos..s.consumer.pos + step.k]);
      LastReplaced(c, rounds, rounds[|rounds| - 1].(recv := step.t, done := step.t, records := polled), step.t);
    } else if step.ConsumerLoop? && rounds != [] {
      LastDone(c, rounds, s.clock);
      EndsLater(c, rounds[|rounds| - 1 := rounds[|rounds| - 1].(done := s.clock)], s.clock, P.Apply(c, s, step).clock);
    }
  }

  lemma EndsLater(c: P.Config, rounds: seq<Round>, x: int, y: int)
    requires EndsBy(c, rounds, x) && x <= y
    ensures EndsBy(c, rounds, y)
  {
  }

  lemma LastDone(c: P.Config, rounds: seq<Round>, clock: int)
    requires rounds != [] && InTime(rounds) && EndsBy(c, rounds, clock)
    ensures var after := rounds[|rounds| - 1 := rounds[|rounds| - 1].(done := clock)];
            InTime(after) && EndsBy(c, after, clock)
  {
    hide InTime;
    var last := rounds[|rounds| - 1].(done := clock);
    LastReplaced(c, rounds, last, clock);
    assert rounds[|rounds| - 1 := last] == rounds[..|rounds| - 1] + [last];
  }

  // ---- records

  lemma StreamAppend(rounds: seq<Round>, r: Round)
    ensures Stream(rounds + [r]) == Stream(rounds) + r.records
    ensures Deliveries(rounds + [r]) == Deliveries(rounds) + DeliveriesOf(r)
  {
    assert (rounds + [r])[..|rounds|] == rounds;
  }

  lemma StreamSplit(rounds: seq<Round>)
    requires rounds != []
    ensures var n := |rounds| - 1;
            && Stream(rounds) == Stream(rounds[..n]) + rounds[n].records
            && Deliveries(rounds) == Deliveries(rounds[..n]) + DeliveriesOf(rounds[n])
  {
  }

  lemma {:induction false} AsManyDeliveries(rounds: seq<Round>)
    ensures |Deliveries(rounds)| == |Stream(rounds)|
  {
    if rounds != [] {
      AsManyDeliveries(rounds[..|rounds| - 1]);
      StreamSplit(rounds);
    }
  }

  lemma MapTake<A, B>(f: A -> B, s: seq<A>, i: nat, j: nat)
    requires i <= j <= |s|
    ensures Map(f, s[..j]) == Map(f, s[..i]) + Map(f, s[i..j])
  {
  }

  lemma CheckTracks(c: P.Config, s: P.State, body: Bodies, rounds: seq<Round>, t: int)
    requires RecordsTracked(s, body, rounds) && P.Enabled(c, s, P.ConsumerCheck(t))
    ensures RecordsTracked(P.Apply(c, s, P.ConsumerCheck(t)), body, Track(c, s, body, rounds, P.ConsumerCheck(t)))
    ensures Deliveries(Track(c, s, body, rounds, P.ConsumerCheck(t))) == Deliveries(rounds)
  {
    hide Map, Stream, Deliveries;
    StreamAppend(rounds, Round(t, t, t, t, []));
    NoDeliveries(Round(t, t, t, t, []));
  }

  lemma NoDeliveries(r: Round)
    requires r.records == []
    ensures DeliveriesOf(r) == []
  {
  }

  /** The passes with the last one's records filled in. */
  lemma LastPolled(body: Bodies, log: seq<nat>, rounds: seq<Round>, r: Round, pos: nat, end: nat)
    requires rounds != [] && rounds[|rounds| - 1].records == [] && pos <= end <= |log|
    requires Stream(rounds) == Map(body, log[..pos]) && r.records == Map(body, log[pos..end])
    ensures var after := rounds[..|rounds| - 1] + [r];
            && Stream(after) == Map(body, log[..end]) && |Stream(after[..|rounds| - 1])| == pos
            && |Deliveries(rounds)| == pos <= |Deliveries(after)| && Deliveries(after)[..pos] == Deliveries(rounds)
  {
    hide Stream, Deliveries, Map, DeliveriesOf;
    var n := |rounds| - 1;
    StreamSplit(rounds);
    NoDeliveries(rounds[n]);
    AsManyDeliveries(rounds[..n]);
    StreamAppend(rounds[..n], r);
    MapTake(body, log, pos, end);
    assert (rounds[..n] + [r])[..n] == rounds[..n];
    assert |Map(body, log[..pos])| == pos;
  }

  lemma PollTracks(c: P.Config, s: P.State, body: Bodies, rounds: seq<Round>, k: nat, t: int)
    requires RecordsTracked(s, body, rounds) && P.Enabled(c, s, P.ConsumerPoll(k, t))
    ensures var after := Track(c, s, body, rounds, P.ConsumerPoll(k, t));
            && RecordsTracked(P.Apply(c, s, P.ConsumerPoll(k, t)), body, after)
            && s.consumer.pos <= |Deliveries(after)|
            && |Deliveries(rounds)| == s.consumer.pos
            && Deliveries(after)[..s.consumer.pos] == Deliveries(rounds)
  {
    hide Stream, Deliveries, Map;
    var pos, last := s.consumer.pos, rounds[|rounds| - 1];
    var r := last.(recv := t, done := t, records := Map(body, s.log[pos..pos + k]));
    LastPolled(body, s.log, rounds, r, pos, pos + k);
  }

  lemma LoopTracks(c: P.Config, s: P.State, body: Bodies, rounds: seq<Round>)
    requires RecordsTracked(s, body, rounds) && P.Enabled(c, s, P.ConsumerLoop)
    ensures RecordsTracked(P.Apply(c, s, P.ConsumerLoop), body, Track(c, s, body, rounds, P.ConsumerLoop))
    ensures Deliveries(Track(c, s, body, rounds, P.ConsumerLoop)) == Deliveries(rounds)
  {
    hide Stream, Deliveries, Map;
    var n := |rounds| - 1;
    var last := rounds[n].(done := s.clock);
    assert DeliveriesOf(last) == DeliveriesOf(rounds[n]);
    assert Track(c, s, body, rounds, P.ConsumerLoop) == rounds[..n] + [last];
    StreamSplit(rounds);
    StreamAppend(rounds[..n], last);
  }

  /** Steps that neither check nor poll nor loop leave the passes alone. */
  lemma OtherTracks(c: P.Config, s: P.State, body: Bodies, rounds: seq<Round>, step: P.Step)
    requires RecordsTracked(s, body, rounds) && P.Enabled(c, s, step)
    requires !step.ConsumerCheck? && !step.ConsumerPoll? && !step.ConsumerLoop?
    ensures Track(c, s, body, rounds, step) == rounds
    ensures RecordsTracked(P.Apply(c, s, step), body, rounds)
  {
    LogKept(c, s, step);
    hide P.Apply, Map, Stream;
    var s' := P.Apply(c, s, step);
    assert s'.log[..Ahead(s.consumer)] == s'.log[..|s.log|][..Ahead(s.consumer)];
    assert s.log[..Ahead(s.consumer)] == s.log[..|s.log|][..Ahead(s.consumer)];
  }

  lemma LogKept(c: P.Config, s: P.State, step: P.Step)
    requires P.Enabled(c, s, step) && !step.ConsumerCheck? && !step.ConsumerPoll? && !step.ConsumerLoop?
    ensures var s' := P.Apply(c, s, step);
            && |s.log| <= |s'.log| && s'.log[..|s.log|] == s.log
            && (if step.ConsumerDeliver? then s'.consumer == s.consumer.(pos := s.consumer.pos + 1)
                else s'.consumer == s.consumer || (s'.consumer == P.Gone(s.consumer.pos) && !s.consumer.Delivering?))
  {
    hide P.PerPhase.At, P.PerPhase.With, P.AfterCallback, P.AfterMessage, P.AfterError, P.GateAdmits, P.Reads;
    match step case _ =>
  }

  lemma RecordsStep(c: P.Config, s: P.State, body: Bodies, rounds: seq<Round>, step: P.Step)
    requires RecordsTracked(s, body, rounds) && P.Enabled(c, s, step)
    ensures RecordsTracked(P.Apply(c, s, step), body, Track(c, s, body, rounds, step))
  {
    hide RecordsTracked, P.Apply, P.Enabled;
    if step.ConsumerCheck? {
      CheckTracks(c, s, body, rounds, step.t);
    } else if step.ConsumerPoll? {
      PollTracks(c, s, body, rounds, step.k, step.t);
    } else if step.ConsumerLoop? {
      LoopTracks(c, s, body, rounds);
    } else {
      OtherTracks(c, s, body, rounds, step);
    }
  }

  // ---- counters

  /** The deliveries that `_on_msg` has dealt with. */
  function Dealt(s: P.State, rounds: seq<Round>): seq<Delivery> {
    var ds := Deliveries(rounds);
    if s.consumer.pos <= |ds| then ds[..s.consumer.pos] else ds
  }

  predicate SameSamples(m: Counters, n: Counters) { m.consumed == n.consumed && m.e2e == n.e2e }

  /** The consumer's counters are what `_on_msg` makes of them. */
  predicate CountersTracked(s: P.State, rounds: seq<Round>) {
    SameSamples(s.counters.record, Received(ZERO, s.gate, Dealt(s, rounds)))
  }

  lemma SameAfterMessage(m: Counters, n: Counters, gate: int, ts: int, recv: int)
    requires SameSamples(m, n)
    ensures SameSamples(P.AfterMessage(m, gate, ts, recv), P.AfterMessage(n, gate, ts, recv))
  {
  }

  /** The next delivery is the one the passes say. */
  lemma NextDelivery(s: P.State, body: Bodies, rounds: seq<Round>)
    requires RecordsTracked(s, body, rounds) && s.consumer.Delivering? && s.consumer.pos < s.consumer.end
    ensures s.consumer.pos < |Deliveries(rounds)|
    ensures Deliveries(rounds)[s.consumer.pos] == DeliveryOf(s.consumer.recv)(body(s.log[s.consumer.pos]))
  {
    hide Deliveries, Stream;
    var n, pos := |rounds| - 1, s.consumer.pos;
    StreamSplit(rounds);
    AsManyDeliveries(rounds[..n]);
    var before := |Stream(rounds[..n])|;
    assert Stream(rounds)[pos] == rounds[n].records[pos - before];
    assert Stream(rounds)[pos] == body(s.log[..s.consumer.end][pos]);
    assert Deliveries(rounds)[pos] == DeliveriesOf(rounds[n])[pos - before];
  }

  lemma ReceivedNext(gate: int, ds: seq<Delivery>, k: nat)
    requires k < |ds|
    ensures Received(ZERO, gate, ds[..k + 1]) == AfterDelivery(Received(ZERO, gate, ds[..k]), gate, ds[k])
  {
    assert ds[..k + 1][..k] == ds[..k];
  }

  lemma DeliverCounts(c: P.Config, s: P.State, body: Bodies, rounds: seq<Round>)
    requires RecordsTracked(s, body, rounds) && CountersTracked(s, rounds) && P.Enabled(c, s, P.ConsumerDeliver)
    requires Carries(body(s.log[s.consumer.pos]), s.msgs[s.log[s.consumer.pos]].ts)
    ensures CountersTracked(P.Apply(c, s, P.ConsumerDeliver), rounds)
  {
    hide Deliveries, Received, P.AfterMessage, RecordsTracked, SameSamples;
    var pos, i := s.consumer.pos, s.log[s.consumer.pos];
    NextDelivery(s, body, rounds);
    ReceivedNext(s.gate, Deliveries(rounds), pos);
    SameAfterMessage(s.counters.record, Received(ZERO, s.gate, Deliveries(rounds)[..pos]),
                     s.gate, s.msgs[i].ts, s.consumer.recv);
  }

  /** Nothing is made of deliveries that the gate does not admit. */
  lemma {:induction false} ReceivedNone(gate: int, ds: seq<Delivery>)
    requires forall i :: 0 <= i < |ds| ==> AfterDelivery(ZERO, gate, ds[i]) == ZERO
    ensures Received(ZERO, gate, ds) == ZERO
  {
    if ds != [] {
      ReceivedNone(gate, ds[..|ds| - 1]);
    }
  }

  /** Before the gate opens every delivery comes to nothing, and so it does, on a strict clock, at the opening. */
  lemma EarlyDeliveries(s: P.State, body: Bodies, rounds: seq<Round>, gate: int)
    requires RecordsTracked(s, body, rounds) && LogTaken(s) && Faithful(body, s.msgs)
    requires forall i :: 0 <= i < |s.msgs| ==> !P.GateAdmits(gate, s.msgs[i].ts)
    ensures Received(ZERO, gate, Dealt(s, rounds)) == ZERO
  {
    hide Received;
    var ds := Deliveries(rounds);
    AsManyDeliveries(rounds);
    DeliveriesAreTheStream(rounds);
    forall k | 0 <= k < |ds|
      ensures AfterDelivery(ZERO, gate, ds[k]) == ZERO
    {
      assert ContentOfDelivery(ds[k]) == Map(ContentOfDelivery, ds)[k] == Map(ContentOfRecord, Stream(rounds))[k];
      assert Stream(rounds)[k] == body(s.log[..Ahead(s.consumer)][k]);
      assert Carries(body(s.log[k]), s.msgs[s.log[k]].ts);
    }
    ReceivedNone(gate, Dealt(s, rounds));
  }

  lemma GateOpens(c: P.Config, s: P.State, body: Bodies, rounds: seq<Round>, t: int)
    requires c.strictClock && Inv(c, s) && RecordsTracked(s, body, rounds) && CountersTracked(s, rounds)
    requires Faithful(body, s.msgs) && P.Enabled(c, s, P.DoOpenGate(t))
    ensures CountersTracked(P.Apply(c, s, P.DoOpenGate(t)), rounds)
  {
    assert forall i :: 0 <= i < |s.msgs| ==> TimeOf(c, s, s.msgs[i]);
    assert s.gate <= 0;
    EarlyDeliveries(s, body, rounds, s.gate);
    EarlyDeliveries(s, body, rounds, t);
  }

  /** No other step touches the consumer's counters or the gate. */
  lemma OtherSamplesKept(c: P.Config, s: P.State, step: P.Step)
    requires P.Enabled(c, s, step) && !step.ConsumerDeliver? && !step.DoOpenGate?
    ensures var s' := P.Apply(c, s, step);
            s'.gate == s.gate && SameSamples(s'.counters.record, s.counters.record) && s'.consumer.pos == s.consumer.pos
  {
    CountersStep(c, s, step, P.Record);
    hide P.PerPhase.With, Metrics.Record;
    match step case _ =>
  }

  lemma DeliveryCarries(c: P.Config, s: P.State, body: Bodies)
    requires Inv(c, s) && Faithful(body, s.msgs) && P.Enabled(c, s, P.ConsumerDeliver)
    ensures Carries(body(s.log[s.consumer.pos]), s.msgs[s.log[s.consumer.pos]].ts)
  {
    CanDeliver(c, s, body);
  }

  lemma CountersTrackedStep(c: P.Config, s: P.State, body: Bodies, rounds: seq<Round>, step: P.Step)
    requires c.strictClock && Inv(c, s) && RecordsTracked(s, body, rounds) && CountersTracked(s, rounds)
    requires Faithful(body, s.msgs) && P.Enabled(c, s, step)
    ensures CountersTracked(P.Apply(c, s, step), Track(c, s, body, rounds, step))
  {
    hide P.Apply, P.Enabled, Inv, RecordsTracked, Received, Deliveries, Faithful, Carries, SameSamples;
    if step.ConsumerDeliver? {
      DeliveryCarries(c, s, body);
      DeliverCounts(c, s, body, rounds);
    } else if step.DoOpenGate? {
      GateOpens(c, s, body, rounds, step.t);
    } else {
      OtherSamplesKept(c, s, step);
      SamplesTransfer(P.Apply(c, s, step).counters.record, s.counters.record, Received(ZERO, s.gate, Dealt(s, rounds)));
      DealtKept(c, s, body, rounds, step);
    }
  }

  lemma SamplesTransfer(a: Counters, b: Counters, m: Counters)
    requires SameSamples(a, b)
    ensures SameSamples(b, m) ==> SameSamples(a, m)
  {
  }

  lemma DealtKept(c: P.Config, s: P.State, body: Bodies, rounds: seq<Round>, step: P.Step)
    requires RecordsTracked(s, body, rounds) && P.Enabled(c, s, step) && !step.ConsumerDeliver?
    requires P.Apply(c, s, step).consumer.pos == s.consumer.pos
    ensures Dealt(P.Apply(c, s, step), Track(c, s, body, rounds, step)) == Dealt(s, rounds)
  {
    hide P.Apply, P.Enabled, RecordsTracked, Deliveries, Track;
    if step.ConsumerCheck? {
      CheckTracks(c, s, body, rounds, step.t);
    } else if step.ConsumerPoll? {
      PollTracks(c, s, body, rounds, step.k, step.t);
    } else if step.ConsumerLoop? {
      LoopTracks(c, s, body, rounds);
    } else {
      OtherTracks(c, s, body, rounds, step);
    }
  }

  // ---- whole runs

  lemma FaithfulBefore(c: P.Config, s: P.State, step: P.Step, body: Bodies)
    requires P.Enabled(c, s, step) && Faithful(body, P.Apply(c, s, step).msgs)
    ensures Faithful(body, s.msgs)
  {
    hide P.Apply, P.Enabled, Carries;
    MessagesStep(c, s, step);
    var after := P.Apply(c, s, step).msgs;
    forall i | 0 <= i < |s.msgs|
      ensures Carries(body(i), s.msgs[i].ts)
    {
      assert Carries(body(i), after[i].ts);
    }
  }

  lemma {:induction false} FaithfulAtStart(c: P.Config, s: P.State, steps: seq<P.Step>, body: Bodies)
    requires P.ValidFrom(c, s, steps) && Faithful(body, P.After(c, s, steps).msgs)
    ensures Faithful(body, s.msgs)
    decreases |steps|
  {
    if steps != [] {
      hide P.Apply, P.Enabled, Faithful;
      FaithfulAtStart(c, P.Apply(c, s, steps[0]), steps[1..], body);
      FaithfulBefore(c, s, steps[0], body);
    }
  }

  lemma {:induction false} TrackedAfter(c: P.Config, s: P.State, body: Bodies, rounds: seq<Round>, steps: seq<P.Step>)
    requires Inv(c, s) && P.ValidFrom(c, s, steps)
    requires TimesTracked(c, s, rounds) && RecordsTracked(s, body, rounds)
    ensures TimesTracked(c, P.After(c, s, steps), TrackAll(c, s, body, rounds, steps))
    ensures RecordsTracked(P.After(c, s, steps), body, TrackAll(c, s, body, rounds, steps))
    ensures c.strictClock && CountersTracked(s, rounds) && Faithful(body, P.After(c, s, steps).msgs) ==>
              CountersTracked(P.After(c, s, steps), TrackAll(c, s, body, rounds, steps))
    decreases |steps|
  {
    if steps != [] {
      hide Inv, P.Apply, P.Enabled, TimesTracked, RecordsTracked, CountersTracked, Faithful, Track;
      InvStep(c, s, steps[0]);
      TimesStep(c, s, body, rounds, steps[0]);
      RecordsStep(c, s, body, rounds, steps[0]);
      if c.strictClock && CountersTracked(s, rounds) && Faithful(body, P.After(c, s, steps).msgs) {
        FaithfulAtStart(c, s, steps, body);
        CountersTrackedStep(c, s, body, rounds, steps[0]);
      }
      TrackedAfter(c, P.Apply(c, s, steps[0]), body, Track(c, s, body, rounds, steps[0]), steps[1..]);
    }
  }

  /** The passes of a whole run. */
  function RoundsOf(c: P.Config, steps: seq<P.Step>, body: Bodies): seq<Round>
    requires P.Run(c, steps)
  {
    TrackAll(c, P.Init(c), body, [], steps)
  }

  /**
   In every run, the consumer has made passes that a polling loop may make: their readings are in order and each check
   was before the deadline, and what they polled is the log as far as the consumer has come. On a strict clock, the
   consumer's counters are what `_on_msg` makes, with the gate as it is now, of the deliveries dealt with: each of
   them once, none missed.
   */
  lemma RunIsLoop(c: P.Config, steps: seq<P.Step>, body: Bodies)
    requires P.Run(c, steps)
    ensures var s, rounds := P.Reached(c, steps), RoundsOf(c, steps, body);
            && InTime(rounds)
            && (forall i :: 0 <= i < |rounds| ==> Goes(P.ConsumerDeadline(c), Never, rounds[i]))
            && Ahead(s.consumer) <= |s.log|
            && Stream(rounds) == Map(body, s.log[..Ahead(s.consumer)])
            && s.consumer.pos <= |Deliveries(rounds)|
    ensures var s, rounds := P.Reached(c, steps), RoundsOf(c, steps, body);
            c.strictClock && Faithful(body, s.msgs) && s.consumer.pos <= |Deliveries(rounds)| ==>
              SameSamples(s.counters.record, Received(ZERO, s.gate, Deliveries(rounds)[..s.consumer.pos]))
  {
    InvInit(c);
    InvReached(c, steps);
    TrackedAfter(c, P.Init(c), body, [], steps);
    AsManyDeliveries(RoundsOf(c, steps, body));
    assert LogTaken(P.Reached(c, steps));
  }
}
