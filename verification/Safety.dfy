/** What holds in every state of every measurement run, whatever the interleaving. */
module Safety {
  import opened Metrics
  import opened Protocol
  import opened Tallies
  import opened Invariants
  import opened Grouping
  import opened Readings

  // ---- permits

  /**
   No permit is lost or made up, by success, by asynchronous error or by a raise; so no phase has more outstanding
   than its semaphore allows.
   */
  lemma PermitConservation(c: Config, steps: seq<Step>, p: Phase)
    requires Run(c, steps)
    ensures var s := Reached(c, steps);
            && s.permits.At(p) + Tallied(s.msgs, p, Holding) + AtStamp(s, p) == c.inFlight
            && Tallied(s.msgs, p, Outstanding) <= c.inFlight
  {
    var s := Reached(c, steps);
    InvReached(c, steps);
    assert PermitsAt(c, s, p);
    OutstandingHold(s.msgs, p);
  }

  function OutstandingInAll(s: State): nat {
    Tallied(s.msgs, Warm, Outstanding) + Tallied(s.msgs, Discard, Outstanding) + Tallied(s.msgs, Record, Outstanding)
  }

  /** Late callbacks of earlier phases add up to at most three windows; complete drains keep it at one. */
  lemma OutstandingBound(c: Config, steps: seq<Step>)
    requires Run(c, steps)
    ensures OutstandingInAll(Reached(c, steps)) <= 3 * c.inFlight
    ensures c.fullDrains ==> OutstandingInAll(Reached(c, steps)) <= c.inFlight
  {
    var s := Reached(c, steps);
    PermitConservation(c, steps, Warm);
    PermitConservation(c, steps, Discard);
    PermitConservation(c, steps, Record);
    if c.fullDrains {
      InvReached(c, steps);
      forall p: Phase | p != s.phase
        ensures Tallied(s.msgs, p, Outstanding) == 0
      {
        NoneTallied(s.msgs, p, Outstanding);
      }
    }
  }

  // ---- counters

  /**
   Produced messages are acked, failed, or not counted yet; the last are at most a window plus the threads between
   release and count.
   */
  lemma SplitAccounting(c: Config, steps: seq<Step>)
    requires Run(c, steps)
    ensures var s := Reached(c, steps); var m := s.counters.record;
            && m.produced == m.acked + m.errors + Tallied(s.msgs, Record, Uncounted)
            && Tallied(s.msgs, Record, Uncounted) <= c.inFlight + Tallied(s.msgs, Record, Uncollected)
  {
    var s := Reached(c, steps);
    InvReached(c, steps);
    assert CountsAt(s, Record);
    assert forall i :: 0 <= i < |s.msgs| ==> TimeOf(c, s, s.msgs[i]);
    TalliedSplit(s.msgs, Record);
    UncountedBound(s.msgs, Record);
    PermitConservation(c, steps, Record);
  }

  /** Once every callback of the phase is through, nothing is missing. */
  lemma SettledAccounting(c: Config, steps: seq<Step>)
    requires Run(c, steps)
    requires forall i :: 0 <= i < |Reached(c, steps).msgs| && Reached(c, steps).msgs[i].phase.Record? ==>
               Reached(c, steps).msgs[i].status.Settled?
    ensures var m := Reached(c, steps).counters.record; m.produced == m.acked + m.errors
  {
    SplitAccounting(c, steps);
    NoneTallied(Reached(c, steps).msgs, Record, Uncounted);
  }

  /** Every histogram value is recordable; on a strict clock, each counted ack and consumed record is in it. */
  lemma HistogramsMatchCounters(c: Config, steps: seq<Step>, p: Phase)
    requires Run(c, steps)
    ensures var m := Reached(c, steps).counters.At(p);
            && InRange(m.ack) && InRange(m.e2e)
            && |m.ack| <= m.acked && |m.e2e| <= m.consumed
            && (c.strictClock ==> |m.ack| == m.acked && |m.e2e| == m.consumed)
  {
    InvReached(c, steps);
    assert HistogramsAt(c, Reached(c, steps).counters.At(p));
  }

  /**
   On any clock: the ack histogram of each phase is, as a multiset, what its counted acks' latencies leave there, from
   each message's own stamp to its own callback's reading; the end-to-end histogram is, in order, what those of the
   recorded messages leave, and early phases have none.
   */
  lemma HistogramsExact(c: Config, steps: seq<Step>, p: Phase)
    requires Run(c, steps)
    ensures var s := Reached(c, steps);
            && multiset(s.counters.At(p).ack) == multiset(Recordable(AckLatencies(s.msgs, steps, p)))
            && |s.recorded| == |s.receipts|
            && s.counters.At(p).e2e
               == if p.Record? then Recordable(Delays(s.msgs, s.recorded, s.receipts)) else []
  {
    var s := Reached(c, steps);
    InvReached(c, steps);
    AckSamplesAreReadings(c, steps, p);
    assert AckSamplesAt(s, p) && E2eOf(s, p);
  }

  lemma {:induction false} CountedIsListed(msgs: seq<Msg>, steps: seq<Step>, p: Phase, i: nat)
    requires i < |msgs| && Is(msgs[i], p, AckCounted) && Calls(Call(steps, i), i)
    ensures Call(steps, i).t - msgs[i].ts in AckLatencies(msgs, steps, p)
  {
    if i < |msgs| - 1 {
      CountedIsListed(msgs[..|msgs| - 1], steps, p, i);
    }
  }

  lemma ListedIsRecorded(latencies: seq<int>, latency: int)
    requires latency in latencies && 0 < latency
    ensures (if latency <= 60_000_000_000 then latency else 60_000_000_000) in Recordable(latencies)
  {
    var k :| 0 <= k < |latencies| && latencies[k] == latency;
    assert latencies == latencies[..k] + ([latency] + latencies[k + 1..]);
    RecordableConcat(latencies[..k], [latency] + latencies[k + 1..]);
    RecordableConcat([latency], latencies[k + 1..]);
    RecordableOne(latency);
  }

  lemma SameMembersOf(a: seq<int>, b: seq<int>)
    requires multiset(a) == multiset(b)
    ensures forall x :: x in b ==> x in a
  {
    assert forall x :: x in a <==> x in multiset(a);
    assert forall x :: x in b <==> x in multiset(b);
  }

  lemma CountedDidNotFail(c: Config, s: State, i: nat)
    requires Inv(c, s) && i < |s.msgs| && s.msgs[i].status.Settled? && s.msgs[i].status.counted
    ensures !s.msgs[i].status.failed
  {
    assert TimeOf(c, s, s.msgs[i]);
  }

  lemma CountedListed(msgs: seq<Msg>, steps: seq<Step>, i: nat)
    requires i < |msgs| && msgs[i].status.Settled? && msgs[i].status.counted && ReadingFits(msgs[i], steps, i)
    ensures msgs[i].status.latency in AckLatencies(msgs, steps, msgs[i].phase)
  {
    hide AckLatencies, Call;
    CountedIsListed(msgs, steps, msgs[i].phase, i);
  }

  /** A counted ack did not fail, and its latency is listed. */
  lemma CountedHasReading(c: Config, steps: seq<Step>, i: nat)
    requires Run(c, steps) && i < |Reached(c, steps).msgs|
    requires Reached(c, steps).msgs[i].status.Settled? && Reached(c, steps).msgs[i].status.counted
    ensures var s := Reached(c, steps); var m := s.msgs[i];
            !m.status.failed && m.status.latency in AckLatencies(s.msgs, steps, m.phase)
  {
    hide Apply, Enabled, After, ValidFrom, AckLatencies, Inv, ReadingFits;
    var s := Reached(c, steps);
    InvReached(c, steps);
    CountedDidNotFail(c, s, i);
    CountedReading(c, steps, i);
    CountedListed(s.msgs, steps, i);
  }

  /**
   A callback without an error, once its ack is counted: the time from the message's stamp to the callback's reading
   stands in the histogram as it is, or as 60 s if it is longer.
   */
  lemma AckStands(c: Config, steps: seq<Step>, k: nat, i: nat, failed: bool, t: int)
    requires Run(c, steps) && k < |steps| && steps[k] == CallBack(i, failed, t)
    ensures i < |Reached(c, steps).msgs|
    ensures var s := Reached(c, steps); var m := s.msgs[i]; var latency := t - m.ts;
            m.status.Settled? && m.status.counted ==>
              && !failed
              && (1 <= latency <= 60_000_000_000 ==> latency in s.counters.At(m.phase).ack)
              && (60_000_000_000 < latency ==> 60_000_000_000 in s.counters.At(m.phase).ack)
  {
    var s := Reached(c, steps);
    CallbackFixes(c, steps, k, i, failed, t);
    var m := s.msgs[i];
    if m.status.Settled? && m.status.counted {
      CountedHasReading(c, steps, i);
      var ack, all := s.counters.At(m.phase).ack, AckLatencies(s.msgs, steps, m.phase);
      hide Recordable, AckLatencies, Apply, Enabled;
      HistogramsExact(c, steps, m.phase);
      if 0 < t - m.ts {
        ListedIsRecorded(all, t - m.ts);
        SameMembersOf(ack, Recordable(all));
      }
    }
  }

  // ---- phases

  /** A callback gives its permit to, and counts its result for, its own phase only. */
  lemma CallbackStaysInPhase(c: Config, s: State, step: Step, i: nat, p: Phase)
    requires Enabled(c, s, step)
    requires step.CallBack? || step.CallbackRelease? || step.CallbackCount?
    requires i == step.i && p != s.msgs[i].phase
    ensures var s' := Apply(c, s, step);
            && s'.permits.At(p) == s.permits.At(p)
            && s'.counters.At(p) == s.counters.At(p)
            && s'.recorded == s.recorded
  {
    CountersStep(c, s, step, p);
    match step case _ =>
  }

  /** The gate reading coincides with the stamp of no earlier message. */
  ghost predicate NoTie(s: State) {
    forall i :: 0 <= i < |s.msgs| && !s.msgs[i].phase.Record? ==> s.msgs[i].ts != s.gate
  }

  lemma StrictClockNoTie(c: Config, s: State)
    requires Inv(c, s) && c.strictClock && s.phase.Record?
    ensures NoTie(s)
  {
    assert forall i :: 0 <= i < |s.msgs| ==> TimeOf(c, s, s.msgs[i]);
  }

  lemma AdmittedIsRecord(c: Config, s: State, i: nat)
    requires Inv(c, s) && i < |s.msgs| && GateAdmits(s.gate, s.msgs[i].ts)
    ensures s.msgs[i].phase.Record? || s.msgs[i].ts == s.gate
  {
    assert TimeOf(c, s, s.msgs[i]);
  }

  /** Pre-warm and discard leave no trace in any `produced`, `acked` or `consumed`, nor in the consumer's samples. */
  lemma PhaseIsolation(c: Config, steps: seq<Step>, p: Phase)
    requires Run(c, steps) && p != Record
    ensures var s := Reached(c, steps); var m := s.counters.At(p);
            && m.produced == 0 && m.consumed == 0
            && (c.strictClock || NoTie(s) ==>
                  && m.acked == 0 && m.ack == []
                  && forall r :: r in s.recorded ==> r < |s.msgs| && s.msgs[r].phase.Record?)
  {
    var s := Reached(c, steps);
    InvReached(c, steps);
    assert CountsAt(s, p) && HistogramsAt(c, s.counters.At(p));
    if c.strictClock || NoTie(s) {
      if s.phase.Record? && c.strictClock {
        StrictClockNoTie(c, s);
      }
      forall i | 0 <= i < |s.msgs|
        ensures !Is(s.msgs[i], p, AckCounted)
      {
        assert TimeOf(c, s, s.msgs[i]);
      }
      NoneTallied(s.msgs, p, AckCounted);
      forall r | r in s.recorded
        ensures r < |s.msgs| && s.msgs[r].phase.Record?
      {
        AdmittedIsRecord(c, s, r);
      }
    }
  }

  // ---- what a tie does

  /** The message can still complete successfully. */
  predicate Unresolved(st: Status) {
    || st.InFlight?
    || (st.Acking? && !st.failed)
    || (st.Released? && !st.failed)
  }

  predicate TiedAt(s: State, p: Phase, i: int) {
    0 <= i < |s.msgs| && s.msgs[i].phase == p && s.msgs[i].ts == s.gate && Unresolved(s.msgs[i].status)
  }

  /** With the gate open, no message of phase p is or can become a counted ack. */
  ghost predicate Quiet(s: State, p: Phase) {
    && s.phase.Record?
    && forall i :: 0 <= i < |s.msgs| && s.msgs[i].phase == p && s.msgs[i].ts == s.gate ==>
         !Unresolved(s.msgs[i].status) && !(s.msgs[i].status.Settled? && s.msgs[i].status.counted)
  }

  lemma OldMessagesLeftProducer(c: Config, s: State, i: nat)
    requires Inv(c, s) && i < |s.msgs| && s.msgs[i].phase != s.phase
    ensures !ProducerOwned(s.msgs[i].status)
  {
  }

  lemma MovedStaysQuiet(c: Config, s: State, step: Step, i: nat)
    requires Enabled(c, s, step) && Moves(s, step) == i < |s.msgs| == |Apply(c, s, step).msgs|
    requires !ProducerOwned(s.msgs[i].status) && !Unresolved(s.msgs[i].status)
    requires !(s.msgs[i].status.Settled? && s.msgs[i].status.counted)
    ensures var st := Apply(c, s, step).msgs[i].status; !Unresolved(st) && !(st.Settled? && st.counted)
  {
    hide PerPhase.At, PerPhase.With, AfterCallback, AfterMessage, AfterError;
    match step case _ =>
  }

  lemma GateStaysOpen(c: Config, s: State, step: Step)
    requires Gate(s) && s.phase.Record? && Enabled(c, s, step)
    ensures Apply(c, s, step).gate == s.gate && Apply(c, s, step).phase.Record?
  {
    hide PerPhase.At, PerPhase.With, AfterCallback, AfterMessage, AfterError;
    match step case _ =>
  }

  lemma QuietStep(c: Config, s: State, step: Step, p: Phase)
    requires Inv(c, s) && Quiet(s, p) && p != Record && Enabled(c, s, step)
    ensures Quiet(Apply(c, s, step), p)
  {
    hide Apply, Enabled, Unresolved;
    var i, s' := Moves(s, step), Apply(c, s, step);
    MessagesStep(c, s, step);
    GateStaysOpen(c, s, step);
    if 0 <= i && s.msgs[i].phase == p && s.msgs[i].ts == s.gate {
      OldMessagesLeftProducer(c, s, i);
      MovedStaysQuiet(c, s, step, i);
    }
  }

  lemma {:induction false} QuietAfter(c: Config, s: State, more: seq<Step>, p: Phase)
    requires Inv(c, s) && Quiet(s, p) && p != Record && ValidFrom(c, s, more)
    ensures After(c, s, more).counters.At(p).acked == 0
    decreases |more|
  {
    hide Inv, Quiet, Apply, Enabled;
    if more == [] {
      QuietCountsNothing(c, s, p);
    } else {
      InvStep(c, s, more[0]);
      QuietStep(c, s, more[0], p);
      QuietAfter(c, Apply(c, s, more[0]), more[1..], p);
    }
  }

  lemma QuietCountsNothing(c: Config, s: State, p: Phase)
    requires Inv(c, s) && Quiet(s, p) && p != Record
    ensures s.counters.At(p).acked == 0
  {
    assert CountsAt(s, p);
    forall i | 0 <= i < |s.msgs|
      ensures !Is(s.msgs[i], p, AckCounted)
    {
      assert TimeOf(c, s, s.msgs[i]);
    }
    NoneTallied(s.msgs, p, AckCounted);
  }

  /** A tied message that can still succeed can be brought into its phase's `acked`. */
  lemma {:induction false} TieLeaks(c: Config, s: State, p: Phase, i: nat) returns (more: seq<Step>)
    requires 0 < s.gate && TiedAt(s, p, i)
    ensures ValidFrom(c, s, more) && 0 < After(c, s, more).counters.At(p).acked
    decreases if s.msgs[i].status.InFlight? then 2 else if s.msgs[i].status.Acking? then 1 else 0
  {
    var step := if s.msgs[i].status.InFlight? then CallBack(i, false, s.clock + 1)
                else if s.msgs[i].status.Acking? then CallbackRelease(i) else CallbackCount(i);
    assert Enabled(c, s, step);
    var s' := Apply(c, s, step);
    if s.msgs[i].status.Released? {
      CountersStep(c, s, step, p);
      more := [step];
      assert more[1..] == [];
      assert After(c, s', []) == s';
    } else {
      var rest := TieLeaks(c, s', p, i);
      more := [step] + rest;
      assert more[1..] == rest;
    }
  }

  /**
   When the gate opens with reading t, an earlier phase can still come to count an ack in its own metrics exactly
   if some unresolved message of that phase carries the stamp t.
   */
  lemma OldAckCountedIffTie(c: Config, steps: seq<Step>, t: int, p: Phase)
    requires Run(c, steps) && Enabled(c, Reached(c, steps), DoOpenGate(t)) && p != Record
    ensures var s := Apply(c, Reached(c, steps), DoOpenGate(t));
            (exists more :: ValidFrom(c, s, more) && 0 < After(c, s, more).counters.At(p).acked)
            <==> (exists i :: TiedAt(s, p, i))
  {
    var before := Reached(c, steps);
    var s := Apply(c, before, DoOpenGate(t));
    InvReached(c, steps);
    InvStep(c, before, DoOpenGate(t));
    if i :| TiedAt(s, p, i) {
      var more := TieLeaks(c, s, p, i);
    } else {
      forall i | 0 <= i < |s.msgs| && s.msgs[i].phase == p && s.msgs[i].ts == s.gate
        ensures !Unresolved(s.msgs[i].status) && !(s.msgs[i].status.Settled? && s.msgs[i].status.counted)
      {
        assert !TiedAt(s, p, i);
        assert TimeOf(c, before, before.msgs[i]);
      }
      forall more | ValidFrom(c, s, more)
        ensures After(c, s, more).counters.At(p).acked == 0
      {
        QuietAfter(c, s, more, p);
      }
    }
  }

  // ---- causality

  function Ids(xs: seq<nat>): set<nat> { set x | x in xs }

  lemma {:induction false} DistinctSize(xs: seq<nat>)
    requires NoDuplicates(xs)
    ensures |Ids(xs)| == |xs|
  {
    if xs == [] {
      assert Ids(xs) == {};
    } else {
      DistinctSize(xs[1..]);
      assert xs[0] !in xs[1..];
      assert Ids(xs) == Ids(xs[1..]) + {xs[0]};
    }
  }

  /** Whatever the consumer records was counted as produced before; so it never outnumbers what was produced. */
  lemma ConsumedWasProduced(c: Config, steps: seq<Step>)
    requires Run(c, steps)
    requires c.strictClock || NoTie(Reached(c, steps))
    ensures var s := Reached(c, steps);
            && (forall r :: r in s.recorded ==> r < |s.msgs| && Is(s.msgs[r], Record, Produced))
            && (c.noDuplicates ==> s.counters.record.consumed <= s.counters.record.produced)
  {
    var s := Reached(c, steps);
    InvReached(c, steps);
    PhaseIsolation(c, steps, Warm);
    assert CountsAt(s, Record);
    forall r | r in s.recorded
      ensures r < |s.msgs| && Is(s.msgs[r], Record, Produced)
    {
      assert r in s.log[..s.consumer.pos];
      var k :| 0 <= k < |s.log| && s.log[k] == r;
      assert s.msgs[r].accepted;
    }
    if c.noDuplicates {
      DistinctSize(s.recorded);
      TalliedBoundsSet(s.msgs, Record, Produced, Ids(s.recorded));
    }
  }
}
