/** Building schedules piece by piece, and the pieces that the counterexample runs are made of. */
module Schedules {
  import opened Protocol

  /** The schedule can be run from s and ends in t. */
  predicate Leads(c: Config, s: State, steps: seq<Step>, t: State) {
    ValidFrom(c, s, steps) && After(c, s, steps) == t
  }

  lemma Single(c: Config, s: State, step: Step)
    requires Enabled(c, s, step)
    ensures Leads(c, s, [step], Apply(c, s, step))
  {
    assert [step][1..] == [];
    assert After(c, Apply(c, s, step), []) == Apply(c, s, step);
  }

  lemma Then(c: Config, s: State, a: seq<Step>, t: State, b: seq<Step>, u: State)
    requires Leads(c, s, a, t) && Leads(c, t, b, u)
    ensures Leads(c, s, a + b, u)
  {
    AfterConcat(c, s, a, b);
  }

  lemma Snoc(c: Config, s: State, a: seq<Step>, t: State, step: Step)
    requires Leads(c, s, a, t) && Enabled(c, t, step)
    ensures Leads(c, s, a + [step], Apply(c, t, step))
  {
    Single(c, t, step);
    Then(c, s, a, t, [step], Apply(c, t, step));
  }

  lemma Three(c: Config, s: State, x: Step, y: Step, z: Step, s1: State, s2: State, s3: State)
    requires Enabled(c, s, x) && s1 == Apply(c, s, x)
    requires Enabled(c, s1, y) && s2 == Apply(c, s1, y)
    requires Enabled(c, s2, z) && s3 == Apply(c, s2, z)
    ensures Leads(c, s, [x, y, z], s3)
  {
    Single(c, s, x);
    Snoc(c, s, [x], s1, y);
    Snoc(c, s, [x] + [y], s2, z);
    assert [x] + [y] + [z] == [x, y, z];
  }

  /** How far apart two clock readings are at least. */
  function Tick(c: Config): int { if c.strictClock then 1 else 0 }

  /** A phase without a send: it begins as soon as it can, and its first check, at time t, is its last. */
  lemma EmptyPhase(c: Config, s: State, t: int)
    requires s.pc.Begin? && s.clock + 3 * Tick(c) <= t
    requires s.clock + Tick(c) + c.duration.At(s.phase) <= t
    requires c.fullDrains ==> AllSettled(s)
    ensures Leads(c, s, EmptySteps(c, s, t), NextPhase(Checked(c, s, t)))
  {
    hide PerPhase.At, NextPhase;
    var b, d := s.clock + Tick(c), Tick(c);
    var s1 := Apply(c, s, DoBegin(b));
    var s2 := Apply(c, s1, DoSchedule(b + d));
    Three(c, s, DoBegin(b), DoSchedule(b + d), DoCheck(t), s1, s2, Checked(c, s, t));
    Snoc(c, s, [DoBegin(b), DoSchedule(b + d), DoCheck(t)], Checked(c, s, t), DoDrain);
  }

  function EmptySteps(c: Config, s: State, t: int): seq<Step> {
    [DoBegin(s.clock + Tick(c)), DoSchedule(s.clock + 2 * Tick(c)), DoCheck(t)] + [DoDrain]
  }

  /** After the last check, at time t, of a phase without a send. */
  function Checked(c: Config, s: State, t: int): State {
    s.(clock := t, deadline := s.clock + Tick(c) + c.duration.At(s.phase),
       started := s.clock + 2 * Tick(c), nextSend := s.clock + 2 * Tick(c), pc := Drain)
  }

  /** The only message of a run so far. */
  predicate OneMessage(s: State, t: State, ts: int, status: Status) {
    && t.msgs == [Msg(s.phase, ts, status, true)]
    && t.phase == s.phase && t.gate == s.gate && t.log == s.log && t.consumer == s.consumer && t.stop == s.stop
  }

  /** From the start of a phase to the first passed check. */
  lemma FirstCheck(c: Config, s: State) returns (steps: seq<Step>, t: State)
    requires s.pc.Begin? && Tick(c) * 2 < c.duration.At(s.phase)
    ensures Leads(c, s, steps, t)
    ensures var d := Tick(c);
            t == s.(clock := s.clock + 3 * d, deadline := s.clock + d + c.duration.At(s.phase),
                    started := s.clock + 2 * d, nextSend := s.clock + 2 * d,
                    pc := if Interval(c, s.phase) == 0 then Acquire else Pace)
  {
    hide PerPhase.At, PerPhase.With, Interval;
    var b, d := s.clock + Tick(c), Tick(c);
    var s1 := Apply(c, s, DoBegin(b));
    var s2 := Apply(c, s1, DoSchedule(b + d));
    t := Apply(c, s2, DoCheck(b + 2 * d));
    Three(c, s, DoBegin(b), DoSchedule(b + d), DoCheck(b + 2 * d), s1, s2, t);
    steps := [DoBegin(b), DoSchedule(b + d), DoCheck(b + 2 * d)];
  }

  /** From there to the permit; the first slot has come. */
  lemma Acquired(c: Config, s: State) returns (steps: seq<Step>, t: State)
    requires s.pc == (if Interval(c, s.phase) == 0 then Acquire else Pace)
    requires s.nextSend <= s.clock && 0 < s.permits.At(s.phase)
    ensures Leads(c, s, steps, t) && s.clock <= t.clock <= s.clock + Tick(c)
    ensures t == s.(clock := t.clock, nextSend := t.nextSend, pc := Stamp, permits := t.permits)
  {
    hide PerPhase.At, PerPhase.With;
    if Interval(c, s.phase) == 0 {
      Single(c, s, DoAcquire);
      steps, t := [DoAcquire], Apply(c, s, DoAcquire);
    } else {
      var s1 := Apply(c, s, DoPace(s.clock + Tick(c)));
      Single(c, s, DoPace(s.clock + Tick(c)));
      Snoc(c, s, [DoPace(s.clock + Tick(c))], s1, DoAcquire);
      steps, t := [DoPace(s.clock + Tick(c))] + [DoAcquire], Apply(c, s1, DoAcquire);
    }
  }

  /** From the start of a phase to its first stamp. */
  lemma Admitted(c: Config, s: State) returns (steps: seq<Step>, t: State)
    requires s.pc.Begin? && 0 < s.permits.At(s.phase) && Tick(c) * 2 < c.duration.At(s.phase)
    ensures Leads(c, s, steps, t)
    ensures s.clock <= t.clock <= s.clock + 4 * Tick(c)
    ensures t == s.(clock := t.clock, deadline := s.clock + Tick(c) + c.duration.At(s.phase), started := t.started,
                    nextSend := t.nextSend, pc := Stamp, permits := t.permits)
  {
    hide Leads;
    var before, s1 := FirstCheck(c, s);
    var after, s2 := Acquired(c, s1);
    Then(c, s, before, s1, after, s2);
    steps, t := before + after, s2;
  }

  /** The stamped message in the producer's hands. */
  lemma StampedAndCounted(c: Config, s: State, ts: int) returns (t: State)
    requires s.pc.Stamp? && s.msgs == [] && s.clock + Tick(c) <= ts
    ensures Leads(c, s, [DoStamp(ts)] + [DoCount], t)
    ensures t == s.(clock := ts, pc := Enter, msgs := [Msg(s.phase, ts, Ready, false)], counters := t.counters)
  {
    hide PerPhase.At, PerPhase.With, GateAdmits;
    var s1 := Apply(c, s, DoStamp(ts));
    assert s1 == s.(clock := ts, pc := Count, msgs := [Msg(s.phase, ts, Stamped, false)]);
    Single(c, s, DoStamp(ts));
    t := Apply(c, s1, DoCount);
    Snoc(c, s, [DoStamp(ts)], s1, DoCount);
  }

  lemma EnteredAndAccepted(c: Config, s: State, ts: int) returns (t: State)
    requires s.pc.Enter? && s.msgs == [Msg(s.phase, ts, Ready, false)]
    ensures Leads(c, s, [DoEnter] + [DoAccept], t)
    ensures t == s.(pc := InAdapter, msgs := [Msg(s.phase, ts, InFlight, true)])
  {
    var s1 := Apply(c, s, DoEnter);
    assert s1 == s.(pc := InAdapter, msgs := [Msg(s.phase, ts, InCall, false)]);
    Single(c, s, DoEnter);
    t := Apply(c, s1, DoAccept);
    Snoc(c, s, [DoEnter], s1, DoAccept);
  }

  /** From the stamp to the library's acceptance. */
  lemma Accepted(c: Config, s: State, ts: int) returns (steps: seq<Step>, t: State)
    requires s.pc.Stamp? && s.msgs == [] && s.clock + Tick(c) <= ts
    ensures Leads(c, s, steps, t)
    ensures t.pc.InAdapter? && t.clock == ts && t.deadline == s.deadline && OneMessage(s, t, ts, InFlight)
  {
    hide Leads;
    var s1 := StampedAndCounted(c, s, ts);
    t := EnteredAndAccepted(c, s1, ts);
    steps := [DoStamp(ts)] + [DoCount] + ([DoEnter] + [DoAccept]);
    Then(c, s, [DoStamp(ts)] + [DoCount], s1, [DoEnter] + [DoAccept], t);
  }

  /** The first send of a run, stamped ts. */
  lemma Submitted(c: Config, s: State, ts: int) returns (steps: seq<Step>, t: State)
    requires s.pc.Begin? && s.msgs == [] && 0 < s.permits.At(s.phase)
    requires Tick(c) * 2 < c.duration.At(s.phase) && s.clock + 5 * Tick(c) <= ts
    ensures Leads(c, s, steps, t) && OneMessage(s, t, ts, InFlight)
    ensures t.pc.InAdapter? && t.clock == ts && t.deadline == s.clock + Tick(c) + c.duration.At(s.phase)
  {
    hide Leads;
    var before, s1 := Admitted(c, s);
    var after, s2 := Accepted(c, s1, ts);
    Then(c, s, before, s1, after, s2);
    steps, t := before + after, s2;
  }

  /** The same state but for clock, permits, counters and the status of its one message. */
  predicate SameBut(t: State, u: State, status: Status) {
    && |t.msgs| == 1 && u.msgs == [t.msgs[0].(status := status)]
    && u == t.(clock := u.clock, permits := u.permits, counters := u.counters, msgs := u.msgs)
  }

  lemma CallStep(c: Config, t: State, back: int) returns (u: State)
    requires |t.msgs| == 1 && t.msgs[0].status.InFlight? && t.clock + Tick(c) <= back
    ensures Leads(c, t, [CallBack(0, false, back)], u)
    ensures SameBut(t, u, Acking(false, back - t.msgs[0].ts)) && u.clock == back
  {
    u := Apply(c, t, CallBack(0, false, back));
    Single(c, t, CallBack(0, false, back));
  }

  lemma ReleaseStep(c: Config, t: State, latency: int) returns (u: State)
    requires |t.msgs| == 1 && t.msgs[0].status == Acking(false, latency)
    ensures Leads(c, t, [CallbackRelease(0)], u)
    ensures SameBut(t, u, Released(false, latency)) && u.clock == t.clock
  {
    hide PerPhase.At, PerPhase.With;
    u := Apply(c, t, CallbackRelease(0));
    Single(c, t, CallbackRelease(0));
  }

  lemma CountStep(c: Config, t: State, latency: int) returns (u: State)
    requires |t.msgs| == 1 && t.msgs[0].status == Released(false, latency)
    ensures Leads(c, t, [CallbackCount(0)], u)
    ensures SameBut(t, u, Settled(false, GateAdmits(t.gate, t.msgs[0].ts), latency)) && u.clock == t.clock
  {
    hide PerPhase.At, PerPhase.With, AfterCallback, GateAdmits;
    u := Apply(c, t, CallbackCount(0));
    Single(c, t, CallbackCount(0));
  }

  /** Its callback, as soon as it can be. */
  lemma CalledBack(c: Config, s: State, t: State) returns (steps: seq<Step>, u: State)
    requires t.pc.InAdapter? && OneMessage(s, t, t.clock, InFlight)
    ensures Leads(c, t, steps, u) && u.pc.InAdapter? && u.clock == t.clock + Tick(c) && u.deadline == t.deadline
    ensures OneMessage(s, u, t.clock, Settled(false, GateAdmits(s.gate, t.clock), Tick(c)))
  {
    hide Leads, GateAdmits;
    var back := t.clock + Tick(c);
    var t1 := CallStep(c, t, back);
    var t2 := ReleaseStep(c, t1, Tick(c));
    u := CountStep(c, t2, Tick(c));
    Then(c, t, [CallBack(0, false, back)], t1, [CallbackRelease(0)], t2);
    Then(c, t, [CallBack(0, false, back)] + [CallbackRelease(0)], t2, [CallbackCount(0)], u);
    steps := [CallBack(0, false, back)] + [CallbackRelease(0)] + [CallbackCount(0)];
  }

  /**
   A phase that sends one message, stamped ts, and makes its last check at time `end`; `settle`: the callback comes
   before the drain.
   */
  lemma SendingPhase(c: Config, s: State, ts: int, end: int, settle: bool) returns (steps: seq<Step>, u: State)
    requires s.pc.Begin? && s.msgs == [] && 0 < s.permits.At(s.phase)
    requires Tick(c) * 2 < c.duration.At(s.phase) && s.clock + 5 * Tick(c) <= ts
    requires ts + 2 * Tick(c) <= end && s.clock + Tick(c) + c.duration.At(s.phase) <= end
    ensures Leads(c, s, steps, u) && u.pc.Drain? && u.clock == end
    ensures OneMessage(s, u, ts, if settle then Settled(false, GateAdmits(s.gate, ts), Tick(c)) else InFlight)
  {
    hide PerPhase.At, GateAdmits;
    var t: State;
    steps, t := Submitted(c, s, ts);
    if settle {
      var more, t' := CalledBack(c, s, t);
      Then(c, s, steps, t, more, t');
      steps, t := steps + more, t';
    }
    u := LastCheck(c, t, end);
    Then(c, s, steps, t, [DoReturn] + [DoCheck(end)], u);
    steps := steps + ([DoReturn] + [DoCheck(end)]);
  }

  lemma LastCheck(c: Config, t: State, end: int) returns (u: State)
    requires t.pc.InAdapter? && |t.msgs| == 1 && t.msgs[0].accepted && t.clock + Tick(c) <= end && t.deadline <= end
    ensures Leads(c, t, [DoReturn] + [DoCheck(end)], u)
    ensures u == t.(clock := end, pc := Drain)
  {
    var t1 := Apply(c, t, DoReturn);
    u := Apply(c, t1, DoCheck(end));
    Single(c, t, DoReturn);
    Snoc(c, t, [DoReturn], t1, DoCheck(end));
  }
}
