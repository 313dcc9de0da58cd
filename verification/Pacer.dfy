/**
 The produce loop as seen by its clock: deadline check, absolute-schedule pacing, stamping (lines 89-104 of
 bench/runner.py). Every delay the environment imposes is an input; times are exact reals.
 */
module Pacer {

  /** The delays around one iteration. */
  datatype Delays = Delays(
    check: real,        // from the loop head to the deadline check's clock reading
    arrive: real,       // from there to the pacer's clock reading
    oversleep: real,    // by how much a sleep runs late
    acquire: real,      // from leaving the pacer to the stamp: the wait for a permit
    submit: real)       // from the stamp to the next loop head

  /** One call: its first two clock readings, its duration and 1/target_rate, or 0 without a rate. */
  datatype Call = Call(begun: real, start: real, duration: real, interval: real, delays: seq<Delays>)

  ghost predicate Valid(c: Call) {
    && c.begun <= c.start
    && forall i :: 0 <= i < |c.delays| ==>
         var d := c.delays[i];
         0.0 <= d.check && 0.0 <= d.arrive && 0.0 <= d.oversleep && 0.0 <= d.acquire && 0.0 <= d.submit
  }

  function Max(x: real, y: real): real { if x < y then y else x }

  function Deadline(c: Call): real { c.begun + c.duration }

  /** `next_send` in iteration k, after k additions of the interval. */
  function NextSend(c: Call, k: nat): real {
    if k == 0 then c.start else NextSend(c, k - 1) + c.interval
  }

  function Head(c: Call, k: nat): real
    requires k <= |c.delays|
    decreases k, 0
  {
    if k == 0 then c.start else Stamped(c, k - 1) + c.delays[k - 1].submit
  }

  /** The reading compared with the deadline. */
  function Checked(c: Call, k: nat): real
    requires k < |c.delays|
    decreases k, 1
  {
    Head(c, k) + c.delays[k].check
  }

  /** The reading compared with next_send. */
  function Arrived(c: Call, k: nat): real
    requires k < |c.delays|
    decreases k, 2
  {
    Checked(c, k) + c.delays[k].arrive
  }

  /** When iteration k leaves the pacer. */
  function Left(c: Call, k: nat): real
    requires k < |c.delays|
    decreases k, 3
  {
    if c.interval == 0.0 then Arrived(c, k)
    else if Arrived(c, k) < NextSend(c, k) then NextSend(c, k) + c.delays[k].oversleep
    else Arrived(c, k)
  }

  function Stamped(c: Call, k: nat): real
    requires k < |c.delays|
    decreases k, 4
  {
    Left(c, k) + c.delays[k].acquire
  }

  datatype Send = Send(left: real, stamp: real)

  /** The loop. It ends at the deadline, or where the given delays end. */
  method Produce(c: Call) returns (sends: seq<Send>, finished: bool)
    requires Valid(c)
    ensures |sends| <= |c.delays|
    ensures forall k :: 0 <= k < |sends| ==> sends[k] == Send(Left(c, k), Stamped(c, k))
    ensures forall k :: 0 <= k < |sends| ==> Checked(c, k) < c.begun + c.duration
    ensures finished <==> |sends| < |c.delays|
    ensures finished ==> c.begun + c.duration <= Checked(c, |sends|)
  {
    var deadline := c.begun + c.duration;
    var nextSend, time := c.start, c.start;
    sends, finished := [], false;
    while |sends| < |c.delays|
      invariant |sends| <= |c.delays|
      invariant nextSend == NextSend(c, |sends|)
      invariant time == Head(c, |sends|)
      invariant forall k :: 0 <= k < |sends| ==> sends[k] == Send(Left(c, k), Stamped(c, k))
      invariant forall k :: 0 <= k < |sends| ==> Checked(c, k) < Deadline(c)
    {
      var d := c.delays[|sends|];
      time := time + d.check;
      if time >= deadline {
        finished := true;
        return;
      }
      time := time + d.arrive;
      assert time == Arrived(c, |sends|);
      var left := time;
      if c.interval != 0.0 {
        if time < nextSend {
          left := nextSend + d.oversleep;
        }
        nextSend := nextSend + c.interval;
      }
      time := left + d.acquire;
      assert left == Left(c, |sends|) && time == Stamped(c, |sends|);
      sends := sends + [Send(left, time)];
      time := time + d.submit;
      assert Head(c, |sends|) == Stamped(c, |sends| - 1) + d.submit;
    }
  }

  // ---- the max-plus closed form

  /** w_i: the time from leaving the pacer in iteration i to reaching it again. */
  function Gap(c: Call, i: nat): real
    requires i + 1 < |c.delays|
  {
    c.delays[i].acquire + c.delays[i].submit + c.delays[i + 1].check + c.delays[i + 1].arrive
  }

  /** The sum of the gaps from iteration j up to, not including, k. */
  function Gaps(c: Call, j: nat, k: nat): real
    requires j <= k <= |c.delays| && (k == |c.delays| ==> j == k)
  {
    if j == k then 0.0 else Gaps(c, j, k - 1) + Gap(c, k - 1)
  }

  /** Leaving at slot j and never waiting for the schedule again. */
  function FromSlot(c: Call, j: nat, k: nat): real
    requires j <= k < |c.delays|
  {
    NextSend(c, j) + Gaps(c, j, k)
  }

  /** Never waiting for the schedule at all. */
  function FromArrival(c: Call, k: nat): real
    requires k < |c.delays|
  {
    Arrived(c, 0) + Gaps(c, 0, k)
  }

  ghost predicate ExactSleeps(c: Call) {
    forall i :: 0 <= i < |c.delays| ==> c.delays[i].oversleep == 0.0
  }

  /** With a rate: the later of arrival and slot, and a sleep that runs late on top. */
  lemma LeftIsMax(c: Call, k: nat)
    requires Valid(c) && c.interval != 0.0 && k < |c.delays|
    ensures Left(c, k) == Max(Arrived(c, k), NextSend(c, k))
                          + if Arrived(c, k) < NextSend(c, k) then c.delays[k].oversleep else 0.0
    ensures 0 < k ==> Arrived(c, k) == Left(c, k - 1) + Gap(c, k - 1)
  {
    if 0 < k {
      assert Head(c, k) == Stamped(c, k - 1) + c.delays[k - 1].submit;
      assert Stamped(c, k - 1) == Left(c, k - 1) + c.delays[k - 1].acquire;
      assert Arrived(c, k) == Head(c, k) + c.delays[k].check + c.delays[k].arrive;
    }
  }

  /** The k-th send time is the latest of what arrivals and every earlier slot force, and one of them is tight. */
  lemma {:induction false} ClosedForm(c: Call, k: nat) returns (tight: int)
    requires Valid(c) && ExactSleeps(c) && c.interval != 0.0 && k < |c.delays|
    ensures FromArrival(c, k) <= Left(c, k)
    ensures forall j :: 0 <= j <= k ==> FromSlot(c, j, k) <= Left(c, k)
    ensures -1 <= tight <= k && tight != 0
    ensures Left(c, k) == if tight < 0 then FromArrival(c, k) else FromSlot(c, tight, k)
  {
    LeftIsMax(c, k);
    if k == 0 {
      tight := -1;
    } else {
      var before := ClosedForm(c, k - 1);
      forall j | 0 <= j <= k
        ensures FromSlot(c, j, k) <= Left(c, k)
      {
        if j < k {
          assert FromSlot(c, j, k) == FromSlot(c, j, k - 1) + Gap(c, k - 1);
        }
      }
      assert FromSlot(c, k, k) == NextSend(c, k);
      tight := if Arrived(c, k) < NextSend(c, k) then k else before;
    }
  }

  /** All delays before iteration k. */
  function Spent(c: Call, k: nat): real
    requires k <= |c.delays|
  {
    if k == 0 then 0.0
    else
      var d := c.delays[k - 1];
      Spent(c, k - 1) + d.check + d.arrive + d.acquire + d.submit
  }

  /** Without a rate nothing waits: the k-th send leaves when the delays before it are over. */
  lemma {:induction false} WithoutRate(c: Call, k: nat)
    requires c.interval == 0.0 && k < |c.delays|
    ensures Left(c, k) == c.start + Spent(c, k) + c.delays[k].check + c.delays[k].arrive
    ensures Stamped(c, k) == Left(c, k) + c.delays[k].acquire
  {
    if k != 0 {
      WithoutRate(c, k - 1);
      assert Head(c, k) == Stamped(c, k - 1) + c.delays[k - 1].submit;
    }
    assert Left(c, k) == Arrived(c, k) == Checked(c, k) + c.delays[k].arrive;
    assert Checked(c, k) == Head(c, k) + c.delays[k].check;
  }

  // ---- bounds

  /** `next_send` walks through the multiples of the interval. */
  lemma {:induction false} NextSendIsMultiple(c: Call, k: nat)
    ensures NextSend(c, k) == c.start + c.interval * k as real
  {
    if k != 0 {
      NextSendIsMultiple(c, k - 1);
      var y := (k - 1) as real;
      assert k as real == y + 1.0;
      assert c.interval * k as real == c.interval * y + c.interval by { OneMore(c.interval, y, k as real); }
    }
  }

  lemma OneMore(x: real, y: real, z: real)
    requires z == y + 1.0
    ensures x * z == x * y + x
  {
  }

  /** No send leaves before its slot, late sleeps included. */
  lemma NeverEarly(c: Call, k: nat)
    requires Valid(c) && c.interval != 0.0 && k < |c.delays|
    ensures c.start + c.interval * k as real <= Left(c, k)
  {
    NextSendIsMultiple(c, k);
    assert NextSend(c, k) <= Left(c, k);
  }

  ghost predicate GapsWithin(c: Call, delta: real) {
    forall i :: 0 <= i && i + 1 < |c.delays| ==> Gap(c, i) <= delta
  }

  lemma {:induction false} SlotDrift(c: Call, k: nat, delta: real)
    requires Valid(c) && ExactSleeps(c) && c.interval != 0.0 && k < |c.delays|
    requires delta <= c.interval
    requires Arrived(c, 0) <= c.start + delta
    requires GapsWithin(c, delta)
    ensures NextSend(c, k) <= Left(c, k) <= NextSend(c, k) + delta
  {
    LeftIsMax(c, k);
    assert c.start <= Arrived(c, 0);
    if k != 0 {
      SlotDrift(c, k - 1, delta);
      assert Gap(c, k - 1) <= delta;
    }
  }

  /**
   If the first arrival is within delta of the start and each later one of its predecessor, no send is more than
   delta late.
   */
  lemma DriftBounded(c: Call, k: nat, delta: real)
    requires Valid(c) && ExactSleeps(c) && c.interval != 0.0 && k < |c.delays|
    requires delta <= c.interval
    requires Arrived(c, 0) <= c.start + delta
    requires GapsWithin(c, delta)
    ensures c.start + c.interval * k as real <= Left(c, k) <= c.start + c.interval * k as real + delta
  {
    SlotDrift(c, k, delta);
    NextSendIsMultiple(c, k);
  }

  lemma {:induction false} TimeRuns(c: Call, k: nat)
    requires Valid(c) && k < |c.delays|
    ensures c.start <= Checked(c, k) <= Arrived(c, k) <= Left(c, k) <= Stamped(c, k)
    ensures 0 < k ==> Stamped(c, k - 1) <= Checked(c, k)
  {
    if k != 0 {
      TimeRuns(c, k - 1);
    }
  }

  lemma SlotBeforeDeadline(c: Call, k: nat)
    requires Valid(c) && c.interval != 0.0 && k + 1 < |c.delays|
    requires Checked(c, k + 1) < Deadline(c)
    ensures NextSend(c, k) < c.start + c.duration
  {
    TimeRuns(c, k);
    TimeRuns(c, k + 1);
    assert NextSend(c, k) <= Left(c, k);
  }

  lemma NegativeMultiple(x: real, k: int)
    requires 0.0 < x && k < 0
    ensures x * k as real < 0.0
  {
    assert x * (-k) as real > 0.0;
  }

  /** N attempted sends with a rate: N - 2 intervals fit strictly into the duration. */
  lemma SendBound(c: Call, n: nat)
    requires Valid(c) && 0.0 < c.interval && 0.0 <= c.duration && n <= |c.delays|
    requires forall k :: 0 <= k < n ==> Checked(c, k) < Deadline(c)
    ensures c.interval * (n - 2) as real < c.duration
  {
    hide NextSend, Checked, Deadline, Valid;
    if n < 2 {
      NegativeMultiple(c.interval, n - 2);
    } else {
      SlotBeforeDeadline(c, n - 2);
      NextSendIsMultiple(c, n - 2);
    }
  }

  /** A call with this rate and duration that attempts n sends. */
  ghost predicate Sends(c: Call, interval: real, duration: real, n: nat) {
    && Valid(c) && c.interval == interval && c.duration == duration && n <= |c.delays|
    && forall k :: 0 <= k < n ==> Checked(c, k) < Deadline(c)
  }

  /** A call whose environment delays nothing. */
  function Undelayed(interval: real, duration: real, n: nat): Call {
    Call(0.0, 0.0, duration, interval, seq(n, _ => Delays(0.0, 0.0, 0.0, 0.0, 0.0)))
  }

  /** It sends at its slots, and passes each check when it has made the send before. */
  lemma {:induction false} UndelayedTimes(interval: real, duration: real, n: nat, k: nat)
    requires 0.0 < interval && k < n
    ensures var c := Undelayed(interval, duration, n);
            && Left(c, k) == NextSend(c, k)
            && Checked(c, k) == if k == 0 then 0.0 else NextSend(c, k - 1)
  {
    var c := Undelayed(interval, duration, n);
    assert c.delays[k] == Delays(0.0, 0.0, 0.0, 0.0, 0.0);
    assert Checked(c, k) == Head(c, k) && Arrived(c, k) == Head(c, k);
    if k != 0 {
      UndelayedTimes(interval, duration, n, k - 1);
      assert c.delays[k - 1] == Delays(0.0, 0.0, 0.0, 0.0, 0.0);
      assert Head(c, k) == Stamped(c, k - 1) == Left(c, k - 1);
    }
  }

  lemma SlotsOrdered(interval: real, m: int, n: int)
    requires 0.0 < interval && m <= n
    ensures interval * m as real <= interval * n as real
  {
    assert interval * (n - m) as real >= 0.0;
  }

  lemma UndelayedSends(interval: real, duration: real, n: nat)
    requires 0.0 < interval && 0.0 < duration && interval * (n - 2) as real < duration
    ensures Sends(Undelayed(interval, duration, n), interval, duration, n)
  {
    var c := Undelayed(interval, duration, n);
    forall k | 0 <= k < n
      ensures Checked(c, k) < Deadline(c)
    {
      hide NextSend, Checked, Left;
      UndelayedTimes(interval, duration, n, k);
      if k != 0 {
        NextSendIsMultiple(c, k - 1);
        SlotsOrdered(interval, k - 1, n - 2);
      }
    }
  }

  /** N sends can be attempted exactly if the bound allows them: it is attained for every rate and duration. */
  lemma SendsPossibleIff(interval: real, duration: real, n: nat)
    requires 0.0 < interval && 0.0 < duration
    ensures (exists c :: Sends(c, interval, duration, n)) <==> interval * (n - 2) as real < duration
  {
    if c :| Sends(c, interval, duration, n) {
      SendBound(c, n);
    } else if interval * (n - 2) as real < duration {
      UndelayedSends(interval, duration, n);
    }
  }

  /** With N - 1 in its place, some call of N sends breaks the bound exactly if N is the most that SendBound allows. */
  lemma TighterBoundFailsIff(interval: real, duration: real, n: nat)
    requires 0.0 < interval && 0.0 < duration
    ensures (exists c :: Sends(c, interval, duration, n) && !(c.interval * (n - 1) as real < c.duration))
            <==> interval * (n - 2) as real < duration <= interval * (n - 1) as real
  {
    if c :| Sends(c, interval, duration, n) && !(c.interval * (n - 1) as real < c.duration) {
      SendBound(c, n);
    } else if interval * (n - 2) as real < duration <= interval * (n - 1) as real {
      UndelayedSends(interval, duration, n);
    }
  }

  /** And there is such an N for every rate and duration. */
  lemma SendBoundIsTight(interval: real, duration: real) returns (n: nat)
    requires 0.0 < interval && 0.0 < duration
    ensures 2 <= n && interval * (n - 2) as real < duration <= interval * (n - 1) as real
    ensures exists c :: Sends(c, interval, duration, n) && !(c.interval * (n - 1) as real < c.duration)
  {
    var slot := LastSlot(interval, duration, 1, (duration / interval).Floor);
    n := slot + 1;
    TighterBoundFailsIff(interval, duration, n);
  }

  /** The first slot from m on that is not before the end of the duration; it is at most `left` slots away. */
  lemma {:induction false} LastSlot(interval: real, duration: real, m: nat, left: int) returns (slot: nat)
    requires 0.0 < interval && interval * (m - 1) as real < duration
    requires duration / interval < (m + left) as real
    ensures m <= slot && interval * (slot - 1) as real < duration <= interval * slot as real
    decreases left
  {
    if duration <= interval * m as real {
      slot := m;
    } else {
      QuotientBelow(interval, duration, m, left);
      slot := LastSlot(interval, duration, m + 1, left - 1);
    }
  }

  lemma ScaledOrder(x: real, y: real, c: real)
    requires 0.0 < c
    ensures x <= y ==> x * c <= y * c
  {
    if x <= y {
      assert (y - x) * c >= 0.0;
    }
  }

  lemma QuotientBelow(interval: real, duration: real, m: nat, left: int)
    requires 0.0 < interval && interval * m as real < duration
    requires duration / interval < (m + left) as real
    ensures 0 < left
  {
    var q := duration / interval;
    assert q * interval == duration;
    ScaledOrder(q, m as real, interval);
  }

  /** With or without a rate, only the last message of a call can be stamped at or after the deadline. */
  lemma OneOvershoot(c: Call, n: nat, k: nat)
    requires Valid(c) && n <= |c.delays| && k < n
    requires forall i :: 0 <= i < n ==> Checked(c, i) < Deadline(c)
    requires Deadline(c) <= Stamped(c, k)
    ensures k == n - 1
  {
    if k + 1 < n {
      TimeRuns(c, k + 1);
    }
  }
}
