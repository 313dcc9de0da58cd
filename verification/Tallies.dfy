/** Counting the messages of a phase by how far they have come. */
module Tallies {
  import opened Metrics
  import opened Protocol

  datatype Tally = Holding | Outstanding | Produced | AckCounted | ErrorCounted | Uncounted | Uncollected

  predicate Is(m: Msg, p: Phase, k: Tally) {
    && m.phase == p
    && match k
       case Holding =>
         || m.status.Stamped? || m.status.Ready? || m.status.InCall? || m.status.InFlight?
         || m.status.Raised? || m.status.Acking?
       case Outstanding => m.status.InFlight? || m.status.Acking?          // with the library, or in the callback
       case Produced => !m.status.Stamped?
       case AckCounted => m.status.Settled? && m.status.counted
       case ErrorCounted => m.status.Settled? && m.status.failed
       case Uncounted => !m.status.Stamped? && !m.status.Settled?
       case Uncollected => m.status.Released? || m.status.RaiseReleased?   // permit back, result not counted
  }

  function One(m: Msg, p: Phase, k: Tally): nat { if Is(m, p, k) then 1 else 0 }

  function Tallied(msgs: seq<Msg>, p: Phase, k: Tally): nat {
    if msgs == [] then 0
    else Tallied(msgs[..|msgs| - 1], p, k) + One(msgs[|msgs| - 1], p, k)
  }

  lemma TalliedAppend(msgs: seq<Msg>, m: Msg, p: Phase, k: Tally)
    ensures Tallied(msgs + [m], p, k) == Tallied(msgs, p, k) + One(m, p, k)
  {
    assert (msgs + [m])[..|msgs|] == msgs;
  }

  lemma {:induction false} TalliedUpdate(msgs: seq<Msg>, i: nat, m: Msg, p: Phase, k: Tally)
    requires i < |msgs|
    ensures Tallied(msgs[i := m], p, k) == Tallied(msgs, p, k) - One(msgs[i], p, k) + One(m, p, k)
  {
    var n := |msgs| - 1;
    if i == n {
      assert msgs[i := m][..n] == msgs[..n];
    } else {
      assert msgs[i := m][..n] == msgs[..n][i := m];
      TalliedUpdate(msgs[..n], i, m, p, k);
    }
  }

  /** Some message is in a tally that is not zero. */
  lemma {:induction false} TalliedWitness(msgs: seq<Msg>, p: Phase, k: Tally) returns (i: nat)
    requires 0 < Tallied(msgs, p, k)
    ensures i < |msgs| && Is(msgs[i], p, k)
  {
    var n := |msgs| - 1;
    if Is(msgs[n], p, k) {
      i := n;
    } else {
      i := TalliedWitness(msgs[..n], p, k);
    }
  }

  /** Distinct messages of one tally are no more than the tally. */
  lemma {:induction false} TalliedBoundsSet(msgs: seq<Msg>, p: Phase, k: Tally, ids: set<nat>)
    requires forall i :: i in ids ==> i < |msgs| && Is(msgs[i], p, k)
    ensures |ids| <= Tallied(msgs, p, k)
  {
    if msgs == [] {
      assert ids == {};
    } else {
      var n := |msgs| - 1;
      var rest := ids - {n};
      TalliedBoundsSet(msgs[..n], p, k, rest);
      if n in ids {
        assert ids == rest + {n};
      } else {
        assert ids == rest;
      }
    }
  }

  /** One tally is the sum of three others when every single message adds up. */
  lemma {:induction false} TalliedSplit(msgs: seq<Msg>, p: Phase)
    requires forall i :: 0 <= i < |msgs| && msgs[i].phase == p && msgs[i].status.Settled? ==>
               msgs[i].status.counted == !msgs[i].status.failed
    ensures Tallied(msgs, p, Produced)
         == Tallied(msgs, p, AckCounted) + Tallied(msgs, p, ErrorCounted) + Tallied(msgs, p, Uncounted)
  {
    if msgs != [] {
      TalliedSplit(msgs[..|msgs| - 1], p);
    }
  }

  lemma {:induction false} UncountedBound(msgs: seq<Msg>, p: Phase)
    ensures Tallied(msgs, p, Uncounted) <= Tallied(msgs, p, Holding) + Tallied(msgs, p, Uncollected)
  {
    if msgs != [] {
      UncountedBound(msgs[..|msgs| - 1], p);
    }
  }

  lemma {:induction false} OutstandingHold(msgs: seq<Msg>, p: Phase)
    ensures Tallied(msgs, p, Outstanding) <= Tallied(msgs, p, Holding)
  {
    if msgs != [] {
      OutstandingHold(msgs[..|msgs| - 1], p);
    }
  }

  // ---- the ack histogram as the messages have it

  /** What a message has put into the ack histogram of phase p. */
  function AckSample(m: Msg, p: Phase): multiset<int> {
    if Is(m, p, AckCounted) && 0 < m.status.latency then multiset{Clamp(m.status.latency)} else multiset{}
  }

  function AckSamples(msgs: seq<Msg>, p: Phase): multiset<int> {
    if msgs == [] then multiset{}
    else AckSamples(msgs[..|msgs| - 1], p) + AckSample(msgs[|msgs| - 1], p)
  }

  lemma AckSamplesAppend(msgs: seq<Msg>, m: Msg, p: Phase)
    ensures AckSamples(msgs + [m], p) == AckSamples(msgs, p) + AckSample(m, p)
  {
    assert (msgs + [m])[..|msgs|] == msgs;
  }

  lemma AckSamplesLast(msgs: seq<Msg>, p: Phase)
    requires msgs != []
    ensures AckSamples(msgs, p) == AckSamples(msgs[..|msgs| - 1], p) + AckSample(msgs[|msgs| - 1], p)
  {
  }

  lemma AddLater(rest: multiset<int>, last: multiset<int>, x: multiset<int>)
    ensures rest + x + last == rest + last + x
  {
  }

  lemma {:induction false} AckSamplesUpdate(msgs: seq<Msg>, i: nat, m: Msg, p: Phase)
    requires i < |msgs| && AckSample(msgs[i], p) == multiset{}
    ensures AckSamples(msgs[i := m], p) == AckSamples(msgs, p) + AckSample(m, p)
  {
    hide AckSample, AckSamples;
    var n, after := |msgs| - 1, msgs[i := m];
    AckSamplesLast(msgs, p);
    AckSamplesLast(after, p);
    if i == n {
      assert after[..n] == msgs[..n];
    } else {
      assert after[..n] == msgs[..n][i := m];
      AckSamplesUpdate(msgs[..n], i, m, p);
      AddLater(AckSamples(msgs[..n], p), AckSample(msgs[n], p), AckSample(m, p));
    }
  }

  lemma {:induction false} NoneTallied(msgs: seq<Msg>, p: Phase, k: Tally)
    requires forall i :: 0 <= i < |msgs| ==> !Is(msgs[i], p, k)
    ensures Tallied(msgs, p, k) == 0
  {
    if msgs != [] {
      NoneTallied(msgs[..|msgs| - 1], p, k);
    }
  }
}
