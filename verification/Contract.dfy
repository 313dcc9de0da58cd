/** What the produce loop assumes of one `produce_async` call and its `on_ack` callback. */
module Contract {

  datatype Submission =
    | Idle                      // the call has not been made
    | Calling                   // inside the call, the library has not taken the message
    | Owed(returned: bool)      // the library took the message, the callback is still to come
    | Fired(returned: bool)     // the callback has been called
    | Refused                   // the call raised: no callback will come

  /** One step. A callback may come before the call returns. */
  predicate Next(x: Submission, y: Submission) {
    || y == x
    || (x.Idle? && y.Calling?)
    || (x.Calling? && (y == Owed(false) || y.Refused?))
    || (x.Owed? && y == Fired(x.returned))
    || (x.Owed? && !x.returned && y == Owed(true))
    || (x.Fired? && !x.returned && y == Fired(true))
  }

  ghost predicate IsRun(run: seq<Submission>) {
    && run != []
    && run[0] in {Idle, Calling}
    && forall i :: 0 <= i < |run| - 1 ==> Next(run[i], run[i + 1])
  }

  /** How often the callback is called along a run. */
  function Firings(run: seq<Submission>): nat {
    if |run| < 2 then 0
    else Firings(run[..|run| - 1]) + (if !run[|run| - 2].Fired? && run[|run| - 1].Fired? then 1 else 0)
  }

  lemma FiringsStep(run: seq<Submission>)
    requires 2 <= |run|
    ensures Firings(run) == Firings(run[..|run| - 1]) +
            (if !run[|run| - 2].Fired? && run[|run| - 1].Fired? then 1 else 0)
  {
  }

  /** The callback comes at most once, exactly once by the time it is no longer owed, and never after a raise. */
  lemma {:induction false} AtMostOnce(run: seq<Submission>)
    requires IsRun(run)
    ensures Firings(run) == if run[|run| - 1].Fired? then 1 else 0
    ensures forall i :: 0 <= i < |run| && run[i].Refused? ==> run[|run| - 1].Refused?
  {
    if 1 < |run| {
      var front := run[..|run| - 1];
      AtMostOnce(front);
      assert run[|run| - 2] == front[|front| - 1];
      assert Next(run[|run| - 2], run[|run| - 1]);
      forall i | 0 <= i < |run| && run[i].Refused?
        ensures run[|run| - 1].Refused?
      {
        assert i < |front| ==> front[i].Refused?;
      }
    }
  }
}
