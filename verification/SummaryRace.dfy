/** `ResourceSampler.summary` reading the sample list while the sampler thread may still append to it. */
module SummaryRace {
  import opened Sorting
  import opened Sampler

  /** The next action of the reader: each comprehension looks at one element at a time until it finds no more. */
  datatype Reader = CheckEmpty | ReadUsers | ReadSystems | ReadRss | ReadLength | Done | Empty

  datatype Race = Race(samples: seq<Sample>, reader: Reader,
                       users: seq<real>, systems: seq<real>, rss: seq<real>, count: nat)

  datatype Action = Append(x: Sample) | Read

  function Start(samples: seq<Sample>): Race { Race(samples, CheckEmpty, [], [], [], 0) }

  function User(x: Sample): real { x.userPct }
  function System(x: Sample): real { x.systemPct }
  function Bytes(x: Sample): real { x.rss as real }

  function Act(r: Race, a: Action): Race {
    match a
    case Append(x) => r.(samples := r.samples + [x])
    case Read =>
      match r.reader
      case CheckEmpty => r.(reader := if r.samples == [] then Empty else ReadUsers)
      case ReadUsers =>
        if |r.users| < |r.samples| then r.(users := r.users + [User(r.samples[|r.users|])])
        else r.(reader := ReadSystems)
      case ReadSystems =>
        if |r.systems| < |r.samples| then r.(systems := r.systems + [System(r.samples[|r.systems|])])
        else r.(reader := ReadRss)
      case ReadRss =>
        if |r.rss| < |r.samples| then r.(rss := r.rss + [Bytes(r.samples[|r.rss|])])
        else r.(reader := ReadLength)
      case ReadLength => r.(count := |r.samples|, reader := Done)
      case Done => r
      case Empty => r
  }

  function ActAll(r: Race, actions: seq<Action>): Race {
    if actions == [] then r else Act(ActAll(r, actions[..|actions| - 1]), actions[|actions| - 1])
  }

  /** The first n values of a column. */
  function Column(f: Sample -> real, samples: seq<Sample>, n: nat): seq<real>
    requires n <= |samples|
  {
    Map(f, samples[..n])
  }

  predicate Prefix(f: Sample -> real, values: seq<real>, samples: seq<Sample>) {
    |values| <= |samples| && values == Column(f, samples, |values|)
  }

  predicate Passed(r: Race, stage: Reader) {
    match stage
    case ReadUsers => r.reader.ReadSystems? || r.reader.ReadRss? || r.reader.ReadLength? || r.reader.Done?
    case ReadSystems => r.reader.ReadRss? || r.reader.ReadLength? || r.reader.Done?
    case ReadRss => r.reader.ReadLength? || r.reader.Done?
    case _ => r.reader.Done?
  }

  predicate Inv(r: Race) {
    && Prefix(User, r.users, r.samples) && Prefix(System, r.systems, r.samples) && Prefix(Bytes, r.rss, r.samples)
    && (r.reader.ReadUsers? ==> r.samples != [])
    && (if Passed(r, ReadUsers) then r.users != [] else r.systems == [])
    && (if Passed(r, ReadSystems) then |r.users| <= |r.systems| else r.rss == [])
    && (Passed(r, ReadRss) ==> |r.systems| <= |r.rss|)
    && (r.reader.Done? ==> |r.rss| <= r.count <= |r.samples|)
  }

  lemma PrefixGrows(f: Sample -> real, values: seq<real>, samples: seq<Sample>, x: Sample)
    requires Prefix(f, values, samples)
    ensures Prefix(f, values, samples + [x])
    ensures |values| < |samples| ==> Prefix(f, values + [f(samples[|values|])], samples)
  {
    var n := |values|;
    assert (samples + [x])[..n] == samples[..n];
    if n < |samples| {
      assert samples[..n + 1] == samples[..n] + [samples[n]];
    }
  }

  lemma ActKeepsInv(r: Race, a: Action)
    requires Inv(r)
    ensures Inv(Act(r, a))
  {
    hide Prefix;
    var x := if a.Append? then a.x else Sample(0, 0.0, 0.0, 0);
    PrefixGrows(User, r.users, r.samples, x);
    PrefixGrows(System, r.systems, r.samples, x);
    PrefixGrows(Bytes, r.rss, r.samples, x);
    PrefixLength(User, r.users, r.samples);
    PrefixLength(System, r.systems, r.samples);
    PrefixLength(Bytes, r.rss, r.samples);
    match a case _ =>
  }

  lemma PrefixLength(f: Sample -> real, values: seq<real>, samples: seq<Sample>)
    requires Prefix(f, values, samples)
    ensures |values| <= |samples|
  {
  }

  lemma {:induction false} InvAll(samples: seq<Sample>, actions: seq<Action>)
    ensures Inv(ActAll(Start(samples), actions))
  {
    if actions == [] {
      assert samples[..0] == [];
    } else {
      hide Inv, Act;
      InvAll(samples, actions[..|actions| - 1]);
      ActKeepsInv(ActAll(Start(samples), actions[..|actions| - 1]), actions[|actions| - 1]);
    }
  }

  /**
   Whatever is appended meanwhile, a finished summary works on non-empty prefixes of the sample list, each at least
   as long as the one before and none longer than the reported count.
   */
  lemma SummaryReadsPrefixes(samples: seq<Sample>, actions: seq<Action>)
    requires ActAll(Start(samples), actions).reader.Done?
    ensures var r := ActAll(Start(samples), actions);
            && 0 < |r.users| <= |r.systems| <= |r.rss| <= r.count <= |r.samples|
            && r.users == Column(User, r.samples, |r.users|)
            && r.systems == Column(System, r.samples, |r.systems|)
            && r.rss == Column(Bytes, r.samples, |r.rss|)
            && (forall i :: 0 <= i < |r.users| ==> r.users[i] == r.samples[i].userPct)
            && (forall i :: 0 <= i < |r.systems| ==> r.systems[i] == r.samples[i].systemPct)
            && (forall i :: 0 <= i < |r.rss| ==> r.rss[i] == r.samples[i].rss as real)
  {
    InvAll(samples, actions);
  }

  /** Each reported median has at least half of the values it was taken from on either side. */
  lemma SummaryMedians(samples: seq<Sample>, actions: seq<Action>)
    requires ActAll(Start(samples), actions).reader.Done?
    ensures var r := ActAll(Start(samples), actions);
            forall column :: column in [r.users, r.systems, r.rss] ==>
              && |column| <= 2 * |Filter(Stats.AtMost(Stats.Median(column)), column)|
              && |column| <= 2 * |Filter(Stats.AtLeast(Stats.Median(column)), column)|
  {
    hide ActAll, Stats.Median, Filter, Column;
    var r := ActAll(Start(samples), actions);
    SummaryReadsPrefixes(samples, actions);
    Stats.MedianHalves(r.users);
    Stats.MedianHalves(r.systems);
    Stats.MedianHalves(r.rss);
  }

  /** "No samples" is never reported once there is one, and the list only grows at its end. */
  lemma {:induction false} EmptyMeansEmptyAtCheck(samples: seq<Sample>, actions: seq<Action>)
    requires samples != []
    ensures !ActAll(Start(samples), actions).reader.Empty?
    ensures samples <= ActAll(Start(samples), actions).samples
  {
    if actions != [] {
      EmptyMeansEmptyAtCheck(samples, actions[..|actions| - 1]);
    }
  }
}
