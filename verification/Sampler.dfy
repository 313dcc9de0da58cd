/** The resource sampler of bench/metrics.py: a thread that turns CPU-time readings into percentages. */
module Sampler {
  import Stats = OrderStats
  import opened Sorting

  datatype Sample = Sample(timestampNs: int, userPct: real, systemPct: real, rss: int)

  /** A sample together with the wall time it covers. */
  datatype Timed = Timed(sample: Sample, elapsed: real)

  datatype Reading = NoReading | Rss(bytes: int)

  /** What one wake-up of the thread finds: wall clock, CPU times, resident size (or an error) and a timestamp. */
  datatype Tick = Tick(now: real, user: real, system: real, rss: Reading, timestampNs: int)

  datatype State = State(samples: seq<Timed>, lastUser: real, lastSystem: real, lastWall: real)

  function Percent(delta: real, elapsed: real): real
    requires elapsed != 0.0
  {
    100.0 * delta / elapsed
  }

  function SampleOf(s: State, t: Tick): Sample
    requires s.lastWall < t.now
  {
    var elapsed := t.now - s.lastWall;
    Sample(t.timestampNs, Percent(t.user - s.lastUser, elapsed), Percent(t.system - s.lastSystem, elapsed),
           match t.rss case NoReading => 0 case Rss(bytes) => bytes)
  }

  /** One pass of the loop body; without elapsed time it leaves everything for the next one. */
  function AfterTick(s: State, t: Tick): State {
    if t.now <= s.lastWall then s
    else State(s.samples + [Timed(SampleOf(s, t), t.now - s.lastWall)], t.user, t.system, t.now)
  }

  function AfterTicks(s: State, ticks: seq<Tick>): State {
    if ticks == [] then s else AfterTick(AfterTicks(s, ticks[..|ticks| - 1]), ticks[|ticks| - 1])
  }

  function Zip(samples: seq<Sample>, elapsed: seq<real>): (r: seq<Timed>)
    requires |samples| == |elapsed|
    ensures |r| == |samples| && forall i :: 0 <= i < |r| ==> r[i] == Timed(samples[i], elapsed[i])
  {
    seq(|samples|, i requires 0 <= i < |samples| => Timed(samples[i], elapsed[i]))
  }

  class ResourceSampler {
    var samples: seq<Sample>
    var lastUser: real
    var lastSystem: real
    var lastWall: real
    ghost var elapsed: seq<real>    // the wall time of each sample

    ghost predicate Valid()
      reads this
    {
      |elapsed| == |samples|
    }

    ghost function Value(): State
      reads this
      requires Valid()
    {
      State(Zip(samples, elapsed), lastUser, lastSystem, lastWall)
    }

    constructor (now: real)
      ensures Valid() && Value() == State([], 0.0, 0.0, now)
    {
      samples, elapsed := [], [];
      lastUser, lastSystem, lastWall := 0.0, 0.0, now;
    }

    method Start(user: real, system: real, now: real)
      requires Valid()
      modifies this
      ensures Valid() && Value() == State(old(Value()).samples, user, system, now)
    {
      lastUser, lastSystem, lastWall := user, system, now;
    }

    method Wake(t: Tick)
      requires Valid()
      modifies this
      ensures Valid() && Value() == AfterTick(old(Value()), t)
    {
      var gone := t.now - lastWall;
      if gone <= 0.0 {
        return;
      }
      var userDelta, systemDelta := t.user - lastUser, t.system - lastSystem;
      lastUser, lastSystem, lastWall := t.user, t.system, t.now;
      var rss := 0;
      if t.rss.Rss? {
        rss := t.rss.bytes;
      }
      samples := samples + [Sample(t.timestampNs, 100.0 * userDelta / gone, 100.0 * systemDelta / gone, rss)];
      elapsed := elapsed + [gone];
      assert Zip(samples, elapsed) == old(Zip(samples, elapsed)) + [Timed(samples[|samples| - 1], gone)];
    }

    /** The thread until it is stopped after the given wake-ups. */
    method Run(ticks: seq<Tick>)
      requires Valid()
      modifies this
      ensures Valid() && Value() == AfterTicks(old(Value()), ticks)
    {
      for i := 0 to |ticks|
        invariant Valid() && Value() == AfterTicks(old(Value()), ticks[..i])
      {
        Wake(ticks[i]);
        assert ticks[..i + 1][..i] == ticks[..i];
      }
      assert ticks[..|ticks|] == ticks;
    }
  }

  // ---- conservation

  function WallTime(samples: seq<Timed>): real {
    if samples == [] then 0.0 else WallTime(samples[..|samples| - 1]) + samples[|samples| - 1].elapsed
  }

  function UserPct(x: Timed): real { x.sample.userPct }

  function SystemPct(x: Timed): real { x.sample.systemPct }

  /** CPU seconds the samples stand for: percentage times wall time. */
  function CpuTime(pct: Timed -> real, samples: seq<Timed>): real {
    if samples == [] then 0.0
    else CpuTime(pct, samples[..|samples| - 1]) + pct(samples[|samples| - 1]) * samples[|samples| - 1].elapsed / 100.0
  }

  lemma PercentInverse(delta: real, elapsed: real)
    requires 0.0 < elapsed
    ensures Percent(delta, elapsed) * elapsed / 100.0 == delta
  {
    assert 100.0 * delta / elapsed * elapsed == 100.0 * delta;
  }

  lemma TickConserves(s: State, t: Tick)
    ensures var s' := AfterTick(s, t);
            && WallTime(s'.samples) - WallTime(s.samples) == s'.lastWall - s.lastWall
            && CpuTime(UserPct, s'.samples) - CpuTime(UserPct, s.samples) == s'.lastUser - s.lastUser
            && CpuTime(SystemPct, s'.samples) - CpuTime(SystemPct, s.samples) == s'.lastSystem - s.lastSystem
  {
    if s.lastWall < t.now {
      var elapsed := t.now - s.lastWall;
      PercentInverse(t.user - s.lastUser, elapsed);
      PercentInverse(t.system - s.lastSystem, elapsed);
      hide Percent;
      assert AfterTick(s, t).samples[..|s.samples|] == s.samples;
    }
  }

  /** Skipped wake-ups and failed readings lose nothing: the samples add up to the CPU and wall time since the start. */
  lemma {:induction false} Conservation(s: State, ticks: seq<Tick>)
    requires s.samples == []
    ensures var s' := AfterTicks(s, ticks);
            && WallTime(s'.samples) == s'.lastWall - s.lastWall
            && CpuTime(UserPct, s'.samples) == s'.lastUser - s.lastUser
            && CpuTime(SystemPct, s'.samples) == s'.lastSystem - s.lastSystem
            && (forall i :: 0 <= i < |s'.samples| ==> 0.0 < s'.samples[i].elapsed)
            && |s'.samples| <= |ticks|
  {
    if ticks != [] {
      var front := ticks[..|ticks| - 1];
      Conservation(s, front);
      TickConserves(AfterTicks(s, front), ticks[|ticks| - 1]);
    }
  }

  /** The wake-ups that make a sample: those whose clock is past that of the one before. */
  function Kept(wall: real, ticks: seq<Tick>): seq<Tick> {
    if ticks == [] then []
    else
      var front, t := Kept(wall, ticks[..|ticks| - 1]), ticks[|ticks| - 1];
      if (if front == [] then wall else front[|front| - 1].now) < t.now then front + [t] else front
  }

  /** What the sampler knew before the j-th sample. */
  function Before(s: State, kept: seq<Tick>, j: nat): (r: (real, real, real))
    requires j <= |kept|
  {
    if j == 0 then (s.lastWall, s.lastUser, s.lastSystem) else (kept[j - 1].now, kept[j - 1].user, kept[j - 1].system)
  }

  /** What a sample says of its wake-up: percentages of the wall time since the one before, the resident size, or 0. */
  predicate Says(x: Timed, before: (real, real, real), t: Tick) {
    && x.elapsed == t.now - before.0
    && x.sample.userPct * x.elapsed / 100.0 == t.user - before.1
    && x.sample.systemPct * x.elapsed / 100.0 == t.system - before.2
    && x.sample.timestampNs == t.timestampNs
    && x.sample.rss == (if t.rss.Rss? then t.rss.bytes else 0)
  }

  lemma SampleSays(s: State, t: Tick)
    requires s.lastWall < t.now
    ensures Says(Timed(SampleOf(s, t), t.now - s.lastWall), (s.lastWall, s.lastUser, s.lastSystem), t)
  {
    PercentInverse(t.user - s.lastUser, t.now - s.lastWall);
    PercentInverse(t.system - s.lastSystem, t.now - s.lastWall);
    hide Percent;
  }

  /** Sample j is from the j-th of the wake-ups kept, for all j. */
  ghost predicate AllSay(s: State, samples: seq<Timed>, kept: seq<Tick>) {
    && |samples| == |kept|
    && forall j :: 0 <= j < |kept| ==> Says(samples[j], Before(s, kept, j), kept[j])
  }

  lemma OneMoreSays(s: State, samples: seq<Timed>, kept: seq<Tick>, x: Timed, t: Tick)
    requires AllSay(s, samples, kept) && Says(x, Before(s, kept, |kept|), t)
    ensures AllSay(s, samples + [x], kept + [t])
    ensures Before(s, kept + [t], |kept| + 1) == (t.now, t.user, t.system)
  {
    hide Says;
    forall j | 0 <= j <= |kept|
      ensures Says((samples + [x])[j], Before(s, kept + [t], j), (kept + [t])[j])
    {
      assert Before(s, kept + [t], j) == Before(s, kept, j);
    }
  }

  /** The samples and the last readings are those of the wake-ups kept. */
  ghost predicate Follows(s: State, s': State, kept: seq<Tick>) {
    && AllSay(s, s'.samples, kept)
    && (s'.lastWall, s'.lastUser, s'.lastSystem) == Before(s, kept, |kept|)
  }

  lemma TickFollows(s: State, s1: State, kept: seq<Tick>, t: Tick)
    requires Follows(s, s1, kept)
    ensures var later := (if kept == [] then s.lastWall else kept[|kept| - 1].now) < t.now;
            Follows(s, AfterTick(s1, t), if later then kept + [t] else kept)
  {
    hide AllSay, Says, SampleOf;
    if s1.lastWall < t.now {
      SampleSays(s1, t);
      OneMoreSays(s, s1.samples, kept, Timed(SampleOf(s1, t), t.now - s1.lastWall), t);
    }
  }

  lemma NothingFollows(s: State)
    requires s.samples == []
    ensures Follows(s, s, [])
  {
  }

  /** Sample by sample: which wake-up it is from, and what it says about it. */
  lemma {:induction false} SamplesSay(s: State, ticks: seq<Tick>)
    requires s.samples == []
    ensures Follows(s, AfterTicks(s, ticks), Kept(s.lastWall, ticks))
  {
    hide Follows, AfterTick;
    if ticks != [] {
      var front := ticks[..|ticks| - 1];
      SamplesSay(s, front);
      TickFollows(s, AfterTicks(s, front), Kept(s.lastWall, front), ticks[|ticks| - 1]);
    } else {
      NothingFollows(s);
    }
  }

  lemma ScaledPeak(pct: real, peak: real, elapsed: real)
    requires pct <= peak && 0.0 <= elapsed
    ensures pct * elapsed / 100.0 <= peak * elapsed / 100.0
  {
    assert (peak - pct) * elapsed >= 0.0;
  }

  lemma {:induction false} TimeBelowPeak(pct: Timed -> real, samples: seq<Timed>, peak: real)
    requires forall i :: 0 <= i < |samples| ==> pct(samples[i]) <= peak && 0.0 < samples[i].elapsed
    ensures CpuTime(pct, samples) <= peak * WallTime(samples) / 100.0
    ensures samples != [] ==> 0.0 < WallTime(samples)
    ensures 0.0 <= WallTime(samples)
  {
    if samples == [] {
      assert peak * 0.0 == 0.0;
    } else {
      var n := |samples| - 1;
      TimeBelowPeak(pct, samples[..n], peak);
      ScaledPeak(pct(samples[n]), peak, samples[n].elapsed);
      assert peak * WallTime(samples) == peak * WallTime(samples[..n]) + peak * samples[n].elapsed;
    }
  }

  lemma BelowMax(pct: Timed -> real, samples: seq<Timed>)
    requires samples != []
    ensures forall i :: 0 <= i < |samples| ==> pct(samples[i]) <= Stats.Max(Map(pct, samples))
  {
    var pcts := Map(pct, samples);
    forall i | 0 <= i < |samples|
      ensures pct(samples[i]) <= Stats.Max(pcts)
    {
      assert pcts[i] in pcts;
    }
  }

  lemma PeakBoundsTime(pct: Timed -> real, s: State, ticks: seq<Tick>)
    requires s.samples == [] && AfterTicks(s, ticks).samples != []
    ensures var s' := AfterTicks(s, ticks); var wall := s'.lastWall - s.lastWall;
            0.0 < wall && Percent(CpuTime(pct, s'.samples), wall) <= Stats.Max(Map(pct, s'.samples))
  {
    hide AfterTicks, WallTime, CpuTime, Percent, Stats.Max, Map;
    var s' := AfterTicks(s, ticks);
    var peak := Stats.Max(Map(pct, s'.samples));
    Conservation(s, ticks);
    BelowMax(pct, s'.samples);
    TimeBelowPeak(pct, s'.samples, peak);
    AverageBelow(CpuTime(pct, s'.samples), s'.lastWall - s.lastWall, peak);
  }

  lemma AverageBelow(cpu: real, wall: real, peak: real)
    requires 0.0 < wall && cpu <= peak * wall / 100.0
    ensures Percent(cpu, wall) <= peak
  {
    var average := Percent(cpu, wall);
    assert average * wall == 100.0 * cpu;
    if peak < average {
      assert (average - peak) * wall > 0.0;
    }
  }

  /** The reported maxima are at least the true averages over the whole span. */
  lemma PeakAtLeastAverage(s: State, ticks: seq<Tick>)
    requires s.samples == [] && AfterTicks(s, ticks).samples != []
    ensures var s' := AfterTicks(s, ticks); var wall := s'.lastWall - s.lastWall;
            && 0.0 < wall
            && Percent(s'.lastUser - s.lastUser, wall) <= Stats.Max(Map(UserPct, s'.samples))
            && Percent(s'.lastSystem - s.lastSystem, wall) <= Stats.Max(Map(SystemPct, s'.samples))
  {
    hide AfterTicks, WallTime, CpuTime, Percent, Stats.Max, Map;
    Conservation(s, ticks);
    PeakBoundsTime(UserPct, s, ticks);
    PeakBoundsTime(SystemPct, s, ticks);
  }
}
