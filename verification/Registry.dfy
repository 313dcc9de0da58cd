/** All workloads of bench/config.py, and the cached lookup by name. */
module Registry {
  import opened Sorting
  import opened Grouping
  import opened Enumeration
  import opened Names
  import opened Matrix

  // ---- the other families

  datatype ThroughputAxes = ThroughputAxes(
    sizes: seq<nat>, compressions: seq<string>, partitions: seq<nat>, idempotence: seq<bool>)

  function ThroughputWorkload(l: FamilyLabel): Workload
    requires l.Throughput?
  {
    Workload(
      Name(Family(l)), "throughput", l.size, l.partitions, 64, 60,
      Producer(if l.idempotent then All else Level(1), 5, 65536, l.compression, l.idempotent,
               if l.idempotent then 5 else 64))
  }

  /** The workload of a label. */
  function WorkloadOf(l: FamilyLabel): Workload {
    match l
    case Throughput(_, _, _, _) => ThroughputWorkload(l)
    case ConsumerThroughput(size) =>
      Workload(Name(Family(l)), "consumer-throughput", size, 4, 64, 60, Producer(Level(1), 5, 65536, "none", false, 5))
    case FetchLatency(size) =>
      Workload(Name(Family(l)), "fetch-latency", size, 1, 1, 30, Producer(Level(1), 0, 1, "none", false, 5))
    case Rebalance =>
      Workload(Name(Family(l)), "rebalance", 1024, 8, 1, 60, Producer(Level(1), 5, 65536, "none", false, 5))
  }

  function PerFlag(size: nat, comp: string, partitions: nat): bool -> seq<FamilyLabel> {
    idem => [Throughput(size, comp, partitions, idem)]
  }

  function PerPartitions(x: ThroughputAxes, size: nat, comp: string): nat -> seq<FamilyLabel> {
    (partitions: nat) => Flat(PerFlag(size, comp, partitions), x.idempotence)
  }

  function PerCodec(x: ThroughputAxes, size: nat): string -> seq<FamilyLabel> {
    comp => Flat(PerPartitions(x, size, comp), x.partitions)
  }

  function PerMessageSize(x: ThroughputAxes): nat -> seq<FamilyLabel> {
    (size: nat) => Flat(PerCodec(x, size), x.compressions)
  }

  function ThroughputLabels(x: ThroughputAxes): seq<FamilyLabel> { Flat(PerMessageSize(x), x.sizes) }

  /** `_throughput_workloads`: four nested loops. */
  method ThroughputWorkloads(x: ThroughputAxes) returns (out: seq<Workload>)
    ensures out == Map(WorkloadOf, ThroughputLabels(x))
  {
    hide Flat, WorkloadOf;
    out := [];
    ghost var labels: seq<FamilyLabel> := [];
    FlatNone(PerMessageSize(x), x.sizes);
    for i := 0 to |x.sizes|
      invariant out == Map(WorkloadOf, labels) && labels == Flat(PerMessageSize(x), x.sizes[..i])
    {
      var size := x.sizes[i];
      ghost var labels1 := labels;
      FlatNone(PerCodec(x, size), x.compressions);
      for j := 0 to |x.compressions|
        invariant out == Map(WorkloadOf, labels) && labels == labels1 + Flat(PerCodec(x, size), x.compressions[..j])
      {
        var comp := x.compressions[j];
        ghost var labels2 := labels;
        FlatNone(PerPartitions(x, size, comp), x.partitions);
        for k := 0 to |x.partitions|
          invariant out == Map(WorkloadOf, labels)
          invariant labels == labels2 + Flat(PerPartitions(x, size, comp), x.partitions[..k])
        {
          var partitions := x.partitions[k];
          ghost var labels3 := labels;
          FlatNone(PerFlag(size, comp, partitions), x.idempotence);
          for l := 0 to |x.idempotence|
            invariant out == Map(WorkloadOf, labels)
            invariant labels == labels3 + Flat(PerFlag(size, comp, partitions), x.idempotence[..l])
          {
            var one := Throughput(size, comp, partitions, x.idempotence[l]);
            FlatStep(PerFlag(size, comp, partitions), x.idempotence, l);
            MapConcat(WorkloadOf, labels, [one]);
            out := out + [WorkloadOf(one)];
            labels := labels + [one];
          }
          assert x.idempotence[..|x.idempotence|] == x.idempotence;
          FlatStep(PerPartitions(x, size, comp), x.partitions, k);
        }
        assert x.partitions[..|x.partitions|] == x.partitions;
        FlatStep(PerCodec(x, size), x.compressions, j);
      }
      assert x.compressions[..|x.compressions|] == x.compressions;
      FlatStep(PerMessageSize(x), x.sizes, i);
    }
    assert x.sizes[..|x.sizes|] == x.sizes;
  }

  function PerConsumerSize(): nat -> seq<FamilyLabel> {
    (size: nat) => [ConsumerThroughput(size), FetchLatency(size)]
  }

  /** `_consumer_workloads`: two workloads per size. */
  method ConsumerWorkloads(sizes: seq<nat>) returns (out: seq<Workload>)
    ensures out == Map(WorkloadOf, Flat(PerConsumerSize(), sizes))
  {
    out := [];
    FlatNone(PerConsumerSize(), sizes);
    for i := 0 to |sizes|
      invariant out == Map(WorkloadOf, Flat(PerConsumerSize(), sizes[..i]))
    {
      FlatStep(PerConsumerSize(), sizes, i);
      MapConcat(WorkloadOf, Flat(PerConsumerSize(), sizes[..i]), PerConsumerSize()(sizes[i]));
      out := out + [WorkloadOf(ConsumerThroughput(sizes[i])), WorkloadOf(FetchLatency(sizes[i]))];
    }
    assert sizes[..|sizes|] == sizes;
  }

  datatype Parameters = Parameters(latency: Axes, throughput: ThroughputAxes, consumerSizes: seq<nat>)

  function OtherLabels(p: Parameters): seq<FamilyLabel> {
    ThroughputLabels(p.throughput) + Flat(PerConsumerSize(), p.consumerSizes) + [Rebalance]
  }

  function AllWorkloadsOf(p: Parameters): seq<Workload> {
    Latencies(p.latency) + Map(WorkloadOf, OtherLabels(p))
  }

  /** `all_workloads`: the four families one after the other. */
  method AllWorkloads(p: Parameters) returns (out: seq<Workload>)
    ensures out == AllWorkloadsOf(p)
  {
    hide WorkloadOf, Latencies, ThroughputLabels, PerConsumerSize;
    var latency := LatencyWorkloads(p.latency);
    var throughput := ThroughputWorkloads(p.throughput);
    var consumer := ConsumerWorkloads(p.consumerSizes);
    out := latency + throughput + consumer + [WorkloadOf(Rebalance)];
    MapConcat(WorkloadOf, ThroughputLabels(p.throughput), Flat(PerConsumerSize(), p.consumerSizes));
    MapConcat(WorkloadOf, ThroughputLabels(p.throughput) + Flat(PerConsumerSize(), p.consumerSizes), [Rebalance]);
    assert Map(WorkloadOf, [Rebalance]) == [WorkloadOf(Rebalance)];
    assert out == latency + (throughput + consumer + [WorkloadOf(Rebalance)]);
  }

  // ---- names over all families

  lemma PerFlagMembers(x: ThroughputAxes, size: nat, comp: string, partitions: nat, l: FamilyLabel)
    ensures l in PerPartitions(x, size, comp)(partitions) ==>
              l.Throughput? && l.size == size && l.compression == comp && l.partitions == partitions
  {
    FlatMembers(PerFlag(size, comp, partitions), x.idempotence, l);
  }

  lemma PerPartitionsMembers(x: ThroughputAxes, size: nat, comp: string, l: FamilyLabel)
    ensures l in PerCodec(x, size)(comp) ==> l.Throughput? && l.size == size && l.compression == comp
  {
    FlatMembers(PerPartitions(x, size, comp), x.partitions, l);
    forall partitions: nat
      ensures l in PerPartitions(x, size, comp)(partitions) ==> l.Throughput? && l.size == size && l.compression == comp
    {
      PerFlagMembers(x, size, comp, partitions, l);
    }
  }

  lemma PerCodecMembers(x: ThroughputAxes, size: nat, l: FamilyLabel)
    ensures l in PerMessageSize(x)(size) ==> l.Throughput? && l.size == size && l.compression in x.compressions
  {
    FlatMembers(PerCodec(x, size), x.compressions, l);
    forall comp
      ensures l in PerCodec(x, size)(comp) ==> l.Throughput? && l.size == size && l.compression == comp
    {
      PerPartitionsMembers(x, size, comp, l);
    }
  }

  lemma ThroughputMembers(x: ThroughputAxes, l: FamilyLabel)
    ensures l in ThroughputLabels(x) ==> l.Throughput? && l.compression in x.compressions
  {
    FlatMembers(PerMessageSize(x), x.sizes, l);
    forall size: nat
      ensures l in PerMessageSize(x)(size) ==> l.Throughput? && l.compression in x.compressions
    {
      PerCodecMembers(x, size, l);
    }
  }

  ghost predicate ThroughputWithoutRepeats(x: ThroughputAxes) {
    && NoDuplicates(x.sizes) && NoDuplicates(x.compressions)
    && NoDuplicates(x.partitions) && NoDuplicates(x.idempotence)
  }

  function Partitions(l: FamilyLabel): nat { if l.Throughput? then l.partitions else 0 }
  function Codec(l: FamilyLabel): string { if l.Throughput? then l.compression else "" }
  function Size(l: FamilyLabel): nat { if l.Rebalance? then 0 else l.size }
  function Idempotent(l: FamilyLabel): bool { l.Throughput? && l.idempotent }

  lemma PartitionsDistinct(x: ThroughputAxes, size: nat, comp: string)
    requires ThroughputWithoutRepeats(x)
    ensures NoDuplicates(PerCodec(x, size)(comp))
  {
    forall partitions: nat
      ensures NoDuplicates(PerPartitions(x, size, comp)(partitions))
    {
      FlatDistinct(PerFlag(size, comp, partitions), x.idempotence, Idempotent);
    }
    forall partitions: nat, l | l in PerPartitions(x, size, comp)(partitions)
      ensures Partitions(l) == partitions
    {
      PerFlagMembers(x, size, comp, partitions, l);
    }
    FlatDistinct(PerPartitions(x, size, comp), x.partitions, Partitions);
  }

  lemma CodecDistinct(x: ThroughputAxes, size: nat)
    requires ThroughputWithoutRepeats(x)
    ensures NoDuplicates(PerMessageSize(x)(size))
  {
    forall comp
      ensures NoDuplicates(PerCodec(x, size)(comp))
    {
      PartitionsDistinct(x, size, comp);
    }
    forall comp, l | l in PerCodec(x, size)(comp)
      ensures Codec(l) == comp
    {
      PerPartitionsMembers(x, size, comp, l);
    }
    FlatDistinct(PerCodec(x, size), x.compressions, Codec);
  }

  lemma ThroughputDistinct(x: ThroughputAxes)
    requires ThroughputWithoutRepeats(x)
    ensures NoDuplicates(ThroughputLabels(x))
  {
    forall size: nat
      ensures NoDuplicates(PerMessageSize(x)(size))
    {
      CodecDistinct(x, size);
    }
    forall size: nat, l | l in PerMessageSize(x)(size)
      ensures Size(l) == size
    {
      PerCodecMembers(x, size, l);
    }
    FlatDistinct(PerMessageSize(x), x.sizes, Size);
  }

  lemma ConsumerMembers(sizes: seq<nat>, l: FamilyLabel)
    ensures l in Flat(PerConsumerSize(), sizes) ==> l.ConsumerThroughput? || l.FetchLatency?
  {
    FlatMembers(PerConsumerSize(), sizes, l);
  }

  ghost predicate Spelt(labels: seq<FamilyLabel>) { forall l :: l in labels ==> Spellable(Family(l)) }

  ghost predicate Regular(p: Parameters) {
    && WithoutRepeats(p.latency) && CompressionsAreWords(p.latency)
    && ThroughputWithoutRepeats(p.throughput)
    && (forall comp :: comp in p.throughput.compressions ==> IsWord(comp))
    && NoDuplicates(p.consumerSizes)
  }

  lemma OtherLabelsDistinct(p: Parameters)
    requires Regular(p)
    ensures NoDuplicates(OtherLabels(p)) && Spelt(OtherLabels(p))
  {
    var a, b := ThroughputLabels(p.throughput), Flat(PerConsumerSize(), p.consumerSizes);
    forall l
      ensures l in a ==> l.Throughput? && Spellable(Family(l))
      ensures l in b ==> (l.ConsumerThroughput? || l.FetchLatency?) && Spellable(Family(l))
    {
      ThroughputMembers(p.throughput, l);
      ConsumerMembers(p.consumerSizes, l);
    }
    ThroughputDistinct(p.throughput);
    FlatDistinct(PerConsumerSize(), p.consumerSizes, Size);
    ConcatDistinct(a, b);
    ConcatDistinct(a + b, [Rebalance]);
  }

  /** Names listed over all families are unique exactly if they are within the latency matrix. */
  lemma AllNamesUniqueIff(p: Parameters)
    requires Regular(p)
    ensures UniqueNames(AllWorkloadsOf(p)) <==> OneIdempotentCell(p.latency)
  {
    var lat, rest, others := Latencies(p.latency), Map(WorkloadOf, OtherLabels(p)), OtherLabels(p);
    LatencyNamesUniqueIff(p.latency);
    OtherLabelsDistinct(p);
    forall i, j | 0 <= i < j < |rest|
      ensures rest[i].name != rest[j].name
    {
      NamesInjective(Family(others[i]), Family(others[j]));
      NameOfWorkload(others[i]);
      NameOfWorkload(others[j]);
    }
    forall i, j | 0 <= i < |lat| && 0 <= j < |rest|
      ensures lat[i].name != rest[j].name
    {
      var c := Cells(p.latency)[i];
      CellsAreEnumerated(p.latency, c);
      NamesInjective(LabelOf(c), Family(others[j]));
      NameOfWorkload(others[j]);
    }
    UniqueConcat(lat, rest);
  }

  lemma NameOfWorkload(l: FamilyLabel)
    ensures WorkloadOf(l).name == Name(Family(l))
  {
  }

  lemma UniqueConcat(a: seq<Workload>, b: seq<Workload>)
    requires UniqueNames(b)
    requires forall i, j :: 0 <= i < |a| && 0 <= j < |b| ==> a[i].name != b[j].name
    ensures UniqueNames(a + b) <==> UniqueNames(a)
  {
    if UniqueNames(a + b) {
      assert forall i :: 0 <= i < |a| ==> (a + b)[i] == a[i];
    }
  }

  /** The workloads of the other families are configured as their names say, and otherwise as fixed for their kind. */
  predicate FamilyConfigured(w: Workload, l: FamilyLabel) {
    && ParseName(w.name) == Some(Family(l))
    && match l
       case Throughput(size, compression, partitions, idempotent) =>
         && w.kind == "throughput" && w.size == size && w.partitions == partitions
         && w.inFlight == 64 && w.seconds == 60
         && w.producer == Producer(if idempotent then All else Level(1), 5, 64 * 1024, compression, idempotent,
                                   if idempotent then 5 else 64)
       case ConsumerThroughput(size) =>
         && w.kind == "consumer-throughput" && w.size == size && w.partitions == 4
         && w.inFlight == 64 && w.seconds == 60
         && w.producer == Producer(Level(1), 5, 64 * 1024, "none", false, 5)
       case FetchLatency(size) =>
         && w.kind == "fetch-latency" && w.size == size && w.partitions == 1
         && w.inFlight == 1 && w.seconds == 30
         && w.producer == Producer(Level(1), 0, 1, "none", false, 5)
       case Rebalance =>
         && w.kind == "rebalance" && w.size == 1024 && w.partitions == 8
         && w.inFlight == 1 && w.seconds == 60
         && w.producer == Producer(Level(1), 5, 64 * 1024, "none", false, 5)
  }

  lemma LabelConfigured(l: FamilyLabel)
    requires Spellable(Family(l))
    ensures FamilyConfigured(WorkloadOf(l), l)
  {
    NameRoundTrip(Family(l));
    hide Name, ParseName;
  }

  lemma FamilyNamesTell(p: Parameters, i: nat)
    requires Regular(p) && i < |OtherLabels(p)|
    ensures |Latencies(p.latency)| + i < |AllWorkloadsOf(p)|
    ensures FamilyConfigured(AllWorkloadsOf(p)[|Latencies(p.latency)| + i], OtherLabels(p)[i])
  {
    OtherLabelsDistinct(p);
    hide OtherLabels, WorkloadOf, FamilyConfigured;
    assert OtherLabels(p)[i] in OtherLabels(p);
    LabelConfigured(OtherLabels(p)[i]);
  }

  // ---- the matrix as configured

  const SHIPPED := Parameters(
    Axes([64, 1024, 10240], [Level(0), Level(1)], ["none", "lz4"], [false, true], [1, 8, 64]),
    ThroughputAxes([1024, 10240], ["none", "lz4", "zstd"], [1, 4, 16], [false, true]),
    [1024, 10240])

  lemma DifferentWords()
    ensures "none" != "lz4" && "none" != "zstd" && "lz4" != "zstd"
    ensures IsWord("none") && IsWord("lz4") && IsWord("zstd")
  {
    assert "none"[0] != "zstd"[0];
  }

  lemma ShippedLatency()
    ensures WithoutRepeats(SHIPPED.latency) && CompressionsAreWords(SHIPPED.latency)
    ensures OneIdempotentCell(SHIPPED.latency)
  {
    DifferentWords();
  }

  lemma ShippedRegular()
    ensures Regular(SHIPPED) && OneIdempotentCell(SHIPPED.latency)
  {
    hide WithoutRepeats, CompressionsAreWords, OneIdempotentCell;
    DifferentWords();
    ShippedLatency();
  }

  /** The configured axes meet the condition, so every configured name finds its own workload. */
  lemma ShippedNamesUnique()
    ensures UniqueNames(AllWorkloadsOf(SHIPPED))
  {
    hide AllWorkloadsOf, UniqueNames, Regular, OneIdempotentCell;
    ShippedRegular();
    AllNamesUniqueIff(SHIPPED);
  }

  // ---- lookup by name

  /** `{w.name: w for w in all_workloads()}` */
  function IndexByName(all: seq<Workload>): map<string, Workload> {
    if all == [] then map[]
    else
      var last := all[|all| - 1];
      IndexByName(all[..|all| - 1])[last.name := last]
  }

  datatype Lookup = KeyError | Found(w: Workload)

  /** A scan from the front. */
  function FirstNamed(all: seq<Workload>, name: string): Lookup {
    if all == [] then KeyError
    else if all[0].name == name then Found(all[0])
    else FirstNamed(all[1..], name)
  }

  function Get(index: map<string, Workload>, name: string): Lookup {
    if name in index then Found(index[name]) else KeyError
  }

  lemma {:induction false} IndexHoldsLast(all: seq<Workload>, name: string)
    ensures name in IndexByName(all) <==> exists w :: w in all && w.name == name
    ensures name in IndexByName(all) ==>
              exists i :: 0 <= i < |all| && all[i] == IndexByName(all)[name] && all[i].name == name
                          && forall j :: i < j < |all| ==> all[j].name != name
  {
    if all != [] {
      var n := |all| - 1;
      var front := all[..n];
      assert all == front + [all[n]];
      IndexHoldsLast(front, name);
      if all[n].name == name {
        assert all[n] in all;
      } else if name in IndexByName(front) {
        var i :| 0 <= i < |front| && front[i] == IndexByName(front)[name] && front[i].name == name
                 && forall j :: i < j < |front| ==> front[j].name != name;
        assert all[i] == IndexByName(all)[name];
      }
    }
  }

  lemma {:induction false} FirstNamedIsFirst(all: seq<Workload>, name: string)
    ensures match FirstNamed(all, name)
            case KeyError => forall w :: w in all ==> w.name != name
            case Found(w) => exists i :: 0 <= i < |all| && all[i] == w && w.name == name
                                         && forall j :: 0 <= j < i ==> all[j].name != name
  {
    if all != [] {
      FirstNamedIsFirst(all[1..], name);
      assert all == [all[0]] + all[1..];
      if all[0].name != name && FirstNamed(all[1..], name).Found? {
        var w := FirstNamed(all[1..], name).w;
        var i :| 0 <= i < |all[1..]| && all[1..][i] == w && w.name == name
                 && forall j :: 0 <= j < i ==> all[1..][j].name != name;
        assert all[i + 1] == w;
      }
    }
  }

  /** With unique names, the dictionary answers what a scan of the list answers. */
  lemma IndexAgreesWithScan(all: seq<Workload>, name: string)
    requires UniqueNames(all)
    ensures Get(IndexByName(all), name) == FirstNamed(all, name)
  {
    IndexHoldsLast(all, name);
    FirstNamedIsFirst(all, name);
  }

  /** The module-level cache. */
  class WorkloadIndex {
    const parameters: Parameters
    var byName: Option<map<string, Workload>>

    ghost predicate Valid()
      reads this
    {
      byName.None? || byName.value == IndexByName(AllWorkloadsOf(parameters))
    }

    constructor (parameters: Parameters)
      ensures Valid() && this.parameters == parameters && byName.None?
    {
      this.parameters, byName := parameters, None;
    }

    /** `by_name`: fills the cache on first use. */
    method ByName(name: string) returns (r: Lookup)
      requires Valid()
      modifies this
      ensures Valid() && byName.Some?
      ensures r == Get(IndexByName(AllWorkloadsOf(parameters)), name)
    {
      hide AllWorkloadsOf;
      if byName.None? {
        var all := AllWorkloads(parameters);
        var index: map<string, Workload> := map[];
        for i := 0 to |all|
          invariant index == IndexByName(all[..i])
        {
          assert all[..i + 1][..i] == all[..i];
          index := index[all[i].name := all[i]];
        }
        assert all[..|all|] == all;
        byName := Some(index);
      }
      r := if name in byName.value then Found(byName.value[name]) else KeyError;
    }

    /** Any series of lookups answers each name as a fresh scan of the whole list would. */
    method ByNames(names: seq<string>) returns (r: seq<Lookup>)
      requires Valid() && UniqueNames(AllWorkloadsOf(parameters))
      modifies this
      ensures Valid()
      ensures |r| == |names|
      ensures forall i :: 0 <= i < |names| ==> r[i] == FirstNamed(AllWorkloadsOf(parameters), names[i])
    {
      hide AllWorkloadsOf, UniqueNames;
      r := [];
      for i := 0 to |names|
        invariant Valid() && |r| == i
        invariant forall j :: 0 <= j < i ==> r[j] == FirstNamed(AllWorkloadsOf(parameters), names[j])
      {
        var one := ByName(names[i]);
        IndexAgreesWithScan(AllWorkloadsOf(parameters), names[i]);
        r := r + [one];
      }
    }
  }
}
