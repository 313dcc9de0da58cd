/** The workload matrix of bench/config.py over arbitrary axes, and its index by name. */
module Matrix {
  import opened Sorting
  import opened Grouping
  import opened Enumeration
  import opened Names

  datatype Producer = Producer(
    acks: Acks, lingerMs: nat, batchBytes: nat, compression: string, idempotent: bool, maxInFlight: nat)

  datatype Workload = Workload(
    name: string, kind: string, size: nat, partitions: nat, inFlight: nat, seconds: nat, producer: Producer)

  // ---- the latency matrix

  /** An ack level is 0, 1 or "all" in the source's type; any number may stand for a level here. */
  datatype Axes = Axes(
    sizes: seq<nat>, acks: seq<Acks>, compressions: seq<string>, idempotence: seq<bool>, inFlights: seq<nat>)

  datatype Cell = Cell(size: nat, acks: Acks, compression: string, idempotent: bool, inFlight: nat)

  /** What the producer is really configured with: idempotence forces acks=all. */
  function EffectiveAcks(c: Cell): Acks { if c.idempotent then All else c.acks }

  function LabelOf(c: Cell): Label { Latency(c.size, EffectiveAcks(c), c.compression, c.idempotent, c.inFlight) }

  function LatencyWorkload(c: Cell): Workload {
    Workload(
      Name(LabelOf(c)), "latency", c.size, 1, c.inFlight, 60,
      Producer(EffectiveAcks(c), 0, 1, c.compression, c.idempotent,
               if c.idempotent then 5 else if c.inFlight < 5 then 5 else c.inFlight))
  }

  function PerInFlight(size: nat, acks: Acks, comp: string, idem: bool): nat -> seq<Cell> {
    (n: nat) => [Cell(size, acks, comp, idem, n)]
  }

  function PerIdempotence(x: Axes, size: nat, acks: Acks, comp: string): bool -> seq<Cell> {
    idem => if idem && acks == Level(0) then [] else Flat(PerInFlight(size, acks, comp, idem), x.inFlights)
  }

  function PerCompression(x: Axes, size: nat, acks: Acks): string -> seq<Cell> {
    comp => Flat(PerIdempotence(x, size, acks, comp), x.idempotence)
  }

  function PerAcks(x: Axes, size: nat): Acks -> seq<Cell> {
    (acks: Acks) => Flat(PerCompression(x, size, acks), x.compressions)
  }

  function PerSize(x: Axes): nat -> seq<Cell> {
    (size: nat) => Flat(PerAcks(x, size), x.acks)
  }

  function Cells(x: Axes): seq<Cell> { Flat(PerSize(x), x.sizes) }

  function Latencies(x: Axes): seq<Workload> { Map(LatencyWorkload, Cells(x)) }

  lemma Extend(s: seq<Cell>, a: seq<Cell>, b: seq<Cell>)
    ensures (s + a) + b == s + (a + b)
  {
  }

  /** The innermost loop, entered unless the cell is skipped. */
  method AppendInFlights(x: Axes, size: nat, acks: Acks, comp: string, idem: bool,
                         before: seq<Workload>, ghost cells: seq<Cell>)
    returns (out: seq<Workload>)
    requires before == Map(LatencyWorkload, cells)
    ensures out == Map(LatencyWorkload, cells + PerIdempotence(x, size, acks, comp)(idem))
  {
    hide Map, LatencyWorkload;
    out := before;
    if idem && acks == Level(0) {
      assert cells + [] == cells;
      return;
    }
    var f := PerInFlight(size, acks, comp, idem);
    FlatNone(f, x.inFlights);
    hide Flat;
    assert cells + [] == cells;
    for i := 0 to |x.inFlights|
      invariant out == Map(LatencyWorkload, cells + Flat(f, x.inFlights[..i]))
    {
      var c := Cell(size, acks, comp, idem, x.inFlights[i]);
      FlatStep(f, x.inFlights, i);
      Extend(cells, Flat(f, x.inFlights[..i]), [c]);
      MapConcat(LatencyWorkload, cells + Flat(f, x.inFlights[..i]), [c]);
      out := out + [LatencyWorkload(c)];
    }
    assert x.inFlights[..|x.inFlights|] == x.inFlights;
  }

  /** `_latency_workloads`: five nested loops. */
  method LatencyWorkloads(x: Axes) returns (out: seq<Workload>)
    ensures out == Latencies(x)
  {
    hide Flat, LatencyWorkload, PerIdempotence;
    out := [];
    ghost var cells: seq<Cell> := [];
    FlatNone(PerSize(x), x.sizes);
    for i := 0 to |x.sizes|
      invariant out == Map(LatencyWorkload, cells) && cells == Flat(PerSize(x), x.sizes[..i])
    {
      var size := x.sizes[i];
      ghost var cells1 := cells;
      FlatNone(PerAcks(x, size), x.acks);
      for j := 0 to |x.acks|
        invariant out == Map(LatencyWorkload, cells) && cells == cells1 + Flat(PerAcks(x, size), x.acks[..j])
      {
        var acks := x.acks[j];
        ghost var cells2 := cells;
        FlatNone(PerCompression(x, size, acks), x.compressions);
        for k := 0 to |x.compressions|
          invariant out == Map(LatencyWorkload, cells)
          invariant cells == cells2 + Flat(PerCompression(x, size, acks), x.compressions[..k])
        {
          var comp := x.compressions[k];
          ghost var cells3 := cells;
          FlatNone(PerIdempotence(x, size, acks, comp), x.idempotence);
          for l := 0 to |x.idempotence|
            invariant out == Map(LatencyWorkload, cells)
            invariant cells == cells3 + Flat(PerIdempotence(x, size, acks, comp), x.idempotence[..l])
          {
            out := AppendInFlights(x, size, acks, comp, x.idempotence[l], out, cells);
            FlatStep(PerIdempotence(x, size, acks, comp), x.idempotence, l);
            cells := cells + PerIdempotence(x, size, acks, comp)(x.idempotence[l]);
          }
          assert x.idempotence[..|x.idempotence|] == x.idempotence;
          FlatStep(PerCompression(x, size, acks), x.compressions, k);
        }
        assert x.compressions[..|x.compressions|] == x.compressions;
        FlatStep(PerAcks(x, size), x.acks, j);
      }
      assert x.acks[..|x.acks|] == x.acks;
      FlatStep(PerSize(x), x.sizes, i);
    }
    assert x.sizes[..|x.sizes|] == x.sizes;
  }

  // ---- which cells are listed

  predicate Enumerated(x: Axes, c: Cell) {
    && c.size in x.sizes && c.acks in x.acks && c.compression in x.compressions
    && c.idempotent in x.idempotence && c.inFlight in x.inFlights
    && !(c.idempotent && c.acks == Level(0))
  }

  lemma InIdempotence(x: Axes, size: nat, acks: Acks, comp: string, idem: bool, c: Cell)
    ensures c in PerIdempotence(x, size, acks, comp)(idem) <==>
            c.inFlight in x.inFlights && !(idem && acks == Level(0)) && c == Cell(size, acks, comp, idem, c.inFlight)
  {
    var f := PerInFlight(size, acks, comp, idem);
    FlatMembers(f, x.inFlights, c);
    assert forall n: nat :: c in f(n) <==> c == Cell(size, acks, comp, idem, n);
    if c.inFlight in x.inFlights && c == Cell(size, acks, comp, idem, c.inFlight) {
      assert c in f(c.inFlight);
    }
  }

  lemma InCompression(x: Axes, size: nat, acks: Acks, comp: string, c: Cell)
    ensures c in PerCompression(x, size, acks)(comp) <==>
            && c.inFlight in x.inFlights && c.idempotent in x.idempotence && !(c.idempotent && acks == Level(0))
            && c == Cell(size, acks, comp, c.idempotent, c.inFlight)
  {
    FlatMembers(PerIdempotence(x, size, acks, comp), x.idempotence, c);
    forall idem
      ensures c in PerIdempotence(x, size, acks, comp)(idem) <==>
              c.inFlight in x.inFlights && !(idem && acks == Level(0)) && c == Cell(size, acks, comp, idem, c.inFlight)
    {
      InIdempotence(x, size, acks, comp, idem, c);
    }
  }

  lemma InAcks(x: Axes, size: nat, acks: Acks, c: Cell)
    ensures c in PerAcks(x, size)(acks) <==>
            && c.inFlight in x.inFlights && c.idempotent in x.idempotence && c.compression in x.compressions
            && !(c.idempotent && acks == Level(0))
            && c == Cell(size, acks, c.compression, c.idempotent, c.inFlight)
  {
    FlatMembers(PerCompression(x, size, acks), x.compressions, c);
    forall comp
      ensures c in PerCompression(x, size, acks)(comp) <==>
              && c.inFlight in x.inFlights && c.idempotent in x.idempotence && !(c.idempotent && acks == Level(0))
              && c == Cell(size, acks, comp, c.idempotent, c.inFlight)
    {
      InCompression(x, size, acks, comp, c);
    }
  }

  lemma InSize(x: Axes, size: nat, c: Cell)
    ensures c in PerSize(x)(size) <==> Enumerated(x.(sizes := [size]), c)
  {
    FlatMembers(PerAcks(x, size), x.acks, c);
    forall acks: Acks
      ensures c in PerAcks(x, size)(acks) <==>
              && c.inFlight in x.inFlights && c.idempotent in x.idempotence && c.compression in x.compressions
              && !(c.idempotent && acks == Level(0))
              && c == Cell(size, acks, c.compression, c.idempotent, c.inFlight)
    {
      InAcks(x, size, acks, c);
    }
  }

  /** Every combination of axis values is a cell, except idempotence with acks 0. */
  lemma CellsAreEnumerated(x: Axes, c: Cell)
    ensures c in Cells(x) <==> Enumerated(x, c)
  {
    FlatMembers(PerSize(x), x.sizes, c);
    forall size: nat
      ensures c in PerSize(x)(size) <==> Enumerated(x.(sizes := [size]), c)
    {
      InSize(x, size, c);
    }
  }

  ghost predicate WithoutRepeats(x: Axes) {
    && NoDuplicates(x.sizes) && NoDuplicates(x.acks) && NoDuplicates(x.compressions)
    && NoDuplicates(x.idempotence) && NoDuplicates(x.inFlights)
  }

  lemma IdempotenceDistinct(x: Axes, size: nat, acks: Acks, comp: string, idem: bool)
    requires WithoutRepeats(x)
    ensures NoDuplicates(PerIdempotence(x, size, acks, comp)(idem))
  {
    FlatDistinct(PerInFlight(size, acks, comp, idem), x.inFlights, (c: Cell) => c.inFlight);
  }

  lemma CompressionDistinct(x: Axes, size: nat, acks: Acks, comp: string)
    requires WithoutRepeats(x)
    ensures NoDuplicates(PerCompression(x, size, acks)(comp))
  {
    forall idem, c
      ensures NoDuplicates(PerIdempotence(x, size, acks, comp)(idem))
      ensures c in PerIdempotence(x, size, acks, comp)(idem) ==> c.idempotent == idem
    {
      IdempotenceDistinct(x, size, acks, comp, idem);
      InIdempotence(x, size, acks, comp, idem, c);
    }
    FlatDistinct(PerIdempotence(x, size, acks, comp), x.idempotence, (c: Cell) => c.idempotent);
  }

  lemma AcksDistinct(x: Axes, size: nat, acks: Acks)
    requires WithoutRepeats(x)
    ensures NoDuplicates(PerAcks(x, size)(acks))
  {
    forall comp, c
      ensures NoDuplicates(PerCompression(x, size, acks)(comp))
      ensures c in PerCompression(x, size, acks)(comp) ==> c.compression == comp
    {
      CompressionDistinct(x, size, acks, comp);
      InCompression(x, size, acks, comp, c);
    }
    FlatDistinct(PerCompression(x, size, acks), x.compressions, (c: Cell) => c.compression);
  }

  lemma SizeDistinct(x: Axes, size: nat)
    requires WithoutRepeats(x)
    ensures NoDuplicates(PerSize(x)(size))
  {
    forall acks: Acks, c
      ensures NoDuplicates(PerAcks(x, size)(acks))
      ensures c in PerAcks(x, size)(acks) ==> c.acks == acks
    {
      AcksDistinct(x, size, acks);
      InAcks(x, size, acks, c);
    }
    FlatDistinct(PerAcks(x, size), x.acks, (c: Cell) => c.acks);
  }

  /** No combination is listed twice. */
  lemma CellsDistinct(x: Axes)
    requires WithoutRepeats(x)
    ensures NoDuplicates(Cells(x))
  {
    forall size: nat, c
      ensures NoDuplicates(PerSize(x)(size))
      ensures c in PerSize(x)(size) ==> c.size == size
    {
      SizeDistinct(x, size);
      InSize(x, size, c);
    }
    FlatDistinct(PerSize(x), x.sizes, (c: Cell) => c.size);
  }

  // ---- names

  ghost predicate UniqueNames(ws: seq<Workload>) {
    forall i, j :: 0 <= i < j < |ws| ==> ws[i].name != ws[j].name
  }

  /** The name tells the cells apart unless two idempotent cells differ only in acks levels other than 0. */
  ghost predicate OneIdempotentCell(x: Axes) {
    || (forall a, b :: a in x.acks && b in x.acks && a != Level(0) && b != Level(0) ==> a == b)
    || true !in x.idempotence
    || x.sizes == [] || x.compressions == [] || x.inFlights == []
  }

  lemma LabelsTellCellsApart(x: Axes, c: Cell, d: Cell)
    requires OneIdempotentCell(x) && Enumerated(x, c) && Enumerated(x, d)
    requires LabelOf(c) == LabelOf(d)
    ensures c == d
  {
    assert EffectiveAcks(c) == EffectiveAcks(d);
  }

  ghost predicate CompressionsAreWords(x: Axes) { forall comp :: comp in x.compressions ==> IsWord(comp) }

  lemma UniqueIfOne(x: Axes)
    requires WithoutRepeats(x) && CompressionsAreWords(x) && OneIdempotentCell(x)
    ensures UniqueNames(Latencies(x))
  {
    hide LatencyWorkload, LabelOf, OneIdempotentCell;
    CellsDistinct(x);
    var cells := Cells(x);
    forall i, j | 0 <= i < j < |cells|
      ensures Latencies(x)[i].name != Latencies(x)[j].name
    {
      assert cells[i] in cells && cells[j] in cells;
      NamesOfCells(x, cells[i], cells[j]);
    }
  }

  lemma NamesOfCells(x: Axes, c: Cell, d: Cell)
    requires CompressionsAreWords(x) && OneIdempotentCell(x) && c in Cells(x) && d in Cells(x) && c != d
    ensures LatencyWorkload(c).name != LatencyWorkload(d).name
  {
    CellsAreEnumerated(x, c);
    CellsAreEnumerated(x, d);
    NamesInjective(LabelOf(c), LabelOf(d));
    if LabelOf(c) == LabelOf(d) {
      LabelsTellCellsApart(x, c, d);
    }
  }

  lemma ListedTwice(x: Axes, c: Cell, d: Cell)
    requires c in Cells(x) && d in Cells(x) && c != d && LabelOf(c) == LabelOf(d)
    ensures !UniqueNames(Latencies(x))
  {
    hide Cells, Name, LabelOf;
    var i :| 0 <= i < |Cells(x)| && Cells(x)[i] == c;
    var j :| 0 <= j < |Cells(x)| && Cells(x)[j] == d;
    assert Latencies(x)[i].name == Latencies(x)[j].name;
  }

  lemma ClashIfMore(x: Axes)
    requires !OneIdempotentCell(x)
    ensures !UniqueNames(Latencies(x))
  {
    hide Cells, UniqueNames;
    var a, b :| a in x.acks && b in x.acks && a != Level(0) && b != Level(0) && a != b;
    var c := Cell(x.sizes[0], a, x.compressions[0], true, x.inFlights[0]);
    var d := c.(acks := b);
    CellsAreEnumerated(x, c);
    CellsAreEnumerated(x, d);
    ListedTwice(x, c, d);
  }

  /** Names are unique exactly if at most one ack level other than 0 is folded into acks=all. */
  lemma LatencyNamesUniqueIff(x: Axes)
    requires WithoutRepeats(x) && CompressionsAreWords(x)
    ensures UniqueNames(Latencies(x)) <==> OneIdempotentCell(x)
  {
    if OneIdempotentCell(x) {
      UniqueIfOne(x);
    } else {
      ClashIfMore(x);
    }
  }

  /** The axis that holds every ack level the configuration may use does not meet the condition: 1 and "all" fold. */
  lemma AllLevelsClash(x: Axes)
    requires x.acks == [Level(0), Level(1), All] && true in x.idempotence
    requires x.sizes != [] && x.compressions != [] && x.inFlights != []
    ensures !UniqueNames(Latencies(x))
  {
    hide UniqueNames, Latencies;
    assert Level(1) in x.acks && All in x.acks;
    ClashIfMore(x);
  }

  // ---- what the workloads say

  /** The configuration that a latency workload's name tells. */
  predicate TellsItself(w: Workload) {
    var p := w.producer;
    ParseName(w.name) == Some(Latency(w.size, p.acks, p.compression, p.idempotent, w.inFlight))
  }

  /** Idempotence pins acks to "all" and five requests in flight; otherwise the window decides, five at the least. */
  predicate Configured(x: Axes, w: Workload) {
    && w.kind == "latency" && w.partitions == 1 && w.seconds == 60
    && w.producer.lingerMs == 0 && w.producer.batchBytes == 1
    && w.size in x.sizes && w.producer.compression in x.compressions && w.inFlight in x.inFlights
    && (if w.producer.idempotent then w.producer.acks == All && w.producer.maxInFlight == 5
        else
          && w.producer.acks in x.acks
          && 5 <= w.producer.maxInFlight && w.inFlight <= w.producer.maxInFlight
          && w.producer.maxInFlight in {5, w.inFlight})
  }

  lemma CellConfigured(x: Axes, c: Cell)
    requires Enumerated(x, c) && IsWord(c.compression)
    ensures TellsItself(LatencyWorkload(c)) && Configured(x, LatencyWorkload(c))
  {
    NameRoundTrip(LabelOf(c));
    hide Name, ParseName;
  }

  /** Every workload of the matrix is configured as its name says. */
  lemma LatencyNamesTell(x: Axes, w: Workload)
    requires CompressionsAreWords(x) && w in Latencies(x)
    ensures TellsItself(w) && Configured(x, w)
  {
    hide LatencyWorkload, Cells, TellsItself, Configured;
    var i :| 0 <= i < |Latencies(x)| && Latencies(x)[i] == w;
    var c := Cells(x)[i];
    assert c in Cells(x);
    CellsAreEnumerated(x, c);
    CellConfigured(x, c);
  }

  /** And every combination but idempotence with acks 0 has its workload. */
  lemma CombinationListed(x: Axes, c: Cell)
    requires Enumerated(x, c)
    ensures exists w :: w in Latencies(x) && w.size == c.size && w.producer.compression == c.compression
                        && w.producer.idempotent == c.idempotent && w.inFlight == c.inFlight
                        && w.producer.acks == (if c.idempotent then All else c.acks)
  {
    CellsAreEnumerated(x, c);
    hide Cells, Name;
    var i :| 0 <= i < |Cells(x)| && Cells(x)[i] == c;
    assert Latencies(x)[i] == LatencyWorkload(c);
    assert LatencyWorkload(c) in Latencies(x);
  }

  // ---- size

  lemma InFlightLength(x: Axes, size: nat, acks: Acks, comp: string, idem: bool)
    ensures |PerIdempotence(x, size, acks, comp)(idem)| == if idem && acks == Level(0) then 0 else |x.inFlights|
  {
    FlatLength(PerInFlight(size, acks, comp, idem), x.inFlights, 1);
  }

  /** How many of the idempotence values are combined with an ack level. */
  function Kept(acks: Acks, idems: seq<bool>): nat {
    if acks == Level(0) then multiset(idems)[false] else |idems|
  }

  lemma KeptStep(acks: Acks, idems: seq<bool>)
    requires idems != []
    ensures Kept(acks, idems)
         == Kept(acks, idems[..|idems| - 1]) + if idems[|idems| - 1] && acks == Level(0) then 0 else 1
  {
    assert idems == idems[..|idems| - 1] + [idems[|idems| - 1]];
  }

  lemma {:induction false} CompressionLength(x: Axes, size: nat, acks: Acks, comp: string, idems: seq<bool>)
    ensures |Flat(PerIdempotence(x, size, acks, comp), idems)| == Kept(acks, idems) * |x.inFlights|
  {
    hide Kept, PerIdempotence;
    if idems == [] {
      assert Kept(acks, idems) == 0 by { KeptNone(acks); }
    } else {
      var front, last := idems[..|idems| - 1], idems[|idems| - 1];
      CompressionLength(x, size, acks, comp, front);
      InFlightLength(x, size, acks, comp, last);
      KeptStep(acks, idems);
      assert (Kept(acks, front) + 1) * |x.inFlights| == Kept(acks, front) * |x.inFlights| + |x.inFlights|;
    }
  }

  lemma KeptNone(acks: Acks)
    ensures Kept(acks, []) == 0
  {
  }

  lemma AcksLength(x: Axes, size: nat, acks: Acks)
    ensures |PerAcks(x, size)(acks)| == |x.compressions| * (Kept(acks, x.idempotence) * |x.inFlights|)
  {
    forall comp
      ensures |PerCompression(x, size, acks)(comp)| == Kept(acks, x.idempotence) * |x.inFlights|
    {
      CompressionLength(x, size, acks, comp, x.idempotence);
    }
    FlatLength(PerCompression(x, size, acks), x.compressions, Kept(acks, x.idempotence) * |x.inFlights|);
  }

  /** The combinations of ack level and idempotence that are not skipped. */
  function Modes(acks: seq<Acks>, idems: seq<bool>): nat {
    if acks == [] then 0 else Modes(acks[..|acks| - 1], idems) + Kept(acks[|acks| - 1], idems)
  }

  lemma Distribute(c: nat, m: nat, k: nat, f: nat)
    ensures c * (m * f) + c * (k * f) == c * ((m + k) * f)
  {
    assert (m + k) * f == m * f + k * f;
  }

  lemma {:induction false} SizeLength(x: Axes, size: nat, acks: seq<Acks>)
    ensures |Flat(PerAcks(x, size), acks)| == |x.compressions| * (Modes(acks, x.idempotence) * |x.inFlights|)
  {
    if acks == [] {
      assert |x.compressions| * (0 * |x.inFlights|) == 0;
    } else {
      var front, last := acks[..|acks| - 1], acks[|acks| - 1];
      FlatStep(PerAcks(x, size), acks, |front|);
      assert acks[..|front| + 1] == acks;
      hide Flat, PerAcks, Kept;
      SizeLength(x, size, front);
      AcksLength(x, size, last);
      Distribute(|x.compressions|, Modes(front, x.idempotence), Kept(last, x.idempotence), |x.inFlights|);
    }
  }

  lemma ClosedFormStep(n: nat, i: nat, zeros: nat, t: nat, f: nat, zero: bool)
    requires t + f == i && zeros <= n
    ensures n * i - zeros * t + (if zero then f else i) == (n + 1) * i - (zeros + if zero then 1 else 0) * t
  {
    assert (n + 1) * i == n * i + i;
    assert (zeros + 1) * t == zeros * t + t;
  }

  lemma {:induction false} ModesClosedForm(acks: seq<Acks>, idems: seq<bool>)
    ensures Modes(acks, idems) == |acks| * |idems| - multiset(acks)[Level(0)] * multiset(idems)[true]
  {
    if acks == [] {
      assert 0 * |idems| == 0 && 0 * multiset(idems)[true] == 0;
    } else {
      var front, last := acks[..|acks| - 1], acks[|acks| - 1];
      ModesClosedForm(front, idems);
      assert acks == front + [last];
      assert multiset(acks)[Level(0)] == multiset(front)[Level(0)] + if last == Level(0) then 1 else 0;
      TwoFlags(idems);
      ZerosWithin(front);
      ClosedFormStep(|front|, |idems|, multiset(front)[Level(0)],
                     multiset(idems)[true], multiset(idems)[false], last == Level(0));
    }
  }

  lemma {:induction false} ZerosWithin(acks: seq<Acks>)
    ensures multiset(acks)[Level(0)] <= |acks|
  {
    if acks != [] {
      ZerosWithin(acks[..|acks| - 1]);
      assert acks == acks[..|acks| - 1] + [acks[|acks| - 1]];
    }
  }

  lemma {:induction false} TwoFlags(idems: seq<bool>)
    ensures multiset(idems)[true] + multiset(idems)[false] == |idems|
  {
    if idems != [] {
      var front, last := idems[..|idems| - 1], idems[|idems| - 1];
      TwoFlags(front);
      assert idems == front + [last];
    }
  }

  /** The size of the matrix. */
  lemma LatencyCount(x: Axes)
    ensures |Latencies(x)|
         == |x.sizes| * (|x.compressions| *
            ((|x.acks| * |x.idempotence| - multiset(x.acks)[Level(0)] * multiset(x.idempotence)[true]) * |x.inFlights|))
  {
    var each := |x.compressions| * (Modes(x.acks, x.idempotence) * |x.inFlights|);
    forall size: nat
      ensures |PerSize(x)(size)| == each
    {
      SizeLength(x, size, x.acks);
    }
    FlatLength(PerSize(x), x.sizes, each);
    ModesClosedForm(x.acks, x.idempotence);
  }
}
