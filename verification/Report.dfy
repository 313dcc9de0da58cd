/** Aggregation over repeats and the report table of bench/reporting.py. */
module Report {
  import opened Sorting
  import opened Grouping
  import Stats = OrderStats

  /** A histogram summary: `{"count": 0}`, or one that carries its percentiles. */
  datatype Latency = NoSamples | Percentiles(p50: real, p99: real) {
    /** `.get("p50", 0)` */
    function P50(): real { if NoSamples? then 0.0 else p50 }
    /** `.get("p99", 0)` */
    function P99(): real { if NoSamples? then 0.0 else p99 }
  }

  datatype Row = Row(client: string, workload: string, kind: string, ack: Latency, e2e: Latency, rate: real)

  datatype Pair = Pair(client: string, workload: string)

  datatype Aggregate = Aggregate(
    client: string, workload: string, kind: string, repeats: nat,
    ackP50Median: real, ackP99Median: real, ackP99Min: real, ackP99Iqr: real,
    e2eP99Median: real, rateMedian: real, rateMax: real)

  /** Rounding to a number of decimals, left open: nothing below depends on how it rounds. */
  type Rounding = (real, nat) -> real

  function PairOf(r: Row): Pair { Pair(r.client, r.workload) }

  function KindOf(a: Aggregate): string { a.kind }

  function AckP50(r: Row): real { r.ack.P50() }
  function AckP99(r: Row): real { r.ack.P99() }
  function E2eP99(r: Row): real { r.e2e.P99() }
  function Rate(r: Row): real { r.rate }

  function Summarise(rnd: Rounding, k: Pair, group: seq<Row>): Aggregate
    requires group != []
  {
    var ackP50, ackP99, e2eP99, rates := Map(AckP50, group), Map(AckP99, group), Map(E2eP99, group), Map(Rate, group);
    Aggregate(
      k.client, k.workload, group[0].kind, |group|,
      rnd(Stats.Median(ackP50) / 1000.0, 3),
      rnd(Stats.Median(ackP99) / 1000.0, 3),
      rnd(Stats.Min(ackP99) / 1000.0, 3),
      rnd(Stats.Iqr(ackP99) / 1000.0, 3),
      rnd(Stats.Median(e2eP99) / 1000.0, 3),
      rnd(Stats.Median(rates), 1),
      rnd(Stats.Max(rates), 1))
  }

  function AggregateOf(rnd: Rounding, rows: seq<Row>, k: Pair): Aggregate
    requires k in Keys(PairOf, rows)
  {
    KeysAreThoseOfMembers(PairOf, rows, k);
    Summarise(rnd, k, Group(PairOf, k, rows))
  }

  function Aggregates(rnd: Rounding, rows: seq<Row>): seq<Aggregate> {
    var keys := Keys(PairOf, rows);
    seq(|keys|, i requires 0 <= i < |keys| => AggregateOf(rnd, rows, keys[i]))
  }

  /** `_aggregate`: one dictionary pass, then one entry per dictionary item. */
  method ComputeAggregates(rnd: Rounding, rows: seq<Row>) returns (out: seq<Aggregate>)
    ensures out == Aggregates(rnd, rows)
  {
    hide Summarise;
    var keys, groups := GroupBy(PairOf, rows);
    out := [];
    for i := 0 to |keys|
      invariant |out| == i
      invariant forall j :: 0 <= j < i ==> out[j] == AggregateOf(rnd, rows, keys[j])
    {
      KeysAreThoseOfMembers(PairOf, rows, keys[i]);
      out := out + [Summarise(rnd, keys[i], groups[keys[i]])];
    }
  }

  // ---- what the aggregates are

  lemma AggregateFacts(rnd: Rounding, rows: seq<Row>, k: Pair)
    requires k in Keys(PairOf, rows)
    ensures PairOfAggregate(AggregateOf(rnd, rows, k)) == k
    ensures AggregateOf(rnd, rows, k).repeats == |Group(PairOf, k, rows)|
  {
    hide Stats.Median, Stats.Iqr;
  }

  /** The fields of a row that its entry's columns are made of: missing percentiles are 0. */
  predicate FieldsOf(r: Row, p50: real, p99: real, e2e: real, rate: real) {
    && p50 == (if r.ack.Percentiles? then r.ack.p50 else 0.0)
    && p99 == (if r.ack.Percentiles? then r.ack.p99 else 0.0)
    && e2e == (if r.e2e.Percentiles? then r.e2e.p99 else 0.0)
    && rate == r.rate
  }

  lemma IsMap(f: Row -> real, group: seq<Row>, xs: seq<real>)
    requires |xs| == |group| && forall i :: 0 <= i < |xs| ==> xs[i] == f(group[i])
    ensures xs == Map(f, group)
  {
  }

  lemma FieldsAreMaps(group: seq<Row>, p50s: seq<real>, p99s: seq<real>, e2es: seq<real>, rates: seq<real>)
    requires |p50s| == |p99s| == |e2es| == |rates| == |group|
    requires forall i :: 0 <= i < |group| ==> FieldsOf(group[i], p50s[i], p99s[i], e2es[i], rates[i])
    ensures p50s == Map(AckP50, group) && p99s == Map(AckP99, group)
    ensures e2es == Map(E2eP99, group) && rates == Map(Rate, group)
  {
    hide Map;
    IsMap(AckP50, group, p50s);
    IsMap(AckP99, group, p99s);
    IsMap(E2eP99, group, e2es);
    IsMap(Rate, group, rates);
  }

  /** The columns of the entry of a pair, from the fields of exactly its rows. */
  lemma ColumnsOfEntry(rnd: Rounding, rows: seq<Row>, k: Pair, group: seq<Row>,
                       p50s: seq<real>, p99s: seq<real>, e2es: seq<real>, rates: seq<real>)
    requires k in Keys(PairOf, rows) && group == Group(PairOf, k, rows)
    requires |p50s| == |p99s| == |e2es| == |rates| == |group|
    requires forall i :: 0 <= i < |group| ==> FieldsOf(group[i], p50s[i], p99s[i], e2es[i], rates[i])
    ensures group != []
    ensures var x := AggregateOf(rnd, rows, k);
            && x.client == k.client && x.workload == k.workload && x.kind == group[0].kind && x.repeats == |group|
            && x.ackP50Median == rnd(Stats.Median(p50s) / 1000.0, 3)
            && x.ackP99Median == rnd(Stats.Median(p99s) / 1000.0, 3)
            && x.ackP99Min == rnd(Stats.Min(p99s) / 1000.0, 3)
            && x.ackP99Iqr == rnd(Stats.Iqr(p99s) / 1000.0, 3)
            && x.e2eP99Median == rnd(Stats.Median(e2es) / 1000.0, 3)
            && x.rateMedian == rnd(Stats.Median(rates), 1)
            && x.rateMax == rnd(Stats.Max(rates), 1)
  {
    KeysAreThoseOfMembers(PairOf, rows, k);
    hide Group, Keys, Map, FieldsOf, Stats.Median, Stats.Min, Stats.Max, Stats.Iqr;
    FieldsAreMaps(group, p50s, p99s, e2es, rates);
    hide AckP50, AckP99, E2eP99, Rate;
  }

  function TotalRepeats(aggs: seq<Aggregate>): nat {
    if aggs == [] then 0 else aggs[0].repeats + TotalRepeats(aggs[1..])
  }

  lemma {:induction false} TotalRepeatsIsGroupSizes(rnd: Rounding, rows: seq<Row>,
                                                    keys: seq<Pair>, aggs: seq<Aggregate>)
    requires |aggs| == |keys|
    requires forall i :: 0 <= i < |keys| ==> keys[i] in Keys(PairOf, rows) && aggs[i] == AggregateOf(rnd, rows, keys[i])
    ensures TotalRepeats(aggs) == GroupSizes(PairOf, keys, rows)
  {
    hide AggregateOf;
    if keys != [] {
      AggregateFacts(rnd, rows, keys[0]);
      assert aggs[0] == AggregateOf(rnd, rows, keys[0]);
      TotalRepeatsIsGroupSizes(rnd, rows, keys[1..], aggs[1..]);
    }
  }

  /** Every row is counted in exactly one entry. */
  lemma RepeatsSumToRows(rnd: Rounding, rows: seq<Row>)
    ensures TotalRepeats(Aggregates(rnd, rows)) == |rows|
  {
    TotalRepeatsIsGroupSizes(rnd, rows, Keys(PairOf, rows), Aggregates(rnd, rows));
    GroupsPartition(PairOf, rows);
  }

  function PairOfAggregate(a: Aggregate): Pair { Pair(a.client, a.workload) }

  ghost predicate PairsDetermine(aggs: seq<Aggregate>) {
    forall x, y :: x in aggs && y in aggs && PairOfAggregate(x) == PairOfAggregate(y) ==> x == y
  }

  /** The entries are those of the pairs in order of first appearance, and no pair has two. */
  lemma AggregatePairsDistinct(rnd: Rounding, rows: seq<Row>)
    ensures |Aggregates(rnd, rows)| == |Keys(PairOf, rows)|
    ensures forall i :: 0 <= i < |Keys(PairOf, rows)| ==>
              PairOfAggregate(Aggregates(rnd, rows)[i]) == Keys(PairOf, rows)[i]
    ensures PairsDetermine(Aggregates(rnd, rows))
    ensures NoDuplicates(Aggregates(rnd, rows))
  {
    hide AggregateOf;
    KeysDistinct(PairOf, rows);
    forall i | 0 <= i < |Keys(PairOf, rows)|
      ensures PairOfAggregate(Aggregates(rnd, rows)[i]) == Keys(PairOf, rows)[i]
    {
      AggregateFacts(rnd, rows, Keys(PairOf, rows)[i]);
    }
  }

  // ---- order of rows

  /** Rows of one pair agree on their kind. */
  ghost predicate KindByPair(rows: seq<Row>) {
    forall x, y :: x in rows && y in rows && PairOf(x) == PairOf(y) ==> x.kind == y.kind
  }

  lemma StatisticsOfField(f: Row -> real, a: seq<Row>, b: seq<Row>)
    requires multiset(a) == multiset(b)
    ensures Stats.Median(Map(f, a)) == Stats.Median(Map(f, b))
    ensures Stats.Iqr(Map(f, a)) == Stats.Iqr(Map(f, b))
    ensures a != [] && b != [] ==>
              Stats.Min(Map(f, a)) == Stats.Min(Map(f, b)) && Stats.Max(Map(f, a)) == Stats.Max(Map(f, b))
  {
    MapKeepsPermutation(f, a, b);
    Stats.StatisticsIgnoreOrder(Map(f, a), Map(f, b));
  }

  lemma SummaryIgnoresOrder(rnd: Rounding, k: Pair, a: seq<Row>, b: seq<Row>)
    requires multiset(a) == multiset(b)
    requires a != [] && b != [] && a[0].kind == b[0].kind
    ensures Summarise(rnd, k, a) == Summarise(rnd, k, b)
  {
    hide Stats.Median, Stats.Iqr;
    SameMembers(a, b);
    StatisticsOfField(AckP50, a, b);
    StatisticsOfField(AckP99, a, b);
    StatisticsOfField(E2eP99, a, b);
    StatisticsOfField(Rate, a, b);
  }

  lemma AggregateIgnoresOrder(rnd: Rounding, a: seq<Row>, b: seq<Row>, k: Pair)
    requires multiset(a) == multiset(b)
    requires k in Keys(PairOf, a) && k in Keys(PairOf, b)
    requires KindByPair(a)
    ensures AggregateOf(rnd, a, k) == AggregateOf(rnd, b, k)
  {
    hide Summarise;
    var ga, gb := Group(PairOf, k, a), Group(PairOf, k, b);
    KeysAreThoseOfMembers(PairOf, a, k);
    KeysAreThoseOfMembers(PairOf, b, k);
    FilterKeepsPermutation(Having(PairOf, k), a, b);
    SameMembers(a, b);
    assert ga[0] in ga && gb[0] in gb;
    SummaryIgnoresOrder(rnd, k, ga, gb);
  }

  lemma AggregateMembership(rnd: Rounding, rows: seq<Row>, x: Aggregate)
    ensures x in Aggregates(rnd, rows) <==>
            var k := PairOfAggregate(x); k in Keys(PairOf, rows) && x == AggregateOf(rnd, rows, k)
  {
    hide AggregateOf;
    var keys, k := Keys(PairOf, rows), PairOfAggregate(x);
    if x in Aggregates(rnd, rows) {
      var i :| 0 <= i < |keys| && x == Aggregates(rnd, rows)[i];
      AggregateFacts(rnd, rows, keys[i]);
    }
    if k in keys && x == AggregateOf(rnd, rows, k) {
      var i :| 0 <= i < |keys| && keys[i] == k;
      assert Aggregates(rnd, rows)[i] == x;
    }
  }

  /** With kinds fixed by the pair, rearranged rows give the same entries. */
  lemma AggregatesIgnoreOrder(rnd: Rounding, a: seq<Row>, b: seq<Row>)
    requires multiset(a) == multiset(b)
    requires KindByPair(a)
    ensures multiset(Aggregates(rnd, a)) == multiset(Aggregates(rnd, b))
  {
    KeysIgnoreOrder(PairOf, a, b);
    SameMembers(Keys(PairOf, a), Keys(PairOf, b));
    forall x
      ensures x in Aggregates(rnd, a) <==> x in Aggregates(rnd, b)
    {
      AggregateMembership(rnd, a, x);
      AggregateMembership(rnd, b, x);
      if PairOfAggregate(x) in Keys(PairOf, a) {
        AggregateIgnoresOrder(rnd, a, b, PairOfAggregate(x));
      }
    }
    AggregatePairsDistinct(rnd, a);
    AggregatePairsDistinct(rnd, b);
    SameMembersDistinct(Aggregates(rnd, a), Aggregates(rnd, b));
  }

  // ---- the sorted report

  /** Python's order on strings. */
  predicate TextLeq(a: string, b: string) {
    if a == [] then true
    else if b == [] then false
    else if a[0] != b[0] then a[0] < b[0]
    else TextLeq(a[1..], b[1..])
  }

  lemma {:induction false} TextTotal(a: string, b: string)
    ensures TextLeq(a, b) || TextLeq(b, a)
    ensures TextLeq(a, b) && TextLeq(b, a) ==> a == b
  {
    if a != [] && b != [] && a[0] == b[0] {
      TextTotal(a[1..], b[1..]);
      assert a == [a[0]] + a[1..] && b == [b[0]] + b[1..];
    }
  }

  lemma {:induction false} TextTransitive(a: string, b: string, c: string)
    requires TextLeq(a, b) && TextLeq(b, c)
    ensures TextLeq(a, c)
  {
    if a != [] && b != [] && c != [] && a[0] == b[0] == c[0] {
      TextTransitive(a[1..], b[1..], c[1..]);
    }
  }

  /** At the first difference, a has the smaller character. */
  predicate CharBefore(a: string, b: string, i: int) {
    0 <= i < |a| && i < |b| && a[..i] == b[..i] && a[i] < b[i]
  }

  /** Ascending: a prefix comes first, and otherwise the first difference decides. */
  lemma {:induction false} TextLeqIff(a: string, b: string)
    ensures TextLeq(a, b) <==> a <= b || exists i :: CharBefore(a, b, i)
  {
    if a != [] && b != [] && a[0] == b[0] {
      TextLeqIff(a[1..], b[1..]);
      TailsDecide(a, b);
    } else if a != [] && b != [] {
      if i :| CharBefore(a, b, i) {
        FirstCharacter(a, b, i);
      }
      if a[0] < b[0] {
        assert CharBefore(a, b, 0);
      }
    }
  }

  /** Equal first characters decide nothing. */
  lemma TailsDecide(a: string, b: string)
    requires a != [] && b != [] && a[0] == b[0]
    ensures a <= b <==> a[1..] <= b[1..]
    ensures (exists i :: CharBefore(a, b, i)) <==> exists i :: CharBefore(a[1..], b[1..], i)
  {
    assert a == [a[0]] + a[1..] && b == [b[0]] + b[1..];
    if i :| CharBefore(a[1..], b[1..], i) {
      assert a[..i + 1] == [a[0]] + a[1..][..i] && b[..i + 1] == [b[0]] + b[1..][..i];
      assert CharBefore(a, b, i + 1);
    }
    if i :| CharBefore(a, b, i) {
      assert i != 0;
      assert a[1..][..i - 1] == a[..i][1..] && b[1..][..i - 1] == b[..i][1..];
      assert CharBefore(a[1..], b[1..], i - 1);
    }
  }

  lemma FirstCharacter(a: string, b: string, i: int)
    requires CharBefore(a, b, i)
    ensures if i == 0 then a[0] < b[0] else a[0] == b[0]
  {
    if i != 0 {
      assert a[..i][0] == a[0] && b[..i][0] == b[0];
    }
  }

  lemma TextOrder()
    ensures TotalPreorder(TextLeq)
  {
    forall a, b
      ensures TextLeq(a, b) || TextLeq(b, a)
    {
      TextTotal(a, b);
    }
    forall a, b, c | TextLeq(a, b) && TextLeq(b, c)
      ensures TextLeq(a, c)
    {
      TextTransitive(a, b, c);
    }
  }

  lemma TextWithoutTies(s: seq<string>)
    ensures AntisymmetricOn(TextLeq, s)
  {
    forall a, b | TextLeq(a, b) && TextLeq(b, a)
      ensures a == b
    {
      TextTotal(a, b);
    }
  }

  /** The sort key (workload, client) of the table lines. */
  predicate LineLeq(x: Aggregate, y: Aggregate) {
    if x.workload != y.workload then TextLeq(x.workload, y.workload) else TextLeq(x.client, y.client)
  }

  lemma LineOrder()
    ensures TotalPreorder(LineLeq)
    ensures forall x, y :: LineLeq(x, y) && LineLeq(y, x) ==> PairOfAggregate(x) == PairOfAggregate(y)
  {
    forall x, y
      ensures LineLeq(x, y) || LineLeq(y, x)
      ensures LineLeq(x, y) && LineLeq(y, x) ==> PairOfAggregate(x) == PairOfAggregate(y)
    {
      TextTotal(x.workload, y.workload);
      TextTotal(x.client, y.client);
    }
    forall x, y, z | LineLeq(x, y) && LineLeq(y, z)
      ensures LineLeq(x, z)
    {
      TextTotal(x.workload, y.workload);
      TextTotal(y.workload, z.workload);
      if x.workload == y.workload == z.workload {
        TextTransitive(x.client, y.client, z.client);
      } else {
        TextTransitive(x.workload, y.workload, z.workload);
        TextTotal(x.workload, z.workload);
      }
    }
  }

  datatype Section = Section(kind: string, lines: seq<Aggregate>)

  datatype Document = Document(upToRepeats: nat, sections: seq<Section>)

  function MaxRepeats(aggs: seq<Aggregate>): nat {
    if aggs == [] then 0
    else
      var m := MaxRepeats(aggs[1..]);
      if aggs[0].repeats >= m then aggs[0].repeats else m
  }

  /** One table: the group's entries sorted by (workload, client). */
  function Table(kind: string, group: seq<Aggregate>): Section {
    LineOrder();
    Section(kind, Sort(LineLeq, group))
  }

  function SectionOf(aggs: seq<Aggregate>, kind: string): Section {
    Table(kind, Group(KindOf, kind, aggs))
  }

  function SortTexts(texts: seq<string>): (r: seq<string>)
    ensures multiset(r) == multiset(texts)
  {
    TextOrder();
    Sort(TextLeq, texts)
  }

  function SortedKinds(aggs: seq<Aggregate>): seq<string> {
    SortTexts(Keys(KindOf, aggs))
  }

  function DocumentOf(aggs: seq<Aggregate>): Document {
    Document(MaxRepeats(aggs), Map(kind => SectionOf(aggs, kind), SortedKinds(aggs)))
  }

  /** `_write_report`: group by kind, visit the kinds in order, sort each group. */
  method WriteReport(aggs: seq<Aggregate>) returns (d: Document)
    ensures d == DocumentOf(aggs)
  {
    hide Table, Group, SortTexts;
    var keys, byKind := GroupBy(KindOf, aggs);
    var kinds := SortTexts(keys);
    SameMembers(kinds, keys);
    var sections: seq<Section> := [];
    for i := 0 to |kinds|
      invariant |sections| == i
      invariant forall j :: 0 <= j < i ==> sections[j] == SectionOf(aggs, kinds[j])
    {
      assert kinds[i] in kinds;
      sections := sections + [Table(kinds[i], byKind[kinds[i]])];
    }
    d := Document(MaxRepeats(aggs), sections);
    assert sections == Map(kind => SectionOf(aggs, kind), SortedKinds(aggs));
  }

  lemma {:induction false} MaxRepeatsIsLeastBound(aggs: seq<Aggregate>)
    ensures forall x :: x in aggs ==> x.repeats <= MaxRepeats(aggs)
    ensures aggs != [] ==> exists x :: x in aggs && x.repeats == MaxRepeats(aggs)
  {
    if aggs != [] {
      MaxRepeatsIsLeastBound(aggs[1..]);
      assert aggs == [aggs[0]] + aggs[1..];
      assert aggs[0] in aggs;
      assert forall x :: x in aggs[1..] ==> x in aggs;
    }
  }

  lemma SortedKindsIgnoreOrder(a: seq<Aggregate>, b: seq<Aggregate>)
    requires multiset(a) == multiset(b)
    ensures SortedKinds(a) == SortedKinds(b)
  {
    hide TotalPreorder;
    TextOrder();
    KeysIgnoreOrder(KindOf, a, b);
    TextWithoutTies(Keys(KindOf, a));
    SortIgnoresOrder(TextLeq, Keys(KindOf, a), Keys(KindOf, b));
  }

  lemma SectionIgnoresOrder(a: seq<Aggregate>, b: seq<Aggregate>, kind: string)
    requires multiset(a) == multiset(b)
    requires PairsDetermine(a)
    ensures SectionOf(a, kind) == SectionOf(b, kind)
  {
    hide TotalPreorder;
    LineOrder();
    FilterKeepsPermutation(Having(KindOf, kind), a, b);
    SortIgnoresOrder(LineLeq, Group(KindOf, kind, a), Group(KindOf, kind, b));
  }

  lemma MaxRepeatsIgnoresOrder(a: seq<Aggregate>, b: seq<Aggregate>)
    requires multiset(a) == multiset(b)
    ensures MaxRepeats(a) == MaxRepeats(b)
  {
    SameMembers(a, b);
    MaxRepeatsIsLeastBound(a);
    MaxRepeatsIsLeastBound(b);
  }

  /** The table is the same for rearranged entries. */
  lemma DocumentIgnoresOrder(a: seq<Aggregate>, b: seq<Aggregate>)
    requires multiset(a) == multiset(b)
    requires PairsDetermine(a)
    ensures DocumentOf(a) == DocumentOf(b)
  {
    hide SectionOf, SortedKinds;
    MaxRepeatsIgnoresOrder(a, b);
    SortedKindsIgnoreOrder(a, b);
    forall kind
      ensures SectionOf(a, kind) == SectionOf(b, kind)
    {
      SectionIgnoresOrder(a, b, kind);
    }
  }

  lemma SectionMembers(aggs: seq<Aggregate>, kind: string, x: Aggregate)
    ensures SectionOf(aggs, kind).kind == kind
    ensures x in SectionOf(aggs, kind).lines <==> x in aggs && x.kind == kind
  {
    hide TotalPreorder;
    LineOrder();
    SameMembers(SectionOf(aggs, kind).lines, Group(KindOf, kind, aggs));
    GroupMembers(KindOf, kind, aggs, x);
  }

  lemma SortedKindsAreKinds(aggs: seq<Aggregate>, kind: string)
    ensures kind in SortedKinds(aggs) <==> exists x :: x in aggs && x.kind == kind
  {
    hide TotalPreorder;
    TextOrder();
    SameMembers(SortedKinds(aggs), Keys(KindOf, aggs));
    KeysAreThoseOfMembers(KindOf, aggs, kind);
  }

  ghost predicate Lists(d: Document, i: int, x: Aggregate) {
    0 <= i < |d.sections| && x in d.sections[i].lines
  }

  /** Every entry stands in the section of its kind, and nothing else stands anywhere. */
  lemma DocumentListsAggregates(aggs: seq<Aggregate>, x: Aggregate)
    ensures x in aggs <==> exists i :: Lists(DocumentOf(aggs), i, x)
    ensures forall i :: Lists(DocumentOf(aggs), i, x) ==> DocumentOf(aggs).sections[i].kind == x.kind
  {
    hide SectionOf, SortedKinds;
    var d, kinds := DocumentOf(aggs), SortedKinds(aggs);
    forall i | 0 <= i < |kinds|
      ensures Lists(d, i, x) <==> x in aggs && x.kind == kinds[i]
      ensures d.sections[i].kind == kinds[i]
    {
      SectionMembers(aggs, kinds[i], x);
    }
    if x in aggs {
      SortedKindsAreKinds(aggs, x.kind);
      var i :| 0 <= i < |kinds| && kinds[i] == x.kind;
      assert Lists(d, i, x);
    }
  }

  /** Sections ascend by kind, lines by workload and then client; and the most repeats are those of some entry. */
  lemma DocumentSorted(aggs: seq<Aggregate>)
    ensures var d := DocumentOf(aggs);
            && (forall m, n :: 0 <= m < n < |d.sections| ==>
                  TextLeq(d.sections[m].kind, d.sections[n].kind) && d.sections[m].kind != d.sections[n].kind)
            && (forall n :: 0 <= n < |d.sections| ==> LinesAscend(d.sections[n].lines))
            && (forall x :: x in aggs ==> x.repeats <= d.upToRepeats)
            && (aggs != [] ==> exists x :: x in aggs && x.repeats == d.upToRepeats)
  {
    MaxRepeatsIsLeastBound(aggs);
    KindsAscend(aggs);
    hide SortedKinds, TextLeq, TotalPreorder;
    forall n | 0 <= n < |SortedKinds(aggs)|
      ensures LinesAscend(SectionOf(aggs, SortedKinds(aggs)[n]).lines)
    {
      SectionAscends(aggs, SortedKinds(aggs)[n]);
    }
  }

  ghost predicate LinesAscend(lines: seq<Aggregate>) {
    forall i, j :: 0 <= i < j < |lines| ==>
      && TextLeq(lines[i].workload, lines[j].workload)
      && (lines[i].workload == lines[j].workload ==> TextLeq(lines[i].client, lines[j].client))
  }

  lemma SectionAscends(aggs: seq<Aggregate>, kind: string)
    ensures LinesAscend(SectionOf(aggs, kind).lines)
  {
    LineOrder();
    hide TotalPreorder;
    var lines := SectionOf(aggs, kind).lines;
    assert SortedBy(LineLeq, lines);
    hide TextLeq;
    forall i, j | 0 <= i < j < |lines|
      ensures TextLeq(lines[i].workload, lines[j].workload)
      ensures lines[i].workload == lines[j].workload ==> TextLeq(lines[i].client, lines[j].client)
    {
      assert LineLeq(lines[i], lines[j]);
      TextTotal(lines[i].workload, lines[j].workload);
    }
  }

  lemma KindsAscend(aggs: seq<Aggregate>)
    ensures var kinds := SortedKinds(aggs);
            forall m, n :: 0 <= m < n < |kinds| ==> TextLeq(kinds[m], kinds[n]) && kinds[m] != kinds[n]
  {
    hide TotalPreorder, TextLeq;
    TextOrder();
    KeysDistinct(KindOf, aggs);
    var kinds := SortedKinds(aggs);
    assert SortedBy(TextLeq, kinds);
    DistinctKept(Keys(KindOf, aggs), kinds);
  }

  lemma DistinctKept<T>(a: seq<T>, b: seq<T>)
    requires NoDuplicates(a) && multiset(a) == multiset(b)
    ensures NoDuplicates(b)
  {
    CountOfDistinct(a);
    forall i, j | 0 <= i < j < |b|
      ensures b[i] != b[j]
    {
      assert b == b[..i] + [b[i]] + b[i + 1..j] + [b[j]] + b[j + 1..];
      assert multiset(b)[b[i]] <= 1;
    }
  }

  /** The whole pipeline from rows to table. */
  function FullReport(rnd: Rounding, rows: seq<Row>): Document {
    DocumentOf(Aggregates(rnd, rows))
  }

  lemma ReportIgnoresOrder(rnd: Rounding, a: seq<Row>, b: seq<Row>)
    requires multiset(a) == multiset(b)
    requires KindByPair(a)
    ensures FullReport(rnd, a) == FullReport(rnd, b)
  {
    AggregatesIgnoreOrder(rnd, a, b);
    AggregatePairsDistinct(rnd, a);
    DocumentIgnoresOrder(Aggregates(rnd, a), Aggregates(rnd, b));
  }

  /** The same rows with row i moved to the front. */
  function ToFront(rows: seq<Row>, i: nat): (r: seq<Row>)
    requires i < |rows|
    ensures multiset(r) == multiset(rows)
  {
    [rows[i]] + RemoveAt(rows, i)
  }

  /** The kind reported for a pair is that of its first row. */
  lemma FrontRowGivesKind(rnd: Rounding, rows: seq<Row>, i: nat)
    requires i < |rows|
    ensures PairOf(rows[i]) in Keys(PairOf, ToFront(rows, i))
    ensures AggregateOf(rnd, ToFront(rows, i), PairOf(rows[i])).kind == rows[i].kind
  {
    var moved, k := ToFront(rows, i), PairOf(rows[i]);
    assert moved[0] in moved;
    KeysAreThoseOfMembers(PairOf, moved, k);
    assert Group(PairOf, k, moved)[0] == moved[0];
  }

  /** The report is independent of the order of the rows exactly when rows of one pair agree on their kind. */
  lemma ReportIndependentOfOrderIff(rnd: Rounding, rows: seq<Row>)
    ensures KindByPair(rows) <==>
            forall other :: multiset(other) == multiset(rows) ==> FullReport(rnd, other) == FullReport(rnd, rows)
  {
    if KindByPair(rows) {
      forall other | multiset(other) == multiset(rows)
        ensures FullReport(rnd, other) == FullReport(rnd, rows)
      {
        ReportIgnoresOrder(rnd, rows, other);
      }
    } else {
      var x, y :| x in rows && y in rows && PairOf(x) == PairOf(y) && x.kind != y.kind;
      var i :| 0 <= i < |rows| && rows[i] == x;
      var j :| 0 <= j < |rows| && rows[j] == y;
      KindClashShows(rnd, rows, i, j);
    }
  }

  /** Two rows of one pair with different kinds: moving one or the other to the front changes the report. */
  lemma KindClashShows(rnd: Rounding, rows: seq<Row>, i: nat, j: nat)
    requires i < |rows| && j < |rows|
    requires PairOf(rows[i]) == PairOf(rows[j]) && rows[i].kind != rows[j].kind
    ensures FullReport(rnd, ToFront(rows, i)) != FullReport(rnd, ToFront(rows, j))
  {
    var a, b, k := ToFront(rows, i), ToFront(rows, j), PairOf(rows[i]);
    FrontRowGivesKind(rnd, rows, i);
    FrontRowGivesKind(rnd, rows, j);
    var x, y := AggregateOf(rnd, a, k), AggregateOf(rnd, b, k);
    AggregateMembership(rnd, a, x);
    AggregateMembership(rnd, b, x);
    assert x in Aggregates(rnd, a) && x !in Aggregates(rnd, b);
    DocumentListsAggregates(Aggregates(rnd, a), x);
    DocumentListsAggregates(Aggregates(rnd, b), x);
  }
}
