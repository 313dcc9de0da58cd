/** The order statistics of bench/metrics.py and bench/reporting.py, over exact reals. */
module OrderStats {
  import opened Sorting

  predicate Le(x: real, y: real) { x <= y }

  lemma LeIsTotal()
    ensures TotalPreorder(Le)
  {
  }

  function Sorted(values: seq<real>): (r: seq<real>)
    ensures multiset(r) == multiset(values) && |r| == |values|
    ensures forall i, j :: 0 <= i <= j < |r| ==> r[i] <= r[j]
  {
    LeIsTotal();
    var r := Sort(Le, values);
    assert forall i, j :: 0 <= i < j < |r| ==> Le(r[i], r[j]);
    r
  }

  lemma SortedIsUnique(a: seq<real>, values: seq<real>)
    requires multiset(a) == multiset(values)
    requires forall i, j :: 0 <= i < j < |a| ==> a[i] <= a[j]
    ensures Sorted(values) == a
  {
    LeIsTotal();
    SortedUnique(Le, a, Sorted(values));
  }

  /** `_median`, and `statistics.median` on a non-empty list. */
  function Median(values: seq<real>): real {
    if values == [] then 0.0
    else
      var s := Sorted(values);
      var mid := |s| / 2;
      if |s| % 2 == 1 then s[mid] else (s[mid - 1] + s[mid]) / 2.0
  }

  /** The index pair of `statistics.quantiles(n=4, method="exclusive")`: position i*(size+1)/4, clamped. */
  function QuartileIndex(size: nat, i: nat): (j: nat)
    requires 2 <= size && 1 <= i <= 3
    ensures 1 <= j <= size - 1
  {
    var j := i * (size + 1) / 4;
    if j < 1 then 1 else if j > size - 1 then size - 1 else j
  }

  function QuartileWeight(size: nat, i: nat): int
    requires 2 <= size && 1 <= i <= 3
  {
    i * (size + 1) - QuartileIndex(size, i) * 4
  }

  /** k * x for a small integer k. */
  function Times(k: nat, x: real): real {
    if k == 0 then 0.0 else x + Times(k - 1, x)
  }

  /** Linear interpolation in quarters. */
  function Blend(lo: real, hi: real, weight: nat): real
    requires weight <= 4
  {
    (Times(4 - weight, lo) + Times(weight, hi)) / 4.0
  }

  /** The i-th quartile of sorted data. */
  function QuartileAt(data: seq<real>, i: nat): real
    requires 4 <= |data| && 1 <= i <= 3
  {
    QuartilesUnclampedIff(|data|);
    var j := QuartileIndex(|data|, i);
    Blend(data[j - 1], data[j], QuartileWeight(|data|, i))
  }

  function Quartile(values: seq<real>, i: nat): real
    requires 4 <= |values| && 1 <= i <= 3
  {
    QuartileAt(Sorted(values), i)
  }

  /** `_iqr`: zero below four values. */
  function Iqr(values: seq<real>): real {
    if |values| < 4 then 0.0 else Quartile(values, 3) - Quartile(values, 1)
  }

  function Min(values: seq<real>): (r: real)
    requires values != []
    ensures r in values && forall v :: v in values ==> r <= v
  {
    if |values| == 1 then values[0]
    else
      assert values == [values[0]] + values[1..];
      var m := Min(values[1..]);
      if values[0] <= m then values[0] else m
  }

  function Max(values: seq<real>): (r: real)
    requires values != []
    ensures r in values && forall v :: v in values ==> v <= r
  {
    if |values| == 1 then values[0]
    else
      assert values == [values[0]] + values[1..];
      var m := Max(values[1..]);
      if values[0] >= m then values[0] else m
  }

  // ---- exclusive quartiles

  /** The guard `n < 4` is exactly what keeps both quartile positions away from the clamp. */
  lemma QuartilesUnclampedIff(size: nat)
    requires 2 <= size
    ensures (forall i :: i in {1, 3} ==> QuartileIndex(size, i) == i * (size + 1) / 4) <==> 4 <= size
    ensures 4 <= size ==>
              forall i :: 1 <= i <= 3 ==>
                QuartileIndex(size, i) == i * (size + 1) / 4 && 0 <= QuartileWeight(size, i) <= 3
  {
    if size < 4 {
      assert 3 in {1, 3} && QuartileIndex(size, 3) != 3 * (size + 1) / 4;
    }
  }

  lemma {:induction false} TimesMonotone(k: nat, x: real, y: real)
    requires x <= y
    ensures Times(k, x) <= Times(k, y)
  {
    if k != 0 { TimesMonotone(k - 1, x, y); }
  }

  lemma BlendMonotone(lo: real, hi: real, lo': real, hi': real, weight: nat)
    requires weight <= 4 && lo <= lo' && hi <= hi'
    ensures Blend(lo, hi, weight) <= Blend(lo', hi', weight)
  {
    TimesMonotone(4 - weight, lo, lo');
    TimesMonotone(weight, hi, hi');
  }

  lemma {:induction false} TimesSplits(j: nat, k: nat, x: real)
    ensures Times(j, x) + Times(k, x) == Times(j + k, x)
  {
    if j != 0 { TimesSplits(j - 1, k, x); }
  }

  lemma FourTimes(x: real)
    ensures Times(4, x) == 4.0 * x
  {
    assert Times(1, x) == x;
    assert Times(2, x) == x + x;
    assert Times(3, x) == x + (x + x);
  }

  lemma BlendOfEquals(x: real, weight: nat)
    requires weight <= 4
    ensures Blend(x, x, weight) == x
  {
    TimesSplits(4 - weight, weight, x);
    FourTimes(x);
  }

  lemma BlendBetween(lo: real, hi: real, weight: nat)
    requires weight <= 4 && lo <= hi
    ensures lo <= Blend(lo, hi, weight) <= hi
  {
    BlendMonotone(lo, lo, lo, hi, weight);
    BlendMonotone(lo, hi, hi, hi, weight);
    BlendOfEquals(lo, weight);
    BlendOfEquals(hi, weight);
  }

  lemma IndexOf(s: seq<real>, x: real) returns (i: nat)
    requires x in s
    ensures i < |s| && s[i] == x
  {
    i :| 0 <= i < |s| && s[i] == x;
  }

  lemma MinMaxAreEnds(values: seq<real>)
    requires values != []
    ensures Sorted(values)[0] == Min(values) && Sorted(values)[|values| - 1] == Max(values)
  {
    hide Sorted, Min, Max;
    var s := Sorted(values);
    SameMembers(s, values);
    var i := IndexOf(s, Min(values));
    var j := IndexOf(s, Max(values));
    assert s[0] <= s[i] && s[j] <= s[|s| - 1];
    assert s[0] in s && s[|s| - 1] in s;
  }

  lemma QuartilesOrdered(data: seq<real>)
    requires 4 <= |data|
    requires forall i, j :: 0 <= i <= j < |data| ==> data[i] <= data[j]
    ensures data[0] <= QuartileAt(data, 1) <= QuartileAt(data, 3) <= data[|data| - 1]
  {
    QuartilesUnclampedIff(|data|);
    var j1, j3 := QuartileIndex(|data|, 1), QuartileIndex(|data|, 3);
    assert j1 <= j3 - 1;
    BlendBetween(data[j1 - 1], data[j1], QuartileWeight(|data|, 1));
    BlendBetween(data[j3 - 1], data[j3], QuartileWeight(|data|, 3));
    assert data[0] <= data[j1 - 1] && data[j1] <= data[j3 - 1] && data[j3] <= data[|data| - 1];
  }

  /** The interquartile range is never negative, and never wider than the whole range. */
  lemma IqrWithinRange(values: seq<real>)
    requires values != []
    ensures 0.0 <= Iqr(values) <= Max(values) - Min(values)
  {
    MinMaxAreEnds(values);
    if 4 <= |values| {
      QuartilesOrdered(Sorted(values));
    } else {
      assert Sorted(values)[0] <= Sorted(values)[|values| - 1];
    }
  }

  /** No statistic of the report depends on the order of its input. */
  lemma StatisticsIgnoreOrder(a: seq<real>, b: seq<real>)
    requires multiset(a) == multiset(b)
    ensures Median(a) == Median(b)
    ensures Iqr(a) == Iqr(b)
    ensures a != [] && b != [] ==> Min(a) == Min(b) && Max(a) == Max(b)
  {
    hide QuartileAt, Min, Max;
    SameMembers(a, b);
    SortedIsUnique(Sorted(a), b);
    hide Sorted;
    if a != [] {
      MinMaxAreEnds(a);
      MinMaxAreEnds(b);
    }
  }

  function Scale(c: real, x: real): real { c * x }

  lemma ScaleLaws(c: real, x: real, y: real)
    ensures Scale(c, x + y) == Scale(c, x) + Scale(c, y)
    ensures Scale(c, x - y) == Scale(c, x) - Scale(c, y)
    ensures Scale(c, 0.0) == 0.0
    ensures 0.0 <= c && x <= y ==> Scale(c, x) <= Scale(c, y)
  {
    assert c * (x + y) == c * x + c * y;
    if 0.0 <= c && x <= y {
      assert 0.0 <= c * (y - x);
    }
  }

  function Affine(c: real, d: real): real -> real { x => Scale(c, x) + d }

  lemma AffineSorted(values: seq<real>, c: real, d: real)
    requires 0.0 <= c
    ensures Sorted(Map(Affine(c, d), values)) == Map(Affine(c, d), Sorted(values))
  {
    hide Scale, Sorted;
    var s := Sorted(values);
    var t := Map(Affine(c, d), s);
    forall i, j | 0 <= i < j < |t|
      ensures t[i] <= t[j]
    {
      ScaleLaws(c, s[i], s[j]);
    }
    MapKeepsPermutation(Affine(c, d), s, values);
    SortedIsUnique(t, Map(Affine(c, d), values));
  }

  lemma {:induction false} TimesAffine(k: nat, x: real, c: real, d: real)
    ensures Times(k, Scale(c, x) + d) == Scale(c, Times(k, x)) + Times(k, d)
  {
    hide Scale;
    ScaleLaws(c, x, if k == 0 then 0.0 else Times(k - 1, x));
    if k != 0 {
      TimesAffine(k - 1, x, c, d);
    }
  }

  lemma BlendAffine(lo: real, hi: real, weight: nat, c: real, d: real)
    requires weight <= 4
    ensures Blend(Scale(c, lo) + d, Scale(c, hi) + d, weight) == Scale(c, Blend(lo, hi, weight)) + d
  {
    hide Scale;
    var x, y := Times(4 - weight, lo), Times(weight, hi);
    var q := (x + y) / 4.0;
    TimesAffine(4 - weight, lo, c, d);
    TimesAffine(weight, hi, c, d);
    TimesSplits(4 - weight, weight, d);
    FourTimes(d);
    ScaleLaws(c, x, y);
    ScaleLaws(c, q, q);
    ScaleLaws(c, q + q, q + q);
  }

  lemma QuartileAtAffine(data: seq<real>, mapped: seq<real>, i: nat, c: real, d: real)
    requires 4 <= |data| == |mapped| && 1 <= i <= 3
    requires forall k :: 0 <= k < |data| ==> mapped[k] == Scale(c, data[k]) + d
    ensures QuartileAt(mapped, i) == Scale(c, QuartileAt(data, i)) + d
  {
    hide Blend, Scale;
    QuartilesUnclampedIff(|data|);
    var j, w := QuartileIndex(|data|, i), QuartileWeight(|data|, i);
    BlendAffine(data[j - 1], data[j], w, c, d);
  }

  lemma QuartileAffine(values: seq<real>, i: nat, c: real, d: real)
    requires 0.0 <= c
    requires 4 <= |values| && 1 <= i <= 3
    ensures Quartile(Map(Affine(c, d), values), i) == Scale(c, Quartile(values, i)) + d
  {
    hide Sorted, QuartileAt, Scale;
    AffineSorted(values, c, d);
    QuartileAtAffine(Sorted(values), Map(Affine(c, d), Sorted(values)), i, c, d);
  }

  /** Shifting all values leaves the interquartile range alone; scaling scales it. */
  lemma IqrAffine(values: seq<real>, c: real, d: real)
    requires 0.0 <= c
    ensures Iqr(Map(x => c * x + d, values)) == c * Iqr(values)
  {
    assert Map(x => c * x + d, values) == Map(Affine(c, d), values);
    assert Scale(c, Iqr(values)) == c * Iqr(values);
    IqrScaled(values, c, d);
  }

  lemma IqrScaled(values: seq<real>, c: real, d: real)
    requires 0.0 <= c
    ensures Iqr(Map(Affine(c, d), values)) == Scale(c, Iqr(values))
  {
    hide Scale, Quartile;
    if 4 <= |values| {
      var q3, q1 := Quartile(values, 3), Quartile(values, 1);
      QuartileAffine(values, 3, c, d);
      QuartileAffine(values, 1, c, d);
      ScaleLaws(c, q3, q1);
    } else {
      ScaleLaws(c, 0.0, 0.0);
    }
  }

  // ---- the quartiles, spelled out

  lemma BlendExact(lo: real, hi: real, weight: nat)
    requires weight <= 4
    ensures 4.0 * Blend(lo, hi, weight) == (4 - weight) as real * lo + weight as real * hi
  {
    TimesIsProduct(4 - weight, lo);
    TimesIsProduct(weight, hi);
  }

  lemma {:induction false} TimesIsProduct(k: nat, x: real)
    ensures Times(k, x) == k as real * x
  {
    if k != 0 {
      TimesIsProduct(k - 1, x);
      assert k as real == (k - 1) as real + 1.0;
    }
  }

  lemma QuartileParts(size: nat, i: nat)
    requires 4 <= size && 1 <= i <= 3
    ensures QuartileIndex(size, i) == i * (size + 1) / 4 && QuartileWeight(size, i) == i * (size + 1) % 4
    ensures 1 <= i * (size + 1) / 4 < size && i * (size + 1) % 4 <= 3
  {
    if i == 1 { } else if i == 2 { } else { }
  }

  lemma QuartileAtExact(data: seq<real>, i: nat, j: nat, w: nat)
    requires 4 <= |data| && 1 <= i <= 3 && 1 <= j < |data| && w <= 3
    requires j == QuartileIndex(|data|, i) && w == QuartileWeight(|data|, i)
    ensures 4.0 * QuartileAt(data, i) == (4 - w) as real * data[j - 1] + w as real * data[j]
  {
    hide Blend, QuartileIndex, QuartileWeight;
    BlendExact(data[j - 1], data[j], w);
  }

  /** Quartile i of n values interpolates, in quarters, at position i * (n + 1) / 4 of the sorted values. */
  lemma QuartileExact(values: seq<real>, i: nat, j: nat, w: nat)
    requires 4 <= |values| && 1 <= i <= 3
    requires j == i * (|values| + 1) / 4 && w == i * (|values| + 1) % 4
    ensures 1 <= j < |values| && w <= 3
    ensures 4.0 * Quartile(values, i) == (4 - w) as real * Sorted(values)[j - 1] + w as real * Sorted(values)[j]
  {
    hide Sorted, QuartileAt, QuartileIndex, QuartileWeight;
    QuartileParts(|values|, i);
    QuartileAtExact(Sorted(values), i, j, w);
  }

  /** The interquartile range is the third quartile minus the first. */
  lemma IqrExact(values: seq<real>, j1: nat, w1: nat, j3: nat, w3: nat)
    requires 4 <= |values|
    requires j1 == (|values| + 1) / 4 && w1 == (|values| + 1) % 4
    requires j3 == 3 * (|values| + 1) / 4 && w3 == 3 * (|values| + 1) % 4
    ensures 1 <= j1 < |values| && 1 <= j3 < |values|
    ensures 4.0 * Iqr(values)
         == ((4 - w3) as real * Sorted(values)[j3 - 1] + w3 as real * Sorted(values)[j3])
            - ((4 - w1) as real * Sorted(values)[j1 - 1] + w1 as real * Sorted(values)[j1])
  {
    hide Sorted, Quartile;
    QuartileExact(values, 1, j1, w1);
    QuartileExact(values, 3, j3, w3);
  }

  /** n values from `first` on, each `step` above the one before. */
  function Ladder(first: real, step: real, n: nat): (r: seq<real>)
    ensures |r| == n && forall k :: 0 <= k < n ==> r[k] == first + Scale(step, k as real)
  {
    seq(n, k requires 0 <= k < n => first + Scale(step, k as real))
  }

  /** Four times a quartile. */
  function Mixed(lo: real, hi: real, w: int): real { (4 - w) as real * lo + w as real * hi }

  lemma IqrMixed(values: seq<real>, j1: nat, w1: nat, j3: nat, w3: nat)
    requires 4 <= |values|
    requires j1 == (|values| + 1) / 4 && w1 == (|values| + 1) % 4
    requires j3 == 3 * (|values| + 1) / 4 && w3 == 3 * (|values| + 1) % 4
    ensures 1 <= j1 < |values| && 1 <= j3 < |values|
    ensures var s := Sorted(values); 4.0 * Iqr(values) == Mixed(s[j3 - 1], s[j3], w3) - Mixed(s[j1 - 1], s[j1], w1)
  {
    hide Sorted, Iqr;
    IqrExact(values, j1, w1, j3, w3);
  }

  lemma RungPosition(first: real, step: real, n: nat, j: nat, w: nat)
    requires 1 <= j < n && w <= 3
    ensures var s := Ladder(first, step, n);
            Mixed(s[j - 1], s[j], w) == 4.0 * first + Scale(step, (4 * j + w - 4) as real)
  {
    var x, lo := (j - 1) as real, first + Scale(step, (j - 1) as real);
    assert j as real == x + 1.0;
    ScaleLaws(step, x, 1.0);
    assert Scale(step, (4 * j + w - 4) as real) == 4.0 * Scale(step, x) + w as real * step by {
      assert (4 * j + w - 4) as real == 4.0 * x + w as real;
    }
    MixedStep(lo, step, w);
  }

  lemma MixedStep(lo: real, step: real, w: nat)
    requires w <= 3
    ensures Mixed(lo, lo + step, w) == 4.0 * lo + w as real * step
  {
  }

  lemma LadderSorted(first: real, step: real, n: nat, values: seq<real>)
    requires 0.0 <= step && multiset(values) == multiset(Ladder(first, step, n))
    ensures Sorted(values) == Ladder(first, step, n) && |values| == n
  {
    hide Scale;
    var s := Ladder(first, step, n);
    SameMembers(values, s);
    forall i, j | 0 <= i < j < n
      ensures s[i] <= s[j]
    {
      ScaleLaws(step, i as real, j as real);
    }
    SortedIsUnique(s, values);
  }

  /** On equally spaced values the range is (n + 1) / 2 steps, in whatever order they come. */
  lemma IqrOfLadder(first: real, step: real, n: nat, values: seq<real>)
    requires 4 <= n && 0.0 <= step && multiset(values) == multiset(Ladder(first, step, n))
    ensures Iqr(values) == step * (n + 1) as real / 2.0
  {
    hide Iqr, Scale, Mixed, Sorted, Ladder;
    LadderSorted(first, step, n, values);
    var j1, w1, j3, w3 := (n + 1) / 4, (n + 1) % 4, 3 * (n + 1) / 4, 3 * (n + 1) % 4;
    IqrMixed(values, j1, w1, j3, w3);
    RungPosition(first, step, n, j1, w1);
    RungPosition(first, step, n, j3, w3);
    assert 4 * j1 + w1 == n + 1 && 4 * j3 + w3 == 3 * (n + 1);
    ThreeMinusOne(step, n);
  }

  lemma ThreeMinusOne(step: real, n: nat)
    ensures Scale(step, (3 * (n + 1) - 4) as real) - Scale(step, (n + 1 - 4) as real) == 2.0 * (step * (n + 1) as real)
  {
    var x := (n + 1) as real;
    assert (3 * (n + 1) - 4) as real == 3.0 * x - 4.0 && (n + 1 - 4) as real == x - 4.0;
  }

  // ---- the median splits its list in half

  function AtMost(bound: real): real -> bool { x => x <= bound }

  function AtLeast(bound: real): real -> bool { x => bound <= x }

  lemma FilterPrefix(p: real -> bool, s: seq<real>, m: nat)
    requires m <= |s|
    requires forall i :: 0 <= i < m ==> p(s[i])
    ensures m <= |Filter(p, s)|
  {
    assert s == s[..m] + s[m..];
    FilterConcat(p, s[..m], s[m..]);
    FilterKeepsAll(p, s[..m]);
  }

  lemma FilterSuffix(p: real -> bool, s: seq<real>, m: nat)
    requires m <= |s|
    requires forall i :: m <= i < |s| ==> p(s[i])
    ensures |s| - m <= |Filter(p, s)|
  {
    assert s == s[..m] + s[m..];
    FilterConcat(p, s[..m], s[m..]);
    FilterKeepsAll(p, s[m..]);
  }

  lemma MiddleHalves(s: seq<real>, med: real, low: nat, high: nat)
    requires low <= |s| && high <= |s|
    requires forall i :: 0 <= i < low ==> s[i] <= med
    requires forall i :: high <= i < |s| ==> med <= s[i]
    ensures low <= |Filter(AtMost(med), s)| && |s| - high <= |Filter(AtLeast(med), s)|
  {
    FilterPrefix(AtMost(med), s, low);
    FilterSuffix(AtLeast(med), s, high);
  }

  lemma FilterCount(p: real -> bool, a: seq<real>, b: seq<real>)
    requires multiset(a) == multiset(b)
    ensures |Filter(p, a)| == |Filter(p, b)|
  {
    FilterKeepsPermutation(p, a, b);
    SameMembers(Filter(p, a), Filter(p, b));
  }

  /** At least half of the values lie on either side of the median, ties included. */
  lemma MedianHalves(values: seq<real>)
    requires values != []
    ensures |values| <= 2 * |Filter(AtMost(Median(values)), values)|
    ensures |values| <= 2 * |Filter(AtLeast(Median(values)), values)|
  {
    hide Sorted;
    var s, med := Sorted(values), Median(values);
    var mid := |s| / 2;
    FilterCount(AtMost(med), s, values);
    FilterCount(AtLeast(med), s, values);
    if |s| % 2 == 1 {
      MiddleHalves(s, med, mid + 1, mid);
    } else {
      assert s[mid - 1] <= s[mid];
      MiddleHalves(s, med, mid, mid);
    }
  }

  // ---- robustness: replaced values move order statistics by bounded steps

  /** Replacing one value moves each order statistic no further than its old neighbours. */
  lemma ReplaceOne(s: seq<real>, i: nat, v: real, k: nat)
    requires i < |s| && k < |s|
    ensures 0 < k ==> Sorted(s)[k - 1] <= Sorted(s[i := v])[k]
    ensures k + 1 < |s| ==> Sorted(s[i := v])[k] <= Sorted(s)[k + 1]
  {
    LeIsTotal();
    var kept := Sort(Le, RemoveAt(s, i));
    assert s[i := v] == s[..i] + [v] + s[i + 1..];
    OneMore(s[i], kept, s);
    OneMore(v, kept, s[i := v]);
    if 0 < k {
      InsertInterlaces(Le, s[i], kept, k - 1);
      InsertInterlaces(Le, v, kept, k);
    }
    if k + 1 < |s| {
      InsertInterlaces(Le, s[i], kept, k + 1);
      InsertInterlaces(Le, v, kept, k);
    }
  }

  lemma OneMore(x: real, kept: seq<real>, values: seq<real>)
    requires TotalPreorder(Le)
    requires SortedBy(Le, kept)
    requires multiset(values) == multiset(kept) + multiset{x}
    ensures Sorted(values) == Insert(Le, x, kept)
  {
    InsertSorted(Le, x, kept);
    SortedIsUnique(Insert(Le, x, kept), values);
  }

  /** In how many positions two lists of the same length differ. */
  function Distance(s: seq<real>, t: seq<real>): nat
    requires |s| == |t|
  {
    if s == [] then 0 else (if s[0] == t[0] then 0 else 1) + Distance(s[1..], t[1..])
  }

  lemma {:induction false} DistanceZero(s: seq<real>, t: seq<real>)
    requires |s| == |t| && Distance(s, t) == 0
    ensures s == t
  {
    if s != [] { DistanceZero(s[1..], t[1..]); }
  }

  lemma {:induction false} DistanceSymmetric(s: seq<real>, t: seq<real>)
    requires |s| == |t|
    ensures Distance(s, t) == Distance(t, s)
  {
    if s != [] { DistanceSymmetric(s[1..], t[1..]); }
  }

  /** Copying one differing position from t brings s one step closer. */
  lemma {:induction false} StepCloser(s: seq<real>, t: seq<real>) returns (i: nat)
    requires |s| == |t| && 0 < Distance(s, t)
    ensures i < |s| && Distance(s[i := t[i]], t) == Distance(s, t) - 1
  {
    if s[0] != t[0] {
      i := 0;
      assert s[0 := t[0]][1..] == s[1..];
    } else {
      var p := StepCloser(s[1..], t[1..]);
      i := p + 1;
      assert s[i := t[i]][1..] == s[1..][p := t[1..][p]];
    }
  }

  lemma {:induction false} EditsShiftUp(s: seq<real>, t: seq<real>, r: nat, k: nat)
    requires |s| == |t| && Distance(s, t) <= r && k + r < |s|
    ensures Sorted(t)[k] <= Sorted(s)[k + r]
    decreases r
  {
    if Distance(s, t) == 0 {
      DistanceZero(s, t);
    } else {
      var i := StepCloser(s, t);
      var nearer := s[i := t[i]];
      EditsShiftUp(nearer, t, r - 1, k);
      ReplaceOne(s, i, t[i], k + r - 1);
    }
  }

  /** Replacing r values moves no order statistic by more than r positions. */
  lemma EditsShift(s: seq<real>, t: seq<real>, r: nat, k: nat)
    requires |s| == |t| && Distance(s, t) <= r && k < |s|
    ensures r <= k ==> Sorted(s)[k - r] <= Sorted(t)[k]
    ensures k + r < |s| ==> Sorted(t)[k] <= Sorted(s)[k + r]
  {
    if k + r < |s| {
      EditsShiftUp(s, t, r, k);
    }
    if r <= k {
      DistanceSymmetric(s, t);
      EditsShiftUp(t, s, r, k - r);
    }
  }

  /** The median after r replacements stays between the old order statistics r places away. */
  lemma MedianRobust(s: seq<real>, t: seq<real>, r: nat)
    requires |s| == |t| && Distance(s, t) <= r
    ensures |s| % 2 == 1 && r <= |s| / 2 ==>
              Sorted(s)[|s| / 2 - r] <= Median(t) <= Sorted(s)[|s| / 2 + r]
    ensures |s| % 2 == 0 && r < |s| / 2 ==>
              (Sorted(s)[|s| / 2 - 1 - r] + Sorted(s)[|s| / 2 - r]) / 2.0 <= Median(t)
              <= (Sorted(s)[|s| / 2 - 1 + r] + Sorted(s)[|s| / 2 + r]) / 2.0
  {
    var mid := |s| / 2;
    if s != [] {
      EditsShift(s, t, r, mid);
      if |s| % 2 == 0 {
        EditsShift(s, t, r, mid - 1);
      }
    }
  }

  lemma BlendShift(a: seq<real>, b: seq<real>, r: nat, j: nat, w: nat)
    requires |a| == |b| && 1 <= j < |a| && w <= 4
    requires r < j ==> a[j - 1 - r] <= b[j - 1] && a[j - r] <= b[j]
    requires j + r < |a| ==> b[j - 1] <= a[j - 1 + r] && b[j] <= a[j + r]
    ensures r < j ==> Blend(a[j - 1 - r], a[j - r], w) <= Blend(b[j - 1], b[j], w)
    ensures j + r < |a| ==> Blend(b[j - 1], b[j], w) <= Blend(a[j - 1 + r], a[j + r], w)
  {
    if r < j {
      BlendMonotone(a[j - 1 - r], a[j - r], b[j - 1], b[j], w);
    }
    if j + r < |a| {
      BlendMonotone(b[j - 1], b[j], a[j - 1 + r], a[j + r], w);
    }
  }

  /** Each quartile after r replacements stays within the same interpolation shifted by r places. */
  lemma QuartileRobust(s: seq<real>, t: seq<real>, r: nat, i: nat, j: nat, w: nat)
    requires 4 <= |s| == |t| && Distance(s, t) <= r && 1 <= i <= 3
    requires j == QuartileIndex(|s|, i) && w == QuartileWeight(|s|, i)
    ensures w <= 3
    ensures r < j ==> Blend(Sorted(s)[j - 1 - r], Sorted(s)[j - r], w) <= Quartile(t, i)
    ensures j + r < |s| ==> Quartile(t, i) <= Blend(Sorted(s)[j - 1 + r], Sorted(s)[j + r], w)
  {
    QuartilesUnclampedIff(|s|);
    EditsShift(s, t, r, j - 1);
    EditsShift(s, t, r, j);
    BlendShift(Sorted(s), Sorted(t), r, j, w);
    assert Quartile(t, i) == Blend(Sorted(t)[j - 1], Sorted(t)[j], w);
  }
}
