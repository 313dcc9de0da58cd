/** Stable sorting by a key order: what Python's `sorted` does with a list, as a function. */
module Sorting {

  ghost predicate TotalPreorder<T(!new)>(leq: (T, T) -> bool) {
    && (forall x, y :: leq(x, y) || leq(y, x))
    && (forall x, y, z :: leq(x, y) && leq(y, z) ==> leq(x, z))
  }

  ghost predicate SortedBy<T>(leq: (T, T) -> bool, s: seq<T>) {
    forall i, j :: 0 <= i < j < |s| ==> leq(s[i], s[j])
  }

  /** No two different elements of s are tied under leq. */
  ghost predicate AntisymmetricOn<T(!new)>(leq: (T, T) -> bool, s: seq<T>) {
    forall x, y :: x in s && y in s && leq(x, y) && leq(y, x) ==> x == y
  }

  /** Puts x in front of the first element it does not exceed. */
  function Insert<T(!new)>(leq: (T, T) -> bool, x: T, s: seq<T>): (r: seq<T>)
    requires TotalPreorder(leq)
    ensures multiset(r) == multiset(s) + multiset{x}
    ensures |r| == |s| + 1
  {
    if s == [] then [x]
    else if leq(x, s[0]) then [x] + s
    else
      assert s == [s[0]] + s[1..];
      [s[0]] + Insert(leq, x, s[1..])
  }

  lemma {:induction false} SortedCons<T>(leq: (T, T) -> bool, x: T, s: seq<T>)
    requires SortedBy(leq, s)
    requires forall y :: y in s ==> leq(x, y)
    ensures SortedBy(leq, [x] + s)
  {
    var r := [x] + s;
    forall i, j | 0 <= i < j < |r|
      ensures leq(r[i], r[j])
    {
      assert r[j] == s[j - 1];
      if i != 0 { assert r[i] == s[i - 1]; }
    }
  }

  lemma {:induction false} InsertSorted<T(!new)>(leq: (T, T) -> bool, x: T, s: seq<T>)
    requires TotalPreorder(leq)
    requires SortedBy(leq, s)
    ensures SortedBy(leq, Insert(leq, x, s))
  {
    if s == [] {
    } else if leq(x, s[0]) {
      SortedCons(leq, x, s);
    } else {
      var t := Insert(leq, x, s[1..]);
      InsertSorted(leq, x, s[1..]);
      forall y | y in t
        ensures leq(s[0], y)
      {
        assert y in multiset(t);
        assert y == x || y in multiset(s[1..]);
      }
      SortedCons(leq, s[0], t);
    }
  }

  function Sort<T(!new)>(leq: (T, T) -> bool, s: seq<T>): (r: seq<T>)
    requires TotalPreorder(leq)
    ensures multiset(r) == multiset(s)
    ensures |r| == |s|
    ensures SortedBy(leq, r)
  {
    if s == [] then []
    else
      assert s == [s[0]] + s[1..];
      InsertSorted(leq, s[0], Sort(leq, s[1..]));
      Insert(leq, s[0], Sort(leq, s[1..]))
  }

  /** The elements that leq ties with x. */
  function TiedWith<T(!new)>(leq: (T, T) -> bool, x: T): T -> bool { y => leq(x, y) && leq(y, x) }

  lemma FilterOne<T(!new)>(p: T -> bool, x: T)
    ensures Filter(p, [x]) == if p(x) then [x] else []
  {
    assert Filter(p, []) == [];
  }

  /** Two neighbours that are not both kept can be swapped. */
  lemma FilterSwap<T(!new)>(p: T -> bool, x: T, z: T, s: seq<T>)
    requires !(p(x) && p(z))
    ensures Filter(p, [z] + ([x] + s)) == Filter(p, [x] + ([z] + s))
  {
    hide Filter;
    FilterConcat(p, [z], [x] + s);
    FilterConcat(p, [x], s);
    FilterConcat(p, [x], [z] + s);
    FilterConcat(p, [z], s);
    FilterOne(p, x);
    FilterOne(p, z);
  }

  /** Among elements that x does not exceed, the inserted x comes first. */
  lemma {:induction false} InsertStable<T(!new)>(leq: (T, T) -> bool, x: T, s: seq<T>, p: T -> bool)
    requires TotalPreorder(leq)
    requires forall y :: p(x) && p(y) ==> leq(x, y)
    ensures Filter(p, Insert(leq, x, s)) == Filter(p, [x] + s)
  {
    hide Filter, TotalPreorder;
    if s != [] && !leq(x, s[0]) {
      var rest := s[1..];
      InsertStable(leq, x, rest, p);
      assert s == [s[0]] + rest;
      FilterConcat(p, [s[0]], Insert(leq, x, rest));
      FilterConcat(p, [s[0]], [x] + rest);
      FilterSwap(p, x, s[0], rest);
    } else {
      assert Insert(leq, x, s) == [x] + s;
    }
  }

  /** Sorting is stable: tied elements keep their order, whatever lies between them. */
  lemma {:induction false} SortStable<T(!new)>(leq: (T, T) -> bool, s: seq<T>, y: T)
    requires TotalPreorder(leq)
    ensures Filter(TiedWith(leq, y), Sort(leq, s)) == Filter(TiedWith(leq, y), s)
  {
    if s != [] {
      var sorted := Sort(leq, s[1..]);
      SortStable(leq, s[1..], y);
      InsertStable(leq, s[0], sorted, TiedWith(leq, y));
      FilterConcat(TiedWith(leq, y), [s[0]], sorted);
      FilterConcat(TiedWith(leq, y), [s[0]], s[1..]);
      assert s == [s[0]] + s[1..];
    }
  }

  /** Equal multisets have equal members. */
  lemma SameMembers<T>(a: seq<T>, b: seq<T>)
    requires multiset(a) == multiset(b)
    ensures forall x :: x in a <==> x in b
    ensures |a| == |b|
  {
    assert forall x :: x in a <==> x in multiset(a);
    assert forall x :: x in b <==> x in multiset(b);
    assert |multiset(a)| == |a| && |multiset(b)| == |b|;
  }

  lemma FirstIsLeast<T>(leq: (T, T) -> bool, s: seq<T>, x: T)
    requires SortedBy(leq, s) && x in s && leq(x, x)
    ensures leq(s[0], x)
  {
    var i :| 0 <= i < |s| && s[i] == x;
  }

  lemma EqualTails<T>(a: seq<T>, b: seq<T>)
    requires multiset(a) == multiset(b) && a != [] && b != [] && a[0] == b[0]
    ensures multiset(a[1..]) == multiset(b[1..])
  {
    assert a == [a[0]] + a[1..] && b == [b[0]] + b[1..];
    assert multiset(a[1..]) == multiset(a) - multiset{a[0]};
    assert multiset(b[1..]) == multiset(b) - multiset{b[0]};
  }

  /** A multiset without ties has only one sorted arrangement. */
  lemma {:induction false} SortedUnique<T(!new)>(leq: (T, T) -> bool, a: seq<T>, b: seq<T>)
    requires forall x :: leq(x, x)
    requires SortedBy(leq, a) && SortedBy(leq, b)
    requires multiset(a) == multiset(b)
    requires AntisymmetricOn(leq, a)
    ensures a == b
  {
    SameMembers(a, b);
    if a != [] {
      assert a[0] == b[0] by {
        assert a[0] in b && b[0] in a;
        FirstIsLeast(leq, a, b[0]);
        FirstIsLeast(leq, b, a[0]);
      }
      EqualTails(a, b);
      assert SortedBy(leq, a[1..]) && SortedBy(leq, b[1..]);
      assert forall x :: x in a[1..] ==> x in a;
      SortedUnique(leq, a[1..], b[1..]);
    }
  }

  /** Sorting forgets the order of its input as long as no two different elements tie. */
  lemma {:induction false} SortIgnoresOrder<T(!new)>(leq: (T, T) -> bool, a: seq<T>, b: seq<T>)
    requires TotalPreorder(leq)
    requires multiset(a) == multiset(b)
    requires AntisymmetricOn(leq, a)
    ensures Sort(leq, a) == Sort(leq, b)
  {
    SameMembers(a, Sort(leq, a));
    assert AntisymmetricOn(leq, Sort(leq, a));
    SortedUnique(leq, Sort(leq, a), Sort(leq, b));
  }

  /** The inserted element splits the old sequence in two. */
  lemma {:induction false} InsertSplits<T(!new)>(leq: (T, T) -> bool, x: T, s: seq<T>) returns (q: nat)
    requires TotalPreorder(leq)
    ensures q <= |s|
    ensures Insert(leq, x, s) == s[..q] + [x] + s[q..]
  {
    if s == [] || leq(x, s[0]) {
      q := 0;
    } else {
      var p := InsertSplits(leq, x, s[1..]);
      q := p + 1;
      assert s[..q] == [s[0]] + s[1..][..p];
    }
  }

  /** Inserting shifts every order statistic by at most one position. */
  lemma {:induction false} InsertInterlaces<T(!new)>(leq: (T, T) -> bool, x: T, s: seq<T>, k: nat)
    requires TotalPreorder(leq)
    requires SortedBy(leq, s)
    requires k <= |s|
    ensures 0 < k ==> leq(s[k - 1], Insert(leq, x, s)[k])
    ensures k < |s| ==> leq(Insert(leq, x, s)[k], s[k])
  {
    var q := InsertSplits(leq, x, s);
    InsertSorted(leq, x, s);
    var r := Insert(leq, x, s);
    assert forall i :: 0 <= i < q ==> r[i] == s[i];
    assert r[q] == x;
    assert forall i :: q < i < |r| ==> r[i] == s[i - 1];
    assert leq(r[k], r[k]);
    if k < q {
      assert 0 < k ==> leq(r[k - 1], r[k]);
    } else if k == q {
      assert 0 < k ==> leq(r[k - 1], r[k]);
      assert k < |s| ==> leq(r[k], r[k + 1]);
    } else {
      assert k < |s| ==> leq(r[k], r[k + 1]);
    }
  }

  function Map<A, B>(f: A -> B, s: seq<A>): (r: seq<B>)
    ensures |r| == |s|
    ensures forall i :: 0 <= i < |s| ==> r[i] == f(s[i])
  {
    seq(|s|, i requires 0 <= i < |s| => f(s[i]))
  }

  lemma MapConcat<A, B>(f: A -> B, a: seq<A>, b: seq<A>)
    ensures Map(f, a + b) == Map(f, a) + Map(f, b)
  {
  }

  function RemoveAt<T>(s: seq<T>, i: nat): (r: seq<T>)
    requires i < |s|
    ensures multiset(r) + multiset{s[i]} == multiset(s)
  {
    assert s == s[..i] + [s[i]] + s[i + 1..];
    s[..i] + s[i + 1..]
  }

  lemma MapRemoveAt<A, B>(f: A -> B, s: seq<A>, i: nat)
    requires i < |s|
    ensures Map(f, RemoveAt(s, i)) == RemoveAt(Map(f, s), i)
  {
  }

  lemma TailRemoval<T>(a: seq<T>, b: seq<T>, i: nat)
    requires multiset(a) == multiset(b) && a != [] && i < |b| && b[i] == a[0]
    ensures multiset(a[1..]) == multiset(RemoveAt(b, i))
  {
    assert a == [a[0]] + a[1..];
    assert multiset(a[1..]) == multiset(a) - multiset{a[0]};
    assert multiset(RemoveAt(b, i)) == multiset(b) - multiset{b[i]};
  }

  /** Mapping a rearranged list rearranges the images. */
  lemma {:induction false} MapKeepsPermutation<A, B>(f: A -> B, a: seq<A>, b: seq<A>)
    requires multiset(a) == multiset(b)
    ensures multiset(Map(f, a)) == multiset(Map(f, b))
  {
    SameMembers(a, b);
    if a != [] {
      assert a[0] in b;
      var i :| 0 <= i < |b| && b[i] == a[0];
      TailRemoval(a, b, i);
      MapKeepsPermutation(f, a[1..], RemoveAt(b, i));
      MapRemoveAt(f, b, i);
      assert Map(f, a) == [f(a[0])] + Map(f, a[1..]);
      assert multiset(Map(f, b)) == multiset(RemoveAt(Map(f, b), i)) + multiset{f(b[i])};
    }
  }

  function Filter<T(!new)>(p: T -> bool, s: seq<T>): (r: seq<T>)
    ensures forall x :: x in r <==> x in s && p(x)
  {
    if s == [] then []
    else
      assert forall x :: x in s <==> x == s[0] || x in s[1..];
      (if p(s[0]) then [s[0]] else []) + Filter(p, s[1..])
  }

  lemma {:induction false} FilterConcat<T(!new)>(p: T -> bool, a: seq<T>, b: seq<T>)
    ensures Filter(p, a + b) == Filter(p, a) + Filter(p, b)
  {
    if a == [] {
      assert a + b == b;
    } else {
      assert (a + b)[1..] == a[1..] + b;
      FilterConcat(p, a[1..], b);
    }
  }

  lemma {:induction false} FilterRemoveAt<T(!new)>(p: T -> bool, s: seq<T>, i: nat)
    requires i < |s|
    ensures multiset(Filter(p, s)) ==
            multiset(Filter(p, RemoveAt(s, i))) + (if p(s[i]) then multiset{s[i]} else multiset{})
  {
    assert s == s[..i] + ([s[i]] + s[i + 1..]);
    FilterConcat(p, s[..i], [s[i]] + s[i + 1..]);
    FilterConcat(p, [s[i]], s[i + 1..]);
    FilterConcat(p, s[..i], s[i + 1..]);
  }

  /** Filtering a rearranged list rearranges what is kept. */
  lemma {:induction false} FilterKeepsPermutation<T(!new)>(p: T -> bool, a: seq<T>, b: seq<T>)
    requires multiset(a) == multiset(b)
    ensures multiset(Filter(p, a)) == multiset(Filter(p, b))
  {
    SameMembers(a, b);
    if a != [] {
      assert a[0] in b;
      var i :| 0 <= i < |b| && b[i] == a[0];
      TailRemoval(a, b, i);
      FilterKeepsPermutation(p, a[1..], RemoveAt(b, i));
      FilterRemoveAt(p, b, i);
    }
  }

  lemma {:induction false} FilterKeepsAll<T(!new)>(p: T -> bool, s: seq<T>)
    requires forall x :: x in s ==> p(x)
    ensures Filter(p, s) == s
  {
    if s != [] {
      FilterKeepsAll(p, s[1..]);
    }
  }
}
