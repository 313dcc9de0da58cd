/** Nested for-loops that append: what they list, how often, and how much. */
module Enumeration {
  import opened Grouping

  /** The items of `for x in xs: out.extend(f(x))`. */
  function Flat<A, B>(f: A -> seq<B>, xs: seq<A>): seq<B> {
    if xs == [] then [] else Flat(f, xs[..|xs| - 1]) + f(xs[|xs| - 1])
  }

  lemma FlatNone<A, B>(f: A -> seq<B>, xs: seq<A>)
    ensures Flat(f, xs[..0]) == []
  {
  }

  lemma FlatStep<A, B>(f: A -> seq<B>, xs: seq<A>, i: nat)
    requires i < |xs|
    ensures Flat(f, xs[..i + 1]) == Flat(f, xs[..i]) + f(xs[i])
  {
    assert xs[..i + 1][..i] == xs[..i];
  }

  lemma {:induction false} FlatMembers<A, B>(f: A -> seq<B>, xs: seq<A>, y: B)
    ensures y in Flat(f, xs) <==> exists x :: x in xs && y in f(x)
  {
    if xs != [] {
      var front, last := xs[..|xs| - 1], xs[|xs| - 1];
      FlatMembers(f, front, y);
      assert xs == front + [last];
      assert last in xs;
      assert forall x :: x in xs <==> x in front || x == last;
    }
  }

  lemma {:induction false} ConcatDistinct<T>(a: seq<T>, b: seq<T>)
    requires NoDuplicates(a) && NoDuplicates(b)
    requires forall x :: x in a ==> x !in b
    ensures NoDuplicates(a + b)
  {
    forall i, j | 0 <= i < j < |a + b|
      ensures (a + b)[i] != (a + b)[j]
    {
      if i < |a| <= j {
        assert a[i] in a && b[j - |a|] in b;
      }
    }
  }

  /** Items that remember the loop value they were made for are listed once if the loop values are. */
  lemma {:induction false} FlatDistinct<A, B>(f: A -> seq<B>, xs: seq<A>, tag: B -> A)
    requires NoDuplicates(xs)
    requires forall x :: x in xs ==> NoDuplicates(f(x))
    requires forall x, y :: x in xs && y in f(x) ==> tag(y) == x
    ensures NoDuplicates(Flat(f, xs))
  {
    if xs != [] {
      var front, last := xs[..|xs| - 1], xs[|xs| - 1];
      assert xs == front + [last] && last in xs;
      assert forall x :: x in front ==> x in xs;
      assert last !in front;
      FlatDistinct(f, front, tag);
      forall y | y in Flat(f, front)
        ensures y !in f(last)
      {
        FlatMembers(f, front, y);
        var x :| x in front && y in f(x);
        assert tag(y) == x;
        assert y in f(last) ==> tag(y) == last;
      }
      ConcatDistinct(Flat(f, front), f(last));
    }
  }

  lemma {:induction false} FlatLength<A, B>(f: A -> seq<B>, xs: seq<A>, n: nat)
    requires forall x :: x in xs ==> |f(x)| == n
    ensures |Flat(f, xs)| == |xs| * n
  {
    if xs == [] {
      assert 0 * n == 0;
    } else {
      var front := xs[..|xs| - 1];
      assert forall x :: x in front ==> x in xs;
      assert xs[|xs| - 1] in xs;
      FlatLength(f, front, n);
      OneMore(|front|, n);
    }
  }

  lemma OneMore(m: nat, n: nat)
    ensures (m + 1) * n == m * n + n
  {
  }
}
