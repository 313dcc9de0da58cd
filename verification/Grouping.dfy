/** The `setdefault(key, []).append(item)` loops of bench/reporting.py: ordered grouping by a key. */
module Grouping {
  import opened Sorting

  /** The distinct keys of s in order of first appearance. */
  function Keys<T, K(==)>(key: T -> K, s: seq<T>): seq<K> {
    if s == [] then []
    else
      var front := Keys(key, s[..|s| - 1]);
      var k := key(s[|s| - 1]);
      if k in front then front else front + [k]
  }

  function Having<T, K(==)>(key: T -> K, k: K): T -> bool { x => key(x) == k }

  /** The members of s with key k, in their order in s. */
  function Group<T(!new), K(==)>(key: T -> K, k: K, s: seq<T>): seq<T> {
    Filter(Having(key, k), s)
  }

  lemma GroupMembers<T(!new), K>(key: T -> K, k: K, s: seq<T>, x: T)
    ensures x in Group(key, k, s) <==> x in s && key(x) == k
  {
  }

  ghost predicate NoDuplicates<T>(s: seq<T>) {
    forall i, j :: 0 <= i < j < |s| ==> s[i] != s[j]
  }

  lemma GroupAppend<T(!new), K>(key: T -> K, k: K, s: seq<T>, x: T)
    ensures Group(key, k, s + [x]) == Group(key, k, s) + (if key(x) == k then [x] else [])
  {
    FilterConcat(Having(key, k), s, [x]);
  }

  /** One pass over the items builds a dictionary in insertion order. */
  method GroupBy<T(!new), K(==)>(key: T -> K, s: seq<T>) returns (keys: seq<K>, groups: map<K, seq<T>>)
    ensures keys == Keys(key, s)
    ensures forall k :: k in groups <==> k in keys
    ensures forall k :: k in keys ==> groups[k] == Group(key, k, s)
  {
    keys, groups := [], map[];
    for i := 0 to |s|
      invariant keys == Keys(key, s[..i])
      invariant forall k :: k in groups <==> k in keys
      invariant forall k :: k in keys ==> groups[k] == Group(key, k, s[..i])
      invariant forall k :: k !in keys ==> Group(key, k, s[..i]) == []
    {
      hide Group;
      var k := key(s[i]);
      assert s[..i + 1][..i] == s[..i] && s[..i + 1] == s[..i] + [s[i]];
      forall k'
        ensures Group(key, k', s[..i + 1]) == Group(key, k', s[..i]) + (if k' == k then [s[i]] else [])
      {
        GroupAppend(key, k', s[..i], s[i]);
      }
      ghost var before := if k in keys then groups[k] else [];
      assert before == Group(key, k, s[..i]);
      if k !in groups {
        keys := keys + [k];
        groups := groups[k := []];
      }
      groups := groups[k := groups[k] + [s[i]]];
      assert groups[k] == before + [s[i]] == Group(key, k, s[..i + 1]);
    }
    assert s[..|s|] == s;
  }

  lemma {:induction false} KeysAreThoseOfMembers<T(!new), K>(key: T -> K, s: seq<T>, k: K)
    ensures k in Keys(key, s) <==> exists x :: x in s && key(x) == k
    ensures k in Keys(key, s) <==> Group(key, k, s) != []
  {
    if s != [] {
      KeysAreThoseOfMembers(key, s[..|s| - 1], k);
      assert s == s[..|s| - 1] + [s[|s| - 1]];
    }
    if Group(key, k, s) != [] {
      assert Group(key, k, s)[0] in Group(key, k, s);
    }
    if x :| x in s && key(x) == k {
      assert x in Group(key, k, s);
    }
  }

  lemma {:induction false} KeysDistinct<T, K>(key: T -> K, s: seq<T>)
    ensures NoDuplicates(Keys(key, s))
  {
    if s != [] {
      KeysDistinct(key, s[..|s| - 1]);
    }
  }

  /** Keys are listed by first appearance: some item has key i before any item has a later key j. */
  lemma {:induction false} KeysInOrderOfAppearance<T(!new), K>(key: T -> K, s: seq<T>, i: nat, j: nat) returns (p: nat)
    requires i < j < |Keys(key, s)|
    ensures p < |s| && key(s[p]) == Keys(key, s)[i]
    ensures forall q :: 0 <= q <= p ==> key(s[q]) != Keys(key, s)[j]
  {
    var n := |s| - 1;
    var front := Keys(key, s[..n]);
    if j < |front| {
      p := KeysInOrderOfAppearance(key, s[..n], i, j);
    } else {
      KeysDistinct(key, s);
      KeysAreThoseOfMembers(key, s[..n], front[i]);
      KeysAreThoseOfMembers(key, s[..n], key(s[n]));
      var x :| x in s[..n] && key(x) == front[i];
      p :| 0 <= p < n && s[p] == x;
      forall q | 0 <= q <= p
        ensures key(s[q]) != Keys(key, s)[j]
      {
        assert s[q] in s[..n];
      }
    }
  }

  function GroupSizes<T(!new), K(==)>(key: T -> K, keys: seq<K>, s: seq<T>): nat {
    if keys == [] then 0 else |Group(key, keys[0], s)| + GroupSizes(key, keys[1..], s)
  }

  lemma {:induction false} GroupSizesAppend<T(!new), K>(key: T -> K, a: seq<K>, b: seq<K>, s: seq<T>)
    ensures GroupSizes(key, a + b, s) == GroupSizes(key, a, s) + GroupSizes(key, b, s)
  {
    if a == [] {
      assert a + b == b;
    } else {
      assert (a + b)[1..] == a[1..] + b;
      GroupSizesAppend(key, a[1..], b, s);
    }
  }

  /** One more item makes exactly the group of its key longer. */
  lemma {:induction false} GroupSizesGrow<T(!new), K>(key: T -> K, keys: seq<K>, s: seq<T>, x: T)
    requires NoDuplicates(keys)
    ensures GroupSizes(key, keys, s + [x]) == GroupSizes(key, keys, s) + (if key(x) in keys then 1 else 0)
  {
    if keys != [] {
      FilterConcat(Having(key, keys[0]), s, [x]);
      GroupSizesGrow(key, keys[1..], s, x);
    }
  }

  /** The groups share all items out among themselves: none is lost, none counted twice. */
  lemma {:induction false} GroupsPartition<T(!new), K>(key: T -> K, s: seq<T>)
    ensures GroupSizes(key, Keys(key, s), s) == |s|
  {
    if s != [] {
      var n := |s| - 1;
      var front, k := s[..n], key(s[n]);
      var keys := Keys(key, front);
      assert s == front + [s[n]];
      GroupsPartition(key, front);
      KeysDistinct(key, front);
      GroupSizesGrow(key, keys, front, s[n]);
      if k !in keys {
        GroupSizesAppend(key, keys, [k], s);
        KeysAreThoseOfMembers(key, front, k);
        FilterConcat(Having(key, k), front, [s[n]]);
        assert GroupSizes(key, [k], s) == |Group(key, k, s)| + GroupSizes(key, [], s);
      }
    }
  }

  lemma {:induction false} SameMembersDistinct<T>(a: seq<T>, b: seq<T>)
    requires NoDuplicates(a) && NoDuplicates(b)
    requires forall x :: x in a <==> x in b
    ensures multiset(a) == multiset(b)
  {
    CountOfDistinct(a);
    CountOfDistinct(b);
    forall x
      ensures multiset(a)[x] == multiset(b)[x]
    {
      assert x in a <==> x in b;
    }
  }

  lemma {:induction false} CountOfDistinct<T>(a: seq<T>)
    requires NoDuplicates(a)
    ensures forall x :: multiset(a)[x] == if x in a then 1 else 0
  {
    if a != [] {
      CountOfDistinct(a[1..]);
      assert a == [a[0]] + a[1..];
      assert a[0] !in a[1..];
    }
  }

  lemma KeysIgnoreOrder<T(!new), K>(key: T -> K, a: seq<T>, b: seq<T>)
    requires multiset(a) == multiset(b)
    ensures multiset(Keys(key, a)) == multiset(Keys(key, b))
  {
    SameMembers(a, b);
    KeysDistinct(key, a);
    KeysDistinct(key, b);
    forall k
      ensures k in Keys(key, a) <==> k in Keys(key, b)
    {
      KeysAreThoseOfMembers(key, a, k);
      KeysAreThoseOfMembers(key, b, k);
    }
    SameMembersDistinct(Keys(key, a), Keys(key, b));
  }
}
