/** The two orderings the modelled code applies to file lists: `List.Sort`
    with a comparer (an unstable sort; only the order it produces is
    specified) and LINQ `OrderBy` with an integer key (a stable sort). */
module Ordering {

  /** `le` is a total preorder: every two elements compare, transitively.
      Distinct elements may compare both ways, as with a culture-aware
      string comparer. */
  ghost predicate TotalPreorder<T(!new)>(le: (T, T) -> bool) {
    && (forall a, b :: le(a, b) || le(b, a))
    && (forall a, b, c :: le(a, b) && le(b, c) ==> le(a, c))
  }

  ghost predicate SortedBy<T>(s: seq<T>, le: (T, T) -> bool) {
    forall i, j :: 0 <= i < j < |s| ==> le(s[i], s[j])
  }

  /** Insert `x` into `s` before the first element it is not above. */
  function Insert<T>(s: seq<T>, x: T, le: (T, T) -> bool): (r: seq<T>)
    ensures multiset(r) == multiset(s) + multiset{x}
    decreases |s|
  {
    if s == [] then [x]
    else if le(x, s[0]) then [x] + s
    else
      assert s == [s[0]] + s[1..];
      [s[0]] + Insert(s[1..], x, le)
  }

  lemma {:induction false} InsertSorted<T(!new)>(s: seq<T>, x: T, le: (T, T) -> bool)
    requires TotalPreorder(le) && SortedBy(s, le)
    ensures SortedBy(Insert(s, x, le), le)
    decreases |s|
  {
    if s == [] {
    } else if le(x, s[0]) {
      forall i | 0 <= i < |s| ensures le(x, s[i]) {
        if i > 0 { assert le(s[0], s[i]); }
      }
      ConsSorted(x, s, le);
    } else {
      var rest := Insert(s[1..], x, le);
      InsertSorted(s[1..], x, le);
      forall i | 0 <= i < |s[1..]| ensures le(s[0], s[1..][i]) {
        assert s[1..][i] == s[i + 1];
      }
      assert le(s[0], x);
      InsertKeepsLowerBound(s[1..], x, le, s[0]);
      ConsSorted(s[0], rest, le);
    }
  }

  /** A sorted sequence stays sorted behind a lower bound of all its
      elements. */
  lemma {:induction false} ConsSorted<T>(b: T, s: seq<T>, le: (T, T) -> bool)
    requires SortedBy(s, le)
    requires forall i | 0 <= i < |s| :: le(b, s[i])
    ensures SortedBy([b] + s, le)
  {
    var r := [b] + s;
    forall i, j | 0 <= i < j < |r| ensures le(r[i], r[j]) {
      assert r[j] == s[j - 1];
      if i > 0 {
        assert r[i] == s[i - 1];
      }
    }
  }

  /** A lower bound of `s` and of `x` is one of `Insert(s, x, le)`. */
  lemma {:induction false} InsertKeepsLowerBound<T>(s: seq<T>, x: T, le: (T, T) -> bool, b: T)
    requires le(b, x)
    requires forall i | 0 <= i < |s| :: le(b, s[i])
    ensures forall i | 0 <= i < |Insert(s, x, le)| :: le(b, Insert(s, x, le)[i])
  {
    var r := Insert(s, x, le);
    forall i | 0 <= i < |r| ensures le(b, r[i]) {
      assert r[i] in multiset(r);
      if r[i] != x {
        assert r[i] in multiset(s);
        var k :| 0 <= k < |s| && s[k] == r[i];
      }
    }
  }

  /** `list.Sort(comparison)`: the list, rearranged into `le` order. */
  method Sort<T(!new)>(s: seq<T>, le: (T, T) -> bool) returns (r: seq<T>)
    requires TotalPreorder(le)
    ensures SortedBy(r, le)
    ensures multiset(r) == multiset(s)
  {
    r := [];
    for i := 0 to |s|
      invariant SortedBy(r, le)
      invariant multiset(r) == multiset(s[..i])
    {
      assert s[..i + 1] == s[..i] + [s[i]];
      InsertSorted(r, s[i], le);
      r := Insert(r, s[i], le);
    }
    assert s[..|s|] == s;
  }

  ghost predicate SortedByKey<T>(s: seq<T>, key: T -> int) {
    forall i, j :: 0 <= i < j < |s| ==> key(s[i]) <= key(s[j])
  }

  /** The elements of `s` whose key is `k`, in their order in `s`. */
  function WithKey<T>(s: seq<T>, key: T -> int, k: int): seq<T>
    decreases |s|
  {
    if s == [] then []
    else WithKey(s[..|s| - 1], key, k) + (if key(s[|s| - 1]) == k then [s[|s| - 1]] else [])
  }

  /** Insert `x` after every element whose key is not above its own. */
  function InsertByKey<T>(s: seq<T>, x: T, key: T -> int): (r: seq<T>)
    ensures multiset(r) == multiset(s) + multiset{x}
    decreases |s|
  {
    if s == [] || key(s[|s| - 1]) <= key(x) then s + [x]
    else
      assert s == s[..|s| - 1] + [s[|s| - 1]];
      InsertByKey(s[..|s| - 1], x, key) + [s[|s| - 1]]
  }

  lemma {:induction false} InsertByKeySorted<T>(s: seq<T>, x: T, key: T -> int)
    requires SortedByKey(s, key)
    ensures SortedByKey(InsertByKey(s, x, key), key)
    decreases |s|
  {
    if s == [] {
      assert InsertByKey(s, x, key) == [x];
    } else if key(s[|s| - 1]) <= key(x) {
      SortedBelowLast(s, key);
      SortedAppend(s, x, key);
    } else {
      var init, last := s[..|s| - 1], s[|s| - 1];
      assert SortedByKey(init, key);
      InsertByKeySorted(init, x, key);
      SortedBelowLast(s, key);
      assert forall y :: y in init ==> key(y) <= key(last) by {
        forall y | y in init ensures key(y) <= key(last) { assert y in s; }
      }
      BoundedInsert(init, x, key, key(last));
      SortedAppend(InsertByKey(init, x, key), last, key);
    }
  }

  /** No element of a sorted sequence has a key above its last one. */
  lemma SortedBelowLast<T>(s: seq<T>, key: T -> int)
    requires |s| > 0 && SortedByKey(s, key)
    ensures forall y :: y in s ==> key(y) <= key(s[|s| - 1])
  {
    forall y | y in s ensures key(y) <= key(s[|s| - 1]) {
      var k :| 0 <= k < |s| && s[k] == y;
      if k < |s| - 1 { assert key(s[k]) <= key(s[|s| - 1]); }
    }
  }

  /** An element whose key is not below any key of a sorted sequence may
      follow it. */
  lemma SortedAppend<T>(s: seq<T>, x: T, key: T -> int)
    requires SortedByKey(s, key) && forall y :: y in s ==> key(y) <= key(x)
    ensures SortedByKey(s + [x], key)
  {
    var r := s + [x];
    forall i, j | 0 <= i < j < |r| ensures key(r[i]) <= key(r[j]) {
      if j == |s| {
        assert r[i] == s[i] && s[i] in s;
      } else {
        assert r[i] == s[i] && r[j] == s[j];
      }
    }
  }

  /** Inserting keeps a bound that every key respects. */
  lemma BoundedInsert<T>(s: seq<T>, x: T, key: T -> int, bound: int)
    requires key(x) <= bound && forall y :: y in s ==> key(y) <= bound
    ensures forall y :: y in InsertByKey(s, x, key) ==> key(y) <= bound
  {
    var r := InsertByKey(s, x, key);
    forall y | y in r ensures key(y) <= bound {
      assert y in multiset(r);
      if y != x {
        assert y in multiset(s);
      }
    }
  }

  /** LINQ `OrderBy(key)`: stable, so the input order decides ties. */
  function OrderBy<T>(s: seq<T>, key: T -> int): (r: seq<T>)
    ensures multiset(r) == multiset(s)
    decreases |s|
  {
    if s == [] then []
    else
      assert s == s[..|s| - 1] + [s[|s| - 1]];
      InsertByKey(OrderBy(s[..|s| - 1], key), s[|s| - 1], key)
  }

  /** `OrderBy` puts the keys in ascending order. */
  lemma {:induction false} OrderBySorted<T>(s: seq<T>, key: T -> int)
    ensures SortedByKey(OrderBy(s, key), key)
    decreases |s|
  {
    if s != [] {
      OrderBySorted(s[..|s| - 1], key);
      InsertByKeySorted(OrderBy(s[..|s| - 1], key), s[|s| - 1], key);
    }
  }

  lemma {:induction false} InsertByKeyStable<T>(s: seq<T>, x: T, key: T -> int, k: int)
    ensures WithKey(InsertByKey(s, x, key), key, k)
         == WithKey(s, key, k) + (if key(x) == k then [x] else [])
    decreases |s|
  {
    var r := InsertByKey(s, x, key);
    if s == [] || key(s[|s| - 1]) <= key(x) {
      assert r[..|r| - 1] == s;
    } else {
      var init, last := s[..|s| - 1], s[|s| - 1];
      var rest := InsertByKey(init, x, key);
      InsertByKeyStable(init, x, key, k);
      assert r == rest + [last];
      assert r[..|r| - 1] == rest;
    }
  }

  /** Stability: among the elements of any one key, `OrderBy` keeps the
      input order. */
  lemma {:induction false} OrderByStable<T>(s: seq<T>, key: T -> int, k: int)
    ensures WithKey(OrderBy(s, key), key, k) == WithKey(s, key, k)
    decreases |s|
  {
    if s != [] {
      var init := s[..|s| - 1];
      OrderByStable(init, key, k);
      InsertByKeyStable(OrderBy(init, key), s[|s| - 1], key, k);
    }
  }
}
