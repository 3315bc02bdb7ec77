/** Sequence operations shared by the services: filtering (a query's `.eq`/`.is`/`.gte`
    clauses, `Array.prototype.filter`), ordering by an integer key with a stable sort
    (`.order(...)`, `Array.prototype.sort`), and taking a prefix (`.limit(n)`). */
module Sequences {

  function Filter<T>(s: seq<T>, keep: T -> bool): (r: seq<T>)
    ensures |r| <= |s|
    ensures forall i :: 0 <= i < |r| ==> keep(r[i])
    ensures multiset(r) <= multiset(s)
    ensures forall x :: x in s && keep(x) ==> x in r
  {
    if s == [] then []
    else
      assert s == [s[0]] + s[1..];
      (if keep(s[0]) then [s[0]] else []) + Filter(s[1..], keep)
  }

  lemma {:induction false} FilterAppend<T>(a: seq<T>, b: seq<T>, keep: T -> bool)
    ensures Filter(a + b, keep) == Filter(a, keep) + Filter(b, keep)
    decreases |a|
  {
    if a == [] {
      assert a + b == b;
    } else {
      assert (a + b)[1..] == a[1..] + b;
      FilterAppend(a[1..], b, keep);
    }
  }

  /** `.limit(n)`: at most the first `n` elements. */
  function Take<T>(s: seq<T>, n: nat): (r: seq<T>)
    ensures |r| == if n < |s| then n else |s|
    ensures r == s[..|r|]
  {
    if n < |s| then s[..n] else s
  }

  /** Ordered by `key`, largest first ("newest first" when the key is a timestamp). */
  ghost predicate SortedDesc<T>(s: seq<T>, key: T -> int) {
    forall i, j :: 0 <= i < j < |s| ==> key(s[i]) >= key(s[j])
  }

  /** The elements of `s` whose key is `k`, in their order in `s`. */
  function WithKey<T>(s: seq<T>, key: T -> int, k: int): seq<T> {
    if s == [] then []
    else (if key(s[0]) == k then [s[0]] else []) + WithKey(s[1..], key, k)
  }

  /** Puts `x` in front of the first element whose key is not larger than its own. */
  function Insert<T>(x: T, s: seq<T>, key: T -> int): (r: seq<T>)
    ensures |r| == |s| + 1
    ensures multiset(r) == multiset(s) + multiset{x}
    ensures forall i :: 0 <= i < |r| ==> r[i] == x || r[i] in s
  {
    if s == [] || key(s[0]) <= key(x) then [x] + s
    else
      assert s == [s[0]] + s[1..];
      [s[0]] + Insert(x, s[1..], key)
  }

  lemma {:induction false} InsertSorted<T>(x: T, s: seq<T>, key: T -> int)
    requires SortedDesc(s, key)
    ensures SortedDesc(Insert(x, s, key), key)
    decreases |s|
  {
    if s != [] && key(s[0]) > key(x) {
      var rest := Insert(x, s[1..], key);
      InsertSorted(x, s[1..], key);
      forall i | 0 <= i < |rest|
        ensures key(s[0]) >= key(rest[i])
      {
        if rest[i] != x {
          var j :| 1 <= j < |s| && s[j] == rest[i];
        }
      }
    }
  }

  /** Insertion sort keeping elements with equal keys in input order. */
  function SortDesc<T>(s: seq<T>, key: T -> int): (r: seq<T>)
    ensures |r| == |s|
    ensures multiset(r) == multiset(s)
    ensures SortedDesc(r, key)
  {
    if s == [] then []
    else
      assert s == [s[0]] + s[1..];
      InsertSorted(s[0], SortDesc(s[1..], key), key);
      Insert(s[0], SortDesc(s[1..], key), key)
  }

  /** Sorting neither adds nor drops an element. */
  lemma SortDescSameElements<T>(s: seq<T>, key: T -> int, x: T)
    ensures x in SortDesc(s, key) <==> x in s
  {
    assert x in SortDesc(s, key) <==> x in multiset(SortDesc(s, key));
    assert x in s <==> x in multiset(s);
  }

  /** Everything a sorted filter returns is an element of the input that passes. */
  lemma SortedFilterElements<T>(s: seq<T>, keep: T -> bool, key: T -> int)
    ensures forall x :: x in SortDesc(Filter(s, keep), key) ==> x in s && keep(x)
  {
    var kept := Filter(s, keep);
    forall x | x in SortDesc(kept, key)
      ensures x in s && keep(x)
    {
      SortDescSameElements(kept, key, x);
      var i :| 0 <= i < |kept| && kept[i] == x;
      assert x in multiset(kept);
    }
  }

  /** The step of `InsertWithKey` where `x` goes past the first element. */
  lemma InsertWithKeyStep<T>(x: T, s: seq<T>, key: T -> int, k: int)
    requires s != [] && key(s[0]) > key(x)
    requires WithKey(Insert(x, s[1..], key), key, k)
          == (if key(x) == k then [x] else []) + WithKey(s[1..], key, k)
    ensures WithKey(Insert(x, s, key), key, k)
         == (if key(x) == k then [x] else []) + WithKey(s, key, k)
  {
    var first := [s[0]];
    var rest := Insert(x, s[1..], key);
    assert Insert(x, s, key) == first + rest;
    assert s == first + s[1..];
    WithKeyAppend(first, rest, key, k);
    WithKeyAppend(first, s[1..], key, k);
    var hx := if key(x) == k then [x] else [];
    var h0 := WithKey(first, key, k);
    // `s[0]` has a larger key than `x`, so at most one of them has key `k`
    var w := WithKey(s[1..], key, k);
    if key(x) == k {
      assert h0 == [];
      assert h0 + (hx + w) == hx + w == hx + (h0 + w);
    } else {
      assert hx == [];
      assert hx + (h0 + w) == h0 + w == h0 + (hx + w);
    }
  }

  lemma {:induction false} InsertWithKey<T>(x: T, s: seq<T>, key: T -> int, k: int)
    ensures WithKey(Insert(x, s, key), key, k)
         == (if key(x) == k then [x] else []) + WithKey(s, key, k)
    decreases |s|
  {
    if s == [] || key(s[0]) <= key(x) {
      assert ([x] + s)[0] == x;
      assert ([x] + s)[1..] == s;
    } else {
      InsertWithKey(x, s[1..], key, k);
      InsertWithKeyStep(x, s, key, k);
    }
  }

  /** The sort is stable: for every key, the elements with that key keep their order. */
  lemma {:induction false} SortDescStable<T>(s: seq<T>, key: T -> int, k: int)
    ensures WithKey(SortDesc(s, key), key, k) == WithKey(s, key, k)
    decreases |s|
  {
    if s != [] {
      SortDescStable(s[1..], key, k);
      InsertWithKey(s[0], SortDesc(s[1..], key), key, k);
    }
  }

  lemma {:induction false} WithKeyAppend<T>(a: seq<T>, b: seq<T>, key: T -> int, k: int)
    ensures WithKey(a + b, key, k) == WithKey(a, key, k) + WithKey(b, key, k)
    decreases |a|
  {
    if a == [] {
      assert a + b == b;
    } else {
      var ab := a + b;
      assert ab[0] == a[0];
      assert ab[1..] == a[1..] + b;
      WithKeyAppend(a[1..], b, key, k);
      var head := if key(a[0]) == k then [a[0]] else [];
      assert WithKey(ab, key, k) == head + (WithKey(a[1..], key, k) + WithKey(b, key, k));
      assert WithKey(a, key, k) == head + WithKey(a[1..], key, k);
    }
  }
}
