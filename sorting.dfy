/** Stable sorting by an integer key: the reference for `Array.prototype.sort`
    with a comparator of the form `key(a) - key(b)`, and for a database
    `orderBy` on one column. Ties keep their input order. */
module Sorting {
  import opened Common

  /** Put `x` in front of the first element whose key is not smaller. */
  function Insert<T>(x: T, sorted: seq<T>, key: T -> int): (r: seq<T>)
    ensures multiset(r) == multiset(sorted) + multiset{x}
    decreases |sorted|
  {
    if sorted == [] || key(x) <= key(sorted[0]) then [x] + sorted
    else
      assert sorted == [sorted[0]] + sorted[1..];
      [sorted[0]] + Insert(x, sorted[1..], key)
  }

  /** Insertion sort by `key`, ascending. */
  function SortByKey<T>(items: seq<T>, key: T -> int): (r: seq<T>)
    ensures multiset(r) == multiset(items)
    decreases |items|
  {
    if items == [] then []
    else
      assert items == [items[0]] + items[1..];
      Insert(items[0], SortByKey(items[1..], key), key)
  }

  predicate SortedBy<T>(s: seq<T>, key: T -> int) {
    forall i, j :: 0 <= i < j < |s| ==> key(s[i]) <= key(s[j])
  }

  /** The elements whose key is `k`, in list order. */
  function WithKey<T>(s: seq<T>, key: T -> int, k: int): seq<T> {
    Filter(s, (a: T) => key(a) == k)
  }

  lemma {:induction false} InsertSorted<T>(x: T, sorted: seq<T>, key: T -> int)
    requires SortedBy(sorted, key)
    ensures SortedBy(Insert(x, sorted, key), key)
    decreases |sorted|
  {
    if sorted != [] && key(x) > key(sorted[0]) {
      var tail := sorted[1..];
      InsertSorted(x, tail, key);
      var r := Insert(x, sorted, key);
      var rest := Insert(x, tail, key);
      assert r == [sorted[0]] + rest;
      forall j | 0 < j < |r| ensures key(r[0]) <= key(r[j]) {
        assert r[j] in multiset(rest);
        assert r[j] == x || r[j] in multiset(tail);
        if r[j] != x {
          var k :| 0 <= k < |tail| && tail[k] == r[j];
          assert sorted[k + 1] == r[j];
        }
      }
    }
  }

  /** Among the elements with one key, insertion keeps the order: `x` goes in
      front of the equal ones, which is where it stood in the input. */
  lemma {:induction false} InsertStable<T>(x: T, sorted: seq<T>, key: T -> int, k: int)
    requires SortedBy(sorted, key)
    ensures WithKey(Insert(x, sorted, key), key, k)
      == (if key(x) == k then [x] else []) + WithKey(sorted, key, k)
    decreases |sorted|
  {
    if sorted == [] || key(x) <= key(sorted[0]) {
      assert Insert(x, sorted, key) == [x] + sorted;
      assert ([x] + sorted)[1..] == sorted;
    } else {
      var tail := sorted[1..];
      assert SortedBy(tail, key) by {
        forall i, j | 0 <= i < j < |tail| ensures key(tail[i]) <= key(tail[j]) {
          assert tail[i] == sorted[i + 1] && tail[j] == sorted[j + 1];
        }
      }
      InsertStable(x, tail, key, k);
      var r := Insert(x, sorted, key);
      assert r[1..] == Insert(x, tail, key);
      assert sorted == [sorted[0]] + tail;
      if key(x) == k {
        assert key(sorted[0]) != k;
      }
    }
  }

  /** The output is ordered by the key. */
  lemma {:induction false} SortByKeySorted<T>(items: seq<T>, key: T -> int)
    ensures SortedBy(SortByKey(items, key), key)
    decreases |items|
  {
    if items != [] {
      SortByKeySorted(items[1..], key);
      InsertSorted(items[0], SortByKey(items[1..], key), key);
    }
  }

  /** Stability: for every key, the elements with that key appear in the
      output in the same order as in the input. */
  lemma {:induction false} SortByKeyStable<T>(items: seq<T>, key: T -> int, k: int)
    ensures WithKey(SortByKey(items, key), key, k) == WithKey(items, key, k)
    decreases |items|
  {
    if items != [] {
      SortByKeyStable(items[1..], key, k);
      SortByKeySorted(items[1..], key);
      InsertStable(items[0], SortByKey(items[1..], key), key, k);
      assert items == [items[0]] + items[1..];
    }
  }

  /** A key that is the same for every element leaves the list as it is. */
  lemma ConstantKeyKeepsOrder<T>(items: seq<T>, key: T -> int, k: int)
    requires forall x :: x in items ==> key(x) == k
    ensures SortByKey(items, key) == items
  {
    var s := SortByKey(items, key);
    SortByKeyStable(items, key, k);
    forall x | x in s ensures key(x) == k {
      assert x in multiset(s);
    }
    FilterKeepsAll(s, (a: T) => key(a) == k);
    FilterKeepsAll(items, (a: T) => key(a) == k);
  }

  /** Sorting keeps the length. */
  lemma SortByKeyLength<T>(items: seq<T>, key: T -> int)
    ensures |SortByKey(items, key)| == |items|
  {
    assert |multiset(SortByKey(items, key))| == |multiset(items)|;
  }
}
