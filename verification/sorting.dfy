/** A stable sort by an integer key, the behaviour `Array.prototype.sort`
    has for a comparator `(a, b) => key(a) - key(b)`: ascending keys, and
    elements with equal keys keep their input order. */
module Sorting {
  import opened Sequences

  predicate SortedBy<T>(s: seq<T>, key: T -> int) {
    forall i, j :: 0 <= i < j < |s| ==> key(s[i]) <= key(s[j])
  }

  /** Inserts `x` after every element whose key is not greater than its own. */
  function Insert<T>(x: T, s: seq<T>, key: T -> int): (r: seq<T>)
    ensures |r| == |s| + 1
    decreases |s|
  {
    if |s| == 0 then [x]
    else if key(x) < key(s[0]) then [x] + s
    else [s[0]] + Insert(x, s[1..], key)
  }

  /** Insertion sort, taking the elements in input order. */
  function SortBy<T>(xs: seq<T>, key: T -> int): (r: seq<T>)
    ensures |r| == |xs|
    decreases |xs|
  {
    if |xs| == 0 then []
    else Insert(xs[|xs| - 1], SortBy(xs[..|xs| - 1], key), key)
  }

  /** Every key in an insertion result is at least a bound that `x` and
      every element of `s` respect. */
  lemma {:induction false} InsertLowerBound<T>(x: T, s: seq<T>, key: T -> int, b: int)
    requires b <= key(x) && forall i :: 0 <= i < |s| ==> b <= key(s[i])
    ensures forall j :: 0 <= j < |Insert(x, s, key)| ==> b <= key(Insert(x, s, key)[j])
    decreases |s|
  {
    if |s| > 0 && key(x) >= key(s[0]) {
      InsertLowerBound(x, s[1..], key, b);
      var r := Insert(x, s, key);
      assert forall j :: 1 <= j < |r| ==> r[j] == Insert(x, s[1..], key)[j - 1];
    }
  }

  /** Insertion adds exactly `x`. */
  lemma {:induction false} InsertCounts<T>(x: T, s: seq<T>, key: T -> int)
    ensures multiset(Insert(x, s, key)) == multiset(s) + multiset{x}
    decreases |s|
  {
    if |s| > 0 && key(x) >= key(s[0]) {
      InsertCounts(x, s[1..], key);
      assert s == [s[0]] + s[1..];
    }
  }

  lemma {:induction false} InsertSorted<T>(x: T, s: seq<T>, key: T -> int)
    requires SortedBy(s, key)
    ensures SortedBy(Insert(x, s, key), key)
    decreases |s|
  {
    if |s| > 0 {
      if key(x) >= key(s[0]) {
        var tail := s[1..];
        assert SortedBy(tail, key) by {
          forall i, j | 0 <= i < j < |tail| ensures key(tail[i]) <= key(tail[j]) {
            assert tail[i] == s[i + 1] && tail[j] == s[j + 1];
          }
        }
        InsertSorted(x, tail, key);
        assert forall i :: 0 <= i < |tail| ==> key(s[0]) <= key(tail[i]) by {
          forall i | 0 <= i < |tail| ensures key(s[0]) <= key(tail[i]) {
            assert tail[i] == s[i + 1];
          }
        }
        InsertLowerBound(x, tail, key, key(s[0]));
        var rest := Insert(x, tail, key);
        var r := [s[0]] + rest;
        forall i, j | 0 <= i < j < |r| ensures key(r[i]) <= key(r[j]) {
          assert r[j] == rest[j - 1];
          if i > 0 {
            assert r[i] == rest[i - 1];
          }
        }
      } else {
        var r := [x] + s;
        forall i, j | 0 <= i < j < |r| ensures key(r[i]) <= key(r[j]) {
          assert r[j] == s[j - 1];
          if i > 0 {
            assert r[i] == s[i - 1];
          } else {
            assert key(s[0]) <= key(s[j - 1]);
          }
        }
      }
    }
  }

  /** The sort returns a sorted permutation of its input. */
  lemma {:induction false} SortBySpec<T>(xs: seq<T>, key: T -> int)
    ensures SortedBy(SortBy(xs, key), key)
    ensures multiset(SortBy(xs, key)) == multiset(xs)
    decreases |xs|
  {
    if |xs| > 0 {
      var init := xs[..|xs| - 1];
      SortBySpec(init, key);
      InsertSorted(xs[|xs| - 1], SortBy(init, key), key);
      InsertCounts(xs[|xs| - 1], SortBy(init, key), key);
      assert xs == init + [xs[|xs| - 1]];
    }
  }

  /** The elements with key `k`, in order. */
  function WithKey<T>(s: seq<T>, key: T -> int, k: int): seq<T> {
    Filter(s, (y: T) => key(y) == k)
  }

  /** Inserting puts `x` after every element with its key, so among equal
      keys it comes last. */
  lemma {:induction false} InsertStable<T>(x: T, s: seq<T>, key: T -> int, k: int)
    requires SortedBy(s, key)
    ensures WithKey(Insert(x, s, key), key, k)
         == WithKey(s, key, k) + (if key(x) == k then [x] else [])
    decreases |s|
  {
    var p := (y: T) => key(y) == k;
    if |s| == 0 {
      FilterSingle(x, p);
    } else if key(x) < key(s[0]) {
      InsertStableFront(x, s, key, k);
    } else {
      var tail := s[1..];
      assert SortedBy(tail, key) by {
        forall i, j | 0 <= i < j < |tail| ensures key(tail[i]) <= key(tail[j]) {
          assert tail[i] == s[i + 1] && tail[j] == s[j + 1];
        }
      }
      InsertStable(x, tail, key, k);
      FilterAppend([s[0]], Insert(x, tail, key), p);
      FilterAppend([s[0]], tail, p);
      assert [s[0]] + tail == s;
    }
  }

  /** An element placed in front of every larger key comes last among the
      elements with its own key, there being none after it. */
  lemma InsertStableFront<T>(x: T, s: seq<T>, key: T -> int, k: int)
    requires SortedBy(s, key) && |s| > 0 && key(x) < key(s[0])
    ensures WithKey([x] + s, key, k) == WithKey(s, key, k) + (if key(x) == k then [x] else [])
  {
    var p := (y: T) => key(y) == k;
    FilterAppend([x], s, p);
    FilterSingle(x, p);
    if key(x) == k {
      NoneWithKey(s, key, k);
    }
  }

  /** No element of a sequence sorted from a key above `k` has key `k`. */
  lemma {:induction false} NoneWithKey<T>(s: seq<T>, key: T -> int, k: int)
    requires SortedBy(s, key) && |s| > 0 && k < key(s[0])
    ensures WithKey(s, key, k) == []
    decreases |s|
  {
    if |s| > 1 {
      NoneWithKey(s[1..], key, k);
    }
    assert WithKey(s, key, k) == Filter(s[1..], (y: T) => key(y) == k);
  }

  /** Stability: for every key, the elements with that key appear in the
      sorted output in the order they had in the input. */
  lemma {:induction false} SortByStable<T>(xs: seq<T>, key: T -> int, k: int)
    ensures WithKey(SortBy(xs, key), key, k) == WithKey(xs, key, k)
    decreases |xs|
  {
    if |xs| > 0 {
      var init := xs[..|xs| - 1];
      var last := xs[|xs| - 1];
      SortByStable(init, key, k);
      SortBySpec(init, key);
      InsertStable(last, SortBy(init, key), key, k);
      assert xs == init + [last];
      FilterAppend(init, [last], (y: T) => key(y) == k);
      FilterSingle(last, (y: T) => key(y) == k);
    }
  }
}
