/** Lists of records keyed by a string id (`name` in every slice), with the
    three merges the slices apply: replace the first entry with a given key,
    remove every entry with a given key, and prepend; and the selected
    entry a store keeps next to its list. */
module KeyedList {
  import opened Wrappers

  /** `xs.findIndex(e => key(e) === k)`: the first index with key `k`, or -1. */
  function FindIndex<T>(xs: seq<T>, key: T -> string, k: string): (i: int)
    ensures -1 <= i < |xs|
    ensures i >= 0 ==> key(xs[i]) == k && forall j :: 0 <= j < i ==> key(xs[j]) != k
    ensures i == -1 ==> forall j :: 0 <= j < |xs| ==> key(xs[j]) != k
    decreases |xs|
  {
    if |xs| == 0 then -1
    else if key(xs[0]) == k then 0
    else
      var i := FindIndex(xs[1..], key, k);
      assert forall j :: 1 <= j < |xs| ==> xs[j] == xs[1..][j - 1];
      if i == -1 then -1 else i + 1
  }

  predicate HasKey<T>(xs: seq<T>, key: T -> string, k: string) {
    exists i :: 0 <= i < |xs| && key(xs[i]) == k
  }

  /** No two entries share a key. */
  predicate UniqueKeys<T>(xs: seq<T>, key: T -> string) {
    forall i, j :: 0 <= i < j < |xs| ==> key(xs[i]) != key(xs[j])
  }

  /** Replaces the first entry whose key is `key(x)` with `x`; without such
      an entry the list is unchanged. */
  function ReplaceFirst<T>(xs: seq<T>, x: T, key: T -> string): seq<T> {
    var i := FindIndex(xs, key, key(x));
    if i == -1 then xs else xs[i := x]
  }

  /** `xs.filter(e => key(e) !== k)` */
  function RemoveKey<T>(xs: seq<T>, key: T -> string, k: string): seq<T>
    decreases |xs|
  {
    if |xs| == 0 then []
    else (if key(xs[0]) == k then [] else [xs[0]]) + RemoveKey(xs[1..], key, k)
  }

  /** The first entry with the key of `x` becomes `x`, every other entry and
      the length stay; with no such entry nothing changes. */
  lemma ReplaceFirstSpec<T>(xs: seq<T>, x: T, key: T -> string)
    ensures |ReplaceFirst(xs, x, key)| == |xs|
    ensures !HasKey(xs, key, key(x)) ==> ReplaceFirst(xs, x, key) == xs
    ensures HasKey(xs, key, key(x)) ==>
      var i := FindIndex(xs, key, key(x));
      && ReplaceFirst(xs, x, key)[i] == x
      && (forall j :: 0 <= j < |xs| && j != i ==> ReplaceFirst(xs, x, key)[j] == xs[j])
  {
  }

  /** Replacing an entry by one with the same key keeps the keys in place,
      so a list with unique keys keeps them. */
  lemma ReplaceFirstKeepsKeys<T>(xs: seq<T>, x: T, key: T -> string)
    ensures forall j :: 0 <= j < |xs| ==> key(ReplaceFirst(xs, x, key)[j]) == key(xs[j])
    ensures UniqueKeys(xs, key) ==> UniqueKeys(ReplaceFirst(xs, x, key), key)
  {
    ReplaceFirstSpec(xs, x, key);
  }

  /** After removal the entries left are exactly those with another key. */
  lemma {:induction false} RemoveKeyMembers<T>(xs: seq<T>, key: T -> string, k: string)
    ensures forall y :: y in RemoveKey(xs, key, k) ==> y in xs && key(y) != k
    ensures forall y :: y in xs && key(y) != k ==> y in RemoveKey(xs, key, k)
    ensures !HasKey(RemoveKey(xs, key, k), key, k)
    ensures |RemoveKey(xs, key, k)| <= |xs|
    decreases |xs|
  {
    if |xs| > 0 {
      RemoveKeyMembers(xs[1..], key, k);
      assert xs == [xs[0]] + xs[1..];
      assert forall y :: y in xs <==> y == xs[0] || y in xs[1..];
      var r := RemoveKey(xs, key, k);
      forall i | 0 <= i < |r| ensures key(r[i]) != k {
        assert r[i] in r;
      }
    }
  }

  /** Removing a key no entry carries changes nothing. */
  lemma {:induction false} RemoveAbsentKey<T>(xs: seq<T>, key: T -> string, k: string)
    requires !HasKey(xs, key, k)
    ensures RemoveKey(xs, key, k) == xs
    decreases |xs|
  {
    if |xs| > 0 {
      assert !HasKey(xs[1..], key, k) by {
        forall j | 0 <= j < |xs[1..]| ensures key(xs[1..][j]) != k {
          assert xs[1..][j] == xs[j + 1];
        }
      }
      RemoveAbsentKey(xs[1..], key, k);
      assert xs == [xs[0]] + xs[1..];
    }
  }

  /** Removal keeps keys unique. */
  lemma {:induction false} RemoveKeyKeepsUnique<T>(xs: seq<T>, key: T -> string, k: string)
    requires UniqueKeys(xs, key)
    ensures UniqueKeys(RemoveKey(xs, key, k), key)
    decreases |xs|
  {
    if |xs| > 0 {
      var tail := xs[1..];
      assert UniqueKeys(tail, key) by {
        forall i, j | 0 <= i < j < |tail| ensures key(tail[i]) != key(tail[j]) {
          assert tail[i] == xs[i + 1] && tail[j] == xs[j + 1];
        }
      }
      RemoveKeyKeepsUnique(tail, key, k);
      var rest := RemoveKey(tail, key, k);
      if key(xs[0]) != k {
        RemoveKeyMembers(tail, key, k);
        assert !HasKey(tail, key, key(xs[0])) by {
          forall m | 0 <= m < |tail| ensures key(tail[m]) != key(xs[0]) {
            assert tail[m] == xs[m + 1];
          }
        }
        assert !HasKey(rest, key, key(xs[0])) by {
          forall j | 0 <= j < |rest| ensures key(rest[j]) != key(xs[0]) {
            assert rest[j] in rest;
            assert rest[j] in tail;
            var m :| 0 <= m < |tail| && tail[m] == rest[j];
          }
        }
        PrependUnique(xs[0], rest, key);
      }
    }
  }

  /** Prepending keeps keys unique exactly when the new key is fresh. */
  lemma PrependUnique<T>(x: T, xs: seq<T>, key: T -> string)
    requires UniqueKeys(xs, key)
    ensures UniqueKeys([x] + xs, key) <==> !HasKey(xs, key, key(x))
  {
    var r := [x] + xs;
    assert forall j :: 1 <= j < |r| ==> r[j] == xs[j - 1];
    if !HasKey(xs, key, key(x)) {
      assert forall i, j :: 0 <= i < j < |r| ==> key(r[i]) != key(r[j]) by {
        forall i, j | 0 <= i < j < |r| ensures key(r[i]) != key(r[j]) {
          if i > 0 {
            assert r[i] == xs[i - 1] && r[j] == xs[j - 1];
          }
        }
      }
    } else {
      var m :| 0 <= m < |xs| && key(xs[m]) == key(x);
      assert key(r[0]) == key(r[m + 1]);
    }
  }

  // ---- a list with a selected entry ----

  /** `x` is what the list holds under its key, if it holds anything. */
  ghost predicate Agrees<T>(xs: seq<T>, x: T, key: T -> string) {
    forall i :: 0 <= i < |xs| && key(xs[i]) == key(x) ==> xs[i] == x
  }

  /** Keys are unique and the selected entry agrees with the list. */
  ghost predicate Coherent<T>(xs: seq<T>, selected: Option<T>, key: T -> string) {
    UniqueKeys(xs, key) && (selected.Some? ==> Agrees(xs, selected.value, key))
  }

  /** `if (selected?.name === x.name) selected = x` */
  function ReplaceSelected<T>(selected: Option<T>, x: T, key: T -> string): (r: Option<T>)
    ensures selected.Some? && key(selected.value) == key(x) ==> r == Some(x)
    ensures selected.None? || key(selected.value) != key(x) ==> r == selected
  {
    if selected.Some? && key(selected.value) == key(x) then Some(x) else selected
  }

  /** `if (selected?.name === k) selected = undefined` */
  function ClearSelected<T>(selected: Option<T>, key: T -> string, k: string): (r: Option<T>)
    ensures selected.Some? && key(selected.value) == k ==> r.None?
    ensures selected.None? || key(selected.value) != k ==> r == selected
  {
    if selected.Some? && key(selected.value) == k then None else selected
  }

  /** Prepending an entry with a fresh key that agrees with the selection. */
  lemma PrependCoherent<T>(xs: seq<T>, selected: Option<T>, x: T, key: T -> string)
    requires Coherent(xs, selected, key)
    requires !HasKey(xs, key, key(x))
    requires selected.Some? && key(selected.value) == key(x) ==> selected.value == x
    ensures Coherent([x] + xs, selected, key)
  {
    PrependUnique(x, xs, key);
    var r := [x] + xs;
    assert forall i :: 1 <= i < |r| ==> r[i] == xs[i - 1];
  }

  /** A list-only replacement keeps coherence when it agrees with the
      selection. */
  lemma ReplaceListCoherent<T>(xs: seq<T>, selected: Option<T>, x: T, key: T -> string)
    requires Coherent(xs, selected, key)
    requires selected.Some? && key(selected.value) == key(x) ==> selected.value == x
    ensures Coherent(ReplaceFirst(xs, x, key), selected, key)
  {
    ReplaceFirstSpec(xs, x, key);
    ReplaceFirstKeepsKeys(xs, x, key);
  }

  /** Replacing in the list and in the selection together always keeps
      coherence. */
  lemma ReplaceBothCoherent<T>(xs: seq<T>, selected: Option<T>, x: T, key: T -> string)
    requires Coherent(xs, selected, key)
    ensures Coherent(ReplaceFirst(xs, x, key), ReplaceSelected(selected, x, key), key)
  {
    ReplaceFirstSpec(xs, x, key);
    ReplaceFirstKeepsKeys(xs, x, key);
  }

  /** Removal keeps coherence, whether or not the selection is cleared. */
  lemma RemoveCoherent<T>(xs: seq<T>, selected: Option<T>, k: string, key: T -> string)
    requires Coherent(xs, selected, key)
    ensures Coherent(RemoveKey(xs, key, k), selected, key)
    ensures Coherent(RemoveKey(xs, key, k), ClearSelected(selected, key, k), key)
  {
    RemoveKeyKeepsUnique(xs, key, k);
    RemoveKeyMembers(xs, key, k);
    var r := RemoveKey(xs, key, k);
    if selected.Some? {
      forall i | 0 <= i < |r| && key(r[i]) == key(selected.value)
        ensures r[i] == selected.value
      {
        assert r[i] in r;
        assert r[i] in xs;
        var m :| 0 <= m < |xs| && xs[m] == r[i];
      }
    }
  }
}
