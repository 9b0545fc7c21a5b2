/**
 * Kotlin's `sortedByDescending { key }`: a stable sort, largest key first,
 * elements with equal keys left in their original order. It is specified
 * here by three properties (descending, a permutation, each key's elements
 * in original order), written as an insertion sort, and the three
 * properties are shown to determine the result uniquely.
 */
module StableSort {

  /** Keys never increase from left to right. */
  predicate SortedDescBy<T>(s: seq<T>, key: T -> int) {
    forall i, j :: 0 <= i < j < |s| ==> key(s[i]) >= key(s[j])
  }

  /** The elements of `s` whose key is `k`, in their order in `s`. */
  function WithKey<T>(s: seq<T>, key: T -> int, k: int): seq<T> {
    if s == [] then []
    else (if key(s[0]) == k then [s[0]] else []) + WithKey(s[1..], key, k)
  }

  /**
   * `r` is `s` sorted by `key`, largest first, with the elements of equal
   * key in the order they have in `s`.
   */
  ghost predicate IsStableDescendingSort<T>(r: seq<T>, s: seq<T>, key: T -> int) {
    && SortedDescBy(r, key)
    && multiset(r) == multiset(s)
    && forall k :: WithKey(r, key, k) == WithKey(s, key, k)
  }

  /** Puts `x` in front of the first element whose key is not larger than its own. */
  function InsertDescBy<T(==)>(x: T, s: seq<T>, key: T -> int): (r: seq<T>)
    ensures |r| == |s| + 1
    ensures r[0] == x || (s != [] && r[0] == s[0])
  {
    if s == [] || key(x) >= key(s[0]) then [x] + s
    else [s[0]] + InsertDescBy(x, s[1..], key)
  }

  /** Inserting into a descending sequence gives a descending sequence. */
  lemma {:induction false} InsertKeepsSorted<T>(x: T, s: seq<T>, key: T -> int)
    requires SortedDescBy(s, key)
    ensures SortedDescBy(InsertDescBy(x, s, key), key)
  {
    if s != [] && key(x) < key(s[0]) {
      var tail := InsertDescBy(x, s[1..], key);
      var r := [s[0]] + tail;
      InsertKeepsSorted(x, s[1..], key);
      assert key(r[0]) >= key(tail[0]);
      forall i, j | 0 <= i < j < |r| ensures key(r[i]) >= key(r[j]) {
        if i == 0 {
          assert key(tail[0]) >= key(r[j]);
        }
      }
    }
  }

  /** Inserting adds `x` and loses nothing. */
  lemma {:induction false} InsertPermutes<T>(x: T, s: seq<T>, key: T -> int)
    ensures multiset(InsertDescBy(x, s, key)) == multiset(s) + multiset{x}
  {
    if s != [] && key(x) < key(s[0]) {
      InsertPermutes(x, s[1..], key);
      assert s == [s[0]] + s[1..];
    }
  }

  /** An element with a smaller key than the head is inserted into the tail. */
  lemma InsertBehind<T>(x: T, s: seq<T>, key: T -> int)
    requires s != [] && key(x) < key(s[0])
    ensures InsertDescBy(x, s, key) == [s[0]] + InsertDescBy(x, s[1..], key)
  {
  }

  /** Inserting `x` adds it in front of the elements of its own key and changes no other key's elements. */
  lemma {:induction false} InsertKeyGroups<T>(x: T, s: seq<T>, key: T -> int, k: int)
    ensures WithKey(InsertDescBy(x, s, key), key, k)
         == (if key(x) == k then [x] else []) + WithKey(s, key, k)
  {
    var r := InsertDescBy(x, s, key);
    var own := if key(x) == k then [x] else [];
    if s == [] || key(x) >= key(s[0]) {
      assert r[1..] == s;
      assert WithKey(r, key, k) == own + WithKey(s, key, k);
    } else {
      var tail := InsertDescBy(x, s[1..], key);
      assert r[1..] == tail;
      InsertKeyGroups(x, s[1..], key, k);
      var head := if key(s[0]) == k then [s[0]] else [];
      assert WithKey(r, key, k) == head + own + WithKey(s[1..], key, k);
      assert head == [] || own == [];
      assert WithKey(s, key, k) == head + WithKey(s[1..], key, k);
    }
  }

  /** Sorting is insertion of the head into the sorted tail. */
  function SortDescBy<T(==)>(s: seq<T>, key: T -> int): (r: seq<T>)
    ensures IsStableDescendingSort(r, s, key)
  {
    if s == [] then []
    else
      var rest := SortDescBy(s[1..], key);
      var r := InsertDescBy(s[0], rest, key);
      assert s == [s[0]] + s[1..];
      InsertKeepsSorted(s[0], rest, key);
      InsertPermutes(s[0], rest, key);
      forall k ensures WithKey(r, key, k) == WithKey(s, key, k) {
        InsertKeyGroups(s[0], rest, key, k);
      }
      r
  }

  /** An element is in a key group exactly when it is in the sequence and has that key. */
  lemma {:induction false} InWithKey<T>(x: T, s: seq<T>, key: T -> int, k: int)
    ensures x in WithKey(s, key, k) <==> x in s && key(x) == k
  {
    if s != [] {
      InWithKey(x, s[1..], key, k);
      assert s == [s[0]] + s[1..];
    }
  }

  /** A sequence all of whose key groups are empty is empty. */
  lemma NoGroupsEmpty<T>(s: seq<T>, key: T -> int)
    requires forall k :: WithKey(s, key, k) == []
    ensures s == []
  {
    if s != [] {
      InWithKey(s[0], s, key, key(s[0]));
    }
  }

  /**
   * Two descending sequences with the same key groups start with the same
   * element and, past it, still have the same key groups.
   */
  lemma SameKeyGroupsSameHead<T>(a: seq<T>, b: seq<T>, key: T -> int)
    requires a != [] && b != []
    requires SortedDescBy(a, key) && SortedDescBy(b, key)
    requires forall k :: WithKey(a, key, k) == WithKey(b, key, k)
    ensures a[0] == b[0]
    ensures forall k :: WithKey(a[1..], key, k) == WithKey(b[1..], key, k)
  {
    var ka, kb := key(a[0]), key(b[0]);
    InWithKey(a[0], b, key, ka);
    InWithKey(b[0], a, key, kb);
    assert ka == kb;
    assert WithKey(a, key, ka) == [a[0]] + WithKey(a[1..], key, ka);
    assert WithKey(b, key, ka) == [b[0]] + WithKey(b[1..], key, ka);
    assert a[0] == WithKey(a, key, ka)[0] == WithKey(b, key, ka)[0] == b[0];
    forall k ensures WithKey(a[1..], key, k) == WithKey(b[1..], key, k) {
      if k == ka {
        assert WithKey(a[1..], key, k) == WithKey(a, key, k)[1..];
        assert WithKey(b[1..], key, k) == WithKey(b, key, k)[1..];
      } else {
        assert WithKey(a, key, k) == WithKey(a[1..], key, k);
        assert WithKey(b, key, k) == WithKey(b[1..], key, k);
      }
    }
  }

  /** Two descending sequences with the same key groups are equal. */
  lemma {:induction false} SameKeyGroupsEqual<T>(a: seq<T>, b: seq<T>, key: T -> int)
    requires SortedDescBy(a, key) && SortedDescBy(b, key)
    requires forall k :: WithKey(a, key, k) == WithKey(b, key, k)
    ensures a == b
    decreases |a|
  {
    if a == [] {
      NoGroupsEmpty(b, key);
    } else if b == [] {
      NoGroupsEmpty(a, key);
    } else {
      SameKeyGroupsSameHead(a, b, key);
      SameKeyGroupsEqual(a[1..], b[1..], key);
      assert a == [a[0]] + a[1..] && b == [b[0]] + b[1..];
    }
  }

  /** There is only one stable descending sort of a sequence: `SortDescBy` computes it. */
  lemma StableDescendingSortUnique<T>(r: seq<T>, s: seq<T>, key: T -> int)
    requires IsStableDescendingSort(r, s, key)
    ensures r == SortDescBy(s, key)
  {
    SameKeyGroupsEqual(r, SortDescBy(s, key), key);
  }
}
