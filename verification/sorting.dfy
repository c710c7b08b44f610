/** A stable sort into non-increasing order of a real-valued key: the order
    `Array.prototype.sort` produces with the comparator `(a, b) => key(b) - key(a)`
    (the sort is required to be stable since ECMAScript 2019). */
module Sorting {

  /** Keys never increase from left to right. */
  predicate SortedDesc<T>(s: seq<T>, key: T -> real) {
    forall i, j :: 0 <= i < j < |s| ==> key(s[i]) >= key(s[j])
  }

  /** The elements of `s` whose key is `k`, in their order in `s`. A sort is
      stable exactly when it leaves every such sequence unchanged. */
  function WithKey<T>(s: seq<T>, key: T -> real, k: real): seq<T> {
    if |s| == 0 then []
    else (if key(s[0]) == k then [s[0]] else []) + WithKey(s[1..], key, k)
  }

  lemma {:induction false} WithKeyAppend<T>(a: seq<T>, b: seq<T>, key: T -> real, k: real)
    ensures WithKey(a + b, key, k) == WithKey(a, key, k) + WithKey(b, key, k)
    decreases |a|
  {
    if |a| > 0 {
      assert (a + b)[0] == a[0];
      assert (a + b)[1..] == a[1..] + b;
      WithKeyAppend(a[1..], b, key, k);
    } else {
      assert a + b == b;
    }
  }

  /** Inserts `x` in front of the first element whose key is not larger than
      its own, so `x` precedes every element with an equal key. */
  function Insert<T>(x: T, s: seq<T>, key: T -> real): (r: seq<T>)
    ensures |r| == |s| + 1
    ensures multiset(r) == multiset(s) + multiset{x}
    decreases |s|
  {
    if |s| == 0 || key(x) >= key(s[0]) then [x] + s
    else
      assert s == [s[0]] + s[1..];
      [s[0]] + Insert(x, s[1..], key)
  }

  /** The head of a sorted sequence has the largest key. */
  lemma HeadIsLargest<T>(s: seq<T>, key: T -> real, y: T)
    requires SortedDesc(s, key)
    requires y in multiset(s)
    ensures key(y) <= key(s[0])
  {
    var j :| 0 <= j < |s| && s[j] == y;
    if j > 0 {
      assert key(s[0]) >= key(s[j]);
    }
  }

  /** A head no smaller than anything in a sorted tail gives a sorted
      sequence. */
  lemma SortedCons<T>(h: T, rest: seq<T>, key: T -> real)
    requires SortedDesc(rest, key)
    requires forall i :: 0 <= i < |rest| ==> key(rest[i]) <= key(h)
    ensures SortedDesc([h] + rest, key)
  {
    var r := [h] + rest;
    forall i, j | 0 <= i < j < |r| ensures key(r[i]) >= key(r[j]) {
      assert r[j] == rest[j - 1];
      if i > 0 {
        assert r[i] == rest[i - 1];
      }
    }
  }

  /** Inserting into a sorted sequence keeps it sorted. */
  lemma {:induction false} InsertSorted<T>(x: T, s: seq<T>, key: T -> real)
    requires SortedDesc(s, key)
    ensures SortedDesc(Insert(x, s, key), key)
    decreases |s|
  {
    if |s| > 0 && key(x) < key(s[0]) {
      var t := s[1..];
      var rest := Insert(x, t, key);
      assert SortedDesc(t, key);
      InsertSorted(x, t, key);
      forall i | 0 <= i < |rest| ensures key(rest[i]) <= key(s[0]) {
        var y := rest[i];
        assert y in multiset(rest);
        if y != x {
          assert y in multiset(s) by {
            assert s == [s[0]] + t;
          }
          HeadIsLargest(s, key, y);
        }
      }
      SortedCons(s[0], rest, key);
    }
  }

  /** Stable insertion sort into non-increasing key order. */
  function SortDesc<T>(s: seq<T>, key: T -> real): (r: seq<T>)
    ensures |r| == |s|
    ensures multiset(r) == multiset(s)
    ensures SortedDesc(r, key)
    decreases |s|
  {
    if |s| == 0 then []
    else
      assert s == [s[0]] + s[1..];
      var sortedTail := SortDesc(s[1..], key);
      InsertSorted(s[0], sortedTail, key);
      Insert(s[0], sortedTail, key)
  }

  /** Inserting moves `x` only past elements whose key differs from its own. */
  lemma {:induction false} InsertStable<T>(x: T, s: seq<T>, key: T -> real, k: real)
    ensures WithKey(Insert(x, s, key), key, k) == WithKey([x] + s, key, k)
    decreases |s|
  {
    if |s| > 0 && key(x) < key(s[0]) {
      var t := s[1..];
      assert s == [s[0]] + t;
      InsertStable(x, t, key, k);
      calc {
        WithKey(Insert(x, s, key), key, k);
        WithKey([s[0]] + Insert(x, t, key), key, k);
        { WithKeyAppend([s[0]], Insert(x, t, key), key, k); }
        WithKey([s[0]], key, k) + WithKey([x] + t, key, k);
        { WithKeyAppend([x], t, key, k); }
        WithKey([s[0]], key, k) + WithKey([x], key, k) + WithKey(t, key, k);
        // at most one of x and s[0] has key k
        WithKey([x], key, k) + WithKey([s[0]], key, k) + WithKey(t, key, k);
        { WithKeyAppend([x], [s[0]], key, k);
          WithKeyAppend([x] + [s[0]], t, key, k);
          assert [x] + s == [x] + [s[0]] + t; }
        WithKey([x] + s, key, k);
      }
    }
  }

  /** The sort is stable: elements with equal keys keep their relative order. */
  lemma {:induction false} SortStable<T>(s: seq<T>, key: T -> real, k: real)
    ensures WithKey(SortDesc(s, key), key, k) == WithKey(s, key, k)
    decreases |s|
  {
    if |s| > 0 {
      var t := s[1..];
      assert s == [s[0]] + t;
      SortStable(t, key, k);
      calc {
        WithKey(SortDesc(s, key), key, k);
        WithKey(Insert(s[0], SortDesc(t, key), key), key, k);
        { InsertStable(s[0], SortDesc(t, key), key, k); }
        WithKey([s[0]] + SortDesc(t, key), key, k);
        { WithKeyAppend([s[0]], SortDesc(t, key), key, k); }
        WithKey([s[0]], key, k) + WithKey(SortDesc(t, key), key, k);
        WithKey([s[0]], key, k) + WithKey(t, key, k);
        { WithKeyAppend([s[0]], t, key, k); }
        WithKey(s, key, k);
      }
    }
  }

  /** `SortStable` for every key value at once. */
  lemma {:induction false} SortStableAll<T>(s: seq<T>, key: T -> real)
    ensures forall k :: WithKey(SortDesc(s, key), key, k) == WithKey(s, key, k)
  {
    forall k ensures WithKey(SortDesc(s, key), key, k) == WithKey(s, key, k) {
      SortStable(s, key, k);
    }
  }

  /** An element whose key is `k` heads the `k`-selection of any sequence it
      heads. */
  lemma WithKeyHead<T>(s: seq<T>, key: T -> real)
    requires |s| > 0
    ensures WithKey(s, key, key(s[0])) == [s[0]] + WithKey(s[1..], key, key(s[0]))
    ensures forall k :: k != key(s[0]) ==> WithKey(s, key, k) == WithKey(s[1..], key, k)
  {
  }

  /** Two sorted, stably related arrangements of the same elements start with
      the same element. */
  lemma SameHead<T>(a: seq<T>, b: seq<T>, key: T -> real)
    requires |a| > 0 && multiset(a) == multiset(b)
    requires SortedDesc(a, key) && SortedDesc(b, key)
    requires forall k :: WithKey(a, key, k) == WithKey(b, key, k)
    ensures |b| > 0 && a[0] == b[0]
  {
    assert |b| == |multiset(b)| == |multiset(a)| == |a|;
    assert a[0] in multiset(a) && b[0] in multiset(b);
    HeadIsLargest(a, key, b[0]);
    HeadIsLargest(b, key, a[0]);
    var m := key(a[0]);
    WithKeyHead(a, key);
    WithKeyHead(b, key);
    assert WithKey(a, key, m) == WithKey(b, key, m);
  }

  /** Removing a common head keeps two stably related sequences related. */
  lemma {:induction false} TailsRelated<T>(a: seq<T>, b: seq<T>, key: T -> real)
    requires |a| > 0 && |b| > 0 && a[0] == b[0]
    requires forall k :: WithKey(a, key, k) == WithKey(b, key, k)
    ensures forall k :: WithKey(a[1..], key, k) == WithKey(b[1..], key, k)
  {
    WithKeyHead(a, key);
    WithKeyHead(b, key);
    var m := key(a[0]);
    forall k ensures WithKey(a[1..], key, k) == WithKey(b[1..], key, k) {
      if k == m {
        assert WithKey(a, key, m) == WithKey(b, key, m);
        assert WithKey(a[1..], key, m) == WithKey(a, key, m)[1..];
        assert WithKey(b[1..], key, m) == WithKey(b, key, m)[1..];
      } else {
        assert WithKey(a, key, k) == WithKey(b, key, k);
      }
    }
  }

  /** Dropping a common head keeps two arrangements of the same elements
      arrangements of the same elements. */
  lemma TailsSameElements<T>(a: seq<T>, b: seq<T>)
    requires |a| > 0 && |b| > 0 && a[0] == b[0]
    requires multiset(a) == multiset(b)
    ensures multiset(a[1..]) == multiset(b[1..])
  {
    assert a == [a[0]] + a[1..] && b == [b[0]] + b[1..];
    assert multiset(a[1..]) == multiset(a) - multiset{a[0]};
    assert multiset(b[1..]) == multiset(b) - multiset{b[0]};
  }

  /** Sortedness, the same elements and stability determine the result: a
      stable sort has exactly one possible outcome, so `SortDesc` is the order
      any stable sort with this comparator produces. */
  lemma {:induction false} StableSortUnique<T>(a: seq<T>, b: seq<T>, key: T -> real)
    requires multiset(a) == multiset(b)
    requires SortedDesc(a, key) && SortedDesc(b, key)
    requires forall k :: WithKey(a, key, k) == WithKey(b, key, k)
    ensures a == b
    decreases |a|
  {
    assert |a| == |multiset(a)| == |multiset(b)| == |b|;
    if |a| > 0 {
      SameHead(a, b, key);
      TailsRelated(a, b, key);
      TailsSameElements(a, b);
      assert SortedDesc(a[1..], key) && SortedDesc(b[1..], key);
      StableSortUnique(a[1..], b[1..], key);
      assert a == [a[0]] + a[1..] && b == [b[0]] + b[1..];
    }
  }

  /** Any sequence that is sorted, holds the same elements and keeps equal
      keys in their original order is the result of `SortDesc`. */
  lemma IsTheStableSort<T>(s: seq<T>, r: seq<T>, key: T -> real)
    requires multiset(r) == multiset(s)
    requires SortedDesc(r, key)
    requires forall k :: WithKey(r, key, k) == WithKey(s, key, k)
    ensures r == SortDesc(s, key)
  {
    SortStableAll(s, key);
    StableSortUnique(r, SortDesc(s, key), key);
  }
}
