/**
 * `Array.prototype.sort` with a numeric comparator `(a, b) => key(a) - key(b)`.
 * Section 22.1.3.27 of ECMAScript 2019 requires the sort to be stable, so its result is
 * the unique arrangement of the input that is ordered by `key` and keeps the input order
 * among elements whose keys are equal. `SortBy` is an insertion sort with that result;
 * `SortByStable` and `StableSortIsUnique` prove that it is the stable sort.
 */
module StableSort {

  /** Non-decreasing by `key`. */
  ghost predicate SortedBy<T>(s: seq<T>, key: T -> int) {
    forall i, j :: 0 <= i < j < |s| ==> key(s[i]) <= key(s[j])
  }

  /** The elements of `s` whose key is `k`, in their order in `s`. */
  function WithKey<T>(s: seq<T>, key: T -> int, k: int): seq<T> {
    if |s| == 0 then []
    else (if key(s[0]) == k then [s[0]] else []) + WithKey(s[1..], key, k)
  }

  /** Every key in `s` is at least `b`. */
  ghost predicate KeysAtLeast<T>(s: seq<T>, key: T -> int, b: int) {
    forall i :: 0 <= i < |s| ==> b <= key(s[i])
  }

  /** Inserts `x` before the first element whose key is not smaller than `x`'s. */
  function Insert<T>(x: T, s: seq<T>, key: T -> int): seq<T> {
    if |s| == 0 then [x]
    else if key(x) <= key(s[0]) then [x] + s
    else [s[0]] + Insert(x, s[1..], key)
  }

  lemma {:induction false} InsertKeysAtLeast<T>(x: T, s: seq<T>, key: T -> int, b: int)
    requires KeysAtLeast(s, key, b) && b <= key(x)
    ensures KeysAtLeast(Insert(x, s, key), key, b)
  {
    if |s| > 0 && key(x) > key(s[0]) {
      InsertKeysAtLeast(x, s[1..], key, b);
    }
  }

  /** A sorted sequence stays sorted behind an element whose key is at most all of its keys. */
  lemma ConsSorted<T>(a: T, r: seq<T>, key: T -> int)
    requires SortedBy(r, key) && KeysAtLeast(r, key, key(a))
    ensures SortedBy([a] + r, key)
  {
    var t := [a] + r;
    forall i, j | 0 <= i < j < |t| ensures key(t[i]) <= key(t[j]) {
      assert t[j] == r[j - 1];
      if i > 0 {
        assert t[i] == r[i - 1];
      }
    }
  }

  lemma {:induction false} InsertSorted<T>(x: T, s: seq<T>, key: T -> int)
    requires SortedBy(s, key)
    ensures SortedBy(Insert(x, s, key), key)
    ensures multiset(Insert(x, s, key)) == multiset(s) + multiset{x}
  {
    if |s| == 0 {
    } else if key(x) <= key(s[0]) {
      assert KeysAtLeast(s, key, key(x));
      ConsSorted(x, s, key);
    } else {
      var tail := s[1..];
      var r := Insert(x, tail, key);
      assert Insert(x, s, key) == [s[0]] + r;
      assert SortedBy(tail, key);
      InsertSorted(x, tail, key);
      assert KeysAtLeast(tail, key, key(s[0]));
      InsertKeysAtLeast(x, tail, key, key(s[0]));
      ConsSorted(s[0], r, key);
      assert s == [s[0]] + tail;
    }
  }

  /** Stable insertion sort of `s` by ascending `key`. */
  function SortBy<T>(s: seq<T>, key: T -> int): (r: seq<T>)
    ensures SortedBy(r, key)
    ensures multiset(r) == multiset(s)
  {
    if |s| == 0 then []
    else
      var rest := SortBy(s[1..], key);
      InsertStep(s, rest, key);
      Insert(s[0], rest, key)
  }

  /** Inserting the head into the sorted tail gives a sorted permutation of the whole. */
  lemma InsertStep<T>(s: seq<T>, rest: seq<T>, key: T -> int)
    requires |s| > 0 && SortedBy(rest, key) && multiset(rest) == multiset(s[1..])
    ensures SortedBy(Insert(s[0], rest, key), key)
    ensures multiset(Insert(s[0], rest, key)) == multiset(s)
  {
    InsertSorted(s[0], rest, key);
    assert s == [s[0]] + s[1..];
  }

  /** The sort keeps the length, and every element of its result comes from its input. */
  lemma SortByElements<T>(s: seq<T>, key: T -> int)
    ensures |SortBy(s, key)| == |s|
    ensures forall i :: 0 <= i < |SortBy(s, key)| ==> SortBy(s, key)[i] in s
  {
    var r := SortBy(s, key);
    assert |multiset(r)| == |multiset(s)|;
    forall i | 0 <= i < |r| ensures r[i] in s {
      assert r[i] in multiset(r);
    }
  }

  lemma {:induction false} WithKeyAppend<T>(a: seq<T>, b: seq<T>, key: T -> int, k: int)
    ensures WithKey(a + b, key, k) == WithKey(a, key, k) + WithKey(b, key, k)
  {
    if |a| == 0 {
      assert a + b == b;
    } else {
      var t := a[1..];
      WithKeyAppend(t, b, key, k);
      var h := if key(a[0]) == k then [a[0]] else [];
      assert WithKey(a + b, key, k) == h + WithKey(t + b, key, k) by {
        assert (a + b)[0] == a[0];
        assert (a + b)[1..] == t + b;
      }
      assert WithKey(a, key, k) == h + WithKey(t, key, k);
      AppendAssoc(h, WithKey(t, key, k), WithKey(b, key, k));
    }
  }

  lemma AppendAssoc<T>(x: seq<T>, y: seq<T>, z: seq<T>)
    ensures x + (y + z) == (x + y) + z
  {
  }

  lemma {:induction false} WithKeyElements<T>(s: seq<T>, key: T -> int, k: int)
    ensures forall y :: y in WithKey(s, key, k) ==> y in s && key(y) == k
  {
    if |s| > 0 {
      WithKeyElements(s[1..], key, k);
    }
  }

  lemma {:induction false} InsertWithKey<T>(x: T, s: seq<T>, key: T -> int, k: int)
    ensures WithKey(Insert(x, s, key), key, k) == (if key(x) == k then [x] else []) + WithKey(s, key, k)
  {
    if |s| == 0 {
      assert Insert(x, s, key) == [x];
    } else if key(x) <= key(s[0]) {
      assert Insert(x, s, key) == [x] + s;
      WithKeyAppend([x], s, key, k);
    } else {
      var rest := Insert(x, s[1..], key);
      assert Insert(x, s, key) == [s[0]] + rest;
      InsertWithKey(x, s[1..], key, k);
      WithKeyAppend([s[0]], rest, key, k);
      WithKeyAppend([s[0]], s[1..], key, k);
      assert s == [s[0]] + s[1..];
      var hs := WithKey([s[0]], key, k);
      var hx := if key(x) == k then [x] else [];
      calc {
        WithKey(Insert(x, s, key), key, k);
        hs + WithKey(rest, key, k);
        hs + (hx + WithKey(s[1..], key, k));
        { if key(x) == k { assert key(s[0]) != k; assert hs == []; } }
        hx + (hs + WithKey(s[1..], key, k));
        hx + WithKey(s, key, k);
      }
    }
  }

  /** Sorting keeps the input order among the elements that share a key. */
  lemma {:induction false} SortByStable<T>(s: seq<T>, key: T -> int, k: int)
    ensures WithKey(SortBy(s, key), key, k) == WithKey(s, key, k)
  {
    if |s| > 0 {
      SortByStable(s[1..], key, k);
      InsertWithKey(s[0], SortBy(s[1..], key), key, k);
      WithKeyAppend([s[0]], s[1..], key, k);
      assert s == [s[0]] + s[1..];
    }
  }

  lemma HeadHasItsKey<T>(s: seq<T>, key: T -> int)
    ensures |s| > 0 ==> WithKey(s, key, key(s[0])) == [s[0]] + WithKey(s[1..], key, key(s[0]))
  {
  }

  lemma SortedHeadIsLeast<T>(s: seq<T>, key: T -> int, k: int)
    requires SortedBy(s, key) && |s| > 0 && |WithKey(s, key, k)| > 0
    ensures key(s[0]) <= k
  {
    WithKeyElements(s, key, k);
    var y := WithKey(s, key, k)[0];
    assert y in WithKey(s, key, k);
    var i :| 0 <= i < |s| && s[i] == y;
  }

  /**
   * Two arrangements that are both ordered by `key` and agree on the order of every
   * group of equal keys are the same sequence.
   */
  lemma {:induction false} StableSortIsUnique<T>(r: seq<T>, q: seq<T>, key: T -> int)
    requires SortedBy(r, key) && SortedBy(q, key)
    requires forall k :: WithKey(r, key, k) == WithKey(q, key, k)
    ensures r == q
    decreases |r| + |q|
  {
    HeadHasItsKey(r, key);
    HeadHasItsKey(q, key);
    if |r| > 0 && |q| > 0 {
      var k0 := key(r[0]);
      assert WithKey(q, key, k0) == WithKey(r, key, k0);
      SortedHeadIsLeast(q, key, k0);
      assert WithKey(r, key, key(q[0])) == WithKey(q, key, key(q[0]));
      SortedHeadIsLeast(r, key, key(q[0]));
      assert key(q[0]) == k0;
      assert WithKey(r, key, k0) == [r[0]] + WithKey(r[1..], key, k0);
      assert WithKey(q, key, k0) == [q[0]] + WithKey(q[1..], key, k0);
      assert r[0] == WithKey(r, key, k0)[0] == q[0];
      forall k ensures WithKey(r[1..], key, k) == WithKey(q[1..], key, k) {
        assert WithKey(r, key, k) == WithKey(q, key, k);
        if k == k0 {
          assert WithKey(r[1..], key, k) == WithKey(r, key, k)[1..];
          assert WithKey(q[1..], key, k) == WithKey(q, key, k)[1..];
        } else {
          assert WithKey(r[1..], key, k) == WithKey(r, key, k);
          assert WithKey(q[1..], key, k) == WithKey(q, key, k);
        }
      }
      StableSortIsUnique(r[1..], q[1..], key);
      assert r == [r[0]] + r[1..];
      assert q == [q[0]] + q[1..];
    }
  }

  /** Every stable arrangement of `s` by `key` is `SortBy(s, key)`. */
  lemma StableArrangementIsSortBy<T>(s: seq<T>, r: seq<T>, key: T -> int)
    requires SortedBy(r, key)
    requires forall k :: WithKey(r, key, k) == WithKey(s, key, k)
    ensures r == SortBy(s, key)
  {
    forall k ensures WithKey(r, key, k) == WithKey(SortBy(s, key), key, k) {
      SortByStable(s, key, k);
    }
    StableSortIsUnique(r, SortBy(s, key), key);
  }
}
