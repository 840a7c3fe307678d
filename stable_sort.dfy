/**
  `Array.prototype.sort` with a comparator `(a, b) => key(b) - key(a)`:
  a stable sort into non-increasing key order. Written as an insertion sort
  that puts each element in front of the first element whose key is not
  larger, so that equal keys keep their input order.
*/
module StableSort {

  predicate NonIncreasing<T>(xs: seq<T>, key: T -> real)
  {
    forall i, j :: 0 <= i < j < |xs| ==> key(xs[i]) >= key(xs[j])
  }

  /** The elements of xs whose key is k, in their order in xs. */
  function WithKey<T>(xs: seq<T>, key: T -> real, k: real): seq<T>
  {
    if xs == [] then []
    else (if key(xs[0]) == k then [xs[0]] else []) + WithKey(xs[1..], key, k)
  }

  function Insert<T(==)>(x: T, ys: seq<T>, key: T -> real): (zs: seq<T>)
    ensures multiset(zs) == multiset(ys) + multiset{x}
  {
    if ys == [] || key(ys[0]) <= key(x) then [x] + ys
    else
      assert ys == [ys[0]] + ys[1..];
      [ys[0]] + Insert(x, ys[1..], key)
  }

  lemma {:induction false} InsertSorted<T>(x: T, ys: seq<T>, key: T -> real)
    requires NonIncreasing(ys, key)
    ensures NonIncreasing(Insert(x, ys, key), key)
  {
    if ys != [] && key(ys[0]) > key(x) {
      var rest := Insert(x, ys[1..], key);
      InsertSorted(x, ys[1..], key);
      forall z | z in rest ensures key(z) <= key(ys[0]) {
        assert z in multiset(rest);
        if z != x {
          assert z in multiset(ys[1..]);
          var j :| 0 <= j < |ys[1..]| && ys[1..][j] == z;
          assert ys[j + 1] == z;
        }
      }
      var zs := [ys[0]] + rest;
      forall i, j | 0 <= i < j < |zs| ensures key(zs[i]) >= key(zs[j]) {
        if i == 0 {
          assert zs[j] == rest[j - 1];
          assert zs[j] in rest;
        } else {
          assert zs[i] == rest[i - 1] && zs[j] == rest[j - 1];
        }
      }
    }
  }

  function Sort<T(==)>(xs: seq<T>, key: T -> real): (ys: seq<T>)
    ensures multiset(ys) == multiset(xs)
    ensures |ys| == |xs|
    ensures NonIncreasing(ys, key)
  {
    if xs == [] then []
    else
      assert xs == [xs[0]] + xs[1..];
      var sortedTail := Sort(xs[1..], key);
      InsertSorted(xs[0], sortedTail, key);
      var ys := Insert(xs[0], sortedTail, key);
      assert |ys| == |multiset(ys)|;
      ys
  }

  lemma WithKeyCons<T>(x: T, ys: seq<T>, key: T -> real, k: real)
    ensures WithKey([x] + ys, key, k) == (if key(x) == k then [x] else []) + WithKey(ys, key, k)
  {
    assert ([x] + ys)[1..] == ys;
  }

  lemma {:induction false} InsertWithKey<T>(x: T, ys: seq<T>, key: T -> real, k: real)
    ensures WithKey(Insert(x, ys, key), key, k) == (if key(x) == k then [x] else []) + WithKey(ys, key, k)
  {
    if ys == [] || key(ys[0]) <= key(x) {
      WithKeyCons(x, ys, key, k);
    } else {
      var y, tail := ys[0], ys[1..];
      var rest := Insert(x, tail, key);
      assert Insert(x, ys, key) == [y] + rest;
      assert ys == [y] + tail;
      WithKeyCons(y, rest, key, k);
      WithKeyCons(y, tail, key, k);
      InsertWithKey(x, tail, key, k);
      var ex := if key(x) == k then [x] else [];
      var ey := if key(y) == k then [y] else [];
      // WithKey(Insert(x, ys)) == ey + ex + WithKey(tail) and WithKey(ys) == ey + WithKey(tail);
      // when key(x) == k, y has a larger key than x, so ey is empty and the two orders agree.
      assert key(x) == k ==> ey == [];
      assert ey + (ex + WithKey(tail, key, k)) == ex + (ey + WithKey(tail, key, k));
    }
  }

  /** Stability: for every key, the elements with that key appear in the same order as in the input. */
  lemma {:induction false} SortIsStable<T>(xs: seq<T>, key: T -> real, k: real)
    ensures WithKey(Sort(xs, key), key, k) == WithKey(xs, key, k)
  {
    if xs != [] {
      SortIsStable(xs[1..], key, k);
      InsertWithKey(xs[0], Sort(xs[1..], key), key, k);
    }
  }

  /**
    ranked is what a stable sort of xs must return: the same elements, in
    non-increasing key order, with the elements of each key in their order in xs.
  */
  ghost predicate StableRanking<T>(ranked: seq<T>, xs: seq<T>, key: T -> real)
  {
    && multiset(ranked) == multiset(xs)
    && NonIncreasing(ranked, key)
    && forall k :: WithKey(ranked, key, k) == WithKey(xs, key, k)
  }

  lemma SortIsStableRanking<T>(xs: seq<T>, key: T -> real)
    ensures StableRanking(Sort(xs, key), xs, key)
  {
    forall k ensures WithKey(Sort(xs, key), key, k) == WithKey(xs, key, k) {
      SortIsStable(xs, key, k);
    }
  }

  /** An element is among those with key k exactly when it is in xs and has key k. */
  lemma {:induction false} WithKeyMember<T>(xs: seq<T>, key: T -> real, k: real, x: T)
    ensures x in WithKey(xs, key, k) <==> x in xs && key(x) == k
  {
    if xs != [] {
      WithKeyMember(xs[1..], key, k, x);
      assert xs == [xs[0]] + xs[1..];
    }
  }

  /** Two sorted sequences that agree on the elements of every key are equal. */
  lemma {:induction false} SameKeysSorted<T>(a: seq<T>, b: seq<T>, key: T -> real)
    requires NonIncreasing(a, key) && NonIncreasing(b, key)
    requires forall k :: WithKey(a, key, k) == WithKey(b, key, k)
    ensures a == b
    decreases |a| + |b|
  {
    if a == [] || b == [] {
      if b != [] {
        WithKeyMember(b, key, key(b[0]), b[0]);
      } else if a != [] {
        WithKeyMember(a, key, key(a[0]), a[0]);
      }
    } else {
      var ka, kb := key(a[0]), key(b[0]);
      // The head of each has the largest key, and it occurs in the other.
      assert kb >= ka by {
        WithKeyMember(a, key, ka, a[0]);
        WithKeyMember(b, key, ka, a[0]);
        var j :| 0 <= j < |b| && b[j] == a[0];
      }
      assert ka >= kb by {
        WithKeyMember(b, key, kb, b[0]);
        WithKeyMember(a, key, kb, b[0]);
        var j :| 0 <= j < |a| && a[j] == b[0];
      }
      assert a[0] == b[0] by {
        assert WithKey(a, key, ka) == [a[0]] + WithKey(a[1..], key, ka);
        assert WithKey(b, key, ka) == [b[0]] + WithKey(b[1..], key, ka);
        assert WithKey(a, key, ka)[0] == a[0];
      }
      forall k ensures WithKey(a[1..], key, k) == WithKey(b[1..], key, k) {
        var h := if ka == k then [a[0]] else [];
        assert WithKey(a, key, k) == h + WithKey(a[1..], key, k);
        assert WithKey(b, key, k) == h + WithKey(b[1..], key, k);
        assert (h + WithKey(a[1..], key, k))[|h|..] == WithKey(a[1..], key, k);
        assert (h + WithKey(b[1..], key, k))[|h|..] == WithKey(b[1..], key, k);
      }
      assert NonIncreasing(a[1..], key) && NonIncreasing(b[1..], key) by {
        forall i, j | 0 <= i < j < |a| - 1 ensures key(a[1..][i]) >= key(a[1..][j]) {
          assert a[1..][i] == a[i + 1] && a[1..][j] == a[j + 1];
        }
        forall i, j | 0 <= i < j < |b| - 1 ensures key(b[1..][i]) >= key(b[1..][j]) {
          assert b[1..][i] == b[i + 1] && b[1..][j] == b[j + 1];
        }
      }
      SameKeysSorted(a[1..], b[1..], key);
      assert a == [a[0]] + a[1..] && b == [b[0]] + b[1..];
    }
  }

  /** A stable sort has exactly one possible result. */
  lemma StableRankingUnique<T>(a: seq<T>, b: seq<T>, xs: seq<T>, key: T -> real)
    requires StableRanking(a, xs, key) && StableRanking(b, xs, key)
    ensures a == b
  {
    SameKeysSorted(a, b, key);
  }

  /**
    The first n elements of a sorted sequence are its top n: they are sorted,
    drawn from the sequence, and every element left out has a key no larger
    than that of the last element kept.
  */
  lemma TopPrefix<T>(xs: seq<T>, key: T -> real, n: nat)
    requires NonIncreasing(xs, key)
    requires n <= |xs|
    ensures NonIncreasing(xs[..n], key)
    ensures multiset(xs[..n]) <= multiset(xs)
    ensures n > 0 ==> forall p :: p in multiset(xs) - multiset(xs[..n]) ==> key(p) <= key(xs[n - 1])
  {
    assert xs == xs[..n] + xs[n..];
    assert multiset(xs) == multiset(xs[..n]) + multiset(xs[n..]);
    if n > 0 {
      forall p | p in multiset(xs) - multiset(xs[..n]) ensures key(p) <= key(xs[n - 1]) {
        assert p in multiset(xs[n..]);
        assert p in xs[n..];
        var j :| 0 <= j < |xs[n..]| && xs[n..][j] == p;
        assert xs[n + j] == p;
      }
    }
  }
}
