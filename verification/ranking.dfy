/**
 * Ordering primitives of the rerank step: JavaScript's stable
 * `sort((a, b) => key(b) - key(a))` and `slice(0, end)`.
 */
module Ranking {

  /** Non-increasing by `key`. */
  ghost predicate SortedDesc<T>(s: seq<T>, key: T -> real)
  {
    forall i, j :: 0 <= i < j < |s| ==> key(s[i]) >= key(s[j])
  }

  /** The elements of `s` whose key is `k`, in their order in `s`. */
  function WithKey<T>(s: seq<T>, key: T -> real, k: real): seq<T>
  {
    if |s| == 0 then []
    else (if key(s[0]) == k then [s[0]] else []) + WithKey(s[1..], key, k)
  }

  /**
   * Places `x` in front of the first element whose key is not greater than
   * its own, so `x` precedes every element of equal key.
   */
  function Insert<T>(x: T, s: seq<T>, key: T -> real): (r: seq<T>)
    ensures multiset(r) == multiset(s) + multiset{x}
    decreases |s|
  {
    if |s| == 0 || key(s[0]) <= key(x) then [x] + s
    else
      assert s == [s[0]] + s[1..];
      [s[0]] + Insert(x, s[1..], key)
  }

  /** A bound on every key survives insertion of an element within the bound. */
  lemma {:induction false} InsertBounded<T>(x: T, s: seq<T>, key: T -> real, b: real)
    requires key(x) <= b
    requires forall i :: 0 <= i < |s| ==> key(s[i]) <= b
    ensures forall i :: 0 <= i < |Insert(x, s, key)| ==> key(Insert(x, s, key)[i]) <= b
    decreases |s|
  {
    if |s| > 0 && key(s[0]) > key(x) {
      InsertBounded(x, s[1..], key, b);
    }
  }

  /** Inserting into a sorted sequence keeps it sorted. */
  lemma {:induction false} InsertSorted<T>(x: T, s: seq<T>, key: T -> real)
    requires SortedDesc(s, key)
    ensures SortedDesc(Insert(x, s, key), key)
    decreases |s|
  {
    if |s| > 0 && key(s[0]) > key(x) {
      var rest := Insert(x, s[1..], key);
      var r := [s[0]] + rest;
      InsertSorted(x, s[1..], key);
      assert s == [s[0]] + s[1..];
      InsertBounded(x, s[1..], key, key(s[0]));
      forall i, j | 0 <= i < j < |r|
        ensures key(r[i]) >= key(r[j])
      {
        if i == 0 {
          assert r[j] == rest[j - 1];
        } else {
          assert r[i] == rest[i - 1] && r[j] == rest[j - 1];
        }
      }
    }
  }

  /**
   * Stable sort, highest key first: elements of equal key keep their input
   * order (as `Array.prototype.sort` guarantees since ES2019).
   */
  function SortDesc<T>(s: seq<T>, key: T -> real): (r: seq<T>)
    ensures multiset(r) == multiset(s)
    ensures SortedDesc(r, key)
  {
    if |s| == 0 then []
    else
      assert s == [s[0]] + s[1..];
      InsertSorted(s[0], SortDesc(s[1..], key), key);
      Insert(s[0], SortDesc(s[1..], key), key)
  }

  /** Inserting `x` puts it in front of the elements with its key and keeps their order. */
  lemma {:induction false} InsertWithKey<T>(x: T, s: seq<T>, key: T -> real, k: real)
    ensures WithKey(Insert(x, s, key), key, k)
      == (if key(x) == k then [x] else []) + WithKey(s, key, k)
    decreases |s|
  {
    if |s| == 0 || key(s[0]) <= key(x) {
      WithKeyCons(x, s, key, k);
    } else {
      var rest := Insert(x, s[1..], key);
      var w := WithKey(s[1..], key, k);
      var head := if key(s[0]) == k then [s[0]] else [];
      var mine := if key(x) == k then [x] else [];
      assert WithKey(Insert(x, s, key), key, k) == head + WithKey(rest, key, k) by {
        assert Insert(x, s, key) == [s[0]] + rest;
        WithKeyCons(s[0], rest, key, k);
      }
      assert WithKey(rest, key, k) == mine + w by {
        InsertWithKey(x, s[1..], key, k);
      }
      assert WithKey(s, key, k) == head + w;
      assert head == [] || mine == [];
      SwapEmpty(head, mine, w);
    }
  }

  /** Two pieces of which one is empty can be swapped. */
  lemma {:induction false} SwapEmpty<T>(a: seq<T>, b: seq<T>, w: seq<T>)
    requires a == [] || b == []
    ensures a + (b + w) == b + (a + w)
  {
    if a == [] {
      assert a + (b + w) == b + w == b + (a + w);
    } else {
      assert a + (b + w) == a + w == b + (a + w);
    }
  }

  /** The elements with key `k` of `[y] + t`: `y` if it has that key, then those of `t`. */
  lemma {:induction false} WithKeyCons<T>(y: T, t: seq<T>, key: T -> real, k: real)
    ensures WithKey([y] + t, key, k) == (if key(y) == k then [y] else []) + WithKey(t, key, k)
  {
    assert ([y] + t)[1..] == t;
  }

  /** Stability: for every key, the elements with that key appear in the output in input order. */
  lemma {:induction false} SortDescStable<T>(s: seq<T>, key: T -> real, k: real)
    ensures WithKey(SortDesc(s, key), key, k) == WithKey(s, key, k)
    decreases |s|
  {
    if |s| > 0 {
      SortDescStable(s[1..], key, k);
      InsertWithKey(s[0], SortDesc(s[1..], key), key, k);
    }
  }

  /** Where `slice(0, end)` stops on a sequence of length `len`: negative ends count from the back. */
  function SliceEnd(end: int, len: nat): (n: nat)
    ensures n <= len
  {
    if end < 0 then (if len + end < 0 then 0 else len + end)
    else if end < len then end
    else len
  }

  /** `Array.prototype.slice(0, end)`. */
  function Take<T>(s: seq<T>, end: int): seq<T>
  {
    s[..SliceEnd(end, |s|)]
  }

  /**
   * A prefix of a sorted sequence holds its top elements: nothing left out
   * has a larger key than anything kept.
   */
  lemma {:induction false} PrefixIsTop<T>(s: seq<T>, n: nat, key: T -> real)
    requires SortedDesc(s, key)
    requires n <= |s|
    ensures multiset(s[..n]) <= multiset(s)
    ensures forall e, c :: e in multiset(s) - multiset(s[..n]) && c in s[..n] ==> key(e) <= key(c)
  {
    assert s == s[..n] + s[n..];
    assert multiset(s) - multiset(s[..n]) == multiset(s[n..]);
    forall e, c | e in multiset(s) - multiset(s[..n]) && c in s[..n]
      ensures key(e) <= key(c)
    {
      assert e in s[n..];
      var j :| n <= j < |s| && s[j] == e;
      var i :| 0 <= i < n && s[i] == c;
    }
  }

  /** A prefix of a sequence keeps, for every key, a prefix of the elements with that key. */
  lemma {:induction false} WithKeyPrefix<T>(s: seq<T>, n: nat, key: T -> real, k: real)
    requires n <= |s|
    ensures var p := WithKey(s[..n], key, k);
      |p| <= |WithKey(s, key, k)| && p == WithKey(s, key, k)[..|p|]
    decreases n
  {
    if n > 0 {
      assert s[..n][1..] == s[1..][..n - 1];
      WithKeyPrefix(s[1..], n - 1, key, k);
    }
  }
}
