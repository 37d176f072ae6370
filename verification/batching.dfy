/**
 * Batching of provider requests: `chunkArray` (src/app/api/search/route.ts)
 * and the `chunks` generator (scripts/embed_query.py) both cut a list into
 * consecutive slices of `size` elements, the last one possibly shorter.
 */
module Batching {

  /** The provider accepts at most 16 papers per request. */
  const MaxBatchSize: nat := 16

  function Min(a: int, b: int): int
  {
    if a <= b then a else b
  }

  /** The elements of the chunks, in order. */
  function Flatten<T>(cs: seq<seq<T>>): seq<T>
  {
    if |cs| == 0 then [] else cs[0] + Flatten(cs[1..])
  }

  /**
   * `chunks(lst, size)`: the slices `lst[i : i + size]` for `i` in
   * `range(0, len(lst), size)`, built front to back.
   */
  function Chunks<T>(s: seq<T>, size: nat): (cs: seq<seq<T>>)
    requires size > 0
    ensures |s| == 0 <==> |cs| == 0
    decreases |s|
  {
    if |s| == 0 then []
    else
      var n := Min(size, |s|);
      [s[..n]] + Chunks(s[n..], size)
  }

  /**
   * Every chunk is non-empty and no larger than `size`, every chunk but
   * the last has exactly `size` elements, and together they are the input,
   * in order.
   */
  lemma {:induction false} ChunksShape<T>(s: seq<T>, size: nat)
    requires size > 0
    ensures var cs := Chunks(s, size);
      && (forall i :: 0 <= i < |cs| ==> 0 < |cs[i]| <= size)
      && (forall i :: 0 <= i < |cs| - 1 ==> |cs[i]| == size)
      && Flatten(cs) == s
    decreases |s|
  {
    if |s| > 0 {
      var n := Min(size, |s|);
      var rest := Chunks(s[n..], size);
      ChunksShape(s[n..], size);
      var cs := [s[..n]] + rest;
      assert cs[1..] == rest;
      assert s[..n] + s[n..] == s;
      assert forall i :: 1 <= i < |cs| ==> cs[i] == rest[i - 1];
    }
  }

  /** `k * size`, kept behind a function so that the proofs below stay linear. */
  function Scaled(k: nat, size: nat): nat
  {
    k * size
  }

  /** One more chunk is `size` more elements. */
  lemma {:induction false} ScaledSucc(k: nat, size: nat)
    ensures Scaled(0, size) == 0
    ensures Scaled(k + 1, size) == Scaled(k, size) + size
  {
  }

  /** There are just enough chunks to cover the input: `ceil(|s| / size)` of them. */
  lemma {:induction false} ChunkCount<T>(s: seq<T>, size: nat)
    requires size > 0
    ensures |s| <= Scaled(|Chunks(s, size)|, size) < |s| + size
    decreases |s|
  {
    if |s| > 0 {
      var n := Min(size, |s|);
      var k := |Chunks(s[n..], size)|;
      ChunkCount(s[n..], size);
      ScaledSucc(k, size);
      assert |Chunks(s, size)| == k + 1;
    }
  }

  /** Chunk `i` is the slice from `i * size` to `(i + 1) * size`, cut at the end of the input. */
  lemma {:induction false} ChunkAt<T>(s: seq<T>, size: nat, i: nat)
    requires size > 0
    requires i < |Chunks(s, size)|
    ensures Scaled(i, size) < |s|
    ensures Chunks(s, size)[i] == s[Scaled(i, size)..Min(Scaled(i + 1, size), |s|)]
    decreases i
  {
    var n := Min(size, |s|);
    ScaledSucc(i, size);
    if i > 0 {
      var t := s[n..];
      ChunkAt(t, size, i - 1);
      ScaledSucc(i - 1, size);
      assert n == size;
      var lo, hi := Scaled(i - 1, size), Scaled(i, size);
      assert Chunks(s, size)[i] == Chunks(t, size)[i - 1];
      SliceOfSuffix(s, size, lo, Min(hi, |t|));
    }
  }

  /** A slice of `s[n..]` is the slice of `s` shifted by `n`. */
  lemma {:induction false} SliceOfSuffix<T>(s: seq<T>, n: nat, lo: nat, hi: nat)
    requires n <= |s| && lo <= hi <= |s| - n
    ensures s[n..][lo..hi] == s[n + lo..n + hi]
  {
  }

  /** The chunks of a suffix: its first slice, then the chunks of what follows. */
  lemma {:induction false} ChunksStep<T>(s: seq<T>, size: nat, i: nat)
    requires size > 0 && i < |s|
    ensures var j := Min(i + size, |s|);
      Chunks(s[i..], size) == [s[i..j]] + Chunks(s[j..], size)
  {
    var rest := s[i..];
    var n := Min(size, |rest|);
    assert rest[..n] == s[i..i + n];
    assert rest[n..] == s[i + n..];
  }

  /**
   * `chunkArray(arr, size)`: a loop that pushes `arr.slice(i, i + size)`
   * for `i = 0, size, 2 * size, …` while `i < arr.length`. It yields the
   * same chunks as the Python generator.
   */
  method ChunkArray<T>(arr: seq<T>, size: nat) returns (result: seq<seq<T>>)
    requires size > 0
    ensures result == Chunks(arr, size)
  {
    result := [];
    var i := 0;
    while i < |arr|
      invariant 0 <= i
      invariant result + Chunks(arr[Min(i, |arr|)..], size) == Chunks(arr, size)
      decreases |arr| - i
    {
      var j := Min(i + size, |arr|);
      ChunksStep(arr, size, i);
      result := result + [arr[i..j]];
      i := i + size;
    }
    assert arr[Min(i, |arr|)..] == [];
  }
}
