/**
 * The vector helpers of src/lib/opensearch.ts: `normalize` and `cosine`.
 * Numbers are reals; `Math.sqrt` is a parameter of which only two facts are
 * assumed: the root of 0 is 0 and the root of a positive number is positive.
 */
module VectorMath {

  /** The two facts about `Math.sqrt` the zero-norm guards rely on. */
  ghost predicate SqrtLike(sqrt: real -> real)
  {
    sqrt(0.0) == 0.0 && forall x :: 0.0 < x ==> 0.0 < sqrt(x)
  }

  /** Dot product, accumulated front to back as `cosine`'s loop does. */
  function Dot(a: seq<real>, b: seq<real>): real
    requires |a| == |b|
    decreases |a|
  {
    if |a| == 0 then 0.0 else Dot(a[..|a| - 1], b[..|b| - 1]) + Product(a[|a| - 1], b[|b| - 1])
  }

  /** Product of two numbers, kept as a function so that squares stay linear atoms for the solver. */
  function Product(x: real, y: real): real
  {
    x * y
  }

  /** Sum of squares: the squared L2 norm. */
  function SumSquares(v: seq<real>): real
  {
    Dot(v, v)
  }

  /** Every component is zero. */
  predicate IsZero(v: seq<real>)
  {
    forall i :: 0 <= i < |v| ==> v[i] == 0.0
  }

  /** A sum of squares is never negative. */
  lemma {:induction false} SumSquaresNonNegative(v: seq<real>)
    ensures SumSquares(v) >= 0.0
    decreases |v|
  {
    if |v| > 0 {
      SumSquaresNonNegative(v[..|v| - 1]);
      Square(v[|v| - 1]);
    }
  }

  /** The product of two positive numbers is positive. */
  lemma {:induction false} PositiveProduct(x: real, y: real)
    requires x > 0.0 && y > 0.0
    ensures Product(x, y) > 0.0
  {
  }

  /** A square is non-negative, and zero only for zero. */
  lemma {:induction false} Square(x: real)
    ensures Product(x, x) >= 0.0
    ensures Product(x, x) == 0.0 <==> x == 0.0
  {
    if x > 0.0 {
      PositiveProduct(x, x);
    } else if x < 0.0 {
      PositiveProduct(-x, -x);
      assert Product(x, x) == Product(-x, -x);
    }
  }

  /** The sum of squares is zero exactly for the zero vector. */
  lemma {:induction false} SumSquaresZero(v: seq<real>)
    ensures SumSquares(v) == 0.0 <==> IsZero(v)
    decreases |v|
  {
    if |v| > 0 {
      var p := v[..|v| - 1];
      var x := v[|v| - 1];
      SumSquaresZero(p);
      SumSquaresNonNegative(p);
      Square(x);
      assert SumSquares(v) == SumSquares(p) + Product(x, x);
      assert forall i :: 0 <= i < |p| ==> p[i] == v[i];
    }
  }

  /** The dot product does not depend on the order of its arguments. */
  lemma {:induction false} DotSymmetric(a: seq<real>, b: seq<real>)
    requires |a| == |b|
    ensures Dot(a, b) == Dot(b, a)
    decreases |a|
  {
    if |a| > 0 {
      DotSymmetric(a[..|a| - 1], b[..|b| - 1]);
    }
  }

  /**
   * `normalize`: `v` divided by its L2 norm; `v` itself when the norm is 0.
   * (Reals have no NaN or infinity, so the `isFinite` half of the guard never fires.)
   */
  function Normalize(v: seq<real>, sqrt: real -> real): (r: seq<real>)
    ensures |r| == |v|
  {
    var norm := sqrt(SumSquares(v));
    if norm == 0.0 then v else seq(|v|, i requires 0 <= i < |v| => v[i] / norm)
  }

  /** The zero vector comes back unchanged. */
  lemma {:induction false} NormalizeZero(v: seq<real>, sqrt: real -> real)
    requires SqrtLike(sqrt)
    requires IsZero(v)
    ensures Normalize(v, sqrt) == v
  {
    SumSquaresZero(v);
  }

  /**
   * Any other vector is scaled by a positive factor, its norm: multiplying
   * the result back by the norm restores the input.
   */
  lemma {:induction false} NormalizeScales(v: seq<real>, sqrt: real -> real)
    requires SqrtLike(sqrt)
    requires !IsZero(v)
    ensures var norm := sqrt(SumSquares(v));
      && norm > 0.0
      && forall i :: 0 <= i < |v| ==> Normalize(v, sqrt)[i] * norm == v[i]
  {
    SumSquaresZero(v);
    SumSquaresNonNegative(v);
  }

  /**
   * Cosine similarity of `a` and the first |a| components of `b`: 0 when
   * either sum of squares is 0, otherwise the dot product over the product of
   * the norms.
   */
  function CosineOf(a: seq<real>, b: seq<real>, sqrt: real -> real): real
    requires |a| == |b|
    requires SqrtLike(sqrt)
  {
    var na := SumSquares(a);
    var nb := SumSquares(b);
    if na == 0.0 || nb == 0.0 then 0.0
    else
      SumSquaresNonNegative(a);
      SumSquaresNonNegative(b);
      Dot(a, b) / (sqrt(na) * sqrt(nb))
  }

  /** Cosine similarity is symmetric. */
  lemma {:induction false} CosineSymmetric(a: seq<real>, b: seq<real>, sqrt: real -> real)
    requires |a| == |b|
    requires SqrtLike(sqrt)
    ensures CosineOf(a, b, sqrt) == CosineOf(b, a, sqrt)
  {
    DotSymmetric(a, b);
    var na, nb := sqrt(SumSquares(a)), sqrt(SumSquares(b));
    assert na * nb == nb * na;
  }

  /** Degenerate vectors are treated as maximally dissimilar: the zero vector has cosine 0 with anything. */
  lemma {:induction false} CosineZeroGuard(a: seq<real>, b: seq<real>, sqrt: real -> real)
    requires |a| == |b|
    requires SqrtLike(sqrt)
    ensures IsZero(a) || IsZero(b) ==> CosineOf(a, b, sqrt) == 0.0
    ensures !IsZero(a) && !IsZero(b) ==>
      CosineOf(a, b, sqrt) * (sqrt(SumSquares(a)) * sqrt(SumSquares(b))) == Dot(a, b)
  {
    SumSquaresZero(a);
    SumSquaresZero(b);
    SumSquaresNonNegative(a);
    SumSquaresNonNegative(b);
    var d := sqrt(SumSquares(a)) * sqrt(SumSquares(b));
    if !IsZero(a) && !IsZero(b) {
      assert d > 0.0;
    }
  }

  /**
   * `cosine`: one pass over `a` accumulating the dot product and both sums
   * of squares; components of `b` past |a| are never read.
   */
  method Cosine(a: seq<real>, b: seq<real>, sqrt: real -> real) returns (c: real)
    requires |a| <= |b|
    requires SqrtLike(sqrt)
    ensures c == CosineOf(a, b[..|a|], sqrt)
    ensures IsZero(a) || IsZero(b[..|a|]) ==> c == 0.0
  {
    var dot, na, nb := 0.0, 0.0, 0.0;
    var i := 0;
    while i < |a|
      invariant 0 <= i <= |a|
      invariant dot == Dot(a[..i], b[..i])
      invariant na == Dot(a[..i], a[..i])
      invariant nb == Dot(b[..i], b[..i])
    {
      assert a[..i + 1][..i] == a[..i] && b[..i + 1][..i] == b[..i];
      dot := dot + Product(a[i], b[i]);
      na := na + Product(a[i], a[i]);
      nb := nb + Product(b[i], b[i]);
      i := i + 1;
    }
    ghost var b' := b[..|a|];
    assert a[..i] == a && b[..i] == b';
    assert dot == Dot(a, b') && na == SumSquares(a) && nb == SumSquares(b');
    CosineZeroGuard(a, b', sqrt);
    if na == 0.0 || nb == 0.0 {
      c := 0.0;
    } else {
      SumSquaresNonNegative(a);
      SumSquaresNonNegative(b');
      c := dot / (sqrt(na) * sqrt(nb));
    }
  }
}
