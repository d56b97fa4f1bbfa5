/** Real vectors with one entry per optimisation variable, in the order the variables were
    registered, and the algebra the step manipulator needs of them. */
module Vectors {

  type Vector = seq<real>
  function SumSquares(v: Vector): real {
    if |v| == 0 then 0.0 else v[0] * v[0] + SumSquares(v[1..])
  }

  /** Scalar product; numpy refuses vectors of different lengths. */
  function Dot(a: Vector, b: Vector): real
    requires |a| == |b|
  {
    if |a| == 0 then 0.0 else a[0] * b[0] + Dot(a[1..], b[1..])
  }

  function Plus(a: Vector, b: Vector): (r: Vector)
    requires |a| == |b|
    ensures |r| == |a| && forall i :: 0 <= i < |a| ==> r[i] == a[i] + b[i]
  {
    seq(|a|, i requires 0 <= i < |a| => a[i] + b[i])
  }

  function Scaled(c: real, v: Vector): (r: Vector)
    ensures |r| == |v| && forall i :: 0 <= i < |v| ==> r[i] == c * v[i]
  {
    seq(|v|, i requires 0 <= i < |v| => c * v[i])
  }

  lemma {:induction false} DotSymmetric(a: Vector, b: Vector)
    requires |a| == |b|
    ensures Dot(a, b) == Dot(b, a)
  {
    if |a| > 0 {
      DotSymmetric(a[1..], b[1..]);
    }
  }

  lemma PlusTail(a: Vector, b: Vector)
    requires |a| == |b| > 0
    ensures Plus(a, b)[1..] == Plus(a[1..], b[1..])
  {
    var l, r := Plus(a, b)[1..], Plus(a[1..], b[1..]);
    assert |l| == |r|;
    forall i | 0 <= i < |l| ensures l[i] == r[i] {
      assert l[i] == Plus(a, b)[i + 1];
    }
  }

  /** The scalar product distributes over a sum on the left. */
  lemma {:induction false} DotPlus(a: Vector, b: Vector, c: Vector)
    requires |a| == |b| == |c|
    ensures Dot(Plus(a, b), c) == Dot(a, c) + Dot(b, c)
  {
    if |a| > 0 {
      PlusTail(a, b);
      DotPlus(a[1..], b[1..], c[1..]);
    }
  }

  /** A factor on the left of a scalar product comes out of it. */
  lemma {:induction false} DotScaledLeft(k: real, a: Vector, b: Vector)
    requires |a| == |b|
    ensures Dot(Scaled(k, a), b) == k * Dot(a, b)
  {
    if |a| > 0 {
      ScaledTail(k, a);
      DotScaledLeft(k, a[1..], b[1..]);
    }
  }

  /** Any multiple of `u + p`, for `u` and `p` of equal norm, makes the same angle with
      both: its scalar products with them agree. */
  lemma {:induction false} Bisects(u: Vector, p: Vector, k: real)
    requires |u| == |p| && SumSquares(u) == SumSquares(p)
    ensures Dot(Scaled(k, Plus(u, p)), u) == Dot(Scaled(k, Plus(u, p)), p)
  {
    DotScaledLeft(k, Plus(u, p), u);
    DotScaledLeft(k, Plus(u, p), p);
    DotPlus(u, p, u);
    DotPlus(u, p, p);
    DotSelf(u);
    DotSelf(p);
    DotSymmetric(u, p);
  }

  /** The scalar product of a vector with itself is its squared norm. */
  lemma {:induction false} DotSelf(v: Vector)
    ensures Dot(v, v) == SumSquares(v)
  {
    if |v| > 0 {
      DotSelf(v[1..]);
    }
  }

  lemma ScaledTail(c: real, v: Vector)
    requires |v| > 0
    ensures Scaled(c, v)[1..] == Scaled(c, v[1..])
  {
    var a, b := Scaled(c, v)[1..], Scaled(c, v[1..]);
    assert |a| == |b|;
    forall i | 0 <= i < |a| ensures a[i] == b[i] {
      assert a[i] == Scaled(c, v)[i + 1];
    }
  }

  /** Scaling a vector by `c` scales its squared norm by `c * c`. */
  lemma {:induction false} SumSquaresScaled(c: real, v: Vector)
    ensures SumSquares(Scaled(c, v)) == c * c * SumSquares(v)
  {
    if |v| > 0 {
      ScaledTail(c, v);
      SumSquaresScaled(c, v[1..]);
    }
  }

  /** The scalar product with a scaled copy is the scaled squared norm. */
  lemma {:induction false} DotScaled(c: real, v: Vector)
    ensures Dot(v, Scaled(c, v)) == c * SumSquares(v)
  {
    if |v| > 0 {
      ScaledTail(c, v);
      DotScaled(c, v[1..]);
    }
  }

  /** The squared norm of `n` copies of `s`. */
  lemma {:induction false} SumSquaresConstant(n: nat, s: real)
    ensures SumSquares(seq(n, _ => s)) == n as real * s * s
  {
    if n > 0 {
      assert seq(n, _ => s)[1..] == seq(n - 1, _ => s);
      SumSquaresConstant(n - 1, s);
    }
  }

  lemma Rescale(c: real, m: real, x: real)
    requires m != 0.0
    ensures c * x == (c / m) * (m * x)
  {
    var q := c / m;
    assert q * m == c;
  }

  lemma SquareMonotone(x: real, y: real)
    requires 0.0 <= x < y
    ensures x * x < y * y
  {
    var below, between, above := x * x, x * y, y * y;
    assert below <= between < above;
  }

  /** A non-negative square root is unique. */
  lemma NonNegativeRootUnique(a: real, b: real)
    requires a >= 0.0 && b >= 0.0 && a * a == b * b
    ensures a == b
  {
    if a < b {
      SquareMonotone(a, b);
    } else if b < a {
      SquareMonotone(b, a);
    }
  }
}
