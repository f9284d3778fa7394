/** Vector arithmetic the probes build on: cosine similarity (probes/types.go) and the
    analogy probe's `p - f + e` and squared distance (probes/analogy.go). */
module VectorMath {
  import opened Types

  /** Sum of a[k] * b[k] over all k, accumulated front to back as the loops do. */
  function Dot(a: Vector, b: Vector): real
    requires |a| == |b|
    decreases |a|
  {
    if |a| == 0 then 0.0
    else Dot(a[..|a| - 1], b[..|b| - 1]) + Mul(a[|a| - 1], b[|b| - 1])
  }

  /** A product of two reals; squares are written Mul(x, x) so that the proofs reason
      about them through MulPositive and SquareSign. */
  function Mul(x: real, y: real): real
  {
    x * y
  }

  lemma MulPositive(x: real, y: real)
    requires (x > 0.0 && y > 0.0) || (x < 0.0 && y < 0.0)
    ensures Mul(x, y) > 0.0
  {
    if x > 0.0 {
      assert x * y > 0.0;
    } else {
      assert x * y > 0.0;
    }
  }

  lemma MulNegate(x: real, y: real)
    ensures Mul(-x, -y) == Mul(x, y)
  {
  }

  /** A square is never negative, and it is zero only for zero. */
  lemma SquareSign(x: real)
    ensures Mul(x, x) >= 0.0
    ensures Mul(x, x) == 0.0 <==> x == 0.0
  {
    if x != 0.0 {
      MulPositive(x, x);
    }
  }

  /** What the proofs assume of the square root: for x >= 0 it is a non-negative root
      of x. (From this, sqrt(x) == 0 exactly when x == 0: see SqrtZero.) */
  ghost predicate IsSqrt(sqrt: real -> real)
  {
    forall x: real :: 0.0 <= x ==> 0.0 <= sqrt(x) && Mul(sqrt(x), sqrt(x)) == x
  }

  /** Every component is zero. */
  predicate IsZero(a: Vector)
  {
    forall k :: 0 <= k < |a| ==> a[k] == 0.0
  }

  /** Cosine similarity as the program defines it: a length check, then the two norms
      through the square root, a zero-norm check, then dot / (|a| * |b|). */
  function Cosine(a: Vector, b: Vector, sqrt: real -> real): Result<real, Error>
  {
    if |a| != |b| then Err(LengthMismatch(|a|, |b|))
    else
      var normA := sqrt(Dot(a, a));
      var normB := sqrt(Dot(b, b));
      if normA == 0.0 || normB == 0.0 then Err(ZeroMagnitude)
      else
        assert Mul(normA, normB) != 0.0 by { NonZeroProduct(normA, normB); }
        Ok(Dot(a, b) / Mul(normA, normB))
  }

  lemma NonZeroProduct(x: real, y: real)
    requires x != 0.0 && y != 0.0
    ensures Mul(x, y) != 0.0
  {
    if (x > 0.0) == (y > 0.0) {
      MulPositive(x, y);
    } else {
      MulPositive(-x, y);
      MulPositive(x, -y);
    }
  }

  /** cosineSimilarity: one pass accumulating the dot product and both squared norms. */
  method CosineSimilarity(a: Vector, b: Vector, sqrt: real -> real) returns (r: Result<real, Error>)
    ensures r == Cosine(a, b, sqrt)
    ensures |a| != |b| ==> r == Err(LengthMismatch(|a|, |b|))
    ensures |a| == |b| ==> (r.Err? <==> sqrt(Dot(a, a)) == 0.0 || sqrt(Dot(b, b)) == 0.0)
  {
    if |a| != |b| {
      return Err(LengthMismatch(|a|, |b|));
    }
    var dotProduct, normA, normB := 0.0, 0.0, 0.0;
    for i := 0 to |a|
      invariant dotProduct == Dot(a[..i], b[..i])
      invariant normA == Dot(a[..i], a[..i])
      invariant normB == Dot(b[..i], b[..i])
    {
      assert a[..i + 1][..i] == a[..i] && b[..i + 1][..i] == b[..i];
      dotProduct := dotProduct + a[i] * b[i];
      normA := normA + a[i] * a[i];
      normB := normB + b[i] * b[i];
    }
    assert a[..|a|] == a && b[..|b|] == b;
    normA := sqrt(normA);
    normB := sqrt(normB);
    if normA == 0.0 || normB == 0.0 {
      return Err(ZeroMagnitude);
    }
    assert normA == sqrt(Dot(a, a)) && normB == sqrt(Dot(b, b));
    NonZeroProduct(normA, normB);
    assert normA * normB == Mul(normA, normB);
    return Ok(dotProduct / (normA * normB));
  }

  /** A sum of squares is never negative, and it is zero exactly for the zero vector. */
  lemma {:induction false} DotSelf(a: Vector)
    ensures Dot(a, a) >= 0.0
    ensures Dot(a, a) == 0.0 <==> IsZero(a)
  {
    if |a| > 0 {
      var init := a[..|a| - 1];
      DotSelf(init);
      SquareSign(a[|a| - 1]);
      if Dot(a, a) == 0.0 {
        forall k | 0 <= k < |a| ensures a[k] == 0.0 {
          if k < |a| - 1 { assert a[k] == init[k]; }
        }
      }
      if IsZero(a) {
        assert IsZero(init) by {
          forall k | 0 <= k < |init| ensures init[k] == 0.0 { assert init[k] == a[k]; }
        }
      }
    }
  }

  /** The dot product does not depend on the order of its arguments. */
  lemma {:induction false} DotSymmetric(a: Vector, b: Vector)
    requires |a| == |b|
    ensures Dot(a, b) == Dot(b, a)
  {
    if |a| > 0 {
      DotSymmetric(a[..|a| - 1], b[..|b| - 1]);
    }
  }

  lemma SqrtZero(sqrt: real -> real, x: real)
    requires IsSqrt(sqrt) && 0.0 <= x
    ensures sqrt(x) == 0.0 <==> x == 0.0
  {
    SquareSign(sqrt(x));
  }

  /** For vectors of equal length, the similarity fails exactly when one of them is the
      zero vector; vectors of different lengths always fail, with both lengths reported. */
  lemma CosineFailsIffZero(a: Vector, b: Vector, sqrt: real -> real)
    requires IsSqrt(sqrt)
    ensures |a| != |b| ==> Cosine(a, b, sqrt) == Err(LengthMismatch(|a|, |b|))
    ensures |a| == |b| ==> (Cosine(a, b, sqrt).Err? <==> IsZero(a) || IsZero(b))
    ensures |a| == |b| && Cosine(a, b, sqrt).Err? ==> Cosine(a, b, sqrt) == Err(ZeroMagnitude)
  {
    DotSelf(a);
    DotSelf(b);
    SqrtZero(sqrt, Dot(a, a));
    SqrtZero(sqrt, Dot(b, b));
  }

  /** Swapping the arguments gives the same value and the same kind of outcome. */
  lemma CosineSymmetric(a: Vector, b: Vector, sqrt: real -> real)
    ensures Cosine(a, b, sqrt).Ok? <==> Cosine(b, a, sqrt).Ok?
    ensures Cosine(a, b, sqrt).Ok? ==> Cosine(a, b, sqrt).value == Cosine(b, a, sqrt).value
    ensures Cosine(a, b, sqrt) == Err(ZeroMagnitude) <==> Cosine(b, a, sqrt) == Err(ZeroMagnitude)
  {
    if |a| == |b| {
      DotSymmetric(a, b);
      var na, nb := sqrt(Dot(a, a)), sqrt(Dot(b, b));
      assert Mul(na, nb) == Mul(nb, na);
    }
  }

  /** A non-zero vector has similarity exactly 1 with itself. */
  lemma CosineSelf(a: Vector, sqrt: real -> real)
    requires IsSqrt(sqrt)
    requires !IsZero(a)
    ensures Cosine(a, a, sqrt) == Ok(1.0)
  {
    DotSelf(a);
    var d := Dot(a, a);
    SqrtZero(sqrt, d);
    assert d > 0.0;
    var n := sqrt(d);
    assert n != 0.0 && Mul(n, n) == d;
    assert d / d == 1.0;
  }

  /** Sum over k of (s * b[k] - t * a[k])^2: a sum of squares, so never negative. */
  function Residual(a: Vector, b: Vector, s: real, t: real): real
    requires |a| == |b|
    decreases |a|
  {
    if |a| == 0 then 0.0
    else
      var n := |a| - 1;
      var d := Mul(s, b[n]) - Mul(t, a[n]);
      Residual(a[..n], b[..n], s, t) + Mul(d, d)
  }

  /** The residual is non-negative and expands to s^2 (b.b) - 2st (a.b) + t^2 (a.a). */
  lemma {:induction false} ResidualExpands(a: Vector, b: Vector, s: real, t: real)
    requires |a| == |b|
    ensures 0.0 <= Residual(a, b, s, t)
    ensures Residual(a, b, s, t) ==
      Mul(Mul(s, s), Dot(b, b)) - 2.0 * Mul(Mul(s, t), Dot(a, b)) + Mul(Mul(t, t), Dot(a, a))
    decreases |a|
  {
    if |a| > 0 {
      var n := |a| - 1;
      ResidualExpands(a[..n], b[..n], s, t);
      SquareSign(Mul(s, b[n]) - Mul(t, a[n]));
      ResidualStep(s, t, Dot(a[..n], b[..n]), Dot(a[..n], a[..n]), Dot(b[..n], b[..n]), a[n], b[n]);
    }
  }

  /** One more component adds one square to the expanded residual. */
  lemma ResidualStep(s: real, t: real, x: real, y: real, z: real, p: real, q: real)
    ensures Mul(Mul(s, s), z + Mul(q, q)) - 2.0 * Mul(Mul(s, t), x + Mul(p, q)) + Mul(Mul(t, t), y + Mul(p, p))
         == Mul(Mul(s, s), z) - 2.0 * Mul(Mul(s, t), x) + Mul(Mul(t, t), y)
            + Mul(Mul(s, q) - Mul(t, p), Mul(s, q) - Mul(t, p))
  {
  }

  /** The dot product with the zero vector is zero. */
  lemma {:induction false} DotZeroLeft(a: Vector, b: Vector)
    requires |a| == |b| && IsZero(a)
    ensures Dot(a, b) == 0.0
    decreases |a|
  {
    if |a| > 0 {
      var n := |a| - 1;
      assert IsZero(a[..n]) by {
        forall k | 0 <= k < n ensures a[..n][k] == 0.0 { assert a[..n][k] == a[k]; }
      }
      DotZeroLeft(a[..n], b[..n]);
      assert a[n] == 0.0;
    }
  }

  /** The Cauchy-Schwarz inequality: (a.b)^2 <= (a.a) (b.b). */
  lemma CauchySchwarz(a: Vector, b: Vector)
    requires |a| == |b|
    ensures Mul(Dot(a, b), Dot(a, b)) <= Mul(Dot(a, a), Dot(b, b))
  {
    var x, y, z := Dot(a, b), Dot(a, a), Dot(b, b);
    DotSelf(a);
    DotSelf(b);
    if y == 0.0 {
      DotZeroLeft(a, b);
    } else {
      ResidualExpands(a, b, y, x);
      GapNonNegative(x, y, z, Residual(a, b, y, x));
    }
  }

  /** From 0 <= y^2 z - 2 y x^2 + x^2 y = y (y z - x^2) and y > 0 follows x^2 <= y z. */
  lemma GapNonNegative(x: real, y: real, z: real, r: real)
    requires 0.0 < y && 0.0 <= r
    requires r == Mul(Mul(y, y), z) - 2.0 * Mul(Mul(y, x), x) + Mul(Mul(x, x), y)
    ensures Mul(x, x) <= Mul(y, z)
  {
    assert Mul(y, Mul(x, x) - Mul(y, z)) == -r;
    if Mul(x, x) > Mul(y, z) {
      MulPositive(y, Mul(x, x) - Mul(y, z));
    }
  }

  /** A value whose square is at most p^2, for p > 0, lies in [-p, p]. */
  lemma SquareBound(x: real, p: real)
    requires 0.0 < p && Mul(x, x) <= Mul(p, p)
    ensures -p <= x <= p
  {
    assert Mul(x - p, x + p) == Mul(x, x) - Mul(p, p);
    assert Mul(-x - p, -x + p) == Mul(x, x) - Mul(p, p);
    if x > p {
      MulPositive(x - p, x + p);
    } else if x < -p {
      MulPositive(-x - p, -x + p);
    }
  }

  /** A cosine similarity that succeeds lies in [-1, 1]. */
  lemma CosineInRange(a: Vector, b: Vector, sqrt: real -> real)
    requires IsSqrt(sqrt)
    ensures Cosine(a, b, sqrt).Ok? ==> -1.0 <= Cosine(a, b, sqrt).value <= 1.0
  {
    if Cosine(a, b, sqrt).Ok? {
      var x, y, z := Dot(a, b), Dot(a, a), Dot(b, b);
      DotSelf(a);
      DotSelf(b);
      var na, nb := sqrt(y), sqrt(z);
      assert na > 0.0 && nb > 0.0;
      var p := Mul(na, nb);
      MulPositive(na, nb);
      assert Mul(p, p) == Mul(Mul(na, na), Mul(nb, nb));
      CauchySchwarz(a, b);
      SquareBound(x, p);
      QuotientBounds(x, p, -1.0, 1.0);
    }
  }

  /** The vector a with every component multiplied by k. */
  function Scale(a: Vector, k: real): (r: Vector)
    ensures |r| == |a| && forall i :: 0 <= i < |a| ==> r[i] == Mul(k, a[i])
    decreases |a|
  {
    if |a| == 0 then []
    else Scale(a[..|a| - 1], k) + [Mul(k, a[|a| - 1])]
  }

  /** Scaling one argument scales the dot product by the same factor. */
  lemma {:induction false} DotScaled(a: Vector, b: Vector, k: real)
    requires |a| == |b|
    ensures Dot(a, Scale(b, k)) == Mul(k, Dot(a, b))
    decreases |a|
  {
    if |a| > 0 {
      var n := |a| - 1;
      assert Scale(b, k)[..n] == Scale(b[..n], k);
      DotScaled(a[..n], b[..n], k);
      MulDistributes(k, Dot(a[..n], b[..n]), a[n], b[n]);
    }
  }

  lemma MulDistributes(k: real, x: real, y: real, z: real)
    ensures Mul(k, x) + Mul(y, Mul(k, z)) == Mul(k, x + Mul(y, z))
  {
  }

  /** Two non-negative numbers with the same square are equal. */
  lemma SameSquare(x: real, y: real)
    requires 0.0 <= x && 0.0 <= y && Mul(x, x) == Mul(y, y)
    ensures x == y
  {
    if x != y {
      assert Mul(x, x) - Mul(y, y) == Mul(x - y, x + y);
      if x > y {
        MulPositive(x - y, x + y);
      } else {
        MulPositive(y - x, x + y);
      }
    }
  }

  /** Under a true square root, the norm of k * a is k times the norm of a, for k > 0. */
  lemma SqrtScaled(sqrt: real -> real, d: real, k: real)
    requires IsSqrt(sqrt) && 0.0 <= d && 0.0 < k
    ensures 0.0 <= Mul(k, Mul(k, d))
    ensures sqrt(Mul(k, Mul(k, d))) == Mul(k, sqrt(d))
  {
    var s := sqrt(d);
    var kkd := Mul(k, Mul(k, d));
    assert 0.0 <= kkd by {
      if d > 0.0 {
        MulPositive(k, d);
        MulPositive(k, Mul(k, d));
      }
    }
    assert Mul(Mul(k, s), Mul(k, s)) == Mul(k, Mul(k, Mul(s, s)));
    assert 0.0 <= Mul(k, s) by {
      if s > 0.0 { MulPositive(k, s); }
    }
    SameSquare(sqrt(kkd), Mul(k, s));
  }

  /** Scaling a non-zero vector by a positive factor keeps its direction: its cosine
      similarity with the original is exactly 1. */
  lemma CosineScaled(a: Vector, k: real, sqrt: real -> real)
    requires IsSqrt(sqrt)
    requires !IsZero(a) && 0.0 < k
    ensures Cosine(a, Scale(a, k), sqrt) == Ok(1.0)
  {
    var b := Scale(a, k);
    DotSelf(a);
    var d := Dot(a, a);
    SqrtZero(sqrt, d);
    DotScaled(a, a, k);
    DotScaled(b, a, k);
    DotSymmetric(b, a);
    SqrtScaled(sqrt, d, k);
    ScaledQuotient(d, sqrt(d), k);
  }

  /** The last step of CosineScaled: k * d over s * (k * s), where s is the root of d. */
  lemma ScaledQuotient(d: real, s: real, k: real)
    requires 0.0 < s && 0.0 < k && Mul(s, s) == d
    ensures Mul(s, Mul(k, s)) != 0.0
    ensures Mul(k, d) / Mul(s, Mul(k, s)) == 1.0
  {
    assert Mul(s, Mul(k, s)) == Mul(k, d);
    MulPositive(s, s);
    MulPositive(k, d);
  }

  /** A total between n * lo and n * hi, divided by n > 0, lies between lo and hi. */
  lemma QuotientBounds(total: real, n: real, lo: real, hi: real)
    requires n > 0.0 && n * lo <= total <= n * hi
    ensures lo <= total / n <= hi
  {
    assert (total / n) * n == total;
  }

  /** Componentwise p - f + e over three vectors of one length (the analogy's vector). */
  function Combine(p: Vector, f: Vector, e: Vector): (r: Vector)
    requires |p| == |f| == |e|
    ensures |r| == |p| && forall i :: 0 <= i < |p| ==> r[i] == p[i] - f[i] + e[i]
    decreases |p|
  {
    if |p| == 0 then []
    else
      var n := |p| - 1;
      Combine(p[..n], f[..n], e[..n]) + [p[n] - f[n] + e[n]]
  }

  /** The analogy's combining loop, writing the result buffer index by index. */
  method CombineInto(p: Vector, f: Vector, e: Vector) returns (result: array<real>)
    requires |p| == |f| == |e|
    ensures fresh(result)
    ensures result.Length == |p|
    ensures forall i :: 0 <= i < |p| ==> result[i] == p[i] - f[i] + e[i]
    ensures result[..] == Combine(p, f, e)
  {
    result := new real[|p|];
    for i := 0 to |p|
      invariant forall k :: 0 <= k < i ==> result[k] == p[k] - f[k] + e[k]
    {
      result[i] := p[i] - f[i] + e[i];
    }
  }

  /** Sum of (u[k] - v[k])^2 over all k, accumulated front to back. */
  function SquaredDistance(u: Vector, v: Vector): real
    requires |u| == |v|
    decreases |u|
  {
    if |u| == 0 then 0.0
    else
      var diff := u[|u| - 1] - v[|v| - 1];
      SquaredDistance(u[..|u| - 1], v[..|v| - 1]) + Mul(diff, diff)
  }

  /** The analogy's distance loop over the result buffer and l. */
  method SumSquaredDifferences(result: array<real>, l: Vector) returns (distance: real)
    requires result.Length == |l|
    ensures distance == SquaredDistance(result[..], l)
    ensures distance >= 0.0
  {
    distance := 0.0;
    for i := 0 to result.Length
      invariant distance == SquaredDistance(result[..i], l[..i])
    {
      assert result[..i + 1][..i] == result[..i] && l[..i + 1][..i] == l[..i];
      var diff := result[i] - l[i];
      distance := distance + diff * diff;
    }
    assert result[..result.Length] == result[..] && l[..|l|] == l;
    SquaredDistanceProperties(result[..], l);
  }

  /** The squared distance is non-negative, symmetric and zero from a vector to itself. */
  lemma {:induction false} SquaredDistanceProperties(u: Vector, v: Vector)
    requires |u| == |v|
    ensures SquaredDistance(u, v) >= 0.0
    ensures SquaredDistance(u, v) == SquaredDistance(v, u)
    ensures SquaredDistance(u, u) == 0.0
  {
    if |u| > 0 {
      SquaredDistanceProperties(u[..|u| - 1], v[..|v| - 1]);
      var d := u[|u| - 1] - v[|v| - 1];
      SquareSign(d);
      MulNegate(d, d);
    }
  }
}
