/** Inner products of real vectors of any dimension, Cauchy-Schwarz, and the cosine distance built on them. */
module Vectors {

  type Vector = seq<real>

  /** Square roots are not computable over the reals, so the operations take the square root as a given function. */
  ghost predicate IsSqrt(sqrt: real -> real) {
    forall x :: x >= 0.0 ==> sqrt(x) >= 0.0 && sqrt(x) * sqrt(x) == x
  }

  function Dot(a: Vector, b: Vector): real
    requires |a| == |b|
  {
    if a == [] then 0.0
    else
      var n := |a| - 1;
      Dot(a[..n], b[..n]) + a[n] * b[n]
  }

  function NormSquared(a: Vector): real {
    Dot(a, a)
  }

  /** `b` is `t` times `a`, component by component. */
  ghost predicate IsMultiple(a: Vector, b: Vector, t: real) {
    |a| == |b| && forall i :: 0 <= i < |a| ==> b[i] == t * a[i]
  }

  ghost predicate SameDirection(a: Vector, b: Vector) {
    exists t :: t > 0.0 && IsMultiple(a, b, t)
  }

  ghost predicate OppositeDirection(a: Vector, b: Vector) {
    exists t :: t < 0.0 && IsMultiple(a, b, t)
  }

  // ----- Cauchy-Schwarz -----

  /** The squared length of p*b - q*a. */
  ghost function Combination(p: real, a: Vector, q: real, b: Vector): real
    requires |a| == |b|
  {
    if a == [] then 0.0
    else
      var n := |a| - 1;
      var c := p * b[n] - q * a[n];
      Combination(p, a[..n], q, b[..n]) + c * c
  }

  lemma SquareOfDifference(p: real, x: real, q: real, y: real)
    ensures (p * y - q * x) * (p * y - q * x) == p * p * (y * y) - 2.0 * p * q * (x * y) + q * q * (x * x)
  {
    var u, v := p * y, q * x;
    assert (u - v) * (u - v) == u * u - 2.0 * (u * v) + v * v;
    assert u * u == p * p * (y * y);
    assert v * v == q * q * (x * x);
    assert u * v == p * q * (x * y);
  }

  // Products under a name of their own, so that the induction below is linear arithmetic.

  ghost function Times(x: real, y: real): real {
    x * y
  }

  ghost function SquaredGap(p: real, x: real, q: real, y: real): real {
    (p * y - q * x) * (p * y - q * x)
  }

  lemma DotLast(a: Vector, b: Vector)
    requires |a| == |b| > 0
    ensures var n := |a| - 1; Dot(a, b) == Dot(a[..n], b[..n]) + Times(a[n], b[n])
  {
  }

  lemma CombinationLast(p: real, a: Vector, q: real, b: Vector)
    requires |a| == |b| > 0
    ensures var n := |a| - 1;
            Combination(p, a, q, b) == Combination(p, a[..n], q, b[..n]) + SquaredGap(p, a[n], q, b[n])
  {
  }

  ghost function Expansion(p: real, q: real, normB: real, dot: real, normA: real): real {
    p * p * normB - 2.0 * p * q * dot + q * q * normA
  }

  /** One more component, x and y, on both sides of the expansion. */
  lemma ExpandsOn(p: real, q: real, x: real, y: real, sum: real, sum': real,
                  normB: real, normB': real, dot: real, dot': real, normA: real, normA': real)
    requires sum == Expansion(p, q, normB, dot, normA)
    requires sum' == sum + SquaredGap(p, x, q, y)
    requires normB' == normB + Times(y, y) && dot' == dot + Times(x, y) && normA' == normA + Times(x, x)
    ensures sum' == Expansion(p, q, normB', dot', normA')
  {
    SquareOfDifference(p, x, q, y);
    Distribute(p * p, normB, y * y);
    Distribute(2.0 * p * q, dot, x * y);
    Distribute(q * q, normA, x * x);
  }

  lemma {:induction false} CombinationExpands(p: real, a: Vector, q: real, b: Vector)
    requires |a| == |b|
    ensures Combination(p, a, q, b) == Expansion(p, q, NormSquared(b), Dot(a, b), NormSquared(a))
  {
    if a == [] {
    } else {
      hide Combination, Dot, Expansion, Times, SquaredGap;
      var n := |a| - 1;
      var a', b' := a[..n], b[..n];
      CombinationExpands(p, a', q, b');
      CombinationLast(p, a, q, b);
      DotLast(a, b);
      DotLast(a, a);
      DotLast(b, b);
      ExpandsOn(p, q, a[n], b[n], Combination(p, a', q, b'), Combination(p, a, q, b),
                Dot(b', b'), Dot(b, b), Dot(a', b'), Dot(a, b), Dot(a', a'), Dot(a, a));
    }
  }

  lemma Distribute(k: real, x: real, y: real)
    ensures k * (x + y) == k * x + k * y
  {
  }

  lemma SignOfProduct(n: real, g: real)
    requires n > 0.0
    ensures g > 0.0 <==> n * g > 0.0
    ensures g == 0.0 <==> n * g == 0.0
  {
    if g < 0.0 {
      assert n * -g > 0.0;
      assert n * -g == -(n * g);
    }
  }

  lemma SquareIsNonNegative(x: real)
    ensures x * x >= 0.0 && (x * x == 0.0 <==> x == 0.0)
  {
    if x > 0.0 {
      SignOfProduct(x, x);
    } else if x < 0.0 {
      SignOfProduct(-x, -x);
      assert -x * -x == x * x;
    }
  }

  /** The combination is a sum of squares: never negative, and zero only where p*b and q*a agree. */
  lemma {:induction false} CombinationIsNonNegative(p: real, a: Vector, q: real, b: Vector)
    requires |a| == |b|
    ensures Combination(p, a, q, b) >= 0.0
    ensures Combination(p, a, q, b) == 0.0 ==> forall i :: 0 <= i < |a| ==> p * b[i] == q * a[i]
  {
    if a != [] {
      var n := |a| - 1;
      CombinationIsNonNegative(p, a[..n], q, b[..n]);
      SquareIsNonNegative(p * b[n] - q * a[n]);
      if Combination(p, a, q, b) == 0.0 {
        forall i | 0 <= i < |a| ensures p * b[i] == q * a[i] {
          if i < n {
            assert a[..n][i] == a[i] && b[..n][i] == b[i];
          }
        }
      }
    }
  }

  lemma {:induction false} NormIsNonNegative(a: Vector)
    ensures NormSquared(a) >= 0.0
    ensures NormSquared(a) == 0.0 <==> forall i :: 0 <= i < |a| ==> a[i] == 0.0
  {
    if a != [] {
      var n := |a| - 1;
      NormIsNonNegative(a[..n]);
      SquareIsNonNegative(a[n]);
      if forall i :: 0 <= i < |a| ==> a[i] == 0.0 {
        forall i | 0 <= i < n ensures a[..n][i] == 0.0 {
          assert a[i] == 0.0;
        }
      }
      if NormSquared(a) == 0.0 {
        forall i | 0 <= i < |a| ensures a[i] == 0.0 {
          assert i < n ==> a[..n][i] == a[i];
        }
      }
    }
  }

  lemma {:induction false} DotWithZero(a: Vector, b: Vector)
    requires |a| == |b| && forall i :: 0 <= i < |a| ==> a[i] == 0.0
    ensures Dot(a, b) == 0.0
  {
    if a != [] {
      var n := |a| - 1;
      forall i | 0 <= i < n ensures a[..n][i] == 0.0 {
        assert a[i] == 0.0;
      }
      DotWithZero(a[..n], b[..n]);
    }
  }

  /** Taking p = |a|^2 and q = a.b turns the combination into |a|^2 times the Cauchy-Schwarz gap. */
  lemma GapTimesNorm(a: Vector, b: Vector)
    requires |a| == |b|
    ensures Combination(NormSquared(a), a, Dot(a, b), b)
         == NormSquared(a) * (NormSquared(a) * NormSquared(b) - Dot(a, b) * Dot(a, b))
  {
    hide Combination, Dot, NormSquared;
    CombinationExpands(NormSquared(a), a, Dot(a, b), b);
    GapArithmetic(NormSquared(a), NormSquared(b), Dot(a, b));
  }

  lemma GapArithmetic(n: real, m: real, d: real)
    ensures n * n * m - 2.0 * n * d * d + d * d * n == n * (n * m - d * d)
  {
    assert n * (n * m - d * d) == n * (n * m) - n * (d * d);
    assert n * (n * m) == n * n * m;
    assert n * (d * d) == d * d * n;
    assert 2.0 * n * d * d == 2.0 * (d * d * n);
  }

  /** The bound is attained, for a vector `a` that has a direction. */
  ghost predicate Meets(a: Vector, b: Vector)
    requires |a| == |b|
  {
    NormSquared(a) != 0.0 && Dot(a, b) * Dot(a, b) == NormSquared(a) * NormSquared(b)
  }

  /** Cauchy-Schwarz in every dimension; equality with a non-zero `a` makes `b` a multiple of `a`. */
  lemma CauchySchwarz(a: Vector, b: Vector)
    requires |a| == |b|
    ensures Dot(a, b) * Dot(a, b) <= NormSquared(a) * NormSquared(b)
    ensures Meets(a, b) ==> IsMultiple(a, b, Dot(a, b) / NormSquared(a))
  {
    hide Combination, Dot, NormSquared;
    var n, d := NormSquared(a), Dot(a, b);
    var gap := n * NormSquared(b) - d * d;
    NormIsNonNegative(a);
    if n == 0.0 {
      DotWithZero(a, b);
    } else {
      GapTimesNorm(a, b);
      CombinationIsNonNegative(n, a, d, b);
      SignOfProduct(n, gap);
      if gap == 0.0 {
        forall i | 0 <= i < |a| ensures b[i] == d / n * a[i] {
          assert n * b[i] == d * a[i];
          CrossDivide(n, b[i], d, a[i]);
        }
      }
    }
  }

  lemma CrossDivide(n: real, y: real, d: real, x: real)
    requires n != 0.0 && n * y == d * x
    ensures y == d / n * x
  {
    assert n * (d / n) == d;
    assert n * (d / n * x) == d * x;
    assert n * (y - d / n * x) == 0.0;
  }

  lemma {:induction false} DotIsSymmetric(a: Vector, b: Vector)
    requires |a| == |b|
    ensures Dot(a, b) == Dot(b, a)
  {
    if a != [] {
      DotIsSymmetric(a[..|a| - 1], b[..|a| - 1]);
    }
  }

  lemma {:induction false} DotIsLinear(c: Vector, a: Vector, b: Vector, t: real)
    requires |c| == |a| && IsMultiple(a, b, t)
    ensures Dot(c, b) == t * Dot(c, a)
  {
    if a != [] {
      var n := |a| - 1;
      DotIsLinear(c[..n], a[..n], b[..n], t);
      Distribute(t, Dot(c[..n], a[..n]), c[n] * a[n]);
      assert c[n] * (t * a[n]) == t * (c[n] * a[n]);
    }
  }

  lemma MultipleScalesDot(a: Vector, b: Vector, t: real)
    requires IsMultiple(a, b, t)
    ensures Dot(a, b) == t * NormSquared(a)
    ensures NormSquared(b) == t * t * NormSquared(a)
  {
    hide Dot;
    DotIsLinear(a, a, b, t);
    DotIsLinear(b, a, b, t);
    DotIsSymmetric(a, b);
    assert t * (t * NormSquared(a)) == t * t * NormSquared(a);
  }

  // ----- Cosine distance -----

  /** The vectors for which a direction can be compared at all. */
  predicate Comparable(a: Vector, b: Vector) {
    |a| == |b| && NormSquared(a) != 0.0 && NormSquared(b) != 0.0
  }

  lemma RootsArePositive(a: Vector, b: Vector, sqrt: real -> real)
    requires Comparable(a, b) && IsSqrt(sqrt)
    ensures sqrt(NormSquared(a)) * sqrt(NormSquared(b)) > 0.0
  {
    NormIsNonNegative(a);
    NormIsNonNegative(b);
    var x, y := sqrt(NormSquared(a)), sqrt(NormSquared(b));
    assert x * x == NormSquared(a) && y * y == NormSquared(b);
    assert x > 0.0 && y > 0.0;
  }

  /** cosineDistance: one minus the cosine; vectors that cannot be compared count as not distant. */
  ghost function Distance(a: Vector, b: Vector, sqrt: real -> real): real
    requires IsSqrt(sqrt)
  {
    if Comparable(a, b) then
      RootsArePositive(a, b, sqrt);
      1.0 - Dot(a, b) / (sqrt(NormSquared(a)) * sqrt(NormSquared(b)))
    else 0.0
  }

  lemma ProductOfSquares(x: real, y: real)
    ensures (x * y) * (x * y) == (x * x) * (y * y)
  {
  }

  lemma LargerSquare(x: real, m: real)
    requires x > m >= 0.0
    ensures x * x > m * m
  {
    SignOfProduct(x - m, x + m);
    assert (x - m) * (x + m) == x * x - m * m;
  }

  lemma BoundedBySquare(d: real, m: real)
    requires m >= 0.0 && d * d <= m * m
    ensures -m <= d <= m
  {
    assert -d * -d == d * d;
    if d > m {
      LargerSquare(d, m);
      assert false;
    }
    if -d > m {
      LargerSquare(-d, m);
      assert false;
    }
  }

  lemma ScalesInOrder(x: real, y: real, m: real)
    requires m > 0.0
    ensures x <= y <==> x * m <= y * m
    ensures x == y <==> x * m == y * m
  {
    SignOfProduct(m, x - y);
    assert m * (x - y) == x * m - y * m;
  }

  lemma QuotientBounds(d: real, m: real)
    requires m > 0.0 && -m <= d <= m
    ensures -1.0 <= d / m <= 1.0
    ensures d / m == 1.0 <==> d == m
    ensures d / m == -1.0 <==> d == -m
    ensures d / m == 0.0 <==> d == 0.0
  {
    assert d / m * m == d;
    ScalesInOrder(d / m, 1.0, m);
    ScalesInOrder(d / m, -1.0, m);
    ScalesInOrder(d / m, 0.0, m);
  }

  /** The distance lies in [0, 2]: 0 exactly for equal directions, 1 for orthogonal ones, 2 for opposite ones. */
  lemma DistanceIsBounded(a: Vector, b: Vector, sqrt: real -> real)
    requires IsSqrt(sqrt)
    ensures 0.0 <= Distance(a, b, sqrt) <= 2.0
    ensures Comparable(a, b) ==> (Distance(a, b, sqrt) == 0.0 <==> SameDirection(a, b))
    ensures Comparable(a, b) ==> (Distance(a, b, sqrt) == 1.0 <==> Dot(a, b) == 0.0)
    ensures Comparable(a, b) ==> (Distance(a, b, sqrt) == 2.0 <==> OppositeDirection(a, b))
  {
    hide Dot, NormSquared, SameDirection, OppositeDirection;
    if Comparable(a, b) {
      var m := sqrt(NormSquared(a)) * sqrt(NormSquared(b));
      RootsArePositive(a, b, sqrt);
      RootsMultiply(a, b, sqrt);
      CauchySchwarz(a, b);
      BoundedBySquare(Dot(a, b), m);
      QuotientBounds(Dot(a, b), m);
      ExtremesAreParallel(a, b, m);
      ParallelsAreExtreme(a, b, m);
    }
  }

  /** Vectors of different lengths, and vectors of zeros, are at distance 0 of everything; all others are compared. */
  lemma IncomparableIsNotDistant(a: Vector, b: Vector, sqrt: real -> real)
    requires IsSqrt(sqrt)
    ensures var incomparable := || |a| != |b| || (forall i :: 0 <= i < |a| ==> a[i] == 0.0)
                                || (forall i :: 0 <= i < |b| ==> b[i] == 0.0);
            && (incomparable ==> Distance(a, b, sqrt) == 0.0)
            && (incomparable <==> !Comparable(a, b))
  {
    hide NormSquared;
    NormIsNonNegative(a);
    NormIsNonNegative(b);
  }

  lemma RootsMultiply(a: Vector, b: Vector, sqrt: real -> real)
    requires |a| == |b| && IsSqrt(sqrt)
    ensures var m := sqrt(NormSquared(a)) * sqrt(NormSquared(b)); m * m == NormSquared(a) * NormSquared(b)
  {
    NormIsNonNegative(a);
    NormIsNonNegative(b);
    ProductOfSquares(sqrt(NormSquared(a)), sqrt(NormSquared(b)));
    assert sqrt(NormSquared(a)) * sqrt(NormSquared(a)) == NormSquared(a);
    assert sqrt(NormSquared(b)) * sqrt(NormSquared(b)) == NormSquared(b);
  }

  lemma ExtremesAreParallel(a: Vector, b: Vector, m: real)
    requires Comparable(a, b) && m > 0.0 && m * m == NormSquared(a) * NormSquared(b)
    ensures Dot(a, b) == m ==> SameDirection(a, b)
    ensures Dot(a, b) == -m ==> OppositeDirection(a, b)
  {
    hide Dot, NormSquared;
    NormIsNonNegative(a);
    CauchySchwarz(a, b);
    var d, n := Dot(a, b), NormSquared(a);
    if d == m || d == -m {
      assert d * d == m * m;
      ScalesInOrder(d / n, 0.0, n);
      assert d / n * n == d;
      assert IsMultiple(a, b, d / n);
    }
  }

  lemma ParallelsAreExtreme(a: Vector, b: Vector, m: real)
    requires Comparable(a, b) && m > 0.0 && m * m == NormSquared(a) * NormSquared(b)
    ensures SameDirection(a, b) ==> Dot(a, b) == m
    ensures OppositeDirection(a, b) ==> Dot(a, b) == -m
  {
    hide Dot, NormSquared, IsMultiple;
    NormIsNonNegative(a);
    if SameDirection(a, b) {
      var t :| t > 0.0 && IsMultiple(a, b, t);
      MultipleScalesDot(a, b, t);
      SquaresAgree(NormSquared(a), NormSquared(b), t, m);
    }
    if OppositeDirection(a, b) {
      var t :| t < 0.0 && IsMultiple(a, b, t);
      MultipleScalesDot(a, b, t);
      SquaresAgree(NormSquared(a), NormSquared(b), t, m);
    }
  }

  lemma SquaresAgree(n: real, n': real, t: real, m: real)
    requires n > 0.0 && m > 0.0 && m * m == n * n' && n' == t * t * n
    ensures t > 0.0 ==> t * n == m
    ensures t < 0.0 ==> t * n == -m
  {
    var d := t * n;
    ProductOfSquares(t, n);
    assert n * (t * t * n) == t * t * (n * n);
    assert (d - m) * (d + m) == d * d - m * m == 0.0;
    assert t > 0.0 ==> d > 0.0;
    assert t < 0.0 ==> d < 0.0;
  }

  method CosineDistance(a: Vector, b: Vector, sqrt: real -> real) returns (d: real)
    requires IsSqrt(sqrt)
    ensures d == Distance(a, b, sqrt)
  {
    if |a| != |b| || |a| == 0 {
      return 0.0;
    }
    var dot, normA, normB := 0.0, 0.0, 0.0;
    for i := 0 to |a|
      invariant dot == Dot(a[..i], b[..i])
      invariant normA == NormSquared(a[..i])
      invariant normB == NormSquared(b[..i])
    {
      assert a[..i + 1][..i] == a[..i] && b[..i + 1][..i] == b[..i];
      dot := dot + a[i] * b[i];
      normA := normA + a[i] * a[i];
      normB := normB + b[i] * b[i];
    }
    assert a[..|a|] == a && b[..|b|] == b;
    if normA == 0.0 || normB == 0.0 {
      return 0.0;
    }
    RootsArePositive(a, b, sqrt);
    d := 1.0 - dot / (sqrt(normA) * sqrt(normB));
  }
}
