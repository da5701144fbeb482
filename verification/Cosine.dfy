/** Cosine similarity over exact reals. The Euclidean norm is a parameter, known only by its defining property. */
module Cosine {

  type Vector = seq<real>

  function Dot(a: Vector, b: Vector): real
    requires |a| == |b|
  {
    if a == [] then 0.0 else a[0] * b[0] + Dot(a[1..], b[1..])
  }

  function SumSquares(a: Vector): (r: real)
    ensures r >= 0.0
  {
    if a == [] then 0.0 else a[0] * a[0] + SumSquares(a[1..])
  }

  /** A norm is the non-negative root of the sum of squares. */
  ghost predicate IsNorm(norm: Vector -> real) {
    forall v: Vector :: norm(v) >= 0.0 && norm(v) * norm(v) == SumSquares(v)
  }

  /** The similarity of a row to a query; a zero norm on either side gives 0. */
  function Similarity(norm: Vector -> real, row: Vector, query: Vector): real
    requires |row| == |query|
  {
    if norm(query) == 0.0 then 0.0
    else if norm(row) * norm(query) > 0.0 then Dot(row, query) / (norm(row) * norm(query))
    else 0.0
  }

  lemma PositiveProduct(a: real, b: real)
    requires a > 0.0 && b > 0.0
    ensures a * b > 0.0
  {}

  lemma NonNegativeProduct(a: real, b: real)
    requires a >= 0.0 && b >= 0.0
    ensures a * b >= 0.0
  {}

  lemma SquareSign(a: real)
    ensures a * a >= 0.0
    ensures a != 0.0 ==> a * a > 0.0
  {
    if a > 0.0 {
      PositiveProduct(a, a);
    } else if a < 0.0 {
      PositiveProduct(-a, -a);
    }
  }

  lemma ProductSign(t: real, gap: real)
    requires t > 0.0
    ensures gap < 0.0 ==> t * gap < 0.0
  {
    if gap < 0.0 {
      PositiveProduct(t, -gap);
    }
  }

  lemma TimesZero(a: real, z: real)
    requires z == 0.0
    ensures a * z == 0.0
  {}

  lemma SquareGrows(a: real, b: real)
    requires b >= 0.0
    ensures a > b ==> a * a > b * b
  {
    if a > b {
      PositiveProduct(a - b, a + b);
      assert (a - b) * (a + b) == a * a - b * b;
    }
  }

  lemma RootWithin(d: real, n: real)
    requires d * d <= 0.0 && n >= 0.0
    ensures -n <= d <= n
  {
    NonNegativeProduct(n, n);
    SquareGrows(d, n);
    SquareGrows(-d, n);
  }

  lemma RootOfZero(d: real)
    requires d * d <= 0.0
    ensures d == 0.0
  {
    RootWithin(d, 0.0);
  }

  lemma CompleteTheSquare(x: real, y: real, d: real, s: real, t: real)
    ensures t * (x * x * t + y * y * s - 2.0 * (x * y * d))
         == (x * t - y * d) * (x * t - y * d) + y * y * (s * t - d * d)
  {}

  lemma CrossTerm(x: real, y: real, d: real, s: real, t: real)
    requires s >= 0.0 && t >= 0.0 && d * d <= s * t
    ensures 2.0 * (x * y * d) <= x * x * t + y * y * s
  {
    SquareSign(y);
    if t == 0.0 {
      NonNegativeProduct(y * y, s);
      TimesZero(s, t);
      RootOfZero(d);
      TimesZero(x * y, d);
      TimesZero(x * x, t);
    } else {
      SquareSign(x * t - y * d);
      NonNegativeProduct(y * y, s * t - d * d);
      CompleteTheSquare(x, y, d, s, t);
      ProductSign(t, x * x * t + y * y * s - 2.0 * (x * y * d));
    }
  }

  lemma SquareOfSum(x: real, y: real, d: real, s: real, t: real)
    requires d * d <= s * t
    requires 2.0 * (x * y * d) <= x * x * t + y * y * s
    ensures (x * y + d) * (x * y + d) <= (x * x + s) * (y * y + t)
  {
    assert (x * y + d) * (x * y + d) == (x * y) * (x * y) + 2.0 * (x * y * d) + d * d;
    assert (x * x + s) * (y * y + t) == (x * y) * (x * y) + x * x * t + y * y * s + s * t;
  }

  lemma CauchyStep(x: real, y: real, d: real, s: real, t: real)
    requires s >= 0.0 && t >= 0.0 && d * d <= s * t
    ensures (x * y + d) * (x * y + d) <= (x * x + s) * (y * y + t)
  {
    CrossTerm(x, y, d, s, t);
    SquareOfSum(x, y, d, s, t);
  }

  lemma DotCons(a: Vector, b: Vector)
    requires |a| == |b| && a != []
    ensures Dot(a, b) == a[0] * b[0] + Dot(a[1..], b[1..])
    ensures SumSquares(a) == a[0] * a[0] + SumSquares(a[1..])
    ensures SumSquares(b) == b[0] * b[0] + SumSquares(b[1..])
  {}

  lemma DotNil(a: Vector, b: Vector)
    requires |a| == |b| == 0
    ensures Dot(a, b) == 0.0 && SumSquares(a) == 0.0
  {}

  /** The Cauchy-Schwarz inequality. */
  lemma {:induction false} CauchySchwarz(a: Vector, b: Vector)
    requires |a| == |b|
    ensures Dot(a, b) * Dot(a, b) <= SumSquares(a) * SumSquares(b)
  {
    hide Dot, SumSquares;
    if a == [] {
      DotNil(a, b);
      TimesZero(SumSquares(b), SumSquares(a));
    } else {
      CauchySchwarz(a[1..], b[1..]);
      CauchyStep(a[0], b[0], Dot(a[1..], b[1..]), SumSquares(a[1..]), SumSquares(b[1..]));
      DotCons(a, b);
    }
  }

  lemma RootBounds(d: real, n: real)
    requires n > 0.0 && d * d <= n * n
    ensures -n <= d <= n
  {
    SquareGrows(d, n);
    SquareGrows(-d, n);
  }

  lemma ScaleGrows(q: real, n: real)
    requires n > 0.0
    ensures q > 1.0 ==> q * n > n
    ensures q < -1.0 ==> q * n < -n
  {
    if q > 1.0 {
      PositiveProduct(q - 1.0, n);
      assert (q - 1.0) * n == q * n - n;
    } else if q < -1.0 {
      PositiveProduct(-1.0 - q, n);
      assert (-1.0 - q) * n == -n - q * n;
    }
  }

  lemma QuotientBounds(d: real, n: real)
    requires n > 0.0 && -n <= d <= n
    ensures -1.0 <= d / n <= 1.0
  {
    assert d / n * n == d;
    ScaleGrows(d / n, n);
  }

  lemma NormProduct(m: real, n: real, s: real, t: real)
    requires m * m == s && n * n == t
    ensures (m * n) * (m * n) == s * t
  {
    assert (m * n) * (m * n) == (m * m) * (n * n);
  }

  /** Every similarity lies in [-1, 1]. */
  lemma SimilarityInRange(norm: Vector -> real, row: Vector, query: Vector)
    requires IsNorm(norm) && |row| == |query|
    ensures -1.0 <= Similarity(norm, row, query) <= 1.0
  {
    hide Dot, SumSquares;
    var n := norm(row) * norm(query);
    if norm(query) != 0.0 && n > 0.0 {
      CauchySchwarz(row, query);
      NormProduct(norm(row), norm(query), SumSquares(row), SumSquares(query));
      RootBounds(Dot(row, query), n);
      QuotientBounds(Dot(row, query), n);
    }
  }

  /** A vector has similarity 1 to itself, unless it is zero, and then 0; zero rows and queries always give 0. */
  lemma SimilarityToSelf(norm: Vector -> real, v: Vector, other: Vector)
    requires IsNorm(norm) && |v| == |other|
    ensures Similarity(norm, v, v) == if SumSquares(v) == 0.0 then 0.0 else 1.0
    ensures SumSquares(v) == 0.0 ==> Similarity(norm, v, other) == 0.0 && Similarity(norm, other, v) == 0.0
  {
    var n := norm(v);
    assert n >= 0.0 && n * n == SumSquares(v);
    if SumSquares(v) == 0.0 {
      RootOfZero(n);
      TimesZero(norm(other), n);
      TimesZero(n, n);
    } else {
      SquareSign(n);
      DotSelf(v);
      assert SumSquares(v) / SumSquares(v) == 1.0;
    }
  }

  lemma {:induction false} DotSelf(v: Vector)
    ensures Dot(v, v) == SumSquares(v)
  {
    if v != [] {
      DotSelf(v[1..]);
    }
  }

  // ---- The law of cosines ----

  function Plus(a: Vector, b: Vector): Vector
    requires |a| == |b|
  {
    if a == [] then [] else [a[0] + b[0]] + Plus(a[1..], b[1..])
  }

  lemma SquareOfPlus(x: real, y: real)
    ensures (x + y) * (x + y) == x * x + y * y + 2.0 * (x * y)
  {}

  lemma {:induction false} PlusSquares(a: Vector, b: Vector)
    requires |a| == |b|
    ensures SumSquares(Plus(a, b)) == SumSquares(a) + SumSquares(b) + 2.0 * Dot(a, b)
  {
    hide Dot, SumSquares;
    if a == [] {
      DotNil(a, b);
      DotNil(b, a);
    } else {
      var sum := Plus(a, b);
      PlusSquares(a[1..], b[1..]);
      DotCons(a, b);
      DotCons(sum, sum);
      assert sum[0] == a[0] + b[0] && sum[1..] == Plus(a[1..], b[1..]);
      SquareOfPlus(a[0], b[0]);
    }
  }

  lemma QuotientTimes(d: real, n: real)
    requires n > 0.0
    ensures (d / n) * n == d
  {}

  lemma SimilarityTimesNorms(norm: Vector -> real, row: Vector, query: Vector)
    requires IsNorm(norm) && |row| == |query|
    ensures Similarity(norm, row, query) * (norm(row) * norm(query)) == Dot(row, query)
  {
    hide Dot, SumSquares;
    var m, n, d := norm(row), norm(query), Dot(row, query);
    NonNegativeProduct(m, n);
    CauchySchwarz(row, query);
    NormProduct(m, n, SumSquares(row), SumSquares(query));
    if n == 0.0 {
      TimesZero(m, n);
    }
    if m * n > 0.0 {
      QuotientTimes(d, m * n);
    } else {
      TimesZero(m * n, m * n);
      RootOfZero(d);
      TimesZero(Similarity(norm, row, query), m * n);
    }
  }

  /** The similarity is the cosine: the one that the norms of two vectors and of their sum determine. */
  lemma LawOfCosines(norm: Vector -> real, row: Vector, query: Vector)
    requires IsNorm(norm) && |row| == |query|
    ensures var sum := norm(Plus(row, query));
      sum * sum == norm(row) * norm(row) + norm(query) * norm(query)
                   + 2.0 * (Similarity(norm, row, query) * (norm(row) * norm(query)))
  {
    hide Dot, SumSquares, Similarity, Plus;
    SimilarityTimesNorms(norm, row, query);
    PlusSquares(row, query);
  }
}
