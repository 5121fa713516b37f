/**
 * Cosine similarity between two embedding vectors, as computed by
 * EmbeddingService.calculateCosineSimilarity: one loop accumulates the dot
 * product and both squared norms, then the dot product is divided by the
 * product of the square roots of the norms.
 *
 * Doubles are modelled as reals. Dafny has no square root, so `Math.sqrt` is a
 * parameter of the scorer; the lemmas that depend on what it computes require
 * `IsSqrt(sqrt)`.
 */
module Similarity {
  import opened Wrappers
  import opened Exceptions

  /** A score as the scorer yields it: a real, or NaN (Java's 0.0 / 0.0). */
  datatype Score = Value(value: real) | NaN

  /** Σ a[j]·b[j] over all j, summed front to back like the loop of `calculateCosineSimilarity`. */
  function Dot(a: seq<real>, b: seq<real>): real
    requires |a| == |b|
    decreases |a|
  {
    if |a| == 0 then 0.0 else Dot(a[..|a| - 1], b[..|b| - 1]) + a[|a| - 1] * b[|b| - 1]
  }

  /** `sqrt` returns the non-negative square root of every non-negative real. */
  ghost predicate IsSqrt(sqrt: real -> real) {
    forall x: real :: 0.0 <= x ==> 0.0 <= sqrt(x) && sqrt(x) * sqrt(x) == x
  }

  /** dotProduct / (sqrt(normA) * sqrt(normB)); a zero denominator gives NaN. */
  function Normalize(dotProduct: real, normA: real, normB: real, sqrt: real -> real): Score {
    var denominator := sqrt(normA) * sqrt(normB);
    if denominator == 0.0 then NaN else Value(dotProduct / denominator)
  }

  /** The score of two vectors, or the exception thrown when their lengths differ. */
  function CosineSimilarity(a: seq<real>, b: seq<real>, sqrt: real -> real): (r: Result<Score, JavaException>)
    ensures r.Failure? <==> |a| != |b|
    ensures r.Failure? ==> r.error == IllegalArgumentException(VECTOR_LENGTH_MESSAGE)
  {
    if |a| != |b| then Failure(IllegalArgumentException(VECTOR_LENGTH_MESSAGE))
    else Success(Normalize(Dot(a, b), Dot(a, a), Dot(b, b), sqrt))
  }

  /**
   * `calculateCosineSimilarity`, with its loop over two arrays. The length
   * check comes before any accumulation; after
   * i iterations the three accumulators hold the sums over the first i
   * positions, and both norms are non-negative.
   */
  method CalculateCosineSimilarity(vectorA: array<real>, vectorB: array<real>, sqrt: real -> real)
    returns (r: Result<Score, JavaException>)
    ensures r == CosineSimilarity(vectorA[..], vectorB[..], sqrt)
  {
    if vectorA.Length != vectorB.Length {
      return Failure(IllegalArgumentException(VECTOR_LENGTH_MESSAGE));
    }
    var dotProduct, normA, normB := 0.0, 0.0, 0.0;
    for i := 0 to vectorA.Length
      invariant dotProduct == Dot(vectorA[..i], vectorB[..i])
      invariant normA == Dot(vectorA[..i], vectorA[..i])
      invariant normB == Dot(vectorB[..i], vectorB[..i])
      invariant 0.0 <= normA && 0.0 <= normB
    {
      assert vectorA[..i + 1][..i] == vectorA[..i];
      assert vectorB[..i + 1][..i] == vectorB[..i];
      dotProduct := dotProduct + vectorA[i] * vectorB[i];
      normA := normA + vectorA[i] * vectorA[i];
      normB := normB + vectorB[i] * vectorB[i];
    }
    assert vectorA[..vectorA.Length] == vectorA[..];
    assert vectorB[..vectorB.Length] == vectorB[..];
    r := Success(Normalize(dotProduct, normA, normB, sqrt));
  }

  /** Swapping the arguments leaves the dot product unchanged. */
  lemma {:induction false} DotSymmetric(a: seq<real>, b: seq<real>)
    requires |a| == |b|
    ensures Dot(a, b) == Dot(b, a)
  {
    if |a| > 0 {
      DotSymmetric(a[..|a| - 1], b[..|b| - 1]);
    }
  }

  /** A squared norm is never negative. */
  lemma {:induction false} DotSelfNonNegative(a: seq<real>)
    ensures 0.0 <= Dot(a, a)
  {
    if |a| > 0 {
      DotSelfNonNegative(a[..|a| - 1]);
    }
  }

  /** One step of the Cauchy-Schwarz induction: appending (x, y) keeps d² <= A·B. */
  lemma CauchySchwarzStep(d: real, na: real, nb: real, x: real, y: real)
    requires 0.0 <= na && 0.0 <= nb && d * d <= na * nb
    ensures (d + x * y) * (d + x * y) <= (na + x * x) * (nb + y * y)
  {
    var q := na * (y * y) + nb * (x * x) - 2.0 * d * (x * y);
    if na == 0.0 {
      SquareNonPositive(d);
      assert q == nb * (x * x);
    } else {
      var u, w := na * y - d * x, na * nb - d * d;
      assert na * q == u * u + w * (x * x);
      SquareNonNegative(u);
      SquareNonNegative(x);
      ProductNonNegative(w, x * x);
      NonNegativeFactor(na, q);
    }
    assert 0.0 <= q;
    assert (na + x * x) * (nb + y * y) - (d + x * y) * (d + x * y) == (na * nb - d * d) + q;
  }

  /** d² <= na·nb: the relation Cauchy-Schwarz establishes between the accumulators. */
  ghost predicate SquareBounded(d: real, na: real, nb: real) {
    d * d <= na * nb
  }

  /** The Cauchy-Schwarz inequality: (a·b)² <= (a·a)(b·b). */
  lemma {:induction false} CauchySchwarz(a: seq<real>, b: seq<real>)
    requires |a| == |b|
    ensures SquareBounded(Dot(a, b), Dot(a, a), Dot(b, b))
  {
    if |a| > 0 {
      var a', b' := a[..|a| - 1], b[..|b| - 1];
      CauchySchwarz(a', b');
      DotSelfNonNegative(a');
      DotSelfNonNegative(b');
      CauchySchwarzStep(Dot(a', b'), Dot(a', a'), Dot(b', b'), a[|a| - 1], b[|b| - 1]);
    }
  }

  /** The score is symmetric: swapping the vectors swaps the norms and keeps the dot product. */
  lemma CosineSymmetric(a: seq<real>, b: seq<real>, sqrt: real -> real)
    ensures CosineSimilarity(a, b, sqrt) == CosineSimilarity(b, a, sqrt)
  {
    if |a| == |b| {
      DotSymmetric(a, b);
      NormalizeSymmetric(Dot(a, b), Dot(a, a), Dot(b, b), sqrt);
    }
  }

  /** Swapping the two norms does not change the normalized score. */
  lemma NormalizeSymmetric(d: real, na: real, nb: real, sqrt: real -> real)
    ensures Normalize(d, na, nb, sqrt) == Normalize(d, nb, na, sqrt)
  {
    var x, y := sqrt(na), sqrt(nb);
    assert x * y == y * x;
  }

  /** The square root of 1 is 1. */
  lemma SqrtOne(sqrt: real -> real)
    requires IsSqrt(sqrt)
    ensures sqrt(1.0) == 1.0
  {
    var s := sqrt(1.0);
    assert 0.0 <= s && s * s == 1.0;
    assert (s - 1.0) * (s + 1.0) == 0.0;
    ZeroProduct(s - 1.0, s + 1.0);
  }

  /** A real whose square is not positive is zero. */
  lemma SquareNonPositive(d: real)
    requires d * d <= 0.0
    ensures d == 0.0
  {
    SquareNonNegative(d);
    ZeroProduct(d, d);
  }

  lemma SquareNonNegative(x: real)
    ensures 0.0 <= x * x
  {
  }

  lemma ZeroProduct(x: real, y: real)
    requires x * y == 0.0
    ensures x == 0.0 || y == 0.0
  {
  }

  lemma ProductNonNegative(x: real, y: real)
    requires 0.0 <= x && 0.0 <= y
    ensures 0.0 <= x * y
  {
  }

  lemma NonNegativeFactor(x: real, y: real)
    requires 0.0 < x && 0.0 <= x * y
    ensures 0.0 <= y
  {
  }

  lemma ProductPositive(x: real, y: real)
    requires 0.0 < x && 0.0 < y
    ensures 0.0 < x * y
  {
  }

  /** The denominator of Normalize is zero exactly when one of the norms is. */
  lemma DenominatorZero(na: real, nb: real, sa: real, sb: real)
    requires 0.0 <= sa && sa * sa == na && 0.0 <= sb && sb * sb == nb
    ensures sa * sb == 0.0 <==> na == 0.0 || nb == 0.0
    ensures 0.0 <= sa * sb && (sa * sb) * (sa * sb) == na * nb
  {
    if sa != 0.0 && sb != 0.0 {
      ProductPositive(sa, sb);
      ProductPositive(sa, sa);
      ProductPositive(sb, sb);
    }
    assert (sa * sb) * (sa * sb) == (sa * sa) * (sb * sb);
  }

  /**
   * Normalize on accumulators that satisfy Cauchy-Schwarz: NaN exactly when a
   * norm is zero, in which case the dot product is zero too; otherwise a value
   * in [-1, 1].
   */
  lemma NormalizeFacts(d: real, na: real, nb: real, sqrt: real -> real)
    requires IsSqrt(sqrt) && 0.0 <= na && 0.0 <= nb && SquareBounded(d, na, nb)
    ensures Normalize(d, na, nb, sqrt) == NaN <==> na == 0.0 || nb == 0.0
    ensures na == 0.0 || nb == 0.0 ==> d == 0.0
    ensures Normalize(d, na, nb, sqrt).Value? ==> -1.0 <= Normalize(d, na, nb, sqrt).value <= 1.0
  {
    var sa, sb := sqrt(na), sqrt(nb);
    DenominatorZero(na, nb, sa, sb);
    if na == 0.0 || nb == 0.0 {
      assert na * nb == 0.0;
      SquareNonPositive(d);
    } else {
      QuotientBounded(d, sa * sb);
    }
  }

  /**
   * The score is NaN exactly when one of the vectors has norm zero, and then
   * the dot product is zero too: `calculateCosineSimilarity` divides 0.0 by
   * 0.0, never a non-zero value by zero, so no infinity reaches the ranking.
   */
  lemma ZeroNormIsNaN(a: seq<real>, b: seq<real>, sqrt: real -> real)
    requires IsSqrt(sqrt) && |a| == |b|
    ensures CosineSimilarity(a, b, sqrt) == Success(NaN) <==> Dot(a, a) == 0.0 || Dot(b, b) == 0.0
    ensures Dot(a, a) == 0.0 || Dot(b, b) == 0.0 ==> Dot(a, b) == 0.0
  {
    var d, na, nb := Dot(a, b), Dot(a, a), Dot(b, b);
    DotSelfNonNegative(a);
    DotSelfNonNegative(b);
    CauchySchwarz(a, b);
    NormalizeFacts(d, na, nb, sqrt);
    var s := CosineSimilarity(a, b, sqrt);
    assert s == Success(Normalize(d, na, nb, sqrt));
    assert s == Success(NaN) <==> Normalize(d, na, nb, sqrt) == NaN;
  }

  /** With a true square root every defined score lies in [-1, 1]. */
  lemma CosineInRange(a: seq<real>, b: seq<real>, sqrt: real -> real)
    requires IsSqrt(sqrt) && |a| == |b|
    ensures CosineSimilarity(a, b, sqrt).Success?
    ensures var s := CosineSimilarity(a, b, sqrt).value;
      s.Value? ==> -1.0 <= s.value <= 1.0
  {
    DotSelfNonNegative(a);
    DotSelfNonNegative(b);
    CauchySchwarz(a, b);
    NormalizeFacts(Dot(a, b), Dot(a, a), Dot(b, b), sqrt);
  }

  /** From d² <= e² and e > 0: d / e lies in [-1, 1]. */
  lemma QuotientBounded(d: real, e: real)
    requires 0.0 < e && d * d <= e * e
    ensures -1.0 <= d / e <= 1.0
  {
    if d > e {
      ProductPositive(d - e, d + e);
    } else if d < -e {
      ProductPositive(e - d, -e - d);
    }
    assert -e <= d <= e;
    assert d / e * e == d;
  }

  /** A vector with non-zero norm scores exactly 1 against itself. */
  lemma CosineSelfIsOne(a: seq<real>, sqrt: real -> real)
    requires IsSqrt(sqrt) && Dot(a, a) != 0.0
    ensures CosineSimilarity(a, a, sqrt) == Success(Value(1.0))
  {
    var na := Dot(a, a);
    DotSelfNonNegative(a);
    var s := sqrt(na);
    assert 0.0 <= s && s * s == na;
    assert na / (s * s) == 1.0;
  }
}
