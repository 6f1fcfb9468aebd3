/**
 * `cosine_similarity` over two bags of terms, with exact real arithmetic.
 *
 * The square root (`math.sqrt`) is a library routine outside the model; it is
 * a parameter of the similarity, and the lemmas that depend on its values
 * require it to be the exact non-negative square root (`IsSqrt`).
 */
module Similarity {
  import opened Vectorizer

  type SquareRoot = real -> real

  /** `sqrt` returns the non-negative square root of every non-negative real. */
  ghost predicate IsSqrt(sqrt: SquareRoot) {
    forall x: real :: 0.0 <= x ==> 0.0 <= sqrt(x) && sqrt(x) * sqrt(x) == x
  }

  /**
   * The numerator `sum(vec1[w] * vec2[w] for w in communs)`: the common terms
   * are visited in the order of `v1`, which exact arithmetic does not notice.
   */
  function Dot(v1: TermVector, v2: TermVector): (n: nat)
    ensures Terms(v1) * Terms(v2) == {} ==> n == 0
  {
    if v1 == [] then 0
    else (if v1[0].term in Terms(v2) then v1[0].count * Get(v2, v1[0].term) else 0) + Dot(v1[1..], v2)
  }

  /** `sum(v*v for v in vec.values())` */
  function SumSquares(v: TermVector): nat {
    if v == [] then 0 else v[0].count * v[0].count + SumSquares(v[1..])
  }

  /** `math.sqrt(sum(v*v for v in vec.values()))`: the Euclidean norm of a counter. */
  function Norm(sqrt: SquareRoot, v: TermVector): real {
    sqrt(SumSquares(v) as real)
  }

  /** `cosine_similarity(vec1, vec2)` */
  function Cosine(sqrt: SquareRoot, v1: TermVector, v2: TermVector): real {
    var common := Terms(v1) * Terms(v2);
    if common == {} then 0.0
    else
      var num := Dot(v1, v2) as real;
      var den := Norm(sqrt, v1) * Norm(sqrt, v2);
      if den != 0.0 then num / den else 0.0
  }

  // ---------------------------------------------------------------------
  // Facts about counters
  // ---------------------------------------------------------------------

  lemma {:induction false} GetInside(v: TermVector, t: string)
    requires WellFormed(v) && t in Terms(v)
    ensures Get(v, t) >= 1
  {
    if v[0].term != t {
      GetInside(v[1..], t);
    }
  }

  /** In a well-formed counter, looking up the term of entry `i` gives entry `i`'s count. */
  lemma {:induction false} GetEntry(v: TermVector, i: nat)
    requires WellFormed(v) && i < |v|
    ensures v[i].term in Terms(v) && Get(v, v[i].term) == v[i].count
  {
    if i > 0 {
      GetEntry(v[1..], i - 1);
      assert v[1..][i - 1] == v[i];
    }
  }

  lemma {:induction false} SumSquaresPositive(v: TermVector)
    requires WellFormed(v)
    ensures SumSquares(v) >= 1 <==> v != []
  {
    if v != [] {
      assert v[0].count * v[0].count >= 1;
    }
  }

  // ---------------------------------------------------------------------
  // The numerator
  // ---------------------------------------------------------------------

  /** The numerator is positive exactly when the two counters share a term. */
  lemma {:induction false} DotPositive(v1: TermVector, v2: TermVector)
    requires WellFormed(v1) && WellFormed(v2)
    ensures Dot(v1, v2) >= 1 <==> Terms(v1) * Terms(v2) != {}
  {
    if v1 != [] {
      DotPositive(v1[1..], v2);
      var t := v1[0].term;
      if t in Terms(v2) {
        GetInside(v2, t);
        assert v1[0].count * Get(v2, t) >= 1;
        assert t in Terms(v1) * Terms(v2);
      } else {
        assert Terms(v1) * Terms(v2) == Terms(v1[1..]) * Terms(v2);
      }
    }
  }

  /** The contribution of the pair of entries `e`, `f` to the numerator. */
  function Pair(e: TermCount, f: TermCount): nat {
    if e.term == f.term then e.count * f.count else 0
  }

  /** The contributions of `e` paired with every entry of `v`. */
  function Row(e: TermCount, v: TermVector): nat {
    if v == [] then 0 else Pair(e, v[0]) + Row(e, v[1..])
  }

  /** The contributions of every pair of entries of `u` and `v`. */
  function Grid(u: TermVector, v: TermVector): nat {
    if u == [] then 0 else Row(u[0], v) + Grid(u[1..], v)
  }

  lemma {:induction false} RowIsLookup(e: TermCount, v: TermVector)
    requires WellFormed(v)
    ensures Row(e, v) == if e.term in Terms(v) then e.count * Get(v, e.term) else 0
  {
    if v != [] {
      RowIsLookup(e, v[1..]);
      if v[0].term == e.term {
        GetOutside(v[1..], e.term);
      }
    }
  }

  lemma {:induction false} DotIsGrid(u: TermVector, v: TermVector)
    requires WellFormed(v)
    ensures Dot(u, v) == Grid(u, v)
  {
    if u != [] {
      RowIsLookup(u[0], v);
      DotIsGrid(u[1..], v);
    }
  }

  lemma {:induction false} GridEmpty(u: TermVector)
    ensures Grid(u, []) == 0
  {
    if u != [] {
      GridEmpty(u[1..]);
    }
  }

  lemma {:induction false} GridPeel(u: TermVector, f: TermCount, v: TermVector)
    ensures Grid(u, [f] + v) == Row(f, u) + Grid(u, v)
  {
    if u != [] {
      assert ([f] + v)[1..] == v;
      assert Pair(u[0], f) == Pair(f, u[0]);
      GridPeel(u[1..], f, v);
    }
  }

  lemma {:induction false} GridSwap(u: TermVector, v: TermVector)
    ensures Grid(u, v) == Grid(v, u)
    decreases |v|
  {
    if v == [] {
      GridEmpty(u);
    } else {
      assert v == [v[0]] + v[1..];
      GridPeel(u, v[0], v[1..]);
      GridSwap(u, v[1..]);
    }
  }

  /** The numerator does not depend on the order of the arguments. */
  lemma {:induction false} DotSymmetric(v1: TermVector, v2: TermVector)
    requires WellFormed(v1) && WellFormed(v2)
    ensures Dot(v1, v2) == Dot(v2, v1)
  {
    DotIsGrid(v1, v2);
    DotIsGrid(v2, v1);
    GridSwap(v1, v2);
  }

  /** A counter paired with one that agrees with it on all its terms gives its sum of squares. */
  lemma {:induction false} DotAgreeing(u: TermVector, v: TermVector)
    requires forall i :: 0 <= i < |u| ==> u[i].term in Terms(v) && Get(v, u[i].term) == u[i].count
    ensures Dot(u, v) == SumSquares(u)
  {
    if u != [] {
      assert forall i :: 1 <= i < |u| ==> u[1..][i - 1] == u[i];
      DotAgreeing(u[1..], v);
    }
  }

  lemma DotSelf(v: TermVector)
    requires WellFormed(v)
    ensures Dot(v, v) == SumSquares(v)
  {
    forall i | 0 <= i < |v| ensures v[i].term in Terms(v) && Get(v, v[i].term) == v[i].count {
      GetEntry(v, i);
    }
    DotAgreeing(v, v);
  }

  // ---------------------------------------------------------------------
  // Cauchy-Schwarz for the numerator
  // ---------------------------------------------------------------------

  lemma SquareExpand(x: int, y: int, a: int, b: int)
    ensures (x * b - y * a) * (x * b - y * a) == x * x * (b * b) - 2 * x * y * (a * b) + y * y * (a * a)
  {
  }

  lemma SpreadStep(x: int, y: int, a: int, b: int, A: int, B: int, C: int)
    ensures x * x * (b * b + B) - 2 * x * y * (a * b + C) + y * y * (a * a + A)
         == (x * x * (b * b) - 2 * x * y * (a * b) + y * y * (a * a)) + (x * x * B - 2 * x * y * C + y * y * A)
  {
  }

  lemma CauchySchwarzStep(a: int, b: int, A: int, B: int, C: int)
    requires C * C <= A * B
    requires 2 * a * b * C <= a * a * B + b * b * A
    ensures (a * b + C) * (a * b + C) <= (a * a + A) * (b * b + B)
  {
  }

  /** The sum of the squares of `v`'s counts for the terms of `u`. */
  function Aligned(u: TermVector, v: TermVector): nat {
    if u == [] then 0 else Get(v, u[0].term) * Get(v, u[0].term) + Aligned(u[1..], v)
  }

  /** The sum over the entries `e` of `u` of `(x * v[e.term] - y * e.count)^2`. */
  function Spread(u: TermVector, v: TermVector, x: int, y: int): int {
    if u == [] then 0
    else
      var d := x * Get(v, u[0].term) - y * u[0].count;
      d * d + Spread(u[1..], v, x, y)
  }

  lemma {:induction false} SpreadNonNegative(u: TermVector, v: TermVector, x: int, y: int)
    ensures Spread(u, v, x, y) >= 0
  {
    if u != [] {
      var d := x * Get(v, u[0].term) - y * u[0].count;
      assert d * d >= 0;
      SpreadNonNegative(u[1..], v, x, y);
    }
  }

  lemma {:induction false} DotHead(u: TermVector, v: TermVector)
    requires u != []
    ensures Dot(u, v) == u[0].count * Get(v, u[0].term) + Dot(u[1..], v)
  {
    if u[0].term !in Terms(v) {
      GetOutside(v, u[0].term);
    }
  }

  lemma {:induction false} SpreadExpanded(u: TermVector, v: TermVector, x: int, y: int)
    ensures Spread(u, v, x, y) == x * x * Aligned(u, v) - 2 * x * y * Dot(u, v) + y * y * SumSquares(u)
  {
    if u != [] {
      SpreadExpanded(u[1..], v, x, y);
      DotHead(u, v);
      var b, a := Get(v, u[0].term), u[0].count;
      SquareExpand(x, y, a, b);
      SpreadStep(x, y, a, b, SumSquares(u[1..]), Aligned(u[1..], v), Dot(u[1..], v));
    }
  }

  lemma {:induction false} CauchySchwarz(u: TermVector, v: TermVector)
    ensures Dot(u, v) * Dot(u, v) <= SumSquares(u) * Aligned(u, v)
  {
    if u != [] {
      CauchySchwarz(u[1..], v);
      DotHead(u, v);
      var a, b := u[0].count, Get(v, u[0].term);
      var A, B, C := SumSquares(u[1..]), Aligned(u[1..], v), Dot(u[1..], v);
      SpreadExpanded(u[1..], v, a, b);
      SpreadNonNegative(u[1..], v, a, b);
      CauchySchwarzStep(a, b, A, B, C);
    }
  }

  /** `v` without the entry for `t`. */
  function Remove(v: TermVector, t: string): TermVector {
    if v == [] then [] else if v[0].term == t then Remove(v[1..], t) else [v[0]] + Remove(v[1..], t)
  }

  lemma {:induction false} RemoveFacts(v: TermVector, t: string)
    requires WellFormed(v)
    ensures WellFormed(Remove(v, t))
    ensures Terms(Remove(v, t)) == Terms(v) - {t}
    ensures forall s :: s != t ==> Get(Remove(v, t), s) == Get(v, s)
    ensures SumSquares(Remove(v, t)) + Get(v, t) * Get(v, t) == SumSquares(v)
  {
    if v != [] {
      RemoveFacts(v[1..], t);
      if v[0].term == t {
        GetOutside(v[1..], t);
      } else {
        assert Remove(v, t)[1..] == Remove(v[1..], t);
      }
    }
  }

  lemma {:induction false} AlignedRemove(u: TermVector, v: TermVector, t: string)
    requires WellFormed(v) && t !in Terms(u)
    ensures Aligned(u, Remove(v, t)) == Aligned(u, v)
  {
    if u != [] {
      RemoveFacts(v, t);
      AlignedRemove(u[1..], v, t);
    }
  }

  /** Distinct terms of `u` pick distinct entries of `v`, so their squares add up to at most `v`'s. */
  lemma {:induction false} AlignedBound(u: TermVector, v: TermVector)
    requires WellFormed(u) && WellFormed(v)
    ensures Aligned(u, v) <= SumSquares(v)
  {
    if u != [] {
      var t := u[0].term;
      RemoveFacts(v, t);
      AlignedRemove(u[1..], v, t);
      AlignedBound(u[1..], Remove(v, t));
    }
  }

  lemma MulMonotone(a: nat, b: nat, c: nat)
    requires b <= c
    ensures a * b <= a * c
  {
  }

  /** The square of the numerator is at most the product of the two sums of squares. */
  lemma DotBound(v1: TermVector, v2: TermVector)
    requires WellFormed(v1) && WellFormed(v2)
    ensures Dot(v1, v2) * Dot(v1, v2) <= SumSquares(v1) * SumSquares(v2)
  {
    CauchySchwarz(v1, v2);
    AlignedBound(v1, v2);
    MulMonotone(SumSquares(v1), Aligned(v1, v2), SumSquares(v2));
  }

  // ---------------------------------------------------------------------
  // Real arithmetic used by the similarity
  // ---------------------------------------------------------------------

  lemma TermsEmpty(v: TermVector)
    ensures Terms(v) == {} <==> v == []
  {
    if v != [] {
      assert v[0].term in Terms(v);
    }
  }

  lemma NormSquare(sqrt: SquareRoot, v: TermVector)
    requires IsSqrt(sqrt)
    ensures 0.0 <= Norm(sqrt, v) && Norm(sqrt, v) * Norm(sqrt, v) == SumSquares(v) as real
  {
    var x := SumSquares(v) as real;
    assert 0.0 <= sqrt(x) && sqrt(x) * sqrt(x) == x;
  }

  lemma RootPositive(s: real, x: real)
    requires 0.0 <= s && s * s == x && 1.0 <= x
    ensures 0.0 < s
  {
    assert s * s > 0.0;
    assert s != 0.0;
  }

  lemma ProductPositive(a: real, b: real)
    requires 0.0 < a && 0.0 < b
    ensures 0.0 < a * b
  {
  }

  lemma ProductNonNegative(a: real, b: real)
    requires 0.0 <= a && 0.0 <= b
    ensures 0.0 <= a * b
  {
  }

  lemma QuotientNonNegative(num: real, den: real)
    requires 0.0 <= num && 0.0 <= den && den != 0.0
    ensures 0.0 <= num / den
  {
  }

  lemma QuotientPositive(num: real, den: real)
    requires 0.0 < num && 0.0 < den
    ensures 0.0 < num / den
  {
  }

  lemma RootMonotone(num: real, den: real)
    requires 0.0 <= num && 0.0 < den && num * num <= den * den
    ensures num <= den
  {
    assert (den - num) * (den + num) == den * den - num * num;
    assert (den - num) * (den + num) >= 0.0;
  }

  lemma QuotientAtMostOne(num: real, den: real)
    requires 0.0 <= num && 0.0 < den && num * num <= den * den
    ensures num / den <= 1.0
  {
    RootMonotone(num, den);
    assert num / den * den == num;
  }

  lemma QuotientOfSquare(s: real, x: real)
    requires s * s == x && x > 0.0
    ensures x / (s * s) == 1.0
  {
  }

  lemma SquareOfProduct(s1: real, s2: real, x1: real, x2: real)
    requires s1 * s1 == x1 && s2 * s2 == x2
    ensures (s1 * s2) * (s1 * s2) == x1 * x2
  {
  }

  // ---------------------------------------------------------------------
  // Properties of the cosine similarity
  // ---------------------------------------------------------------------

  /** The similarity is 0.0 whenever the two bags share no term. */
  lemma CosineDisjoint(sqrt: SquareRoot, v1: TermVector, v2: TermVector)
    requires Terms(v1) * Terms(v2) == {}
    ensures Cosine(sqrt, v1, v2) == 0.0
  {
  }

  /** The similarity is never negative. */
  lemma CosineNonNegative(sqrt: SquareRoot, v1: TermVector, v2: TermVector)
    requires IsSqrt(sqrt)
    ensures Cosine(sqrt, v1, v2) >= 0.0
  {
    var s1, s2 := Norm(sqrt, v1), Norm(sqrt, v2);
    NormSquare(sqrt, v1);
    NormSquare(sqrt, v2);
    ProductNonNegative(s1, s2);
    if s1 * s2 != 0.0 {
      QuotientNonNegative(Dot(v1, v2) as real, s1 * s2);
    }
  }

  /** The similarity does not depend on the order of its arguments. */
  lemma CosineSymmetric(sqrt: SquareRoot, v1: TermVector, v2: TermVector)
    requires WellFormed(v1) && WellFormed(v2)
    ensures Cosine(sqrt, v1, v2) == Cosine(sqrt, v2, v1)
  {
    DotSymmetric(v1, v2);
    assert Terms(v1) * Terms(v2) == Terms(v2) * Terms(v1);
    var s1, s2 := Norm(sqrt, v1), Norm(sqrt, v2);
    assert s1 * s2 == s2 * s1;
  }

  /** For two non-empty counters the denominator is positive. */
  lemma DenominatorPositive(sqrt: SquareRoot, v1: TermVector, v2: TermVector)
    requires IsSqrt(sqrt) && WellFormed(v1) && WellFormed(v2) && v1 != [] && v2 != []
    ensures Norm(sqrt, v1) * Norm(sqrt, v2) > 0.0
  {
    SumSquaresPositive(v1);
    SumSquaresPositive(v2);
    NormSquare(sqrt, v1);
    NormSquare(sqrt, v2);
    RootPositive(Norm(sqrt, v1), SumSquares(v1) as real);
    RootPositive(Norm(sqrt, v2), SumSquares(v2) as real);
    ProductPositive(Norm(sqrt, v1), Norm(sqrt, v2));
  }

  /**
   * For counters built by the vectoriser, the similarity is positive exactly
   * when the two bags share a term; then the denominator is never 0.
   */
  lemma CosinePositive(sqrt: SquareRoot, v1: TermVector, v2: TermVector)
    requires IsSqrt(sqrt) && WellFormed(v1) && WellFormed(v2)
    ensures Cosine(sqrt, v1, v2) > 0.0 <==> Terms(v1) * Terms(v2) != {}
  {
    if Terms(v1) * Terms(v2) != {} {
      TermsEmpty(v1);
      TermsEmpty(v2);
      DotPositive(v1, v2);
      DenominatorPositive(sqrt, v1, v2);
      QuotientPositive(Dot(v1, v2) as real, Norm(sqrt, v1) * Norm(sqrt, v2));
    }
  }

  /** A non-empty bag is perfectly similar to itself. */
  lemma CosineSelf(sqrt: SquareRoot, v: TermVector)
    requires IsSqrt(sqrt) && WellFormed(v) && v != []
    ensures Cosine(sqrt, v, v) == 1.0
  {
    DotSelf(v);
    NormSquare(sqrt, v);
    DenominatorPositive(sqrt, v, v);
    QuotientOfSquare(Norm(sqrt, v), SumSquares(v) as real);
    assert v[0].term in Terms(v) * Terms(v);
  }

  lemma CastMul(x: nat, y: nat)
    ensures (x * y) as real == (x as real) * (y as real)
  {
  }

  lemma QuotientOfRoots(num: real, s1: real, s2: real, x1: real, x2: real)
    requires 0.0 <= num && 0.0 <= s1 && 0.0 <= s2 && s1 * s2 != 0.0
    requires s1 * s1 == x1 && s2 * s2 == x2 && num * num <= x1 * x2
    ensures num / (s1 * s2) <= 1.0
  {
    SquareOfProduct(s1, s2, x1, x2);
    ProductNonNegative(s1, s2);
    QuotientAtMostOne(num, s1 * s2);
  }

  /** The integer bound `d * d <= a * b`, carried over to the quotient by the two roots. */
  lemma QuotientOfIntRoots(d: nat, a: nat, b: nat, s1: real, s2: real)
    requires d * d <= a * b
    requires 0.0 <= s1 && 0.0 <= s2 && s1 * s2 != 0.0
    requires s1 * s1 == a as real && s2 * s2 == b as real
    ensures (d as real) / (s1 * s2) <= 1.0
  {
    CastMul(d, d);
    CastMul(a, b);
    QuotientOfRoots(d as real, s1, s2, a as real, b as real);
  }

  /** The numerator over the product of the norms is at most 1. */
  lemma NormsBound(sqrt: SquareRoot, v1: TermVector, v2: TermVector)
    requires 0.0 <= Norm(sqrt, v1) && Norm(sqrt, v1) * Norm(sqrt, v1) == SumSquares(v1) as real
    requires 0.0 <= Norm(sqrt, v2) && Norm(sqrt, v2) * Norm(sqrt, v2) == SumSquares(v2) as real
    requires Norm(sqrt, v1) * Norm(sqrt, v2) != 0.0
    requires Dot(v1, v2) * Dot(v1, v2) <= SumSquares(v1) * SumSquares(v2)
    ensures (Dot(v1, v2) as real) / (Norm(sqrt, v1) * Norm(sqrt, v2)) <= 1.0
  {
    QuotientOfIntRoots(Dot(v1, v2), SumSquares(v1), SumSquares(v2), Norm(sqrt, v1), Norm(sqrt, v2));
  }

  /** The similarity is at most 1.0. */
  lemma CosineAtMostOne(sqrt: SquareRoot, v1: TermVector, v2: TermVector)
    requires IsSqrt(sqrt) && WellFormed(v1) && WellFormed(v2)
    ensures Cosine(sqrt, v1, v2) <= 1.0
  {
    NormSquare(sqrt, v1);
    NormSquare(sqrt, v2);
    if Terms(v1) * Terms(v2) != {} && Norm(sqrt, v1) * Norm(sqrt, v2) != 0.0 {
      DotBound(v1, v2);
      NormsBound(sqrt, v1, v2);
    }
  }
}
