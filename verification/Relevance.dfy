/** Cosine similarity of two embedding vectors, in exact arithmetic. */
module Relevance {

  type Vector = seq<real>

  function Dot(a: Vector, b: Vector): real
    requires |a| == |b|
  {
    if a == [] then 0.0 else Dot(a[..|a| - 1], b[..|b| - 1]) + a[|a| - 1] * b[|b| - 1]
  }

  /** A non-negative square root. Exact roots cannot be computed here, so callers supply them. */
  predicate IsRoot(r: real, x: real) {
    r >= 0.0 && r * r == x
  }

  /** The loop and the clamp of the evaluator. `rootA` and `rootB` stand for the two calls of `Math.sqrt`.
      When `b` is shorter than `a`, the source reads `undefined`, so that the denominator is not a number
      and the comparison with 0 fails. */
  method CosineSimilarity(a: Vector, b: Vector, rootA: real, rootB: real) returns (score: real)
    requires |a| <= |b| ==> IsRoot(rootA, Dot(a, a)) && IsRoot(rootB, Dot(b[..|a|], b[..|a|]))
    ensures |a| > |b| ==> score == 0.0
    ensures |a| <= |b| ==> score == Score(Dot(a, b[..|a|]), rootA, rootB)
    ensures |a| <= |b| && rootA > 0.0 && rootB > 0.0 && Dot(a, b[..|a|]) >= 0.0 ==>
      score * (rootA * rootB) == Dot(a, b[..|a|])
    ensures |a| <= |b| && (rootA == 0.0 || rootB == 0.0 || Dot(a, b[..|a|]) < 0.0) ==> score == 0.0
  {
    if |a| > |b| {
      return 0.0;
    }
    var dot, magA, magB := 0.0, 0.0, 0.0;
    for i := 0 to |a|
      invariant dot == Dot(a[..i], b[..i]) && magA == Dot(a[..i], a[..i]) && magB == Dot(b[..i], b[..i])
    {
      assert a[..i + 1][..i] == a[..i] && b[..i + 1][..i] == b[..i];
      dot := dot + a[i] * b[i];
      magA := magA + a[i] * a[i];
      magB := magB + b[i] * b[i];
    }
    assert a[..|a|] == a;
    ScoreIsCosine(a, b[..|a|], rootA, rootB);
    var denom := rootA * rootB;
    if denom > 0.0 {
      var ratio := dot / denom;
      var capped := if ratio < 1.0 then ratio else 1.0;
      score := if capped > 0.0 then capped else 0.0;
    } else {
      score := 0.0;
    }
  }

  /** The cosine of the angle, or 0 when it is negative or a vector is zero. */
  function Score(dot: real, rootA: real, rootB: real): real {
    if rootA * rootB > 0.0 then
      var ratio := dot / (rootA * rootB);
      if ratio >= 1.0 then 1.0 else if ratio > 0.0 then ratio else 0.0
    else 0.0
  }

  // ---------- Cauchy-Schwarz ----------

  function Scale(c: real, a: Vector): (r: Vector)
    ensures |r| == |a|
  {
    if a == [] then [] else Scale(c, a[..|a| - 1]) + [c * a[|a| - 1]]
  }

  lemma ScaleLast(c: real, a: Vector)
    requires a != []
    ensures var n := |a| - 1;
      Scale(c, a)[..n] == Scale(c, a[..n]) && Scale(c, a)[n] == c * a[n]
  {
  }

  /** The squared length of t * a - s * b. */
  function Distance(t: real, a: Vector, s: real, b: Vector): real
    requires |a| == |b|
  {
    if a == [] then 0.0
    else
      var d := t * a[|a| - 1] - s * b[|b| - 1];
      Distance(t, a[..|a| - 1], s, b[..|b| - 1]) + d * d
  }

  /** A square `q` is positive unless its root is 0. */
  lemma SquareSign(x: real, q: real)
    requires q == x * x
    ensures q >= 0.0 && (q == 0.0 ==> x == 0.0) && (x == 0.0 ==> q == 0.0)
  {
    var y := if x < 0.0 then -x else x;
    assert q == y * y;
    if y > 0.0 {
      PositiveProduct(y, y, q);
    }
  }

  lemma AddSquare(sum: real, x: real, q: real, total: real)
    requires sum >= 0.0 && q == x * x && total == sum + q
    ensures total >= 0.0 && (total == 0.0 ==> sum == 0.0 && x == 0.0)
  {
    SquareSign(x, q);
  }

  lemma PositiveProduct(x: real, y: real, q: real)
    requires x > 0.0 && y > 0.0 && q == x * y
    ensures q > 0.0
  {
  }

  lemma SquareOfDifference(t: real, x: real, s: real, y: real)
    ensures (t * x - s * y) * (t * x - s * y) == t * t * (x * x) - 2.0 * t * s * (x * y) + s * s * (y * y)
  {
    var p, q := t * x, s * y;
    assert (p - q) * (p - q) == p * p - 2.0 * (p * q) + q * q;
    assert p * p == t * t * (x * x);
    assert q * q == s * s * (y * y);
    assert p * q == t * s * (x * y);
  }

  function Expansion(t: real, s: real, m: real, d: real, n: real): real {
    t * t * m - 2.0 * t * s * d + s * s * n
  }

  lemma {:induction false} DistanceExpands(t: real, a: Vector, s: real, b: Vector)
    requires |a| == |b|
    ensures Distance(t, a, s, b) == Expansion(t, s, Dot(a, a), Dot(a, b), Dot(b, b))
    ensures Distance(t, a, s, b) >= 0.0
  {
    if a != [] {
      var n := |a| - 1;
      DistanceExpands(t, a[..n], s, b[..n]);
      SquareOfDifference(t, a[n], s, b[n]);
      var d := t * a[n] - s * b[n];
      AddSquare(Distance(t, a[..n], s, b[..n]), d, d * d, Distance(t, a, s, b));
      Distribute(t * t, Dot(a[..n], a[..n]), a[n] * a[n]);
      Distribute(2.0 * t * s, Dot(a[..n], b[..n]), a[n] * b[n]);
      Distribute(s * s, Dot(b[..n], b[..n]), b[n] * b[n]);
    }
  }

  lemma Distribute(k: real, x: real, y: real)
    ensures k * (x + y) == k * x + k * y
  {
  }

  lemma {:induction false} DotSelf(a: Vector)
    ensures Dot(a, a) >= 0.0
    ensures Dot(a, a) == 0.0 ==> forall i :: 0 <= i < |a| ==> a[i] == 0.0
  {
    if a != [] {
      var n := |a| - 1;
      DotSelf(a[..n]);
      AddSquare(Dot(a[..n], a[..n]), a[n], a[n] * a[n], Dot(a, a));
      if Dot(a, a) == 0.0 {
        assert forall i :: 0 <= i < n ==> a[i] == a[..n][i];
      }
    }
  }

  lemma {:induction false} DotSymmetric(a: Vector, b: Vector)
    requires |a| == |b|
    ensures Dot(a, b) == Dot(b, a)
  {
    if a != [] {
      DotSymmetric(a[..|a| - 1], b[..|b| - 1]);
    }
  }

  lemma {:induction false} DotZero(a: Vector, b: Vector)
    requires |a| == |b| && forall i :: 0 <= i < |a| ==> a[i] == 0.0
    ensures Dot(a, b) == 0.0
  {
    if a != [] {
      DotZero(a[..|a| - 1], b[..|b| - 1]);
    }
  }

  /** For all vectors of equal length, dot * dot <= magA * magB. */
  lemma CauchySchwarz(a: Vector, b: Vector)
    requires |a| == |b|
    ensures Dot(a, b) * Dot(a, b) <= Dot(a, a) * Dot(b, b)
  {
    var d, m, n := Dot(a, b), Dot(a, a), Dot(b, b);
    DotSelf(a);
    if m == 0.0 {
      DotZero(a, b);
    } else {
      DistanceExpands(d, a, m, b);
      Discriminant(d, m, n, Distance(d, a, m, b));
    }
  }

  lemma Discriminant(d: real, m: real, n: real, distance: real)
    requires m > 0.0 && distance == Expansion(d, m, m, d, n) && distance >= 0.0
    ensures d * d <= m * n
  {
    assert distance == m * (m * n - d * d);
    if m * n - d * d < 0.0 {
      NegativeProduct(m, m * n - d * d);
    }
  }

  lemma NegativeProduct(m: real, x: real)
    requires m > 0.0 && x < 0.0
    ensures m * x < 0.0
  {
  }

  // ---------- the score ----------

  lemma RootsMultiply(ra: real, rb: real, m: real, n: real)
    requires IsRoot(ra, m) && IsRoot(rb, n)
    ensures ra * rb >= 0.0 && (ra * rb) * (ra * rb) == m * n
  {
    assert (ra * rb) * (ra * rb) == (ra * ra) * (rb * rb);
  }

  lemma SquaresOrdered(x: real, y: real)
    requires y >= 0.0 && x * x <= y * y
    ensures x <= y
  {
    assert (x - y) * (x + y) == x * x - y * y;
    if x > y {
      PositiveProduct(x - y, x + y, x * x - y * y);
    }
  }

  lemma RatioAtMostOne(d: real, denom: real)
    requires denom > 0.0
    ensures d <= denom <==> d / denom <= 1.0
    ensures d == denom <==> d / denom == 1.0
    ensures d / denom > 0.0 <==> d > 0.0
  {
    assert (d / denom) * denom == d;
  }

  /** The upper clamp never changes the value: the cosine is at most 1. The score lies between 0 and 1 and does
      not depend on the order of the vectors. */
  lemma ScoreRange(a: Vector, b: Vector, ra: real, rb: real)
    requires |a| == |b| && IsRoot(ra, Dot(a, a)) && IsRoot(rb, Dot(b, b))
    ensures ra * rb > 0.0 ==> Dot(a, b) / (ra * rb) <= 1.0
    ensures 0.0 <= Score(Dot(a, b), ra, rb) <= 1.0
    ensures Score(Dot(a, b), ra, rb) == Score(Dot(b, a), rb, ra)
  {
    CauchySchwarz(a, b);
    RootsMultiply(ra, rb, Dot(a, a), Dot(b, b));
    SquaresOrdered(Dot(a, b), ra * rb);
    DotSymmetric(a, b);
    assert ra * rb == rb * ra;
    if ra * rb > 0.0 {
      RatioAtMostOne(Dot(a, b), ra * rb);
    }
  }

  /** The score times the lengths is the dot product, unless that is negative or a vector is zero: then it is 0. */
  lemma ScoreIsCosine(a: Vector, b: Vector, ra: real, rb: real)
    requires |a| == |b| && IsRoot(ra, Dot(a, a)) && IsRoot(rb, Dot(b, b))
    ensures ra > 0.0 && rb > 0.0 && Dot(a, b) >= 0.0 ==> Score(Dot(a, b), ra, rb) * (ra * rb) == Dot(a, b)
    ensures ra == 0.0 || rb == 0.0 || Dot(a, b) < 0.0 ==> Score(Dot(a, b), ra, rb) == 0.0
  {
    if ra > 0.0 && rb > 0.0 {
      PositiveProduct(ra, rb, ra * rb);
      ScoreRange(a, b, ra, rb);
      RatioAtMostOne(Dot(a, b), ra * rb);
      assert (Dot(a, b) / (ra * rb)) * (ra * rb) == Dot(a, b);
    }
  }

  lemma {:induction false} DotScale(c: real, a: Vector, b: Vector)
    requires |a| == |b|
    ensures Dot(Scale(c, a), b) == c * Dot(a, b)
  {
    if a != [] {
      var n := |a| - 1;
      DotScale(c, a[..n], b[..n]);
      var s := Scale(c, a);
      ScaleLast(c, a);
      ScaleStep(c, Dot(a[..n], b[..n]), Dot(s[..n], b[..n]), a[n], s[n], b[n], Dot(a, b), Dot(s, b));
    }
  }

  lemma ScaleStep(c: real, d: real, sd: real, x: real, sx: real, y: real, total: real, scaled: real)
    requires sd == c * d && sx == c * x && total == d + x * y && scaled == sd + sx * y
    ensures scaled == c * total
  {
    assert sx * y == c * (x * y);
  }

  lemma DotScaleSelf(c: real, a: Vector)
    ensures Dot(Scale(c, a), Scale(c, a)) == ScaledTwice(c, Dot(a, a))
  {
    DotScale(c, a, Scale(c, a));
    DotSymmetric(a, Scale(c, a));
    DotScale(c, a, a);
  }

  function ScaledTwice(c: real, m: real): real {
    c * (c * m)
  }

  lemma RootOfScaled(c: real, m: real, sm: real, r: real, rc: real)
    requires c > 0.0 && sm == ScaledTwice(c, m) && IsRoot(r, m) && IsRoot(rc, sm)
    ensures rc == c * r
  {
    var x := c * r;
    assert x * x == c * (c * (r * r)) == sm;
    assert x >= 0.0;
    SquaresOrdered(rc, x);
    SquaresOrdered(x, rc);
  }

  lemma CancelFactor(c: real, d: real, denom: real)
    requires c > 0.0 && denom > 0.0
    ensures c * denom > 0.0 && (c * d) / (c * denom) == d / denom
  {
    var q := d / denom;
    assert q * denom == d;
    PositiveProduct(c, denom, c * denom);
    assert q * (c * denom) == c * d;
  }

  lemma ScaledScore(c: real, d: real, sd: real, ra: real, rb: real, rc: real)
    requires c > 0.0 && sd == c * d && ra >= 0.0 && rb >= 0.0 && rc == c * ra
    ensures Score(sd, rc, rb) == Score(d, ra, rb)
  {
    var x := ra * rb;
    assert rc * rb == c * x;
    if x > 0.0 {
      CancelFactor(c, d, x);
    } else {
      assert x == 0.0 && c * x == 0.0;
    }
  }

  /** The score does not change when a vector is scaled by a positive factor. */
  lemma ScoreScaleInvariant(c: real, a: Vector, b: Vector, ra: real, rb: real, rc: real)
    requires c > 0.0 && |a| == |b|
    requires IsRoot(ra, Dot(a, a)) && IsRoot(rb, Dot(b, b)) && IsRoot(rc, Dot(Scale(c, a), Scale(c, a)))
    ensures Score(Dot(Scale(c, a), b), rc, rb) == Score(Dot(a, b), ra, rb)
  {
    DotScale(c, a, b);
    DotScaleSelf(c, a);
    RootOfScaled(c, Dot(a, a), Dot(Scale(c, a), Scale(c, a)), ra, rc);
    ScaledScore(c, Dot(a, b), Dot(Scale(c, a), b), ra, rb, rc);
  }

  // ---------- when the score is 1 ----------

  ghost predicate PositiveMultiple(a: Vector, b: Vector)
    requires |a| == |b|
  {
    exists c: real :: c > 0.0 && b == Scale(c, a)
  }

  lemma {:induction false} DistanceZero(t: real, a: Vector, s: real, b: Vector, i: nat)
    requires |a| == |b| && i < |a| && Distance(t, a, s, b) == 0.0
    ensures t * a[i] == s * b[i]
  {
    var n := |a| - 1;
    DistanceExpands(t, a[..n], s, b[..n]);
    var d := t * a[n] - s * b[n];
    AddSquare(Distance(t, a[..n], s, b[..n]), d, d * d, Distance(t, a, s, b));
    if i < n {
      DistanceZero(t, a[..n], s, b[..n], i);
    }
  }

  predicate Tight(d: real, m: real, n: real) {
    d > 0.0 && m > 0.0 && d * d == m * n
  }

  /** Equality in Cauchy-Schwarz, with a positive product, makes the vectors positive multiples. */
  lemma EqualityCase(a: Vector, b: Vector, d: real, m: real, n: real)
    requires |a| == |b| && d == Dot(a, b) && m == Dot(a, a) && n == Dot(b, b)
    requires Tight(d, m, n)
    ensures PositiveMultiple(a, b)
  {
    DistanceExpands(d, a, m, b);
    NoDiscriminant(d, m, n, Distance(d, a, m, b));
    forall i | 0 <= i < |a| ensures d * a[i] == m * b[i] {
      DistanceZero(d, a, m, b, i);
    }
    RatioAtMostOne(d, m);
    Proportional(a, b, d, m, d / m);
  }

  lemma Proportional(a: Vector, b: Vector, d: real, m: real, c: real)
    requires |a| == |b| && m > 0.0 && c > 0.0 && c == d / m
    requires forall i :: 0 <= i < |a| ==> d * a[i] == m * b[i]
    ensures PositiveMultiple(a, b)
  {
    forall i | 0 <= i < |a| ensures b[i] == c * a[i] {
      QuotientOf(d, m, a[i], b[i]);
    }
    ScaleOf(c, a, b);
  }

  lemma {:induction false} ScaleOf(c: real, a: Vector, b: Vector)
    requires |a| == |b| && forall i :: 0 <= i < |a| ==> b[i] == c * a[i]
    ensures b == Scale(c, a)
  {
    if a != [] {
      var n := |a| - 1;
      ScaleOf(c, a[..n], b[..n]);
      assert b == b[..n] + [b[n]];
    }
  }

  lemma NoDiscriminant(d: real, m: real, n: real, distance: real)
    requires d * d == m * n && distance == Expansion(d, m, m, d, n)
    ensures distance == 0.0
  {
    assert d * d * m == m * n * m;
    assert d * m * d == m * n * m;
  }

  lemma QuotientOf(d: real, m: real, x: real, y: real)
    requires m > 0.0 && d * x == m * y
    ensures y == (d / m) * x
  {
    var q := d / m;
    assert q * m == d;
    assert m * (q * x) == m * y;
  }

  lemma OneIsMultiple(a: Vector, b: Vector, ra: real, rb: real)
    requires |a| == |b| && IsRoot(ra, Dot(a, a)) && IsRoot(rb, Dot(b, b))
    requires Score(Dot(a, b), ra, rb) == 1.0
    ensures Dot(a, a) > 0.0 && PositiveMultiple(a, b)
  {
    ScoreRange(a, b, ra, rb);
    TightScore(Dot(a, b), ra, rb, Dot(a, a), Dot(b, b));
    EqualityCase(a, b, Dot(a, b), Dot(a, a), Dot(b, b));
  }

  lemma MultipleIsOne(c: real, a: Vector, b: Vector, ra: real, rb: real)
    requires c > 0.0 && |a| == |b| && b == Scale(c, a) && Dot(a, a) > 0.0
    requires IsRoot(ra, Dot(a, a)) && IsRoot(rb, Dot(b, b))
    ensures Score(Dot(a, b), ra, rb) == 1.0
  {
    DotScale(c, a, a);
    DotSymmetric(a, b);
    DotScaleSelf(c, a);
    RootOfScaled(c, Dot(a, a), Dot(b, b), ra, rb);
    MultipleScore(c, Dot(a, a), Dot(a, b), ra, rb);
  }

  /** The score is 1 if and only if one vector is a positive multiple of the other, and not zero. */
  lemma ScoreOneIff(a: Vector, b: Vector, ra: real, rb: real)
    requires |a| == |b| && IsRoot(ra, Dot(a, a)) && IsRoot(rb, Dot(b, b))
    ensures Score(Dot(a, b), ra, rb) == 1.0 <==> Dot(a, a) > 0.0 && PositiveMultiple(a, b)
  {
    if Score(Dot(a, b), ra, rb) == 1.0 {
      OneIsMultiple(a, b, ra, rb);
    }
    if Dot(a, a) > 0.0 && PositiveMultiple(a, b) {
      var c: real :| c > 0.0 && b == Scale(c, a);
      MultipleIsOne(c, a, b, ra, rb);
    }
  }

  /** A score of 1 means equality in Cauchy-Schwarz. */
  lemma TightScore(d: real, ra: real, rb: real, m: real, n: real)
    requires IsRoot(ra, m) && IsRoot(rb, n) && (ra * rb > 0.0 ==> d / (ra * rb) <= 1.0)
    requires Score(d, ra, rb) == 1.0
    ensures Tight(d, m, n)
  {
    var x := ra * rb;
    RatioAtMostOne(d, x);
    RootsMultiply(ra, rb, m, n);
    assert d == x && d * d == x * x;
    assert ra != 0.0;
    PositiveProduct(ra, ra, m);
  }

  lemma MultipleScore(c: real, m: real, d: real, ra: real, rb: real)
    requires c > 0.0 && m > 0.0 && d == c * m && IsRoot(ra, m) && rb == c * ra
    ensures Score(d, ra, rb) == 1.0
  {
    var x := ra * rb;
    assert x == c * (ra * ra) == d;
    PositiveProduct(c, m, d);
    RatioAtMostOne(d, x);
  }
}
