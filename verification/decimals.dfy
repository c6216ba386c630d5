/** Exact decimal amounts and truncation toward zero.

    The program stores every amount as a decimal cut to `precision` fractional
    digits with ROUND_DOWN, which moves toward zero (never to nearest, and not
    toward negative infinity for negative amounts). Here an amount is a `real`,
    and "cut to p digits" is `Trunc(x, p)`.
 */
module Decimals {

  /** 10^p */
  function Pow10(p: nat): (r: nat)
    ensures r >= 1
  {
    if p == 0 then 1 else 10 * Pow10(p - 1)
  }

  /** 10^p as a real, the factor that shifts p fractional digits into the integer part. */
  function Scale(p: nat): (s: real)
    ensures s >= 1.0
  {
    Pow10(p) as real
  }

  function Abs(x: real): (r: real)
    ensures r >= 0.0
    ensures r == x || r == -x
  {
    if x >= 0.0 then x else -x
  }

  /** The integer coefficient of x cut to p digits: the digits that survive, as one integer. */
  function TruncCoefficient(x: real, p: nat): int
  {
    if x >= 0.0 then (x * Scale(p)).Floor else -((-x * Scale(p)).Floor)
  }

  /** x cut to p fractional digits, toward zero. */
  function Trunc(x: real, p: nat): real
  {
    TruncCoefficient(x, p) as real / Scale(p)
  }

  /** x has at most p fractional digits: x * 10^p is an integer. */
  predicate IsMultiple(x: real, p: nat)
  {
    (x * Scale(p)).Floor as real == x * Scale(p)
  }

  // ---------------------------------------------------------------------------
  // Small facts about Floor and about scaling by a positive factor
  // ---------------------------------------------------------------------------

  lemma FloorBounds(y: real)
    ensures y.Floor as real <= y < y.Floor as real + 1.0
  {
  }

  lemma FloorOfInteger(k: int)
    ensures (k as real).Floor == k
  {
  }

  lemma FloorMonotone(y: real, z: real)
    requires y <= z
    ensures y.Floor <= z.Floor
  {
  }

  lemma DivScaleMono(a: real, b: real, s: real)
    requires s > 0.0
    requires a <= b * s
    ensures a / s <= b
  {
    assert a / s * s == a;
  }

  lemma ScaleDivCancel(a: real, s: real)
    requires s > 0.0
    ensures a / s * s == a
    ensures a * s / s == a
  {
  }


  
  lemma DivMulCancel(a: real, b: real)
    requires b != 0.0
    ensures a / b * b == a
  {
  }

  lemma Pow10Add(p: nat, q: nat)
    ensures Pow10(p + q) == Pow10(p) * Pow10(q)
    decreases p
  {
    if p > 0 {
      Pow10Add(p - 1, q);
    }
  }

  /** Multiplying an integer-valued real by 10^p keeps it integer-valued. */
  lemma ScaledInteger(k: int, p: nat)
    ensures k as real * Scale(p) == (k * Pow10(p)) as real
  {
  }

  // ---------------------------------------------------------------------------
  // Truncation
  // ---------------------------------------------------------------------------

  /** Truncation moves toward zero: it keeps x's sign, never grows |x|, and loses
      strictly less than one unit of the p-th decimal place. */
  lemma TruncTowardZero(x: real, p: nat)
    ensures x >= 0.0 ==> 0.0 <= Trunc(x, p) <= x
    ensures x < 0.0 ==> x <= Trunc(x, p) <= 0.0
    ensures Abs(Trunc(x, p)) <= Abs(x)
    ensures -1.0 < (x - Trunc(x, p)) * Scale(p) < 1.0
  {
    if x >= 0.0 {
      TruncOfNonNegative(x, p);
    } else {
      TruncOfNegative(x, p);
    }
  }

  lemma TruncOfNonNegative(x: real, p: nat)
    requires x >= 0.0
    ensures 0.0 <= Trunc(x, p) <= x
    ensures 0.0 <= (x - Trunc(x, p)) * Scale(p) < 1.0
  {
    var f := (x * Scale(p)).Floor;
    assert f as real <= x * Scale(p) < f as real + 1.0;
    assert 0 <= f;
    assert Trunc(x, p) == f as real / Scale(p);
    assert Trunc(x, p) * Scale(p) == f as real;
    assert Trunc(x, p) * Scale(p) <= x * Scale(p);
    assert (x - Trunc(x, p)) * Scale(p) == x * Scale(p) - Trunc(x, p) * Scale(p);
  }

  lemma TruncOfNegative(x: real, p: nat)
    requires x < 0.0
    ensures x <= Trunc(x, p) <= 0.0
    ensures -1.0 < (x - Trunc(x, p)) * Scale(p) <= 0.0
  {
    var f := (-x * Scale(p)).Floor;
    assert -x * Scale(p) == -(x * Scale(p));
    assert f as real <= -(x * Scale(p)) < f as real + 1.0;
    assert 0 <= f;
    assert Trunc(x, p) == (-f) as real / Scale(p);
    assert Trunc(x, p) * Scale(p) == (-f) as real;
    assert x * Scale(p) <= Trunc(x, p) * Scale(p);
    assert (x - Trunc(x, p)) * Scale(p) == x * Scale(p) - Trunc(x, p) * Scale(p);
  }

  /** Truncation of a negated amount is the negated truncation. */
  lemma TruncNeg(x: real, p: nat)
    ensures Trunc(-x, p) == -Trunc(x, p)
  {
    if x > 0.0 {
      assert -(-x) == x;
      assert TruncCoefficient(-x, p) == -((x * Scale(p)).Floor);
      assert TruncCoefficient(-x, p) == -TruncCoefficient(x, p);
    } else if x < 0.0 {
      assert TruncCoefficient(x, p) == -((-x * Scale(p)).Floor);
      assert TruncCoefficient(x, p) == -TruncCoefficient(-x, p);
    } else {
      assert -x == x;
    }
  }

  /** The result of a truncation has at most p fractional digits. */
  lemma TruncIsMultiple(x: real, p: nat)
    ensures IsMultiple(Trunc(x, p), p)
  {
    var c := TruncCoefficient(x, p);
    ScaleDivCancel(c as real, Scale(p));
    assert Trunc(x, p) * Scale(p) == c as real;
    FloorOfInteger(c);
  }

  /** An amount that already has at most p fractional digits is left untouched. */
  lemma TruncOfMultiple(x: real, p: nat)
    requires IsMultiple(x, p)
    ensures Trunc(x, p) == x
  {
    var xs := x * Scale(p);
    var k := xs.Floor;
    if x < 0.0 {
      FloorOfNegated(xs, -x * Scale(p), k);
    }
    assert TruncCoefficient(x, p) == k;
    ScaleDivCancel(x, Scale(p));
  }

  lemma FloorOfNegated(y: real, z: real, k: int)
    requires k as real == y && z == -y
    ensures z.Floor == -k
  {
    FloorOfInteger(-k);
  }

  /** Truncating twice to the same precision is the same as truncating once. */
  lemma TruncIdempotent(x: real, p: nat)
    ensures Trunc(Trunc(x, p), p) == Trunc(x, p)
  {
    TruncIsMultiple(x, p);
    TruncOfMultiple(Trunc(x, p), p);
  }

  /** An integer coefficient over 10^p is a multiple of 10^-p. */
  lemma CoefficientIsMultiple(k: int, p: nat)
    ensures IsMultiple(k as real / Scale(p), p)
  {
    ScaleDivCancel(k as real, Scale(p));
    FloorOfInteger(k);
  }

  /** Truncation is monotone. */
  lemma TruncMonotone(x: real, y: real, p: nat)
    requires x <= y
    ensures Trunc(x, p) <= Trunc(y, p)
  {
    if x >= 0.0 {
      assert x * Scale(p) <= y * Scale(p);
      FloorMonotone(x * Scale(p), y * Scale(p));
      assert TruncCoefficient(x, p) <= TruncCoefficient(y, p);
      DivMonotone(TruncCoefficient(x, p) as real, TruncCoefficient(y, p) as real, Scale(p));
    } else if y >= 0.0 {
      TruncTowardZero(x, p);
      TruncTowardZero(y, p);
    } else {
      assert -y * Scale(p) <= -x * Scale(p);
      FloorMonotone(-y * Scale(p), -x * Scale(p));
      assert TruncCoefficient(x, p) <= TruncCoefficient(y, p);
      DivMonotone(TruncCoefficient(x, p) as real, TruncCoefficient(y, p) as real, Scale(p));
    }
  }

  lemma DivMonotone(a: real, b: real, s: real)
    requires s > 0.0
    requires a <= b
    ensures a / s <= b / s
  {
    ScaleDivCancel(a, s);
    ScaleDivCancel(b, s);
  }

  /** For a non-negative x, Trunc(x, p) is the greatest amount with p fractional
      digits that does not exceed x: truncation never rounds to nearest. */
  lemma TruncIsGreatestBelow(x: real, m: real, p: nat)
    requires 0.0 <= m <= x
    requires IsMultiple(m, p)
    ensures m <= Trunc(x, p)
  {
    TruncMonotone(m, x, p);
    TruncOfMultiple(m, p);
  }

  // ---------------------------------------------------------------------------
  // Closure of multiples
  // ---------------------------------------------------------------------------

  lemma MultipleAdd(a: real, b: real, p: nat)
    requires IsMultiple(a, p) && IsMultiple(b, p)
    ensures IsMultiple(a + b, p)
  {
    var as_ := a * Scale(p);
    var bs := b * Scale(p);
    var ka := as_.Floor;
    var kb := bs.Floor;
    assert (a + b) * Scale(p) == as_ + bs;
    assert (a + b) * Scale(p) == (ka + kb) as real;
    FloorOfInteger(ka + kb);
  }

  lemma MultipleNeg(a: real, p: nat)
    requires IsMultiple(a, p)
    ensures IsMultiple(-a, p)
  {
    var as_ := a * Scale(p);
    var ka := as_.Floor;
    assert -a * Scale(p) == -as_;
    assert -a * Scale(p) == (-ka) as real;
    FloorOfInteger(-ka);
  }

  lemma MultipleSub(a: real, b: real, p: nat)
    requires IsMultiple(a, p) && IsMultiple(b, p)
    ensures IsMultiple(a - b, p)
  {
    MultipleNeg(b, p);
    MultipleAdd(a, -b, p);
  }

  /** An integer multiple of a multiple of 10^-p is again one. */
  lemma MultipleTimesInteger(a: real, k: int, p: nat)
    requires IsMultiple(a, p)
    ensures IsMultiple(a * (k as real), p)
  {
    var m := (a * Scale(p)).Floor;
    assert a * (k as real) * Scale(p) == (a * Scale(p)) * (k as real);
    assert a * (k as real) * Scale(p) == (m * k) as real;
    FloorOfInteger(m * k);
  }

  /** Scaling a multiple of 10^-p by an integer needs no truncation. */
  lemma TruncTimesInteger(a: real, k: int, y: real, p: nat)
    requires IsMultiple(a, p) && y == a * (k as real)
    ensures Trunc(y, p) == y
  {
    MultipleTimesInteger(a, k, p);
    TruncOfMultiple(a * (k as real), p);
  }

  /** An integer is a multiple of 10^-p for every p. */
  lemma IntegerIsMultiple(k: int, p: nat)
    ensures IsMultiple(k as real, p)
  {
    ScaledInteger(k, p);
    FloorOfInteger(k * Pow10(p));
  }

  /** A finer grid contains every point of a coarser one. */
  lemma {:induction false} MultipleRefines(x: real, p: nat, q: nat)
    requires p <= q
    requires IsMultiple(x, p)
    ensures IsMultiple(x, q)
    decreases q - p
  {
    if p < q {
      MultipleStep(x, p);
      MultipleRefines(x, p + 1, q);
    }
  }

  /** One more fractional digit keeps a multiple a multiple. */
  lemma MultipleStep(x: real, p: nat)
    requires IsMultiple(x, p)
    ensures IsMultiple(x, p + 1)
  {
    var k := (x * Scale(p)).Floor;
    assert Scale(p + 1) == 10.0 * Scale(p);
    assert x * Scale(p + 1) == 10.0 * (x * Scale(p));
    assert x * Scale(p + 1) == (10 * k) as real;
    FloorOfInteger(10 * k);
  }

  /** Two distinct multiples of 10^-p lie at least one unit 10^-p apart. */
  lemma MultipleGap(a: real, b: real, p: nat)
    requires IsMultiple(a, p) && IsMultiple(b, p)
    requires a < b
    ensures (b - a) * Scale(p) >= 1.0
  {
    var ka := (a * Scale(p)).Floor;
    var kb := (b * Scale(p)).Floor;
    assert a * Scale(p) < b * Scale(p);
    assert ka < kb;
    assert (b - a) * Scale(p) == (kb - ka) as real;
  }
}
