/**
 * Exact fractions as the formatters compute them: the `{ n, d }` records and
 * `gcd`/`reduceFraction`/`addFractions`/`subtractFractions`/`compareFractions`
 * of docs/jsonToAlphaText.js (identical in jsonToAlphaText.ts and
 * public/jsonToAlphaText.js), and the normalised `Rational` values the Ruby
 * scripts build. Integers are unbounded: JavaScript number overflow is not modelled.
 */
module Fractions {
  import opened Wrappers

  datatype Frac = Frac(n: int, d: int)

  function Abs(x: int): nat { if x < 0 then -x else x }

  /** `c` is a positive divisor of `x`. */
  predicate Divides(c: int, x: int) { c > 0 && x % c == 0 }

  /** The value of two fractions is the same (cross-multiplication). */
  predicate SameValue(a: Frac, b: Frac) { a.n * b.d == b.n * a.d }

  // ---------------------------------------------------------------------------
  // Greatest common divisor

  /** Euclid's algorithm on non-negative integers, step for step as the source loop runs it. */
  function EuclidGcd(x: nat, y: nat): nat
    decreases y
  {
    if y == 0 then x else EuclidGcd(y, x % y)
  }

  /** What `gcd(a, b)` returns: the gcd of |a| and |b|, or 1 when both are 0 (`x || 1`). */
  function GcdValue(a: int, b: int): int
  {
    var x := EuclidGcd(Abs(a), Abs(b));
    if x == 0 then 1 else x
  }

  /** `gcd` of the source: a `while` loop over `x`, `y`. */
  method Gcd(a: int, b: int) returns (g: int)
    ensures g == GcdValue(a, b)
    ensures g >= 1 && Divides(g, a) && Divides(g, b)
    ensures a == 0 && b == 0 ==> g == 1
    ensures (a != 0 || b != 0) ==> forall c :: Divides(c, a) && Divides(c, b) ==> Divides(c, g)
  {
    var x: nat := Abs(a);
    var y: nat := Abs(b);
    while y != 0
      invariant EuclidGcd(x, y) == EuclidGcd(Abs(a), Abs(b))
      decreases y
    {
      var temp := y;
      y := x % y;
      x := temp;
    }
    g := if x == 0 then 1 else x;
    GcdIsCommonDivisor(a, b);
    if a != 0 || b != 0 {
      forall c | Divides(c, a) && Divides(c, b) ensures Divides(c, g) {
        GcdIsGreatest(a, b, c);
      }
    }
  }

  lemma MulModZero(g: int, k: int)
    requires g > 0
    ensures (g * k) % g == 0 && (g * k) / g == k
  {
    var q := (g * k) / g;
    var r := (g * k) % g;
    assert g * k == q * g + r && 0 <= r < g;
    assert g * (k - q) == r;
    MulAwayFromZero(g, k - q);
  }

  lemma MulAwayFromZero(g: int, m: int)
    requires g > 0
    ensures m >= 1 ==> g * m >= g
    ensures m <= -1 ==> g * m <= -g
  {
    if m >= 1 {
      assert g * m == g + g * (m - 1);
    } else if m <= -1 {
      assert g * m == -g + g * (m + 1);
    }
  }

  lemma ModZeroMul(c: int, x: int)
    requires Divides(c, x)
    ensures x == c * (x / c)
  {
  }

  lemma DividesNeg(c: int, x: int)
    requires Divides(c, x)
    ensures Divides(c, -x) && Divides(c, Abs(x))
  {
    ModZeroMul(c, x);
    assert -x == c * (-(x / c));
    MulModZero(c, -(x / c));
  }

  lemma DividesCombine(c: int, x: int, y: int, m: int)
    requires Divides(c, x) && Divides(c, y)
    ensures Divides(c, x - m * y)
  {
    ModZeroMul(c, x);
    ModZeroMul(c, y);
    var a, b := x / c, y / c;
    assert x - m * y == c * a - m * (c * b);
    assert x - m * y == c * (a - m * b);
    MulModZero(c, a - m * b);
  }

  lemma DivisorIsSmaller(c: int, x: int)
    requires Divides(c, x) && x > 0
    ensures c <= x
  {
    ModZeroMul(c, x);
    var k := x / c;
    MulAwayFromZero(c, k);
  }

  lemma {:induction false} EuclidPositive(x: nat, y: nat)
    requires x > 0 || y > 0
    ensures EuclidGcd(x, y) > 0
    decreases y
  {
    if y != 0 {
      EuclidPositive(y, x % y);
    }
  }

  lemma {:induction false} EuclidDivides(x: nat, y: nat)
    requires x > 0 || y > 0
    ensures EuclidGcd(x, y) > 0 && Divides(EuclidGcd(x, y), x) && Divides(EuclidGcd(x, y), y)
    decreases y
  {
    EuclidPositive(x, y);
    var g := EuclidGcd(x, y);
    if y == 0 {
      MulModZero(x, 1);
      MulModZero(x, 0);
    } else {
      EuclidDivides(y, x % y);
      assert x % y == x - (x / y) * y;
      assert x == (x % y) - (-(x / y)) * y;
      DividesCombine(g, x % y, y, -(x / y));
    }
  }

  lemma {:induction false} EuclidGreatest(x: nat, y: nat, c: int)
    requires Divides(c, x) && Divides(c, y)
    ensures Divides(c, EuclidGcd(x, y))
    decreases y
  {
    if y != 0 {
      assert x % y == x - (x / y) * y;
      DividesCombine(c, x, y, x / y);
      EuclidGreatest(y, x % y, c);
    }
  }

  /** `gcd(a, b)` divides both arguments and is at least 1. */
  lemma GcdIsCommonDivisor(a: int, b: int)
    ensures GcdValue(a, b) >= 1
    ensures Divides(GcdValue(a, b), a) && Divides(GcdValue(a, b), b)
  {
    if a == 0 && b == 0 {
      MulModZero(1, 0);
    } else {
      EuclidDivides(Abs(a), Abs(b));
      var g := GcdValue(a, b);
      assert g == EuclidGcd(Abs(a), Abs(b));
      var absA: int, absB: int := Abs(a), Abs(b);
      if a < 0 { DividesNeg(g, absA); assert -absA == a; }
      if b < 0 { DividesNeg(g, absB); assert -absB == b; }
    }
  }

  /** Every common divisor of `a` and `b` divides `gcd(a, b)` unless both are 0. */
  lemma GcdIsGreatest(a: int, b: int, c: int)
    requires a != 0 || b != 0
    requires Divides(c, a) && Divides(c, b)
    ensures Divides(c, GcdValue(a, b)) && c <= GcdValue(a, b)
  {
    DividesNeg(c, a);
    DividesNeg(c, b);
    EuclidGreatest(Abs(a), Abs(b), c);
    EuclidPositive(Abs(a), Abs(b));
    DivisorIsSmaller(c, GcdValue(a, b));
  }

  // ---------------------------------------------------------------------------
  // Fraction arithmetic

  /** `reduceFraction`: divide both parts by their gcd. */
  function Reduce(f: Frac): Frac
  {
    var g := GcdValue(f.n, f.d);
    Frac(f.n / g, f.d / g)
  }

  /** `addFractions`. */
  function Add(a: Frac, b: Frac): Frac
  {
    Reduce(Frac(a.n * b.d + b.n * a.d, a.d * b.d))
  }

  /** `subtractFractions`. */
  function Sub(a: Frac, b: Frac): Frac
  {
    Reduce(Frac(a.n * b.d - b.n * a.d, a.d * b.d))
  }

  /** `compareFractions`: -1, 0 or 1. */
  function Compare(a: Frac, b: Frac): int
  {
    var left := a.n * b.d;
    var right := b.n * a.d;
    if left == right then 0 else if left < right then -1 else 1
  }

  /** A reduced fraction keeps its value and the sign of its denominator. */
  lemma ReduceSameValue(f: Frac)
    requires f.d != 0
    ensures SameValue(Reduce(f), f)
    ensures f.d > 0 ==> Reduce(f).d > 0
  {
    var g := GcdValue(f.n, f.d);
    GcdIsCommonDivisor(f.n, f.d);
    ModZeroMul(g, f.n);
    ModZeroMul(g, f.d);
    var a, b := f.n / g, f.d / g;
    assert a * f.d == a * (g * b) == (g * a) * b == f.n * b;
  }

  /** `reduceFraction` yields coprime parts. */
  lemma ReduceCoprime(f: Frac)
    requires f.d != 0
    ensures GcdValue(Reduce(f).n, Reduce(f).d) == 1
  {
    var g := GcdValue(f.n, f.d);
    GcdIsCommonDivisor(f.n, f.d);
    ModZeroMul(g, f.n);
    ModZeroMul(g, f.d);
    var a, b := f.n / g, f.d / g;
    assert b != 0;
    var h := GcdValue(a, b);
    GcdIsCommonDivisor(a, b);
    ModZeroMul(h, a);
    ModZeroMul(h, b);
    var a', b' := a / h, b / h;
    MulAssoc(f.n, g, a, h, a');
    MulAssoc(f.d, g, b, h, b');
    MulModZero(g * h, a');
    MulModZero(g * h, b');
    GcdIsGreatest(f.n, f.d, g * h);
    FactorIsOne(g, h);
  }

  lemma MulAssoc(x: int, g: int, a: int, h: int, a': int)
    requires x == g * a && a == h * a'
    ensures x == (g * h) * a'
  {
  }

  lemma FactorIsOne(g: int, h: int)
    requires g > 0 && h >= 1 && Divides(g * h, g)
    ensures h == 1
  {
    DivisorIsSmaller(g * h, g);
    MulAwayFromZero(g, h - 1);
    assert g * h == g + g * (h - 1);
  }

  /** Reducing twice changes nothing. */
  lemma ReduceIdempotent(f: Frac)
    requires f.d != 0
    ensures Reduce(Reduce(f)) == Reduce(f)
  {
    ReduceCoprime(f);
  }

  /** `addFractions` is exact on positive denominators. */
  lemma AddExact(a: Frac, b: Frac)
    requires a.d > 0 && b.d > 0
    ensures Add(a, b).d > 0
    ensures SameValue(Add(a, b), Frac(a.n * b.d + b.n * a.d, a.d * b.d))
  {
    ReduceSameValue(Frac(a.n * b.d + b.n * a.d, a.d * b.d));
  }

  /** `subtractFractions` is exact on positive denominators. */
  lemma SubExact(a: Frac, b: Frac)
    requires a.d > 0 && b.d > 0
    ensures Sub(a, b).d > 0
    ensures SameValue(Sub(a, b), Frac(a.n * b.d - b.n * a.d, a.d * b.d))
  {
    ReduceSameValue(Frac(a.n * b.d - b.n * a.d, a.d * b.d));
  }

  lemma MulCancel(x: int, y: int, c: int)
    requires c != 0 && x * c == y * c
    ensures x == y
  {
    assert (x - y) * c == 0;
  }

  lemma MulSignPos(x: int, c: int)
    requires c > 0
    ensures (x < 0 <==> x * c < 0) && (x == 0 <==> x * c == 0)
  {
    if x < 0 { assert x * c == -((-x) * c); }
    if x > 0 { assert x * c > 0; }
  }

  /** `compareFractions` depends only on the values it compares, not on their representation. */
  lemma CompareRespectsValue(a: Frac, a': Frac, b: Frac)
    requires a.d > 0 && a'.d > 0 && b.d > 0
    requires SameValue(a, a')
    ensures Compare(a, b) == Compare(a', b)
  {
    var x := a.n * b.d - b.n * a.d;
    var x' := a'.n * b.d - b.n * a'.d;
    assert x * a'.d == x' * a.d by {
      calc {
        x * a'.d;
        (a.n * a'.d) * b.d - b.n * a.d * a'.d;
        (a'.n * a.d) * b.d - b.n * a.d * a'.d;
        x' * a.d;
      }
    }
    MulSignPos(x, a'.d);
    MulSignPos(x', a.d);
  }

  /** Comparing in the other order flips the sign. */
  lemma CompareFlip(a: Frac, b: Frac)
    ensures Compare(a, b) == -Compare(b, a)
    ensures Compare(a, b) == 0 <==> SameValue(a, b)
  {
  }

  /** Equal value is transitive through a fraction with non-zero denominator. */
  lemma SameValueTrans(a: Frac, b: Frac, c: Frac)
    requires b.d != 0
    requires SameValue(a, b) && SameValue(b, c)
    ensures SameValue(a, c)
  {
    assert (a.n * c.d) * b.d == (c.n * a.d) * b.d by {
      calc {
        (a.n * c.d) * b.d;
        (a.n * b.d) * c.d;
        (b.n * a.d) * c.d;
        (b.n * c.d) * a.d;
        (c.n * b.d) * a.d;
        (c.n * a.d) * b.d;
      }
    }
    MulCancel(a.n * c.d, c.n * a.d, b.d);
  }

  // ---------------------------------------------------------------------------
  // The value a fraction stands for

  /** The rational number a fraction with a non-zero denominator denotes. */
  function Val(f: Frac): real
    requires f.d != 0
  {
    f.n as real / f.d as real
  }

  /** Cross-multiplied equality is equality of values. */
  lemma ValOfSameValue(a: Frac, b: Frac)
    requires a.d != 0 && b.d != 0
    ensures SameValue(a, b) <==> Val(a) == Val(b)
  {
    var x, y, u, v := a.n as real, a.d as real, b.n as real, b.d as real;
    assert Val(a) * y == x;
    assert Val(b) * v == u;
    assert (a.n * b.d) as real == x * v;
    assert (b.n * a.d) as real == u * y;
    assert x * v == Val(a) * (y * v);
    assert u * y == Val(b) * (y * v);
  }

  /** Cross-multiplied order is order of values. */
  lemma ValOfCompare(a: Frac, b: Frac)
    requires a.d > 0 && b.d > 0
    ensures Compare(a, b) < 0 <==> Val(a) < Val(b)
    ensures Compare(a, b) == 0 <==> Val(a) == Val(b)
    ensures Compare(a, b) > 0 <==> Val(a) > Val(b)
  {
    var x, y, u, v := a.n as real, a.d as real, b.n as real, b.d as real;
    assert Val(a) * y == x;
    assert Val(b) * v == u;
    assert (a.n * b.d) as real == x * v;
    assert (b.n * a.d) as real == u * y;
    assert x * v == Val(a) * (y * v);
    assert u * y == Val(b) * (y * v);
    assert y * v > 0.0;
  }

  /** `addFractions` adds values. */
  lemma ValOfAdd(a: Frac, b: Frac)
    requires a.d > 0 && b.d > 0
    ensures Add(a, b).d > 0 && Val(Add(a, b)) == Val(a) + Val(b)
  {
    var raw := Frac(a.n * b.d + b.n * a.d, a.d * b.d);
    AddExact(a, b);
    ValOfSameValue(Add(a, b), raw);
    var y, v := a.d as real, b.d as real;
    assert Val(a) * y == a.n as real;
    assert Val(b) * v == b.n as real;
    assert raw.n as real == (Val(a) + Val(b)) * (y * v);
    assert raw.d as real == y * v;
  }

  /** `subtractFractions` subtracts values. */
  lemma ValOfSub(a: Frac, b: Frac)
    requires a.d > 0 && b.d > 0
    ensures Sub(a, b).d > 0 && Val(Sub(a, b)) == Val(a) - Val(b)
  {
    var raw := Frac(a.n * b.d - b.n * a.d, a.d * b.d);
    SubExact(a, b);
    ValOfSameValue(Sub(a, b), raw);
    var y, v := a.d as real, b.d as real;
    assert Val(a) * y == a.n as real;
    assert Val(b) * v == b.n as real;
    assert raw.n as real == (Val(a) - Val(b)) * (y * v);
    assert raw.d as real == y * v;
  }

  // ---------------------------------------------------------------------------
  // Ruby rationals

  /** `Rational(a, b)`: raises ZeroDivisionError on a zero denominator, else normalised with a positive denominator. */
  function RubyRational(a: int, b: int): (r: Result<Frac>)
    ensures r.Ok? <==> b != 0
    ensures r.Ok? ==> r.value.d > 0 && SameValue(r.value, Frac(a, b))
  {
    if b == 0 then Err("ZeroDivisionError")
    else
      var f := if b < 0 then Frac(-a, -b) else Frac(a, b);
      ReduceSameValue(f);
      Ok(Reduce(f))
  }

  /** Ruby `Rational` addition (exact, normalised). */
  function RatAdd(a: Frac, b: Frac): Frac { Add(a, b) }

  /** Ruby `Rational` subtraction (exact, normalised). */
  function RatSub(a: Frac, b: Frac): Frac { Sub(a, b) }

  /** Ruby `a <= b` on rationals with positive denominators. */
  predicate RatLe(a: Frac, b: Frac) { a.n * b.d <= b.n * a.d }

  /** `RatLe` orders values. */
  lemma ValOfLe(a: Frac, b: Frac)
    requires a.d > 0 && b.d > 0
    ensures RatLe(a, b) <==> Val(a) <= Val(b)
  {
    ValOfCompare(a, b);
  }
}
