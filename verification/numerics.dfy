/**
 * Numbers and vectors shared by the simulation.
 *
 * JavaScript numbers are modelled as `real`. `Math.sin`, `Math.cos` and
 * `Math.sqrt` are host functions whose code is not part of this model; they
 * are passed around as a `MathLib` value, and `Lawful` states the only facts
 * about them that the proofs rely on.
 */
module Numerics {

  datatype Vec3 = Vec3(x: real, y: real, z: real) {
    function Add(o: Vec3): Vec3 { Vec3(x + o.x, y + o.y, z + o.z) }
    function Sub(o: Vec3): Vec3 { Vec3(x - o.x, y - o.y, z - o.z) }
    function Scale(k: real): Vec3 { Vec3(x * k, y * k, z * k) }
    function LengthSq(): real { x * x + y * y + z * z }
    /** Squared distance in the ground plane (the y coordinate ignored). */
    function PlanarSq(): real { x * x + z * z }
  }

  const Origin: Vec3 := Vec3(0.0, 0.0, 0.0)

  /** `Math.PI` as a double. */
  const Pi: real := 3.141592653589793

  /** The host's `Math.sin`, `Math.cos` and `Math.sqrt`. */
  datatype MathLib = MathLib(sin: real -> real, cos: real -> real, sqrt: real -> real)

  /** What the model assumes of the host's trigonometry and square root. */
  ghost predicate Lawful(m: MathLib) {
    && (forall a :: -1.0 <= m.sin(a) <= 1.0)
    && (forall a :: -1.0 <= m.cos(a) <= 1.0)
    && (forall a :: m.sin(a) * m.sin(a) + m.cos(a) * m.cos(a) == 1.0)
    && (forall a, b :: a == -b ==> m.cos(a) == m.cos(b))
    && (forall a :: a >= 0.0 ==> m.sqrt(a) >= 0.0 && m.sqrt(a) * m.sqrt(a) == a)
  }

  function Abs(a: real): (r: real)
    ensures r >= 0.0 && (r == a || r == -a)
  {
    if a < 0.0 then -a else a
  }

  function Max(a: real, b: real): (r: real)
    ensures r >= a && r >= b && (r == a || r == b)
  {
    if a >= b then a else b
  }

  /** `Math.hypot`-style 3-D distance, as three.js `distanceTo` computes it. */
  function Dist(m: MathLib, a: Vec3, b: Vec3): real {
    m.sqrt(a.Sub(b).LengthSq())
  }

  /** three.js `Vector3.normalize`: divides by the length, or by 1 for the zero vector. */
  function Normalize(m: MathLib, v: Vec3): Vec3 {
    var len := m.sqrt(v.LengthSq());
    if len == 0.0 then v else v.Scale(1.0 / len)
  }

  /** The fractional part of `q`. */
  function Frac(q: real): (t: real)
    ensures 0.0 <= t < 1.0
  {
    q - q.Floor as real
  }

  /** The remainder of a non-negative `c` by a positive `b`: `b` times the fractional part of `c / b`. */
  function RemNonNeg(c: real, b: real): (r: real)
    requires c >= 0.0 && b > 0.0
    ensures 0.0 <= r < b
    ensures c - r == b * (c / b).Floor as real
  {
    var t := Frac(c / b);
    ScaleBelow(b, t);
    assert b * (c / b) == c;
    assert b * t == b * (c / b) - b * (c / b).Floor as real;
    b * t
  }

  /** Division commutes with negating the dividend. */
  lemma NegDiv(a: real, b: real)
    requires b > 0.0
    ensures (-a) / b == -(a / b)
    ensures a < 0.0 ==> a / b < 0.0
  {
    var q := a / b;
    assert q * b == a;
    assert (-q) * b == -a;
  }

  /** `Math.trunc`: the integer part of `q`, rounded toward zero. */
  function Trunc(q: real): int {
    if q >= 0.0 then q.Floor else -((-q).Floor)
  }

  /** JavaScript's `a % b` on numbers: the remainder of division truncated toward zero. */
  function JsRem(a: real, b: real): (r: real)
    requires b > 0.0
    ensures a >= 0.0 ==> 0.0 <= r < b
    ensures a <= 0.0 ==> -b < r <= 0.0
    ensures a - r == b * Trunc(a / b) as real
  {
    if a >= 0.0 then
      assert a / b >= 0.0;
      RemNonNeg(a, b)
    else
      NegDiv(a, b);
      -RemNonNeg(-a, b)
  }

  lemma {:induction false} JsRemOdd(a: real, b: real)
    requires b > 0.0
    ensures JsRem(-a, b) == -JsRem(a, b)
  {
    if a == 0.0 {
      assert -a == 0.0;
    }
  }

  /** Below the divisor, the truncating remainder is the number itself. */
  lemma JsRemSmall(a: real, b: real)
    requires b > 0.0 && Abs(a) < b
    ensures JsRem(a, b) == a
  {
    var c := Abs(a);
    var q := c / b;
    assert b * q == c;
    if q < 0.0 {
      MulPos(b, -q);
    }
    if q >= 1.0 {
      MulNonNeg(b, q - 1.0);
    }
    assert 0.0 <= q < 1.0;
    assert q.Floor == 0;
  }

  /** Between one and two divisors, the remainder takes off one divisor. */
  lemma JsRemWrap(a: real, b: real)
    requires b > 0.0 && b <= a < 2.0 * b
    ensures JsRem(a, b) == a - b
  {
    var q := a / b;
    assert b * q == a;
    if q < 1.0 {
      MulPos(b, 1.0 - q);
    }
    if q >= 2.0 {
      MulNonNeg(b, q - 2.0);
    }
    assert 1.0 <= q < 2.0;
    assert q.Floor == 1;
    assert b * (q - 1.0) == a - b;
  }

  /** A distance is below `r` exactly when the squared length is below `r * r`. */
  lemma DistBelow(m: MathLib, a: Vec3, b: Vec3, r: real)
    requires Lawful(m) && r >= 0.0
    ensures Dist(m, a, b) < r <==> a.Sub(b).LengthSq() < r * r
  {
    var q := a.Sub(b).LengthSq();
    assert q >= 0.0 by { SquaresNonNegative(a.Sub(b)); }
    var s := m.sqrt(q);
    assert s >= 0.0 && s * s == q;
    assert Dist(m, a, b) == s;
    if s < r {
      SquareMonotone(s, r);
    } else if r < s {
      SquareMonotone(r, s);
    }
  }

  lemma MulPos(x: real, y: real)
    requires x > 0.0 && y > 0.0
    ensures x * y > 0.0
  {
  }

  /** A positive number times a fraction in [0, 1) stays below it. */
  lemma ScaleBelow(b: real, t: real)
    requires b > 0.0 && 0.0 <= t < 1.0
    ensures 0.0 <= b * t < b
  {
    MulPos(b, 1.0 - t);
    MulNonNeg(b, t);
    assert b * (1.0 - t) == b - b * t;
  }

  lemma MulNonNeg(x: real, y: real)
    requires x >= 0.0 && y >= 0.0
    ensures x * y >= 0.0
  {
  }

  /** Squaring is strictly monotone on non-negative numbers. */
  lemma SquareMonotone(a: real, b: real)
    requires 0.0 <= a < b
    ensures a * a < b * b
  {
    MulPos(b - a, b + a);
    assert (b - a) * (b + a) == b * b - a * a;
  }

  lemma SquaresNonNegative(v: Vec3)
    ensures v.x * v.x >= 0.0 && v.y * v.y >= 0.0 && v.z * v.z >= 0.0
    ensures v.LengthSq() >= 0.0 && v.PlanarSq() >= 0.0
    ensures v.PlanarSq() <= v.LengthSq()
  {
    assert v.x * v.x >= 0.0 && v.y * v.y >= 0.0 && v.z * v.z >= 0.0;
  }

  /** Normalising a non-zero vector divides it by its (positive) length. */
  lemma NormalizeNonZero(m: MathLib, v: Vec3)
    requires Lawful(m) && v.LengthSq() > 0.0
    ensures var len := m.sqrt(v.LengthSq());
      len > 0.0 && len * len == v.LengthSq() && Normalize(m, v) == v.Scale(1.0 / len)
  {
    SquaresNonNegative(v);
  }

  /** The host's square root is the only non-negative root. */
  lemma SqrtUnique(m: MathLib, a: real, s: real)
    requires Lawful(m) && s >= 0.0 && s * s == a
    ensures m.sqrt(a) == s
  {
    MulNonNeg(s, s);
    var t := m.sqrt(a);
    if t < s {
      SquareMonotone(t, s);
    } else if s < t {
      SquareMonotone(s, t);
    }
  }

  lemma ScaleLengthSq(v: Vec3, c: real)
    ensures v.Scale(c).LengthSq() == c * c * v.LengthSq()
  {
    assert (v.x * c) * (v.x * c) == c * c * (v.x * v.x);
    assert (v.y * c) * (v.y * c) == c * c * (v.y * v.y);
    assert (v.z * c) * (v.z * c) == c * c * (v.z * v.z);
  }

  /** Multiplying by a non-negative number keeps an inequality. */
  lemma MulMonotone(a: real, b: real, c: real)
    requires a <= b && c >= 0.0
    ensures a * c <= b * c
  {
    MulNonNeg(b - a, c);
    assert (b - a) * c == b * c - a * c;
  }

  /** Products of non-negative numbers grow with both factors. */
  lemma MulMonotoneBoth(a1: real, a2: real, b1: real, b2: real)
    requires 0.0 <= a1 <= a2 && 0.0 <= b1 <= b2
    ensures a1 * b1 <= a2 * b2
  {
    MulMonotone(a1, a2, b1);
    MulNonNeg(a2, b2 - b1);
    assert a2 * (b2 - b1) == a2 * b2 - a2 * b1;
  }

  /** Dividing by a positive number keeps an inequality. */
  lemma DivMonotone(a: real, b: real, h: real)
    requires a <= b && h > 0.0
    ensures a / h <= b / h
  {
    MulMonotone(a, b, 1.0 / h);
    assert a / h == a * (1.0 / h) && b / h == b * (1.0 / h);
  }

  lemma DivShift(a: real, h: real)
    requires h > 0.0
    ensures (a - h) / h == a / h - 1.0
  {
    assert (a - h) / h == (a - h) * (1.0 / h);
    assert a / h == a * (1.0 / h);
    assert h * (1.0 / h) == 1.0;
  }

  lemma FloorShift(b: real)
    ensures (b - 1.0).Floor == b.Floor - 1
  {
  }

  /** The floor is monotone. */
  lemma FloorMonotone(a: real, b: real)
    requires a <= b
    ensures a.Floor <= b.Floor
  {
  }
}
