/** IEEE 754 binary64 numbers as exact reals, with the rounding of section 4.3.1 of
    IEEE 754-2019 (roundTiesToEven): 53 significant bits, gradual underflow, overflow to infinity. */
module Float64 {
  import opened Powers

  // ---------- powers of two ----------

  function Pow2(e: int): (r: real)
    ensures r > 0.0
    decreases if e < 0 then -e else e
  {
    if e == 0 then 1.0 else if e > 0 then 2.0 * Pow2(e - 1) else Pow2(e + 1) / 2.0
  }

  lemma Pow2Next(e: int)
    ensures Pow2(e + 1) == 2.0 * Pow2(e)
  {
  }

  lemma {:induction false} Pow2Monotone(a: int, b: int)
    requires a <= b
    ensures Pow2(a) <= Pow2(b)
    decreases b - a
  {
    if a < b {
      Pow2Next(b - 1);
      Pow2Monotone(a, b - 1);
    }
  }

  lemma {:induction false} Pow2IsTwoTo(n: nat)
    ensures Pow2(n) == TwoTo(n) as real
  {
    if n > 0 { Pow2IsTwoTo(n - 1); }
  }

  /** The powers that the thresholds of this development involve. */
  lemma LargePowers()
    ensures Pow2(45) == 35184372088832.0 && Pow2(46) == 70368744177664.0
    ensures Pow2(51) == 2251799813685248.0 && Pow2(52) == 4503599627370496.0 && Pow2(53) == 9007199254740992.0
  {
    assert TwoTo(15) == 32768 && TwoTo(6) == 64;
    TwoToSum(15, 15);
    TwoToSum(30, 15);
    TwoToSum(45, 6);
    assert TwoTo(46) == 2 * TwoTo(45) && TwoTo(52) == 2 * TwoTo(51) && TwoTo(53) == 2 * TwoTo(52);
    Pow2IsTwoTo(45);
    Pow2IsTwoTo(46);
    Pow2IsTwoTo(51);
    Pow2IsTwoTo(52);
    Pow2IsTwoTo(53);
  }

  lemma SmallPowers()
    ensures Pow2(-1) == 0.5 && Pow2(-2) == 0.25 && Pow2(-7) == 0.0078125 && Pow2(-8) == 0.00390625
  {
    assert Pow2(0) == 1.0;
    Pow2Next(-1);
    Pow2Next(-2);
    Pow2Next(-3);
    Pow2Next(-4);
    Pow2Next(-5);
    Pow2Next(-6);
    Pow2Next(-7);
    Pow2Next(-8);
  }

  lemma HalfInverse(x: real)
    requires 0.0 < x < 1.0
    ensures 1.0 / (2.0 * x) == (1.0 / x) / 2.0 && 1.0 / x > 1.0
  {
    var y := 1.0 / x;
    assert y * x == 1.0;
    assert (y / 2.0) * (2.0 * x) == 1.0;
  }

  lemma Log2Exists(x: real)
    requires x > 0.0
    ensures exists k :: Pow2(k) <= x < Pow2(k + 1)
  {
    var k := FindLog2(x);
  }

  lemma {:induction false} FindLog2(x: real) returns (k: int)
    requires x > 0.0
    ensures Pow2(k) <= x < Pow2(k + 1)
    decreases if x >= 2.0 then x.Floor else if x < 1.0 then (1.0 / x).Floor else 0
  {
    if x >= 2.0 {
      var h := FindLog2(x / 2.0);
      Pow2Next(h);
      Pow2Next(h + 1);
      k := h + 1;
    } else if x < 1.0 {
      HalfInverse(x);
      var h := FindLog2(2.0 * x);
      Pow2Next(h - 1);
      Pow2Next(h);
      k := h - 1;
    } else {
      k := 0;
    }
  }

  /** The binary exponent of a positive number. */
  ghost function Log2(x: real): (k: int)
    requires x > 0.0
    ensures Pow2(k) <= x < Pow2(k + 1)
  {
    Log2Exists(x);
    var k :| Pow2(k) <= x < Pow2(k + 1);
    k
  }

  lemma Log2Bound(x: real, e: int)
    requires x > 0.0
    ensures x < Pow2(e) ==> Log2(x) < e
    ensures x >= Pow2(e) ==> Log2(x) >= e
  {
    if x < Pow2(e) && Log2(x) >= e { Pow2Monotone(e, Log2(x)); }
    if x >= Pow2(e) && Log2(x) < e { Pow2Monotone(Log2(x) + 1, e); }
  }

  // ---------- rounding ----------

  /** Round half to even; also what Python's `round` does with a float. */
  function RoundEven(y: real): (n: int)
    ensures -0.5 <= n as real - y <= 0.5
  {
    var f := y.Floor;
    var d := y - f as real;
    if d < 0.5 then f else if d > 0.5 then f + 1 else if f % 2 == 0 then f else f + 1
  }

  lemma RoundEvenNear(y: real, n: int)
    requires -0.5 < n as real - y < 0.5
    ensures RoundEven(y) == n
  {
  }

  lemma RoundEvenNegates(y: real)
    ensures RoundEven(-y) == -RoundEven(y)
  {
    var f := y.Floor;
    if y == f as real {
      assert (-y).Floor == -f;
    } else {
      assert (-y).Floor == -f - 1;
    }
  }

  /** The spacing of the representable numbers around a positive number. */
  ghost function Ulp(x: real): (q: real)
    requires x > 0.0
    ensures q > 0.0
  {
    Pow2(if Log2(x) - 52 < -1074 then -1074 else Log2(x) - 52)
  }

  /** The representable number nearest to `x`, ties to even, the range being unbounded above. */
  ghost function Nearest(x: real): real {
    if x == 0.0 then 0.0
    else if x > 0.0 then RoundEven(x / Ulp(x)) as real * Ulp(x)
    else -(RoundEven(-x / Ulp(-x)) as real * Ulp(-x))
  }

  lemma NearestNegates(x: real)
    ensures Nearest(-x) == -Nearest(x)
  {
  }

  /** Rounding to an integral multiple of the spacing errs by at most half of it. */
  lemma NearestBound(x: real)
    requires x > 0.0
    ensures -Ulp(x) / 2.0 <= Nearest(x) - x <= Ulp(x) / 2.0
  {
    ScaledError(x, Ulp(x), RoundEven(x / Ulp(x)) as real);
  }

  lemma ScaledError(x: real, q: real, n: real)
    requires q > 0.0 && -0.5 <= n - x / q <= 0.5
    ensures -q / 2.0 <= n * q - x <= q / 2.0
  {
    var a := n - x / q;
    assert (x / q) * q == x;
    assert n * q - x == a * q;
    Scale(a, q);
  }

  lemma Scale(a: real, q: real)
    requires -0.5 <= a <= 0.5 && q > 0.0
    ensures -q / 2.0 <= a * q <= q / 2.0
  {
    assert (0.5 - a) * q >= 0.0;
    assert (a + 0.5) * q >= 0.0;
  }

  // ---------- doubles ----------

  datatype Double = Finite(value: real) | Infinity(negative: bool) | NaN

  /** The double a real rounds to. */
  ghost function ToDouble(x: real): Double {
    var r := Nearest(x);
    if r >= Pow2(1024) then Infinity(false)
    else if r <= -Pow2(1024) then Infinity(true)
    else Finite(r)
  }

  ghost function Times100(d: Double): Double {
    if d.Finite? then ToDouble(d.value * 100.0) else d
  }
}
