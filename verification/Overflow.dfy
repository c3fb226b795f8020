/** Which texts are too large for the converters: the one way in which a cell ends a whole stream. */
module Overflow {
  import opened Wrappers
  import opened Float64
  import opened Powers
  import opened Paise

  // ---------- which reals round to infinity ----------

  /** Half a unit in the last place above the largest double. */
  ghost function Huge(): real { Pow2(1024) - Pow2(970) }

  lemma {:induction false} Pow2Sum(a: int, n: nat)
    ensures Pow2(a + n) == Pow2(a) * TwoTo(n) as real
  {
    if n > 0 {
      Pow2Sum(a, n - 1);
      Pow2Next(a + n - 1);
    }
  }

  lemma LastBinade()
    ensures Pow2(1024) == 9007199254740992.0 * Pow2(971) && Pow2(970) == Pow2(971) / 2.0
    ensures Pow2(1023) == Pow2(1024) / 2.0
  {
    TwoTo52();
    ShiftedTo(971, 53, 1024, 9007199254740992.0);
    Half(970, 971);
    Half(1023, 1024);
  }

  lemma ShiftedTo(a: int, n: nat, b: int, c: real)
    requires TwoTo(n) as real == c && a + n == b
    ensures Pow2(b) == c * Pow2(a)
  {
    Shifted(a, n, c);
  }

  lemma Half(a: int, b: int)
    requires b == a + 1
    ensures Pow2(a) == Pow2(b) / 2.0
  {
    Pow2Next(a);
  }

  lemma Shifted(a: int, n: nat, c: real)
    requires TwoTo(n) as real == c
    ensures Pow2(a + n) == c * Pow2(a)
  {
    Pow2Sum(a, n);
  }

  lemma TwoTo52()
    ensures TwoTo(52) as real == 4503599627370496.0 && TwoTo(53) as real == 9007199254740992.0
  {
    LargePowers();
    Pow2IsTwoTo(52);
    Pow2IsTwoTo(53);
  }

  lemma Scales(a: real, b: real, q: real)
    requires q > 0.0
    ensures a * q >= b * q <==> a >= b
  {
    if a >= b {
      assert (a - b) * q >= 0.0;
    } else {
      assert (b - a) * q > 0.0;
    }
  }

  lemma Quotient(x: real, q: real, c: real)
    requires q > 0.0
    ensures x >= c * q <==> x / q >= c
  {
    Scales(x / q, c, q);
  }

  lemma TopRounds(x: real)
    requires Pow2(1023) <= x < Pow2(1024)
    ensures Nearest(x) >= Pow2(1024) <==> x >= Huge()
  {
    LastBinade();
    UlpAt(x, 1023);
    TopMultiple(x, Pow2(971), Pow2(1024), Huge());
  }

  lemma TopMultiple(x: real, q: real, top: real, huge: real)
    requires 0.0 < x < top && Ulp(x) == q && top == 9007199254740992.0 * q && huge == 9007199254740991.5 * q
    ensures Nearest(x) >= top <==> x >= huge
  {
    Quotient(x, q, 9007199254740991.5);
    Quotient(x, q, 9007199254740992.0);
    RoundsToTop(x / q);
    Scales(RoundEven(x / q) as real, 9007199254740992.0, q);
  }

  lemma RoundsToTop(y: real)
    requires y < 9007199254740992.0
    ensures RoundEven(y) >= 9007199254740992 <==> y >= 9007199254740991.5
  {
  }

  lemma SmallerStays(x: real)
    requires 0.0 < x < Pow2(1023)
    ensures Nearest(x) < Pow2(1024) && x < Huge()
  {
    LastBinade();
    NearestBound(x);
    UlpBelow(x, 1022);
  }

  lemma LargerGrows(x: real)
    requires x >= Pow2(1024)
    ensures Nearest(x) >= Pow2(1024)
  {
    var k := Log2(x);
    Log2Bound(x, 1024);
    UlpAt(x, k);
    TwoTo52();
    Shifted(k - 52, 52, 4503599627370496.0);
    LargeMultiple(x, Pow2(k - 52), Pow2(k));
    Pow2Monotone(1024, k);
  }

  lemma LargeMultiple(x: real, q: real, p: real)
    requires 0.0 < p <= x && Ulp(x) == q && p == 4503599627370496.0 * q
    ensures Nearest(x) >= p
  {
    Quotient(x, q, 4503599627370496.0);
    RoundsFrom(x / q);
    Scales(RoundEven(x / q) as real, 4503599627370496.0, q);
  }

  lemma RoundsFrom(y: real)
    requires y >= 4503599627370496.0
    ensures RoundEven(y) >= 4503599627370496
  {
  }

  lemma NearestOverflowsIff(x: real)
    requires x >= 0.0
    ensures Nearest(x) >= Pow2(1024) <==> x >= Huge()
  {
    LastBinade();
    if x == 0.0 {
    } else if x < Pow2(1023) {
      SmallerStays(x);
    } else if x < Pow2(1024) {
      TopRounds(x);
    } else {
      LargerGrows(x);
    }
  }

  lemma NearestSign(x: real)
    requires x >= 0.0
    ensures Nearest(x) >= 0.0
  {
    if x > 0.0 {
      Quotient(x, Ulp(x), 0.0);
      assert RoundEven(x / Ulp(x)) >= 0;
      Scales(RoundEven(x / Ulp(x)) as real, 0.0, Ulp(x));
    }
  }

  /** A real rounds to an infinity exactly from `Huge()` on, on either side. */
  lemma ToDoubleOverflowsIff(x: real)
    ensures ToDouble(x).Infinity? <==> (x >= Huge() || -x >= Huge())
    ensures !ToDouble(x).NaN?
  {
    var m := if x < 0.0 then -x else x;
    NearestNegates(m);
    NearestSign(m);
    NearestOverflowsIff(m);
    LastBinade();
  }

  // ---------- which texts do ----------

  predicate IsInfinity(t: string) { Lower(Unsigned(t)) == "inf" || Lower(Unsigned(t)) == "infinity" }

  /** The decimal number that the text is, without its sign. */
  function Magnitude(t: string): Option<real> {
    if IsInfinity(t) || Lower(Unsigned(t)) == "nan" then None else ParseDecimal(Unsigned(t))
  }

  lemma FloatOfInfinity(t: string)
    requires IsInfinity(t)
    ensures PyFloat(t).Some? && PyFloat(t).value.Infinity?
  {
  }

  lemma FloatOfNumber(t: string)
    requires Magnitude(t).Some?
    ensures PyFloat(t) == Some(ToDouble(Magnitude(t).value)) || PyFloat(t) == Some(ToDouble(-Magnitude(t).value))
  {
  }

  lemma FloatOfOther(t: string)
    requires !IsInfinity(t) && Magnitude(t).None?
    ensures PyFloat(t).None? || PyFloat(t).value.NaN?
  {
  }

  lemma Ratio(a: nat, b: nat)
    requires b > 0
    ensures a as real / b as real >= 0.0
  {
    Quotient(a as real, b as real, 0.0);
  }

  lemma ScaledPositive(x: real, e: int)
    requires x >= 0.0
    ensures ScaleBy10(x, e) >= 0.0
  {
    if e >= 0 { Scales(x, 0.0, Pow10(e) as real); } else { Quotient(x, Pow10(-e) as real, 0.0); }
  }

  lemma EvaluatesPositive(l: Literal)
    requires AllDigits(l.whole) && AllDigits(l.fraction)
    ensures Evaluate(l).Some? ==> Evaluate(l).value >= 0.0
  {
    if ParseExponent(l.rest).Some? {
      Ratio(NatOf(l.whole + l.fraction), Pow10(|l.fraction|));
      ScaledPositive(NatOf(l.whole + l.fraction) as real / Pow10(|l.fraction|) as real, ParseExponent(l.rest).value);
    }
  }

  lemma MagnitudePositive(t: string)
    ensures Magnitude(t).Some? ==> Magnitude(t).value >= 0.0
  {
    EvaluatesPositive(Scan(Unsigned(t)));
  }

  /** An infinity, or a decimal number that rounds to one. */
  ghost predicate QuantityTooLarge(s: string) {
    var t := Cleaned(s);
    IsInfinity(t) || (Magnitude(t).Some? && Magnitude(t).value >= Huge())
  }

  /** An infinity, or a decimal number whose double, times 100, rounds to one. */
  ghost predicate AmountTooLarge(s: string) {
    var t := Cleaned(s);
    IsInfinity(t) || (Magnitude(t).Some? && Nearest(Magnitude(t).value) * 100.0 >= Huge())
  }

  ghost predicate ReadsTooLarge(t: string) { PyFloat(t).Some? && PyFloat(t).value.Infinity? }

  lemma ReadsTooLargeIff(t: string)
    ensures ReadsTooLarge(t) <==> IsInfinity(t) || (Magnitude(t).Some? && Magnitude(t).value >= Huge())
  {
    if IsInfinity(t) {
      FloatOfInfinity(t);
    } else if Magnitude(t).Some? {
      FloatOfNumber(t);
      MagnitudePositive(t);
      HugeIsPositive();
      ToDoubleOverflowsIff(Magnitude(t).value);
      ToDoubleOverflowsIff(-Magnitude(t).value);
    } else {
      FloatOfOther(t);
    }
  }

  lemma HugeIsPositive()
    ensures 0.0 < Huge() < Pow2(1024)
  {
    LastBinade();
  }

  lemma NoText()
    ensures !IsInfinity("") && Magnitude("").None?
  {
    assert Scan("") == Literal("", "", "");
  }

  /** The connector's `_to_int` raises exactly for those texts; whatever else a cell says, it is a number. */
  lemma QuantityOverflowsIff(s: string)
    ensures ConnectorToInt(StrValue(s)).Value? <==> !QuantityTooLarge(s)
    ensures ConnectorToInt(StrValue(s)).OverflowError? <==> QuantityTooLarge(s)
  {
    ReadsTooLargeIff(Cleaned(s));
    NoText();
  }

  lemma FiniteValue(x: real, negative: bool)
    requires x >= 0.0
    ensures Nearest(x) < Pow2(1024) ==>
      ToDouble(if negative then -x else x) == Finite(if negative then -Nearest(x) else Nearest(x))
  {
    NearestNegates(x);
    NearestSign(x);
  }

  lemma Times100OverflowsIff(x: real, negative: bool)
    requires x >= 0.0
    ensures var d := Times100(ToDouble(if negative then -x else x));
      !d.NaN? && (d.Infinity? <==> Nearest(x) * 100.0 >= Huge())
  {
    NearestSign(x);
    HugeIsPositive();
    if Nearest(x) < Pow2(1024) {
      FiniteValue(x, negative);
      ToDoubleOverflowsIff((if negative then -Nearest(x) else Nearest(x)) * 100.0);
    } else {
      NearestOverflowsIff(x);
      ToDoubleOverflowsIff(if negative then -x else x);
    }
  }

  ghost predicate CountsTooLarge(t: string) { PyFloat(t).Some? && Times100(PyFloat(t).value).Infinity? }

  lemma CountsTooLargeIff(t: string)
    ensures CountsTooLarge(t) <==>
      IsInfinity(t) || (Magnitude(t).Some? && Nearest(Magnitude(t).value) * 100.0 >= Huge())
  {
    if IsInfinity(t) {
      FloatOfInfinity(t);
    } else if Magnitude(t).Some? {
      FloatOfNumber(t);
      MagnitudePositive(t);
      Times100OverflowsIff(Magnitude(t).value, false);
      Times100OverflowsIff(Magnitude(t).value, true);
    } else {
      FloatOfOther(t);
    }
  }

  /** And so does `_to_paise`. */
  lemma AmountOverflowsIff(s: string)
    ensures ConnectorToPaise(StrValue(s)).Value? <==> !AmountTooLarge(s)
    ensures ConnectorToPaise(StrValue(s)).OverflowError? <==> AmountTooLarge(s)
  {
    CountsTooLargeIff(Cleaned(s));
    NoText();
  }
}
