/** Rupee amounts and quantities: from text through binary floating point to integers. */
module Paise {
  import opened Wrappers
  import opened Float64
  import opened Powers
  import opened Text

  // ---------- `float(text)` ----------

  predicate AllDigits(s: string) { forall i | 0 <= i < |s| :: IsDigit(s[i]) }

  function NatOf(s: string): nat
    requires AllDigits(s)
  {
    if s == "" then 0
    else
      assert IsDigit(s[|s| - 1]);
      10 * NatOf(s[..|s| - 1]) + (s[|s| - 1] as int - '0' as int)
  }

  /** The length of the longest prefix of digits. */
  function DigitCount(s: string): (n: nat)
    ensures n <= |s| && AllDigits(s[..n]) && (n < |s| ==> !IsDigit(s[n]))
  {
    if s == "" || !IsDigit(s[0]) then 0 else 1 + DigitCount(s[1..])
  }

  function Pow10(n: nat): nat
    ensures Pow10(n) > 0
  {
    if n == 0 then 1 else 10 * Pow10(n - 1)
  }

  /** The optional exponent of a decimal literal, which must use the text up. */
  function ParseExponent(s: string): Option<int> {
    if s == "" then Some(0)
    else if s[0] != 'e' && s[0] != 'E' then None
    else
      var signed := |s| > 1 && (s[1] == '+' || s[1] == '-');
      var digits := if signed then s[2..] else s[1..];
      match WholeNumber(digits)
      case None => None
      case Some(n) => Some(if signed && s[1] == '-' then -(n as int) else n)
  }

  function WholeNumber(t: string): Option<nat> {
    if t == "" || DigitCount(t) < |t| then None else Some(NatOf(t[..DigitCount(t)]))
  }

  function ScaleBy10(x: real, e: int): real {
    if e >= 0 then x * Pow10(e) as real else x / Pow10(-e) as real
  }

  /** The parts of an unsigned decimal literal: digits, digits behind a point, and the rest. */
  datatype Literal = Literal(whole: string, fraction: string, rest: string)

  function Scan(t: string): (l: Literal)
    ensures AllDigits(l.whole) && AllDigits(l.fraction)
  {
    var i := DigitCount(t);
    if i < |t| && t[i] == '.' then
      var after := t[i + 1..];
      var f := DigitCount(after);
      Literal(t[..i], after[..f], after[f..])
    else Literal(t[..i], "", t[i..])
  }

  function Evaluate(l: Literal): Option<real>
    requires AllDigits(l.whole) && AllDigits(l.fraction)
  {
    if l.whole == "" && l.fraction == "" then None
    else
      match ParseExponent(l.rest)
      case None => None
      case Some(e) => Some(ScaleBy10(NatOf(l.whole + l.fraction) as real / Pow10(|l.fraction|) as real, e))
  }

  function ParseDecimal(t: string): Option<real> { Evaluate(Scan(t)) }

  function Lower(s: string): string {
    if s == "" then "" else [if 'A' <= s[0] <= 'Z' then (s[0] as int + 32) as char else s[0]] + Lower(s[1..])
  }

  function Unsigned(t: string): string { if t != "" && (t[0] == '+' || t[0] == '-') then t[1..] else t }

  /** `float(t)` of a stripped text; `None` is its ValueError. */
  ghost function PyFloat(t: string): Option<Double> {
    var negative := t != "" && t[0] == '-';
    var body := Unsigned(t);
    if Lower(body) == "inf" || Lower(body) == "infinity" then Some(Infinity(negative))
    else if Lower(body) == "nan" then Some(NaN)
    else
      match ParseDecimal(body)
      case None => None
      case Some(x) => Some(ToDouble(if negative then -x else x))
  }

  // ---------- the converters ----------

  /** The values that reach the converters. */
  datatype PyValue = NoValue | IntValue(n: int) | FloatValue(d: Double) | StrValue(s: string)

  datatype Converted = Value(n: int) | ValueError | OverflowError

  /** `int(round(d))`. */
  function IntRound(d: Double): Converted {
    match d
    case Finite(r) => Value(RoundEven(r))
    case Infinity(_) => OverflowError
    case NaN => ValueError
  }

  /** `int(d)`, which truncates. */
  function IntTrunc(d: Double): Converted {
    match d
    case Finite(r) => Value(if r >= 0.0 then r.Floor else -(-r).Floor)
    case Infinity(_) => OverflowError
    case NaN => ValueError
  }

  /** `except (ValueError, TypeError): return 0`. An overflow is not caught. */
  function ZeroOnValueError(c: Converted): Converted { if c.ValueError? then Value(0) else c }

  function Cleaned(s: string): string { Text.Strip(Text.RemoveCommas(s)) }

  ghost function TextToPaise(s: string): Converted {
    if Cleaned(s) == "" then Value(0)
    else
      match PyFloat(Cleaned(s))
      case None => ValueError
      case Some(d) => IntRound(Times100(d))
  }

  /** The connector's `_to_paise`: every value is in rupees. */
  ghost function ConnectorToPaise(v: PyValue): Converted {
    match v
    case NoValue => Value(0)
    case IntValue(n) => IntRound(Times100(ToDouble(n as real)))
    case FloatValue(d) => if d.NaN? then Value(0) else IntRound(Times100(d))
    case StrValue(s) => ZeroOnValueError(TextToPaise(s))
  }

  /** The normalizer's `_to_paise`: integers are paise already. */
  ghost function NormalizerToPaise(v: PyValue): Converted {
    match v
    case NoValue => Value(0)
    case IntValue(n) => Value(n)
    case FloatValue(d) => IntRound(Times100(d))
    case StrValue(s) => TextToPaise(s)
  }

  /** The connector's `_to_int`. */
  ghost function ConnectorToInt(v: PyValue): Converted {
    match v
    case NoValue => Value(0)
    case IntValue(n) => IntTrunc(ToDouble(n as real))
    case FloatValue(d) => if d.NaN? then Value(0) else IntTrunc(d)
    case StrValue(s) =>
      if Cleaned(s) == "" then Value(0)
      else
        match PyFloat(Cleaned(s))
        case None => Value(0)
        case Some(d) => ZeroOnValueError(IntTrunc(d))
  }

  // ---------- exactness: the arithmetic ----------

  /** `p` paise in rupees. */
  function Hundredths(p: int): real { p as real / 100.0 }

  /** 2^45 rupees and four paise. */
  const LIMIT: int := 3518437208883204

  lemma UlpAt(x: real, k: int)
    requires x > 0.0 && k >= -1022 && Pow2(k) <= x < Pow2(k + 1)
    ensures Ulp(x) == Pow2(k - 52)
  {
    Log2Bound(x, k);
    Log2Bound(x, k + 1);
  }

  lemma UlpBelow(x: real, k: int)
    requires x > 0.0 && k >= -1022 && x < Pow2(k + 1)
    ensures Ulp(x) <= Pow2(k - 52)
  {
    Log2Bound(x, k + 1);
    Pow2Monotone(if Log2(x) - 52 < -1074 then -1074 else Log2(x) - 52, k - 52);
  }

  lemma NearestInRange(x: real)
    requires 0.0 <= x <= 4503599627370496.0
    ensures ToDouble(x) == Finite(Nearest(x)) && ToDouble(-x) == Finite(-Nearest(x))
  {
    LargePowers();
    Pow2Monotone(53, 1024);
    NearestNegates(x);
    if x > 0.0 {
      NearestBound(x);
      UlpBelow(x, 52);
      SmallPowers();
    }
  }

  /** Reading the amount off the tape: it errs by less than a fifth of a paisa. */
  lemma FirstRounding(p: nat)
    requires 0 < p < 3518437208883200
    ensures var x := Nearest(p as real / 100.0) * 100.0; -0.1953125 <= x - p as real <= 0.1953125
  {
    var v := p as real / 100.0;
    LargePowers();
    SmallPowers();
    UlpBelow(v, 44);
    NearestBound(v);
  }

  /** The product is rounded to a multiple of 1/2 or finer, which leads back to the paisa. */
  lemma SecondRounding(x: real, p: nat)
    requires 0 < p < 3518437208883200 && -0.1953125 <= x - p as real <= 0.1953125
    ensures x > 0.0 && RoundEven(Nearest(x)) == p
  {
    LargePowers();
    SmallPowers();
    if x >= 2251799813685248.0 {
      HalfSteps(x, p);
    } else {
      UlpBelow(x, 50);
      NearestBound(x);
      RoundEvenNear(Nearest(x), p);
    }
  }

  /** Between 2^51 and 2^52 doubles are the multiples of 1/2. */
  lemma NearestHalf(x: real)
    requires 2251799813685248.0 <= x < 4503599627370496.0
    ensures Nearest(x) == RoundEven(2.0 * x) as real / 2.0
  {
    LargePowers();
    SmallPowers();
    UlpAt(x, 51);
    assert x / 0.5 == 2.0 * x;
  }

  lemma HalfSteps(x: real, p: nat)
    requires 2251799813685248.0 <= x < 4503599627370496.0 && -0.1953125 <= x - p as real <= 0.1953125
    ensures RoundEven(Nearest(x)) == p
  {
    NearestHalf(x);
    RoundEvenNear(2.0 * x, 2 * p);
    RoundEvenNear(p as real, p);
  }

  /** Between 2^45 and 2^46 doubles are the multiples of 1/128. */
  lemma Nearest128th(x: real)
    requires 35184372088832.0 <= x < 70368744177664.0
    ensures Nearest(x) == RoundEven(128.0 * x) as real / 128.0
  {
    LargePowers();
    SmallPowers();
    UlpAt(x, 45);
    assert x / 0.0078125 == 128.0 * x;
  }

  /** The first paise from 2^45 rupees on, step by step: `r` and `h` are the multiples of 1/128 and
      of 1/2 that the two roundings choose. */
  lemma AtTheLimit(j: nat, r: int, h: int)
    requires j <= 5
    requires -0.5 < 4503599627370496.0 + r as real - (4503599627370496.0 + 1.28 * j as real) < 0.5
    requires -0.5 < h as real - 1.5625 * r as real < 0.5
    ensures var x := Nearest((3518437208883200 + j) as real / 100.0) * 100.0;
      x > 0.0 && x < 4503599627370496.0 && Nearest(x) == 3518437208883200.0 + h as real / 2.0
  {
    var v := (3518437208883200 + j) as real / 100.0;
    Nearest128th(v);
    assert 128.0 * v == 4503599627370496.0 + 1.28 * j as real;
    RoundEvenNear(128.0 * v, 4503599627370496 + r);
    var x := Nearest(v) * 100.0;
    assert 2.0 * x == 7036874417766400.0 + 1.5625 * r as real;
    NearestHalf(x);
    RoundEvenNear(2.0 * x, 7036874417766400 + h);
  }

  lemma FromTheLimitOn(p: nat)
    requires 3518437208883200 <= p <= LIMIT
    ensures var x := Nearest(p as real / 100.0) * 100.0;
      0.0 < x < 4503599627370496.0 && RoundEven(Nearest(x)) == p
  {
    var x := Nearest(p as real / 100.0) * 100.0;
    if p == 3518437208883200 {
      AtTheLimit(0, 0, 0);
      RoundEvenNear(Nearest(x), p);
    } else if p == 3518437208883201 {
      AtTheLimit(1, 1, 2);
      RoundEvenNear(Nearest(x), p);
    } else if p == 3518437208883202 {
      AtTheLimit(2, 3, 5);
      assert Nearest(x).Floor == 3518437208883202;
    } else if p == 3518437208883203 {
      AtTheLimit(3, 4, 6);
      RoundEvenNear(Nearest(x), p);
    } else {
      AtTheLimit(4, 5, 8);
      RoundEvenNear(Nearest(x), p);
    }
  }

  /** Twice rounded, every amount up to the limit is still the same number of paise. */
  lemma PositiveExact(p: nat)
    requires p <= LIMIT
    ensures var x := Nearest(Hundredths(p)) * 100.0;
      0.0 <= x < 4503599627370496.0 && RoundEven(Nearest(x)) == p
  {
    if p == 0 {
      assert Hundredths(0) == 0.0;
    } else if p < 3518437208883200 {
      FirstRounding(p);
      SecondRounding(Nearest(p as real / 100.0) * 100.0, p);
    } else {
      FromTheLimitOn(p);
    }
  }

  lemma Doubled(v: real, x: real)
    requires 0.0 <= v <= 35184372088833.0 && 0.0 <= x < 4503599627370496.0
    ensures x == Nearest(v) * 100.0 ==>
      Times100(ToDouble(v)) == Finite(Nearest(x)) && Times100(ToDouble(-v)) == Finite(-Nearest(x))
  {
    NearestInRange(v);
    NearestInRange(x);
    assert -Nearest(v) * 100.0 == -(Nearest(v) * 100.0);
  }

  lemma TwiceRounded(p: int)
    requires -LIMIT <= p <= LIMIT
    ensures IntRound(Times100(ToDouble(Hundredths(p)))) == Value(p)
  {
    var m := if p < 0 then -p else p;
    PositiveExact(m);
    DoubledHundredths(m);
    NegativeHundredths(m);
    RoundEvenNegates(Nearest(Nearest(Hundredths(m)) * 100.0));
  }

  lemma DoubledHundredths(m: nat)
    requires m <= LIMIT
    ensures var v := Hundredths(m);
      && Times100(ToDouble(v)) == Finite(Nearest(Nearest(v) * 100.0))
      && Times100(ToDouble(-v)) == Finite(-Nearest(Nearest(v) * 100.0))
  {
    PositiveExact(m);
    Doubled(Hundredths(m), Nearest(Hundredths(m)) * 100.0);
  }

  lemma NegativeHundredths(m: int)
    ensures Hundredths(-m) == -Hundredths(m)
  {
  }

  /** One paisa further the result is one paisa short. */
  lemma LimitIsSharp()
    ensures IntRound(Times100(ToDouble(Hundredths(LIMIT + 1)))) == Value(LIMIT)
  {
    AtTheLimit(5, 6, 9);
    var v := (LIMIT + 1) as real / 100.0;
    NearestInRange(v);
    NearestInRange(Nearest(v) * 100.0);
  }

  // ---------- exactness: from the text on ----------

  datatype Sign = Unmarked | Plus | Minus {
    function Text(): string { match this case Unmarked => "" case Plus => ['+'] case Minus => ['-'] }
  }

  /** A written amount: an optional sign, whole rupees, and at most two decimals. */
  datatype Amount = Amount(sign: Sign, whole: string, pointed: bool, cents: string) {
    predicate Valid() {
      && AllDigits(whole) && AllDigits(cents) && |cents| <= 2 && whole + cents != ""
      && (!pointed ==> cents == "")
    }

    function Unsigned(): string { whole + (if pointed then "." else "") + cents }

    function Text(): string { sign.Text() + Unsigned() }

    /** `12.5` is 1250 paise. */
    function Magnitude(): nat
      requires Valid()
    {
      100 * NatOf(whole) + (if cents == "" then 0 else if |cents| == 1 then 10 * NatOf(cents) else NatOf(cents))
    }

    function Paise(): int
      requires Valid()
    {
      var m: int := Magnitude();
      if sign.Minus? then -m else m
    }
  }

  lemma {:induction false} DigitsThenOther(ds: string, rest: string)
    requires AllDigits(ds) && (rest != "" ==> !IsDigit(rest[0]))
    ensures DigitCount(ds + rest) == |ds|
  {
    if ds == "" {
      assert ds + rest == rest;
    } else {
      assert (ds + rest)[1..] == ds[1..] + rest && (ds + rest)[0] == ds[0];
      DigitsThenOther(ds[1..], rest);
    }
  }

  /** Reading two digits behind `w` shifts it by two places, one by one, none by none. */
  lemma NatOfAppend(w: string, c: string) returns (n: nat)
    requires AllDigits(w) && AllDigits(c) && |c| <= 2
    ensures AllDigits(w + c) && n == NatOf(w + c) == NatOf(w) * Pow10(|c|) + NatOf(c)
    ensures Pow10(|c|) == if |c| == 0 then 1 else if |c| == 1 then 10 else 100
  {
    n := NatOf(w + c);
    if |c| == 0 {
      assert w + c == w;
    } else {
      var init := c[..|c| - 1];
      assert (w + c)[..|w + c| - 1] == w + init && (w + c)[|w + c| - 1] == c[|c| - 1];
      var m := NatOfAppend(w, init);
    }
  }

  lemma ScanPointed(w: string, c: string)
    requires AllDigits(w) && AllDigits(c)
    ensures Scan(w + "." + c) == Literal(w, c, "")
  {
    var t, tail := w + "." + c, "." + c;
    assert DigitCount(t) == |w| by {
      assert t == w + tail;
      DigitsThenOther(w, tail);
    }
    assert t[..|w|] == w && t[|w| + 1..] == c;
    assert DigitCount(c) == |c| by {
      assert c + "" == c;
      DigitsThenOther(c, "");
    }
  }

  lemma ScanPlain(w: string)
    requires AllDigits(w)
    ensures Scan(w) == Literal(w, "", "")
  {
    assert w + "" == w;
    DigitsThenOther(w, "");
  }

  lemma EvaluatePlain(w: string, c: string)
    requires AllDigits(w) && AllDigits(c) && w + c != ""
    ensures Evaluate(Literal(w, c, "")) == Some(NatOf(w + c) as real / Pow10(|c|) as real)
  {
    NoExponent();
    NotScaled(NatOf(w + c) as real / Pow10(|c|) as real);
  }

  lemma NoExponent()
    ensures ParseExponent("") == Some(0)
  {
  }

  lemma NotScaled(x: real)
    ensures ScaleBy10(x, 0) == x
  {
    assert Pow10(0) as real == 1.0;
  }

  lemma AmountParses(a: Amount)
    requires a.Valid()
    ensures ParseDecimal(a.Unsigned()) == Some(Hundredths(a.Magnitude()))
  {
    var n := NatOfAppend(a.whole, a.cents);
    MagnitudeScaled(a, n);
    Fractions(n, Pow10(|a.cents|), a.Magnitude());
    AmountScans(a);
    EvaluatePlain(a.whole, a.cents);
  }

  lemma AmountScans(a: Amount)
    requires a.Valid()
    ensures Scan(a.Unsigned()) == Literal(a.whole, a.cents, "")
  {
    if a.pointed {
      ScanPointed(a.whole, a.cents);
    } else {
      assert a.Unsigned() == a.whole;
      ScanPlain(a.whole);
    }
  }

  lemma MagnitudeScaled(a: Amount, n: nat)
    requires a.Valid() && n == NatOf(a.whole) * Pow10(|a.cents|) + NatOf(a.cents)
    requires Pow10(|a.cents|) == if |a.cents| == 0 then 1 else if |a.cents| == 1 then 10 else 100
    ensures a.Magnitude() * Pow10(|a.cents|) == 100 * n
  {
  }

  lemma Fractions(n: nat, d: nat, m: nat)
    requires d > 0 && m * d == 100 * n
    ensures n as real / d as real == Hundredths(m)
  {
    var x := m as real / 100.0;
    assert m as real * d as real == 100.0 * n as real;
    assert x * d as real == n as real;
  }

  lemma LowerStart(s: string)
    requires s != "" && (IsDigit(s[0]) || s[0] == '.')
    ensures Lower(s) != "" && Lower(s)[0] == s[0]
  {
  }

  lemma BareReads(body: string, x: real)
    requires body != "" && (IsDigit(body[0]) || body[0] == '.') && ParseDecimal(body) == Some(x)
    ensures PyFloat(body) == Some(ToDouble(x))
  {
    LowerStart(body);
    assert Lower(body)[0] != "inf"[0] && Lower(body)[0] != "infinity"[0] && Lower(body)[0] != "nan"[0];
  }

  lemma SignReads(sign: char, body: string, x: real)
    requires sign == '+' || sign == '-'
    requires body != "" && (IsDigit(body[0]) || body[0] == '.') && ParseDecimal(body) == Some(x)
    ensures PyFloat([sign] + body) == Some(ToDouble(if sign == '-' then -x else x))
  {
    var t := [sign] + body;
    assert t[0] == sign && t[1..] == body;
    LowerStart(body);
    assert Lower(body)[0] != "inf"[0] && Lower(body)[0] != "infinity"[0] && Lower(body)[0] != "nan"[0];
  }

  lemma UnsignedStart(a: Amount)
    requires a.Valid()
    ensures a.Unsigned() != "" && (IsDigit(a.Unsigned()[0]) || a.Unsigned()[0] == '.')
  {
    if a.whole != "" { assert a.Unsigned()[0] == a.whole[0]; }
  }

  lemma SignedReads(sign: Sign, body: string, x: real)
    requires body != "" && (IsDigit(body[0]) || body[0] == '.') && ParseDecimal(body) == Some(x)
    ensures PyFloat(sign.Text() + body) == Some(ToDouble(if sign == Minus then -x else x))
  {
    match sign
    case Unmarked =>
      assert sign.Text() + body == body;
      BareReads(body, x);
    case Plus => SignReads('+', body, x);
    case Minus => SignReads('-', body, x);
  }

  lemma SignedValue(a: Amount)
    requires a.Valid()
    ensures Hundredths(a.Paise())
            == if a.sign == Minus then -Hundredths(a.Magnitude()) else Hundredths(a.Magnitude())
  {
    NegativeHundredths(a.Magnitude());
  }

  lemma AmountReads(a: Amount)
    requires a.Valid()
    ensures PyFloat(a.Text()) == Some(ToDouble(Hundredths(a.Paise())))
  {
    UnsignedStart(a);
    AmountParses(a);
    SignedValue(a);
    SignedReads(a.sign, a.Unsigned(), Hundredths(a.Magnitude()));
  }

  lemma TextReads(a: Amount, s: string)
    requires a.Valid() && Cleaned(s) == a.Text()
    ensures TextToPaise(s) == IntRound(Times100(ToDouble(Hundredths(a.Paise()))))
  {
    assert a.Text() != "";
    AmountReads(a);
  }

  lemma TextExact(a: Amount, s: string)
    requires a.Valid() && Cleaned(s) == a.Text() && -LIMIT <= a.Paise() <= LIMIT
    ensures TextToPaise(s) == Value(a.Paise())
  {
    var p := a.Paise();
    TextReads(a, s);
    TwiceRounded(p);
  }

  /** However an amount of up to `LIMIT` paise is written, with commas and surrounding blanks, the
      connector makes it exactly that many paise, and the normalizer leaves the number alone. */
  lemma PaiseExact(a: Amount, s: string)
    requires a.Valid() && Cleaned(s) == a.Text() && -LIMIT <= a.Paise() <= LIMIT
    ensures ConnectorToPaise(StrValue(s)) == Value(a.Paise())
    ensures NormalizerToPaise(IntValue(ConnectorToPaise(StrValue(s)).n)) == Value(a.Paise())
    ensures NormalizerToPaise(StrValue(s)) == Value(a.Paise())
  {
    TextExact(a, s);
  }

  function Digit(d: nat): char
    requires d < 10
  {
    (d + '0' as int) as char
  }

  /** `str(n)`. */
  function Print(n: nat): (s: string)
    ensures s != "" && AllDigits(s)
  {
    if n < 10 then [Digit(n)] else Print(n / 10) + [Digit(n % 10)]
  }

  lemma {:induction false} PrintReads(n: nat)
    ensures NatOf(Print(n)) == n
  {
    if n < 10 {
      assert Print(n)[..0] == "";
    } else {
      PrintReads(n / 10);
      assert Print(n)[..|Print(n)| - 1] == Print(n / 10);
    }
  }

  /** An amount written with two decimals, `-1234.05`. */
  function Written(p: int): Amount {
    var m := if p < 0 then -p else p;
    Amount(if p < 0 then Minus else Unmarked, Print(m / 100), true, [Digit(m / 10 % 10), Digit(m % 10)])
  }

  lemma WrittenMeans(p: int)
    ensures Written(p).Valid() && Written(p).Paise() == p
  {
    var m := if p < 0 then -p else p;
    var c := Written(p).cents;
    PrintReads(m / 100);
    assert c[..1] == [c[0]] && c[..1][..0] == "";
    assert NatOf(c[..1]) == m / 10 % 10;
    assert NatOf(c) == 10 * (m / 10 % 10) + m % 10 == m % 100;
  }

  /** Written out with two decimals and read back, every amount up to the limit returns. */
  lemma PaiseRoundTrip(p: int)
    requires -LIMIT <= p <= LIMIT
    ensures ConnectorToPaise(StrValue(Written(p).Text())) == Value(p)
  {
    WrittenMeans(p);
    OwnTextReads(Written(p));
    TwiceRounded(p);
  }

  lemma OwnTextReads(a: Amount)
    requires a.Valid()
    ensures TextToPaise(a.Text()) == IntRound(Times100(ToDouble(Hundredths(a.Paise()))))
  {
    AmountIsClean(a);
    TextReads(a, a.Text());
  }

  /** The limit cannot be raised: the next amount, 35184372088832.05, comes back one paisa short. */
  lemma PaiseInexactBeyond(p: int)
    requires p == LIMIT + 1
    ensures ConnectorToPaise(StrValue(Written(p).Text())) == Value(p - 1)
  {
    WrittenMeans(p);
    OwnTextReads(Written(p));
    LimitIsSharp();
  }

  // ---------- commas and blanks ----------

  /** Commas anywhere and blanks around the text do not matter. */
  lemma CommasAndBlanksIgnored(before: string, body: string, after: string, clean: string)
    requires Text.AllSpaces(before) && Text.AllSpaces(after) && Text.RemoveCommas(body) == clean
    requires clean != "" && !Text.IsSpace(clean[0]) && !Text.IsSpace(clean[|clean| - 1])
    ensures Cleaned(before + (body + after)) == clean
  {
    Text.RemoveCommasAppend(before, body + after);
    Text.RemoveCommasAppend(body, after);
    Text.NothingToRemove(before);
    Text.NothingToRemove(after);
    Text.StripPadded(before, clean, after);
  }

  lemma AmountIsClean(a: Amount)
    requires a.Valid()
    ensures Cleaned(a.Text()) == a.Text()
  {
    var t := a.Text();
    AmountCharacters(a);
    Text.NothingToRemove(t);
    Text.StripPadded("", t, "");
    assert "" + (t + "") == t;
  }

  lemma AmountCharacters(a: Amount)
    requires a.Valid()
    ensures a.Text() != "" && Text.NoCommas(a.Text())
    ensures forall i | 0 <= i < |a.Text()| :: !Text.IsSpace(a.Text()[i])
  {
    var sign := a.sign.Text();
    var s, w := |sign|, |sign| + |a.whole|;
    var t, p := a.Text(), if a.pointed then w + 1 else w;
    forall i | 0 <= i < |t| ensures !Text.IsSpace(t[i]) && t[i] != ',' {
      assert t[i] == if i < s then sign[i] else if i < w then a.whole[i - s] else if i < p then '.' else a.cents[i - p];
    }
  }

  // ---------- quantities ----------

  lemma NearestSmallInteger(n: nat)
    requires 0 < n < 9007199254740992
    ensures Nearest(n as real) == n as real
  {
    var m := UlpReciprocal(n);
    WholeSteps(n, Ulp(n as real), m);
  }

  /** Below 2^53 the spacing is one over a power of two. */
  lemma UlpReciprocal(n: nat) returns (m: nat)
    requires 0 < n < 9007199254740992
    ensures Ulp(n as real) * m as real == 1.0
  {
    var k := ExponentBelow53(n);
    UlpAt(n as real, k);
    ReciprocalAt(k - 52, 52 - k);
    m := TwoTo(52 - k);
  }

  lemma ExponentBelow53(n: nat) returns (k: int)
    requires 0 < n < 9007199254740992
    ensures 0 <= k <= 52 && Pow2(k) <= n as real < Pow2(k + 1)
  {
    k := Log2(n as real);
    LargePowers();
    Log2Bound(n as real, 53);
    Log2Bound(n as real, 0);
  }

  /** Whole numbers up to 2^53 are doubles. */
  lemma NearestInteger(n: nat)
    requires n <= 9007199254740992
    ensures Nearest(n as real) == n as real
  {
    if n == 9007199254740992 {
      LargePowers();
      Pow2Next(0);
      Pow2Next(53);
      UlpAt(n as real, 53);
      RoundEvenNear(4503599627370496.0, 4503599627370496);
      assert n as real / 2.0 == 4503599627370496.0;
    } else if n > 0 {
      NearestSmallInteger(n);
    }
  }

  /** If the spacing is one over a whole number, whole numbers are representable. */
  lemma WholeSteps(n: nat, q: real, m: nat)
    requires q > 0.0 && q * m as real == 1.0
    ensures RoundEven(n as real / q) as real * q == n as real
  {
    var y := (n * m) as real;
    assert y == n as real * m as real;
    assert y * q == n as real * (m as real * q) == n as real;
    assert n as real / q == y;
    RoundEvenNear(y, n * m);
  }

  lemma {:induction false} Reciprocal(n: int)
    requires n >= 0
    ensures Pow2(-n) * TwoTo(n) as real == 1.0
  {
    if n > 0 {
      Reciprocal(n - 1);
      Pow2Next(-n);
    }
  }

  lemma ReciprocalAt(e: int, n: int)
    requires n >= 0 && e == -n
    ensures Pow2(e) * TwoTo(n) as real == 1.0
  {
    Reciprocal(n);
  }

  lemma TruncatesExactly(n: int)
    requires -9007199254740992 <= n <= 9007199254740992
    ensures IntTrunc(ToDouble(n as real)) == Value(n)
  {
    var m := if n < 0 then -n else n;
    NearestInteger(m);
    NearestNegates(m as real);
    LargePowers();
    Pow2Next(53);
    Pow2Monotone(54, 1024);
  }

  /** A whole quantity of up to 2^53 is read exactly, with or without a decimal point behind it. */
  lemma QuantityExact(a: Amount, s: string)
    requires a.Valid() && a.cents == "" && NatOf(a.whole) <= 9007199254740992 && Cleaned(s) == a.Text()
    ensures ConnectorToInt(StrValue(s)) == Value(if a.sign.Minus? then -(NatOf(a.whole) as int) else NatOf(a.whole))
  {
    var n: int := if a.sign.Minus? then -(NatOf(a.whole) as int) else NatOf(a.whole);
    AmountReads(a);
    assert Hundredths(a.Paise()) == n as real;
    TruncatesExactly(n);
    AmountCharacters(a);
  }

  /** A whole number, written without a decimal point. */
  function Whole(n: int): Amount {
    Amount(if n < 0 then Minus else Unmarked, Print(if n < 0 then -n else n), false, "")
  }

  /** Written out and read back, every quantity up to 2^53 either way returns. */
  lemma WholeReads(n: int)
    requires -9007199254740992 <= n <= 9007199254740992
    ensures ConnectorToInt(StrValue(Whole(n).Text())) == Value(n)
  {
    var m: nat := if n < 0 then -n else n;
    PrintReads(m);
    AmountIsClean(Whole(n));
    QuantityExact(Whole(n), Whole(n).Text());
  }

  /** 2^53 + 1 is the first that does not: it is read as 2^53. */
  lemma QuantityInexactBeyond(n: int)
    requires n == 9007199254740993
    ensures ConnectorToInt(StrValue(Whole(n).Text())) == Value(n - 1)
  {
    PrintReads(n);
    WholeText(Whole(n), n);
    NextIntegerTruncates(n);
  }

  lemma WholeText(a: Amount, n: int)
    requires a.Valid() && a.cents == "" && n == if a.sign.Minus? then -(NatOf(a.whole) as int) else NatOf(a.whole)
    ensures ConnectorToInt(StrValue(a.Text())) == ZeroOnValueError(IntTrunc(ToDouble(n as real)))
  {
    AmountIsClean(a);
    AmountReads(a);
    assert Hundredths(a.Paise()) == n as real;
    AmountCharacters(a);
  }

  lemma NextIntegerTruncates(n: int)
    requires n == 9007199254740993
    ensures IntTrunc(ToDouble(n as real)) == Value(n - 1)
  {
    LargePowers();
    Pow2Next(0);
    Pow2Next(53);
    UlpAt(n as real, 53);
    assert n as real / 2.0 == 4503599627370496.5;
    assert (4503599627370496.5).Floor == 4503599627370496;
    Pow2Monotone(54, 1024);
  }
}
