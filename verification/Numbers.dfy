/** What the converters make of numbers that are not whole, of texts that are no numbers, of nothing at all, and
    of decimals with an exponent. */
module Numbers {
  import opened Wrappers
  import opened Float64
  import opened Text
  import opened Paise
  import opened Overflow

  // ---------- rounding ----------

  /** The nearest whole number; of two that are equally near, the even one. */
  lemma RoundsIff(y: real, n: int)
    ensures RoundEven(y) == n <==>
      || -0.5 < n as real - y < 0.5
      || ((n as real - y == 0.5 || n as real - y == -0.5) && n % 2 == 0)
  {
    if -0.5 < n as real - y < 0.5 { RoundEvenNear(y, n); }
  }

  /** A double has 53 significant bits, down to the smallest normal number; below it the spacing stays the same. */
  lemma SignificantBits(x: real, least: int)
    requires x > 0.0 && least == -1022
    ensures x >= Pow2(least) ==> exists k: int :: Ulp(x) == Pow2(k - 52) && Pow2(k) <= x < Pow2(k + 1)
    ensures x < Pow2(least) ==> Ulp(x) == Pow2(least - 52)
  {
    Log2Bound(x, least);
    var k := Log2(x);
    if x >= Pow2(least) { assert Ulp(x) == Pow2(k - 52) && Pow2(k) <= x < Pow2(k + 1); }
  }

  // ---------- place value ----------

  /** Each digit counts ten times as much for each digit behind it. */
  lemma {:induction false} PlaceValue(s: string, t: string)
    requires AllDigits(s) && AllDigits(t)
    ensures AllDigits(s + t) && NatOf(s + t) == NatOf(s) * Pow10(|t|) + NatOf(t)
  {
    if t == "" {
      assert s + t == s;
    } else {
      var init := t[..|t| - 1];
      PlaceValue(s, init);
      assert (s + t)[..|s + t| - 1] == s + init && (s + t)[|s + t| - 1] == t[|t| - 1];
      OneMorePlace(NatOf(s), Pow10(|init|), NatOf(init), t[|t| - 1] as int - '0' as int);
    }
  }

  lemma OneMorePlace(n: nat, p: nat, m: nat, d: int)
    ensures 10 * (n * p + m) + d == n * (10 * p) + (10 * m + d)
  {
  }

  lemma TensAndUnits()
    ensures Pow10(0) == 1
    ensures forall n: nat :: Pow10(n + 1) == 10 * Pow10(n)
    ensures forall c: char :: IsDigit(c) ==> NatOf([c]) == c as int - '0' as int
  {
    forall c: char | IsDigit(c) ensures NatOf([c]) == c as int - '0' as int {
      assert [c][..0] == "";
    }
  }

  /** Twelve hundred and thirty-four rupees and five paise, owed. */
  lemma FamiliarAmount()
    ensures ConnectorToPaise(StrValue(" -1,234.05 ")) == Value(-123405)
  {
    var a := Amount(Minus, "1234", true, "05");
    FamiliarDigits();
    assert a.Text() == "-1234.05" && a.Paise() == -123405;
    FamiliarText();
    PaiseExact(a, " -1,234.05 ");
  }

  lemma FamiliarDigits()
    ensures AllDigits("1234") && NatOf("1234") == 1234
    ensures AllDigits("05") && NatOf("05") == 5
  {
    TwoDigits('0', '5');
    TwoDigits('1', '2');
    TwoDigits('3', '4');
    PlaceValue(['1', '2'], ['3', '4']);
    assert "05" == ['0', '5'] && "1234" == ['1', '2'] + ['3', '4'];
    assert Pow10(1) == 10 && Pow10(2) == 100;
  }

  lemma TwoDigits(c: char, d: char)
    requires IsDigit(c) && IsDigit(d)
    ensures NatOf([c, d]) == 10 * (c as int - '0' as int) + (d as int - '0' as int)
  {
    TensAndUnits();
    assert [c, d][..1] == [c];
  }

  lemma FamiliarText()
    ensures Cleaned(" -1,234.05 ") == "-1234.05"
  {
    CommaIgnored(" ", "-1", "234.05", " ");
    assert " " + ("-1" + ("," + "234.05") + " ") == " -1,234.05 " && "-1" + "234.05" == "-1234.05";
  }

  lemma CommaIgnored(before: string, s: string, t: string, after: string)
    requires Text.AllSpaces(before) && Text.AllSpaces(after) && Text.NoCommas(s) && Text.NoCommas(t)
    requires s != "" && t != "" && !Text.IsSpace(s[0]) && !Text.IsSpace(t[|t| - 1])
    ensures Cleaned(before + (s + ("," + t) + after)) == s + t
  {
    CommaRemoved(s, t);
    CommasAndBlanksIgnored(before, s + ("," + t), after, s + t);
  }

  lemma CommaRemoved(s: string, t: string)
    requires Text.NoCommas(s) && Text.NoCommas(t)
    ensures Text.RemoveCommas(s + ("," + t)) == s + t
  {
    Text.NothingToRemove(s);
    Text.RemoveCommasAppend(s, "," + t);
    FirstComma(t);
  }

  lemma FirstComma(t: string)
    requires Text.NoCommas(t)
    ensures Text.RemoveCommas("," + t) == t
  {
    Text.NothingToRemove(t);
    assert ("," + t)[1..] == t;
  }

  // ---------- truncation ----------

  /** `int(d)` drops the fraction: the result lies between zero and the number, less than one away. */
  lemma TruncatesIff(r: real, n: int)
    ensures IntTrunc(Finite(r)) == Value(n) <==>
      if r >= 0.0 then 0 <= n && n as real <= r < n as real + 1.0 else n <= 0 && n as real - 1.0 < r <= n as real
  {
    if r >= 0.0 {
      FloorIff(r, n);
    } else {
      FloorIff(-r, -n);
    }
  }

  lemma FloorIff(r: real, n: int)
    requires r >= 0.0
    ensures r.Floor == n <==> n as real <= r < n as real + 1.0
    ensures r.Floor >= 0
  {
  }

  /** Reading `w` rupees and `c` hundredths off the tape never reaches the next whole number, nor falls below `w`. */
  lemma HundredthsStayWithin(w: nat, c: nat)
    requires w <= 35184372088832 && c < 100
    ensures w as real <= Nearest(Hundredths(100 * w + c)) < w as real + 1.0
  {
    var x := Hundredths(100 * w + c);
    assert x == w as real + c as real / 100.0;
    if c == 0 {
      NearestInteger(w);
    } else {
      LargePowers();
      SmallPowers();
      UlpBelow(x, 45);
      NearestBound(x);
    }
  }

  /** The whole part of a written amount, with its sign. */
  function WholePart(a: Amount): int
    requires a.Valid()
  {
    if a.sign.Minus? then -(NatOf(a.whole) as int) else NatOf(a.whole)
  }

  lemma CentsBelow100(a: Amount) returns (c: nat)
    requires a.Valid()
    ensures c < 100 && a.Magnitude() == 100 * NatOf(a.whole) + c
  {
    c := a.Magnitude() - 100 * NatOf(a.whole);
    FewDigits(a.cents);
  }

  lemma FewDigits(c: string)
    requires AllDigits(c) && |c| <= 2
    ensures NatOf(c) < Pow10(|c|) <= 100
  {
    if c != "" {
      assert IsDigit(c[|c| - 1]);
      assert |c| == 2 ==> NatOf(c[..1]) == 10 * NatOf(c[..1][..0]) + (c[0] as int - '0' as int) && c[..1][..0] == "";
      assert |c| == 1 ==> c[..0] == "";
    }
  }

  lemma TruncatedHundredths(w: nat, c: nat, negative: bool)
    requires w <= 35184372088832 && c < 100
    ensures var v := Hundredths(100 * w + c);
      IntTrunc(ToDouble(if negative then -v else v)) == Value(if negative then -(w as int) else w)
  {
    var v := Hundredths(100 * w + c);
    HundredthsStayWithin(w, c);
    assert v < 35184372088833.0;
    NearestInRange(v);
    if negative {
      TruncatesIff(-Nearest(v), -(w as int));
    } else {
      TruncatesIff(Nearest(v), w);
    }
  }

  lemma AmountTruncated(a: Amount)
    requires a.Valid() && NatOf(a.whole) <= 35184372088832
    ensures IntTrunc(ToDouble(Hundredths(a.Paise()))) == Value(WholePart(a))
  {
    SignedValue(a);
    var c := CentsBelow100(a);
    TruncatedHundredths(NatOf(a.whole), c, a.sign.Minus?);
  }

  /** A quantity with up to two decimals is cut down to its whole part, towards zero: `2.75` is 2 and `-2.75` is -2. */
  lemma QuantityTruncated(a: Amount, s: string)
    requires a.Valid() && NatOf(a.whole) <= 35184372088832 && Cleaned(s) == a.Text()
    ensures ConnectorToInt(StrValue(s)) == Value(WholePart(a))
  {
    AmountReads(a);
    AmountCharacters(a);
    IntOfText(s, ToDouble(Hundredths(a.Paise())));
    AmountTruncated(a);
  }

  lemma IntOfText(s: string, d: Double)
    requires Cleaned(s) != "" && PyFloat(Cleaned(s)) == Some(d)
    ensures ConnectorToInt(StrValue(s)) == ZeroOnValueError(IntTrunc(d))
  {
  }

  // ---------- numbers that are no text ----------

  /** An integer number of rupees becomes a hundred times as many paise. */
  lemma IntegerRupees(n: int)
    requires -35184372088832 <= n <= 35184372088832
    ensures ConnectorToPaise(IntValue(n)) == Value(100 * n)
    ensures NormalizerToPaise(IntValue(n)) == Value(n)
  {
    TwiceRounded(100 * n);
    assert Hundredths(100 * n) == n as real;
  }

  /** An integer quantity stays what it is. */
  lemma IntegerQuantity(n: int)
    requires -9007199254740992 <= n <= 9007199254740992
    ensures ConnectorToInt(IntValue(n)) == Value(n)
  {
    TruncatesExactly(n);
  }

  /** Nothing, and what is not a number, count as zero. */
  lemma NothingIsZero()
    ensures ConnectorToPaise(NoValue) == Value(0) && ConnectorToInt(NoValue) == Value(0)
    ensures ConnectorToPaise(FloatValue(NaN)) == Value(0) && ConnectorToInt(FloatValue(NaN)) == Value(0)
    ensures NormalizerToPaise(NoValue) == Value(0)
  {
  }

  // ---------- texts that are no numbers ----------

  /** A text of nothing but blanks and commas is zero, for the normalizer as well. */
  lemma BlankIsZero(s: string)
    requires Cleaned(s) == ""
    ensures ConnectorToPaise(StrValue(s)) == Value(0) && ConnectorToInt(StrValue(s)) == Value(0)
    ensures NormalizerToPaise(StrValue(s)) == Value(0)
  {
  }

  predicate IsWord(t: string) { Lower(t) == "inf" || Lower(t) == "infinity" || Lower(t) == "nan" }

  /** A text that is neither a decimal number nor one of the three words is zero for the connector; the normalizer
      raises. */
  lemma UnreadableIsZero(s: string)
    requires Cleaned(s) != "" && !IsDecimal(Unsigned(Cleaned(s))) && !IsWord(Unsigned(Cleaned(s)))
    ensures ConnectorToPaise(StrValue(s)) == Value(0) && ConnectorToInt(StrValue(s)) == Value(0)
    ensures NormalizerToPaise(StrValue(s)) == ValueError
  {
    DecimalIff(Unsigned(Cleaned(s)));
    FloatOfOther(Cleaned(s));
  }

  /** `nan` is a number, but no amount and no quantity. */
  lemma NaNIsZero(s: string)
    requires Cleaned(s) != "" && Lower(Unsigned(Cleaned(s))) == "nan"
    ensures ConnectorToPaise(StrValue(s)) == Value(0) && ConnectorToInt(StrValue(s)) == Value(0)
    ensures NormalizerToPaise(StrValue(s)) == ValueError
  {
  }

  // ---------- which texts are numbers ----------

  function Exponent(mark: char, sign: Sign, e: string): string { [mark] + (sign.Text() + e) }

  predicate IsNumeral(e: string) { AllDigits(e) && e != "" }

  /** A letter and a whole number, with or without a sign. */
  predicate IsExponent(x: string, mark: char, sign: Sign, e: string) {
    (mark == 'e' || mark == 'E') && IsNumeral(e) && x == Exponent(mark, sign, e)
  }

  ghost predicate ExponentText(x: string) { x == "" || exists mark, sign, e :: IsExponent(x, mark, sign, e) }

  function DecimalText(w: string, pointed: bool, c: string, x: string): string {
    if pointed then w + ("." + (c + x)) else w + x
  }

  /** Digits, perhaps with a point before, among or behind them, and perhaps an exponent. */
  ghost predicate Spelled(t: string, w: string, pointed: bool, c: string, x: string) {
    && AllDigits(w) && AllDigits(c) && w + c != "" && (!pointed ==> c == "") && ExponentText(x)
    && t == DecimalText(w, pointed, c, x)
  }

  ghost predicate IsDecimal(t: string) { exists w, pointed, c, x :: Spelled(t, w, pointed, c, x) }

  /** Exactly these texts are unsigned numbers, but for the three words. */
  lemma DecimalIff(t: string)
    ensures ParseDecimal(t).Some? <==> IsDecimal(t)
  {
    if ParseDecimal(t).Some? {
      var l := Scan(t);
      ExponentIff(l.rest);
      var pointed := DigitCount(t) < |t| && t[DigitCount(t)] == '.';
      ScanSplits(t, pointed);
      assert Spelled(t, l.whole, pointed, l.fraction, l.rest);
    } else if IsDecimal(t) {
      var w, pointed, c, x :| Spelled(t, w, pointed, c, x);
      ExponentIff(x);
      SpelledScans(t, w, pointed, c, x);
    }
  }

  /** Without an exponent: the digits as a whole number, with as many places behind the point as stand there. */
  lemma PlainMeans(t: string, w: string, pointed: bool, c: string)
    requires Spelled(t, w, pointed, c, "")
    ensures ParseDecimal(t) == Some(NatOf(w + c) as real / Pow10(|c|) as real)
  {
    SpelledScans(t, w, pointed, c, "");
    EvaluatePlain(w, c);
  }

  /** With one, that number moved by as many places. */
  lemma ExponentMeans(t: string, w: string, pointed: bool, c: string, x: string, mark: char, sign: Sign, e: string)
    requires Spelled(t, w, pointed, c, x) && IsExponent(x, mark, sign, e)
    ensures ParseDecimal(t) == Some(ScaleBy10(NatOf(w + c) as real / Pow10(|c|) as real, Signed(sign, NatOf(e))))
  {
    SpelledScans(t, w, pointed, c, x);
    ExponentParses(x, mark, sign, e);
  }

  function Signed(sign: Sign, n: nat): int { if sign.Minus? then -(n as int) else n }

  /** To the left, and back to the right. */
  lemma PlacesMoved(r: real, n: int)
    requires n >= 0
    ensures ScaleBy10(r, n) == r * Pow10(n) as real
    ensures ScaleBy10(ScaleBy10(r, -n), n) == r
  {
    if n == 0 {
      NotScaled(r);
    } else {
      MovedLeft(r, n);
      Cancels(r, Pow10(n) as real);
    }
  }

  lemma MovedLeft(r: real, n: int)
    requires n > 0
    ensures ScaleBy10(r, -n) == r / Pow10(n) as real
  {
    assert -(-n) == n;
  }

  lemma Cancels(r: real, p: real)
    requires p > 0.0
    ensures r / p * p == r
  {
  }

  // Scanning.

  lemma ScanSplits(t: string, pointed: bool)
    requires pointed == (DigitCount(t) < |t| && t[DigitCount(t)] == '.')
    ensures var l := Scan(t);
      t == DecimalText(l.whole, pointed, l.fraction, l.rest) && (!pointed ==> l.fraction == "")
  {
    var i := DigitCount(t);
    SplitAt(t, i);
    if pointed { SplitAt(t[i + 1..], DigitCount(t[i + 1..])); }
  }

  lemma SplitAt(t: string, i: nat)
    requires i <= |t|
    ensures t == t[..i] + t[i..]
    ensures i < |t| ==> t[i..] == [t[i]] + t[i + 1..]
  {
  }

  lemma SpelledScans(t: string, w: string, pointed: bool, c: string, x: string)
    requires Spelled(t, w, pointed, c, x)
    ensures Scan(t) == Literal(w, c, x)
  {
    if pointed {
      ScanPointedText(w, c, x);
    } else {
      ScanPlainText(w, x);
    }
  }

  lemma CutAfterDigits(w: string, x: string)
    requires AllDigits(w) && (x != "" ==> !IsDigit(x[0]))
    ensures DigitCount(w + x) == |w| && (w + x)[..|w|] == w && (w + x)[|w|..] == x
  {
    DigitsThenOther(w, x);
  }

  lemma ScanPlainText(w: string, x: string)
    requires AllDigits(w) && (x != "" ==> !IsDigit(x[0]) && x[0] != '.')
    ensures Scan(w + x) == Literal(w, "", x)
  {
    CutAfterDigits(w, x);
    if x != "" { assert (w + x)[|w|] == x[0]; }
  }

  lemma ScanPointedText(w: string, c: string, x: string)
    requires AllDigits(w) && AllDigits(c) && (x != "" ==> !IsDigit(x[0]))
    ensures Scan(w + ("." + (c + x))) == Literal(w, c, x)
  {
    var tail := "." + (c + x);
    CutAfterDigits(w, tail);
    CutAfterDigits(c, x);
    assert (w + tail)[|w|] == '.' && (w + tail)[|w| + 1..] == c + x;
  }

  // Exponents.

  lemma ExponentIff(x: string)
    ensures ParseExponent(x).Some? <==> ExponentText(x)
  {
    if x != "" {
      if ParseExponent(x).Some? {
        var sign, e := ExponentFound(x);
        assert IsExponent(x, x[0], sign, e);
      } else if ExponentText(x) {
        var mark, sign, e :| IsExponent(x, mark, sign, e);
        ExponentParses(x, mark, sign, e);
      }
    }
  }

  lemma ExponentFound(x: string) returns (sign: Sign, e: string)
    requires x != "" && ParseExponent(x).Some?
    ensures IsExponent(x, x[0], sign, e)
  {
    var signed := |x| > 1 && (x[1] == '+' || x[1] == '-');
    e := if signed then x[2..] else x[1..];
    sign := if !signed then Unmarked else if x[1] == '+' then Plus else Minus;
    NumeralFound(e);
    SignFound(x, sign, e);
  }

  lemma NumeralFound(e: string)
    requires WholeNumber(e).Some?
    ensures IsNumeral(e)
  {
    assert e[..|e|] == e;
  }

  lemma SignFound(x: string, sign: Sign, e: string)
    requires x != "" && (sign.Unmarked? ==> e == x[1..])
    requires !sign.Unmarked? ==> |x| > 1 && e == x[2..] && x[1] == if sign.Plus? then '+' else '-'
    ensures x == Exponent(x[0], sign, e)
  {
    OneOff(x);
    if sign.Unmarked? {
      assert sign.Text() + e == e;
    } else {
      OneOff(x[1..]);
      assert sign.Text() == [x[1]] && x[1..][1..] == e;
    }
  }

  lemma OneOff(x: string)
    requires x != ""
    ensures x == [x[0]] + x[1..]
  {
  }

  lemma ExponentParses(x: string, mark: char, sign: Sign, e: string)
    requires IsExponent(x, mark, sign, e)
    ensures ParseExponent(x) == Some(Signed(sign, NatOf(e)))
  {
    DigitsAreNumber(e);
    if sign.Unmarked? {
      assert x == [mark] + e;
      assert x[1..] == e && x[1] == e[0];
    } else {
      TwoInFront(mark, sign.Text()[0], e, x);
    }
  }

  lemma DigitsAreNumber(e: string)
    requires IsNumeral(e)
    ensures WholeNumber(e) == Some(NatOf(e))
  {
    CutAfterDigits(e, "");
    assert e + "" == e && e[..|e|] == e;
  }

  lemma TwoInFront(a: char, b: char, e: string, t: string)
    requires t == [a] + ([b] + e)
    ensures |t| > 1 && t[0] == a && t[1] == b && t[2..] == e
  {
  }
}
