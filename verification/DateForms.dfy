/** The texts of a date, form by form, with or without leading zeros, and the calendar behind them: exactly
    which texts are read as which date. */
module DateForms {
  import opened Wrappers
  import opened Text
  import opened Dates

  // ---------- the calendar ----------

  /** The twenty-ninth of February exists in every fourth year but the full hundreds, of which only every fourth
      has it. */
  lemma LeapDays(y: int)
    ensures ValidDate(Date(y, 2, 29)) <==> 1 <= y <= 9999 && y % 4 == 0 && (y % 100 == 0 ==> y % 400 == 0)
    ensures ValidDate(Date(2024, 2, 29)) && ValidDate(Date(2000, 2, 29))
    ensures !ValidDate(Date(2100, 2, 29)) && !ValidDate(Date(2023, 2, 29))
  {
  }

  /** Thirty days hath September. */
  lemma MonthLengths(y: int, m: int, d: int)
    requires 1 <= y <= 9999 && m != 2
    ensures ValidDate(Date(y, m, d)) <==> 1 <= m <= 12 && 1 <= d <= (if m in {4, 6, 9, 11} then 30 else 31)
  {
  }

  // ---------- numbers in dates ----------

  /** The text of a day or a month: two digits, or one where that is enough. */
  predicate Numeral(t: string, n: int) {
    && 1 <= n <= 31 && (|t| == 1 || |t| == 2) && (forall i | 0 <= i < |t| :: IsDigit(t[i]))
    && n == if |t| == 1 then t[0] as int - 48 else 10 * (t[0] as int - 48) + (t[1] as int - 48)
  }

  /** For a day, a blank and one digit are as good. */
  predicate DayText(t: string, n: int) {
    Numeral(t, n) || (|t| == 2 && t[0] == ' ' && '1' <= t[1] <= '9' && n == t[1] as int - 48)
  }

  predicate NumberText(d: Directive, t: string, n: int) {
    (d.Month? && n <= 12 && Numeral(t, n)) || (d.Day? && DayText(t, n))
  }

  /** The text of a year: four digits. */
  predicate YearText(t: string, y: int) {
    && |t| == 4 && (forall i | 0 <= i < 4 :: IsDigit(t[i]))
    && y == 1000 * (t[0] as int - 48) + 100 * (t[1] as int - 48) + 10 * (t[2] as int - 48) + (t[3] as int - 48)
  }

  lemma MatchNumber(d: Directive, k: Format, t: string, n: int, rest: string, x: Date, m: Matched)
    requires NumberText(d, t, n) && (rest != "" ==> !IsDigit(rest[0])) && Match(k, rest, Set(x, d, n)) == Some(m)
    ensures Match(Then(d, k), t + rest, x) == Some(m)
  {
    if |t| == 1 {
      assert (t + rest)[1..] == rest;
    } else {
      assert (t + rest)[2..] == rest;
    }
  }

  lemma MatchTwoCharacters(d: Directive, k: Format, t: string, n: int, rest: string, x: Date, m: Matched)
    requires NumberText(d, t, n) && |t| == 2 && Match(k, rest, Set(x, d, n)) == Some(m)
    ensures Match(Then(d, k), t + rest, x) == Some(m)
  {
    assert (t + rest)[2..] == rest;
  }

  lemma MatchYear(k: Format, t: string, y: int, rest: string, x: Date, m: Matched)
    requires YearText(t, y) && Match(k, rest, x.(year := y)) == Some(m)
    ensures Match(Then(Year, k), t + rest, x) == Some(m)
  {
    assert (t + rest)[4..] == rest;
  }

  lemma MatchLiteral(c: char, k: Format, rest: string, x: Date, m: Matched)
    requires Match(k, rest, x) == Some(m)
    ensures Match(Then(Literal(c), k), [c] + rest, x) == Some(m)
  {
    assert ([c] + rest)[1..] == rest;
  }

  // ---------- the five forms ----------

  predicate Parts(y: string, m: string, d: string, x: Date) {
    YearText(y, x.year) && Numeral(m, x.month) && DayText(d, x.day)
  }

  /** Year, month and day; day, month and year; or, with slashes, month, day and year. */
  predicate Separated(t: string, y: string, m: string, d: string) {
    || t == y + ("-" + (m + ("-" + d))) || t == y + ("/" + (m + ("/" + d)))
    || t == d + ("-" + (m + ("-" + y))) || t == m + ("/" + (d + ("/" + y)))
  }

  lemma ReadsAs(f: Format, s: string, x: Date)
    requires f in FORMATS && ValidDate(x) && Text.Strip(s) != ""
    requires Match(f, Text.Strip(s), UNSET) == Some(Matched(x, ""))
    ensures ConnectorToDate(s) == Some(x)
  {
    Decides(f, s);
  }

  /** `5-3-2024` and `05-03-2024` are the fifth of March. */
  lemma DayMonthYear(s: string, y: string, m: string, d: string, x: Date)
    requires ValidDate(x) && Parts(y, m, d, x) && Text.Strip(s) == d + ("-" + (m + ("-" + y)))
    ensures ConnectorToDate(s) == Some(x)
  {
    var done := Matched(x, "");
    assert y + "" == y;
    var k2 := Then(Year, End);
    var k1 := Then(Month, Then(Literal('-'), k2));
    MatchYear(End, y, x.year, "", Date(1900, x.month, x.day), done);
    MatchLiteral('-', k2, y, Date(1900, x.month, x.day), done);
    MatchNumber(Month, Then(Literal('-'), k2), m, x.month, "-" + y, Date(1900, 1, x.day), done);
    MatchLiteral('-', k1, m + ("-" + y), Date(1900, 1, x.day), done);
    MatchNumber(Day, Then(Literal('-'), k1), d, x.day, "-" + (m + ("-" + y)), UNSET, done);
    ReadsAs(DMY, s, x);
  }

  /** `3/5/2024` is the fifth of March as well: with slashes the month comes first. */
  lemma MonthDayYear(s: string, y: string, m: string, d: string, x: Date)
    requires ValidDate(x) && Parts(y, m, d, x) && Text.Strip(s) == m + ("/" + (d + ("/" + y)))
    ensures ConnectorToDate(s) == Some(x)
  {
    var done := Matched(x, "");
    assert y + "" == y;
    var k2 := Then(Year, End);
    var k1 := Then(Day, Then(Literal('/'), k2));
    MatchYear(End, y, x.year, "", Date(1900, x.month, x.day), done);
    MatchLiteral('/', k2, y, Date(1900, x.month, x.day), done);
    MatchNumber(Day, Then(Literal('/'), k2), d, x.day, "/" + y, Date(1900, x.month, 1), done);
    MatchLiteral('/', k1, d + ("/" + y), Date(1900, x.month, 1), done);
    MatchNumber(Month, Then(Literal('/'), k1), m, x.month, "/" + (d + ("/" + y)), UNSET, done);
    ReadsAs(MDY, s, x);
  }

  /** `2024-03-05` and `2024/3/5`: with the year in front, the month comes next in either case. */
  lemma YearMonthDay(s: string, c: char, y: string, m: string, d: string, x: Date)
    requires (c == '-' || c == '/') && ValidDate(x) && Parts(y, m, d, x)
    requires Text.Strip(s) == y + ([c] + (m + ([c] + d)))
    ensures ConnectorToDate(s) == Some(x)
  {
    var done := Matched(x, "");
    assert d + "" == d;
    var k2 := Then(Day, End);
    var k1 := Then(Month, Then(Literal(c), k2));
    MatchNumber(Day, End, d, x.day, "", Date(x.year, x.month, 1), done);
    MatchLiteral(c, k2, d, Date(x.year, x.month, 1), done);
    MatchNumber(Month, Then(Literal(c), k2), m, x.month, [c] + d, Date(x.year, 1, 1), done);
    MatchLiteral(c, k1, m + ([c] + d), Date(x.year, 1, 1), done);
    MatchYear(Then(Literal(c), k1), y, x.year, [c] + (m + ([c] + d)), UNSET, done);
    ReadsAs(if c == '/' then YMD else ISO, s, x);
  }

  /** Without separators, a month that begins with 1 takes a second digit if a day is left after it. */
  predicate TakenForMonth(m: string, d: string) { m == "1" && |d| == 2 && '0' <= d[0] <= '2' && d[1] != '0' }

  predicate Compact(t: string, y: string, m: string, d: string) { t == y + (m + d) && !TakenForMonth(m, d) }

  lemma MatchCompact(m: string, d: string, x: Date)
    requires ValidDate(x) && Numeral(m, x.month) && DayText(d, x.day) && !TakenForMonth(m, d)
    ensures Match(Then(Month, Then(Day, End)), m + d, Date(x.year, 1, 1)) == Some(Matched(x, ""))
  {
    var done := Matched(x, "");
    assert d + "" == d;
    MatchNumber(Day, End, d, x.day, "", Date(x.year, x.month, 1), done);
    if |m| == 2 {
      MatchTwoCharacters(Month, Then(Day, End), m, x.month, d, Date(x.year, 1, 1), done);
    } else {
      assert (m + d)[1..] == d && (m + d)[2..] == d[1..];
      if |d| == 2 { assert d[1..] == [d[1]]; }
    }
  }

  /** `20240305`, `202435`: without separators, year, month and day. */
  lemma CompactReads(s: string, y: string, m: string, d: string, x: Date)
    requires ValidDate(x) && Parts(y, m, d, x) && Compact(Text.Strip(s), y, m, d)
    ensures ConnectorToDate(s) == Some(x)
  {
    MatchCompact(m, d, x);
    MatchYear(Then(Month, Then(Day, End)), y, x.year, m + d, UNSET, Matched(x, ""));
    ReadsAs(COMPACT, s, x);
  }

  lemma SeparatedReads(s: string, y: string, m: string, d: string, x: Date)
    requires ValidDate(x) && Parts(y, m, d, x) && Separated(Text.Strip(s), y, m, d)
    ensures ConnectorToDate(s) == Some(x)
  {
    var t := Text.Strip(s);
    if t == y + ("-" + (m + ("-" + d))) {
      YearMonthDay(s, '-', y, m, d, x);
    } else if t == y + ("/" + (m + ("/" + d))) {
      YearMonthDay(s, '/', y, m, d, x);
    } else if t == d + ("-" + (m + ("-" + y))) {
      DayMonthYear(s, y, m, d, x);
    } else {
      MonthDayYear(s, y, m, d, x);
    }
  }

  // ---------- and no others ----------

  lemma MatchedNumber(d: Directive, k: Format, s: string, x: Date, m: Matched) returns (t: string, n: int, rest: string)
    requires (d.Month? || d.Day?) && Match(Then(d, k), s, x) == Some(m)
    ensures s == t + rest && NumberText(d, t, n) && Match(k, rest, Set(x, d, n)) == Some(m)
  {
    var two, one := TwoChars(d, s), OneChar(s);
    if two.Some? && Match(k, s[2..], Set(x, d, two.value)).Some? {
      t, n, rest := s[..2], two.value, s[2..];
    } else if one.Some? && Match(k, s[1..], Set(x, d, one.value)).Some? {
      t, n, rest := s[..1], one.value, s[1..];
    } else {
      t, n, rest := s[..2], BlankDay(d, s).value, s[2..];
    }
  }

  lemma MatchedYear(k: Format, s: string, x: Date, m: Matched) returns (t: string, y: int, rest: string)
    requires Match(Then(Year, k), s, x) == Some(m)
    ensures s == t + rest && YearText(t, y) && Match(k, rest, x.(year := y)) == Some(m)
  {
    t, rest := s[..4], s[4..];
    y := 1000 * Val(s[0]) + 100 * Val(s[1]) + 10 * Val(s[2]) + Val(s[3]);
  }

  lemma MatchedLiteral(c: char, k: Format, s: string, x: Date, m: Matched) returns (rest: string)
    requires Match(Then(Literal(c), k), s, x) == Some(m)
    ensures s == [c] + rest && Match(k, rest, x) == Some(m)
  {
    rest := s[1..];
  }

  lemma MatchedEnd(s: string, x: Date, z: Date)
    requires Match(End, s, x) == Some(Matched(z, ""))
    ensures s == "" && x == z
  {
  }

  lemma MatchedYearFirst(c: char, t: string, x: Date) returns (y: string, m: string, d: string)
    requires Match(Then(Year, Then(Literal(c), Then(Month, Then(Literal(c), Then(Day, End))))), t, UNSET)
             == Some(Matched(x, ""))
    ensures Parts(y, m, d, x) && t == y + ([c] + (m + ([c] + d)))
  {
    var done := Matched(x, "");
    var k2 := Then(Day, End);
    var k1 := Then(Month, Then(Literal(c), k2));
    var year, month, day, rest;
    y, year, rest := MatchedYear(Then(Literal(c), k1), t, UNSET, done);
    rest := MatchedLiteral(c, k1, rest, Date(year, 1, 1), done);
    m, month, rest := MatchedNumber(Month, Then(Literal(c), k2), rest, Date(year, 1, 1), done);
    rest := MatchedLiteral(c, k2, rest, Date(year, month, 1), done);
    d, day, rest := MatchedNumber(Day, End, rest, Date(year, month, 1), done);
    MatchedEnd(rest, Date(year, month, day), x);
    assert d + "" == d;
  }

  lemma MatchedDayFirst(t: string, x: Date) returns (y: string, m: string, d: string)
    requires Match(DMY, t, UNSET) == Some(Matched(x, ""))
    ensures Parts(y, m, d, x) && t == d + ("-" + (m + ("-" + y)))
  {
    var done := Matched(x, "");
    var k2 := Then(Year, End);
    var k1 := Then(Month, Then(Literal('-'), k2));
    var year, month, day, rest;
    d, day, rest := MatchedNumber(Day, Then(Literal('-'), k1), t, UNSET, done);
    rest := MatchedLiteral('-', k1, rest, Date(1900, 1, day), done);
    m, month, rest := MatchedNumber(Month, Then(Literal('-'), k2), rest, Date(1900, 1, day), done);
    rest := MatchedLiteral('-', k2, rest, Date(1900, month, day), done);
    y, year, rest := MatchedYear(End, rest, Date(1900, month, day), done);
    MatchedEnd(rest, Date(year, month, day), x);
    assert y + "" == y;
  }

  lemma MatchedMonthFirst(t: string, x: Date) returns (y: string, m: string, d: string)
    requires Match(MDY, t, UNSET) == Some(Matched(x, ""))
    ensures Parts(y, m, d, x) && t == m + ("/" + (d + ("/" + y)))
  {
    var done := Matched(x, "");
    var k2 := Then(Year, End);
    var k1 := Then(Day, Then(Literal('/'), k2));
    var year, month, day, rest;
    m, month, rest := MatchedNumber(Month, Then(Literal('/'), k1), t, UNSET, done);
    rest := MatchedLiteral('/', k1, rest, Date(1900, month, 1), done);
    d, day, rest := MatchedNumber(Day, Then(Literal('/'), k2), rest, Date(1900, month, 1), done);
    rest := MatchedLiteral('/', k2, rest, Date(1900, month, day), done);
    y, year, rest := MatchedYear(End, rest, Date(1900, month, day), done);
    MatchedEnd(rest, Date(year, month, day), x);
    assert y + "" == y;
  }

  lemma MatchedCompact(t: string, x: Date) returns (y: string, m: string, d: string)
    requires Match(COMPACT, t, UNSET) == Some(Matched(x, ""))
    ensures Parts(y, m, d, x) && Compact(t, y, m, d)
  {
    var done := Matched(x, "");
    var k := Then(Day, End);
    var year, month, day, rest, none;
    y, year, rest := MatchedYear(Then(Month, k), t, UNSET, done);
    var tail := rest;
    m, month, rest := MatchedNumber(Month, k, tail, Date(year, 1, 1), done);
    d, day, none := MatchedNumber(Day, End, rest, Date(year, month, 1), done);
    MatchedEnd(none, Date(year, month, day), x);
    assert d + "" == d;
    if TakenForMonth(m, d) { MonthTaken(tail, d, Date(year, 1, 1), done); }
  }

  lemma MonthTaken(s: string, d: string, x: Date, m: Matched)
    requires s == "1" + d && TakenForMonth("1", d) && IsDigit(d[1])
    requires Match(Then(Month, Then(Day, End)), s, x) == Some(m)
    ensures m.date.month >= 10
  {
    assert s[2..] == [d[1]] && [d[1]][1..] == "";
    var n := 10 + Val(d[0]);
    MatchNumber(Day, End, [d[1]], Val(d[1]), "", x.(month := n), Matched(x.(month := n, day := Val(d[1])), ""));
    assert [d[1]] + "" == [d[1]];
  }

  lemma {:induction false} FoundBy(fs: seq<Format>, t: string) returns (f: Format)
    requires FirstOf(fs, t).Some?
    ensures f in fs && Strptime(f, t) == FirstOf(fs, t)
  {
    if Strptime(fs[0], t).Some? { f := fs[0]; } else { f := FoundBy(fs[1..], t); }
  }

  /** Whatever is read as a date is written in one of these forms, blanks around it aside. */
  lemma DatesAreSpelled(s: string, x: Date) returns (y: string, m: string, d: string)
    requires ConnectorToDate(s) == Some(x)
    ensures ValidDate(x) && Parts(y, m, d, x)
    ensures Separated(Text.Strip(s), y, m, d) || Compact(Text.Strip(s), y, m, d)
  {
    var t := Text.Strip(s);
    var f := FoundBy(FORMATS, t);
    if f == ISO {
      y, m, d := MatchedYearFirst('-', t, x);
    } else if f == DMY {
      y, m, d := MatchedDayFirst(t, x);
    } else if f == MDY {
      y, m, d := MatchedMonthFirst(t, x);
    } else if f == YMD {
      y, m, d := MatchedYearFirst('/', t, x);
    } else {
      y, m, d := MatchedCompact(t, x);
    }
  }

  predicate HasSeparator(t: string) { exists i :: 0 <= i < |t| && (t[i] == '-' || t[i] == '/') }

  /** A text with a separator is a date exactly if it is a calendar day in one of the four forms that have one. */
  lemma DateIff(s: string, x: Date)
    requires HasSeparator(Text.Strip(s))
    ensures ConnectorToDate(s) == Some(x) <==>
      ValidDate(x) && exists y, m, d :: Parts(y, m, d, x) && Separated(Text.Strip(s), y, m, d)
  {
    if ConnectorToDate(s) == Some(x) {
      var y, m, d := DatesAreSpelled(s, x);
      if Compact(Text.Strip(s), y, m, d) { NoSeparator(y, m, d, x); }
    } else if ValidDate(x) {
      forall y, m, d | Parts(y, m, d, x) && Separated(Text.Strip(s), y, m, d) ensures false {
        SeparatedReads(s, y, m, d, x);
      }
    }
  }

  /** And one without exactly if it is a calendar day in the fifth form. */
  lemma CompactIff(s: string, x: Date)
    requires !HasSeparator(Text.Strip(s))
    ensures ConnectorToDate(s) == Some(x) <==>
      ValidDate(x) && exists y, m, d :: Parts(y, m, d, x) && Compact(Text.Strip(s), y, m, d)
  {
    if ConnectorToDate(s) == Some(x) {
      var y, m, d := DatesAreSpelled(s, x);
      if Separated(Text.Strip(s), y, m, d) { SeparatorThere(Text.Strip(s), y, m, d); }
    } else if ValidDate(x) {
      forall y, m, d | Parts(y, m, d, x) && Compact(Text.Strip(s), y, m, d) ensures false {
        CompactReads(s, y, m, d, x);
      }
    }
  }

  lemma SeparatorThere(t: string, y: string, m: string, d: string)
    requires Separated(t, y, m, d)
    ensures HasSeparator(t)
  {
    assert t[|y|] == '-' || t[|y|] == '/' || t[|d|] == '-' || t[|m|] == '/';
  }

  lemma NoSeparator(y: string, m: string, d: string, x: Date)
    requires Parts(y, m, d, x)
    ensures !HasSeparator(y + (m + d))
  {
    var t := y + (m + d);
    forall i | 0 <= i < |t| ensures t[i] != '-' && t[i] != '/' {
      assert t[i] == if i < 4 then y[i] else if i < 4 + |m| then m[i - 4] else d[i - 4 - |m|];
    }
  }

  // The fifth of March 2024, as people write it.

  lemma AsWritten(s: string)
    requires s != "" && IsDigit(s[0]) && IsDigit(s[|s| - 1])
    ensures Text.Strip(s) == s
  {
    Text.StripPadded("", s, "");
    assert "" + (s + "") == s;
  }

  lemma FifthOfMarchDayFirst()
    ensures ConnectorToDate("5-3-2024") == ConnectorToDate("05-03-2024") == Some(Date(2024, 3, 5))
  {
    AsWritten("5-3-2024");
    assert "5" + ("-" + ("3" + ("-" + "2024"))) == "5-3-2024";
    DayMonthYear("5-3-2024", "2024", "3", "5", Date(2024, 3, 5));
    AsWritten("05-03-2024");
    assert "05" + ("-" + ("03" + ("-" + "2024"))) == "05-03-2024";
    DayMonthYear("05-03-2024", "2024", "03", "05", Date(2024, 3, 5));
  }

  lemma FifthOfMarchWithSlashes()
    ensures ConnectorToDate("3/5/2024") == ConnectorToDate("2024/03/05") == Some(Date(2024, 3, 5))
  {
    AsWritten("3/5/2024");
    assert "3" + ("/" + ("5" + ("/" + "2024"))) == "3/5/2024";
    MonthDayYear("3/5/2024", "2024", "3", "5", Date(2024, 3, 5));
    AsWritten("2024/03/05");
    assert "2024" + (['/'] + ("03" + (['/'] + "05"))) == "2024/03/05";
    YearMonthDay("2024/03/05", '/', "2024", "03", "05", Date(2024, 3, 5));
  }

  lemma FifthOfMarchYearFirst()
    ensures ConnectorToDate("2024-03-05") == ConnectorToDate("20240305") == Some(Date(2024, 3, 5))
  {
    AsWritten("2024-03-05");
    assert "2024" + (['-'] + ("03" + (['-'] + "05"))) == "2024-03-05";
    YearMonthDay("2024-03-05", '-', "2024", "03", "05", Date(2024, 3, 5));
    AsWritten("20240305");
    assert "2024" + ("03" + "05") == "20240305";
    CompactReads("20240305", "2024", "03", "05", Date(2024, 3, 5));
  }
}
