/** Dates from text: Python's `strptime` as a backtracking matcher, the connector's five formats
    tried in turn, and the normalizer's four guarded by regular expressions. */
module Dates {
  import opened Wrappers
  import opened Text

  // ---------- the calendar ----------

  datatype Date = Date(year: int, month: int, day: int)

  predicate IsLeap(y: int) { y % 4 == 0 && (y % 100 != 0 || y % 400 == 0) }

  function DaysIn(y: int, m: int): int {
    if m == 2 then (if IsLeap(y) then 29 else 28)
    else if m == 4 || m == 6 || m == 9 || m == 11 then 30
    else 31
  }

  /** What the `date` constructor accepts. */
  predicate ValidDate(x: Date) {
    1 <= x.year <= 9999 && 1 <= x.month <= 12 && 1 <= x.day <= DaysIn(x.year, x.month)
  }

  // ---------- strptime ----------

  datatype Directive = Year | Month | Day | Literal(c: char)

  datatype Format = End | Then(head: Directive, tail: Format)

  function Val(c: char): int { c as int - '0' as int }

  /** The alternatives of a directive's regular expression that are two characters long. */
  function TwoChars(d: Directive, s: string): Option<int> {
    if |s| < 2 then None
    else if d.Month? then
      if (s[0] == '1' && '0' <= s[1] <= '2') || (s[0] == '0' && '1' <= s[1] <= '9') then
        Some(10 * Val(s[0]) + Val(s[1]))
      else None
    else if d.Day? then
      if (s[0] == '3' && '0' <= s[1] <= '1') || ('1' <= s[0] <= '2' && IsDigit(s[1]))
         || (s[0] == '0' && '1' <= s[1] <= '9') then
        Some(10 * Val(s[0]) + Val(s[1]))
      else None
    else None
  }

  /** `[1-9]`, tried when the two-character alternatives have failed. */
  function OneChar(s: string): Option<int> {
    if s != "" && '1' <= s[0] <= '9' then Some(Val(s[0])) else None
  }

  /** The last alternative of a day: a blank and a digit. */
  function BlankDay(d: Directive, s: string): Option<int> {
    if d.Day? && |s| >= 2 && s[0] == ' ' && '1' <= s[1] <= '9' then Some(Val(s[1])) else None
  }

  function Set(x: Date, d: Directive, v: int): Date {
    if d.Month? then x.(month := v) else if d.Day? then x.(day := v) else x.(year := v)
  }

  datatype Matched = Matched(date: Date, rest: string)

  /** The first match in the order of the alternatives, with what it leaves unread. */
  function Match(f: Format, s: string, x: Date): Option<Matched>
    decreases f
  {
    match f
    case End => Some(Matched(x, s))
    case Then(d, k) =>
      match d
      case Literal(c) => if s != "" && s[0] == c then Match(k, s[1..], x) else None
      case Year =>
        if |s| >= 4 && IsDigit(s[0]) && IsDigit(s[1]) && IsDigit(s[2]) && IsDigit(s[3]) then
          Match(k, s[4..], x.(year := 1000 * Val(s[0]) + 100 * Val(s[1]) + 10 * Val(s[2]) + Val(s[3])))
        else None
      case _ =>
        var two := TwoChars(d, s);
        var first := if two.Some? then Match(k, s[2..], Set(x, d, two.value)) else None;
        if first.Some? then first
        else
          var one := OneChar(s);
          var second := if one.Some? then Match(k, s[1..], Set(x, d, one.value)) else None;
          if second.Some? then second
          else
            var blank := BlankDay(d, s);
            if blank.Some? then Match(k, s[2..], Set(x, d, blank.value)) else None
  }

  const UNSET := Date(1900, 1, 1)

  /** `None` is strptime's ValueError: no match, text left over, or no such day. */
  function Strptime(f: Format, s: string): Option<Date> {
    match Match(f, s, UNSET)
    case None => None
    case Some(m) => if m.rest == "" && ValidDate(m.date) then Some(m.date) else None
  }

  // ---------- the two parsers ----------

  const ISO := Then(Year, Then(Literal('-'), Then(Month, Then(Literal('-'), Then(Day, End)))))
  const DMY := Then(Day, Then(Literal('-'), Then(Month, Then(Literal('-'), Then(Year, End)))))
  const MDY := Then(Month, Then(Literal('/'), Then(Day, Then(Literal('/'), Then(Year, End)))))
  const YMD := Then(Year, Then(Literal('/'), Then(Month, Then(Literal('/'), Then(Day, End)))))
  const COMPACT := Then(Year, Then(Month, Then(Day, End)))

  const FORMATS := [ISO, DMY, MDY, YMD, COMPACT]

  /** The result of the first format that accepts the text. */
  function FirstOf(fs: seq<Format>, s: string): Option<Date> {
    if fs == [] then None
    else if Strptime(fs[0], s).Some? then Strptime(fs[0], s)
    else FirstOf(fs[1..], s)
  }

  /** The connector's `_to_date` on a text. */
  function ConnectorToDate(s: string): Option<Date> {
    var t := Text.Strip(s);
    if t == "" then None else FirstOf(FORMATS, t)
  }

  /** A regular expression like `^\d{4}-\d{2}-\d{2}$`: digits but for the separators at `a` and `b`. */
  predicate Shape(s: string, sep: char, a: nat, b: nat) {
    |s| == 10 && forall i | 0 <= i < 10 :: if i == a || i == b then s[i] == sep else IsDigit(s[i])
  }

  /** The normalizer's `_parse_date` on a text; `None` is its ValueError. */
  function NormalizerParseDate(s: string): Option<Date> {
    var t := Text.Strip(s);
    if Shape(t, '-', 4, 7) then Strptime(ISO, t)
    else if Shape(t, '-', 2, 5) then Strptime(DMY, t)
    else if Shape(t, '/', 2, 5) then Strptime(MDY, t)
    else if Shape(t, '/', 4, 7) then Strptime(YMD, t)
    else None
  }

  // ---------- the formats exclude one another ----------

  function Separator(f: Format): Option<char> {
    if f == ISO || f == DMY then Some('-') else if f == MDY || f == YMD then Some('/') else None
  }

  predicate YearFirst(f: Format) { f == ISO || f == YMD || f == COMPACT }

  predicate FourDigits(s: string) {
    |s| > 4 && IsDigit(s[0]) && IsDigit(s[1]) && IsDigit(s[2]) && IsDigit(s[3])
  }

  lemma YearFirstLooks(f: Format, s: string)
    requires YearFirst(f) && Strptime(f, s).Some?
    ensures FourDigits(s)
    ensures if Separator(f).Some? then s[4] == Separator(f).value else IsDigit(s[4])
  {
    assert Match(f, s, UNSET).Some?;
    var x := UNSET.(year := 1000 * Val(s[0]) + 100 * Val(s[1]) + 10 * Val(s[2]) + Val(s[3]));
    assert Match(f.tail, s[4..], x).Some?;
    assert s[4..] != "" && s[4..][0] == s[4];
  }

  lemma YearLastLooks(f: Format, s: string)
    requires (f == DMY || f == MDY) && Strptime(f, s).Some?
    ensures |s| > 2 && (s[1] == Separator(f).value || s[2] == Separator(f).value)
  {
    assert Match(f, s, UNSET).Some?;
    var k := f.tail;
    forall x, n | 1 <= n <= 2 && n <= |s| && Match(k, s[n..], x).Some? ensures |s| > n && s[n] == Separator(f).value {
      assert s[n..] != "" && s[n..][0] == s[n];
    }
  }

  /** No text is a date in two formats, so the order in which they are tried does not matter. */
  lemma FormatsDisjoint(f: Format, g: Format, s: string)
    requires f in FORMATS && g in FORMATS && Strptime(f, s).Some? && Strptime(g, s).Some?
    ensures f == g
  {
    if YearFirst(f) { YearFirstLooks(f, s); } else { YearLastLooks(f, s); }
    if YearFirst(g) { YearFirstLooks(g, s); } else { YearLastLooks(g, s); }
  }

  lemma {:induction false} FirstOfFinds(fs: seq<Format>, f: Format, s: string)
    requires f in fs && Strptime(f, s).Some? && forall g | g in fs :: Strptime(g, s).Some? ==> g == f
    ensures FirstOf(fs, s) == Strptime(f, s)
  {
    if fs[0] != f { FirstOfFinds(fs[1..], f, s); }
  }

  /** Trying the formats in any order finds the same date. */
  lemma OrderIsIrrelevant(fs: seq<Format>, s: string)
    requires forall f :: f in fs <==> f in FORMATS
    ensures FirstOf(fs, s) == FirstOf(FORMATS, s)
  {
    if f :| f in FORMATS && Strptime(f, s).Some? {
      forall g | g in FORMATS && Strptime(g, s).Some? ensures g == f { FormatsDisjoint(f, g, s); }
      FirstOfFinds(FORMATS, f, s);
      FirstOfFinds(fs, f, s);
    } else {
      NoneFinds(fs, s);
      NoneFinds(FORMATS, s);
    }
  }

  lemma {:induction false} NoneFinds(fs: seq<Format>, s: string)
    requires forall f | f in fs :: Strptime(f, s).None?
    ensures FirstOf(fs, s).None?
  {
    if fs != [] { NoneFinds(fs[1..], s); }
  }

  lemma Decides(f: Format, s: string)
    requires f in FORMATS && Text.Strip(s) != "" && Strptime(f, Text.Strip(s)).Some?
    ensures ConnectorToDate(s) == Strptime(f, Text.Strip(s))
  {
    forall g | g in FORMATS && Strptime(g, Text.Strip(s)).Some? ensures g == f { FormatsDisjoint(f, g, Text.Strip(s)); }
    FirstOfFinds(FORMATS, f, Text.Strip(s));
  }

  // ---------- printing and reading back ----------

  function Digit(n: int): char
    requires 0 <= n <= 9
  {
    (n + '0' as int) as char
  }

  function Pad2(n: int): string
    requires 0 <= n <= 99
  {
    [Digit(n / 10), Digit(n % 10)]
  }

  function Pad4(n: int): string
    requires 0 <= n <= 9999
  {
    [Digit(n / 1000), Digit(n / 100 % 10), Digit(n / 10 % 10), Digit(n % 10)]
  }

  /** `strftime`: every number padded with zeros. */
  function Print(f: Format, x: Date): string
    requires ValidDate(x)
  {
    match f
    case End => ""
    case Then(Literal(c), k) => [c] + Print(k, x)
    case Then(Year, k) => Pad4(x.year) + Print(k, x)
    case Then(Month, k) => Pad2(x.month) + Print(k, x)
    case Then(Day, k) => Pad2(x.day) + Print(k, x)
  }

  /** The date read so far, once the rest of the format has been filled in from `x`. */
  function Filled(f: Format, acc: Date, x: Date): Date {
    match f
    case End => acc
    case Then(Literal(_), k) => Filled(k, acc, x)
    case Then(Year, k) => Filled(k, acc.(year := x.year), x)
    case Then(Month, k) => Filled(k, acc.(month := x.month), x)
    case Then(Day, k) => Filled(k, acc.(day := x.day), x)
  }

  lemma PaddedMatches(d: Directive, n: int, rest: string)
    requires (d.Month? && 1 <= n <= 12) || (d.Day? && 1 <= n <= 31)
    ensures TwoChars(d, Pad2(n) + rest) == Some(n) && (Pad2(n) + rest)[2..] == rest
  {
  }

  lemma FourDigitNumber(n: int)
    requires 0 <= n <= 9999
    ensures 1000 * (n / 1000) + 100 * (n / 100 % 10) + 10 * (n / 10 % 10) + n % 10 == n
  {
    assert n / 100 == 10 * (n / 1000) + n / 100 % 10;
    assert n / 10 == 10 * (n / 100) + n / 10 % 10;
  }

  lemma YearMatches(n: int, rest: string)
    requires 0 <= n <= 9999
    ensures var s := Pad4(n) + rest;
      && s[4..] == rest && IsDigit(s[0]) && IsDigit(s[1]) && IsDigit(s[2]) && IsDigit(s[3])
      && 1000 * Val(s[0]) + 100 * Val(s[1]) + 10 * Val(s[2]) + Val(s[3]) == n
  {
    var s := Pad4(n) + rest;
    assert s[0] == Digit(n / 1000) && s[1] == Digit(n / 100 % 10);
    assert s[2] == Digit(n / 10 % 10) && s[3] == Digit(n % 10);
    FourDigitNumber(n);
  }

  /** What strftime prints, strptime matches to the end, whatever the format. */
  lemma {:induction false} PrintMatches(f: Format, acc: Date, x: Date)
    requires ValidDate(x)
    ensures Match(f, Print(f, x), acc) == Some(Matched(Filled(f, acc, x), ""))
    decreases f
  {
    match f
    case End =>
    case Then(d, k) =>
      match d
      case Literal(c) =>
        assert ([c] + Print(k, x))[1..] == Print(k, x);
        PrintMatches(k, acc, x);
      case Year =>
        YearMatches(x.year, Print(k, x));
        PrintMatches(k, acc.(year := x.year), x);
      case Month =>
        PaddedMatches(d, x.month, Print(k, x));
        PrintMatches(k, acc.(month := x.month), x);
      case Day =>
        PaddedMatches(d, x.day, Print(k, x));
        PrintMatches(k, acc.(day := x.day), x);
  }

  predicate Mentions(f: Format, d: Directive) { f.Then? && (f.head == d || Mentions(f.tail, d)) }

  lemma {:induction false} FilledFields(f: Format, acc: Date, x: Date)
    ensures Filled(f, acc, x) == Date(if Mentions(f, Year) then x.year else acc.year,
                                      if Mentions(f, Month) then x.month else acc.month,
                                      if Mentions(f, Day) then x.day else acc.day)
    decreases f
  {
    match f
    case End =>
    case Then(d, k) =>
      FilledFields(k, if d.Literal? then acc else if d.Year? then acc.(year := x.year)
                      else if d.Month? then acc.(month := x.month) else acc.(day := x.day), x);
  }

  lemma FormatsMention(f: Format)
    requires f in FORMATS
    ensures Mentions(f, Year) && Mentions(f, Month) && Mentions(f, Day)
    ensures forall c | Mentions(f, Literal(c)) :: c == '-' || c == '/'
  {
    assert f == ISO || f == DMY || f == MDY || f == YMD || f == COMPACT;
    assert forall d :: !Mentions(End, d);
    assert forall d, k :: Mentions(Then(Day, k), d) <==> d == Day || Mentions(k, d);
    assert forall d, k :: Mentions(Then(Month, k), d) <==> d == Month || Mentions(k, d);
    assert forall d, k :: Mentions(Then(Year, k), d) <==> d == Year || Mentions(k, d);
    assert forall d, c, k :: Mentions(Then(Literal(c), k), d) <==> d == Literal(c) || Mentions(k, d);
  }

  lemma {:induction false} PrintedCharacter(f: Format, x: Date, i: nat)
    requires ValidDate(x) && i < |Print(f, x)|
    ensures IsDigit(Print(f, x)[i]) || Mentions(f, Literal(Print(f, x)[i]))
    decreases f
  {
    match f
    case End =>
    case Then(d, k) =>
      var n := if d.Year? then 4 else if d.Literal? then 1 else 2;
      assert Print(f, x)[n..] == Print(k, x);
      if i >= n {
        PrintedCharacter(k, x, i - n);
        assert Print(f, x)[i] == Print(k, x)[i - n];
      }
  }

  /** Every calendar date, leap days included, printed in any of the five formats is read back by the
      connector as itself. */
  lemma DateRoundTrip(f: Format, x: Date)
    requires f in FORMATS && ValidDate(x)
    ensures ConnectorToDate(Print(f, x)) == Some(x)
  {
    PrintMatches(f, UNSET, x);
    FormatsMention(f);
    FilledFields(f, UNSET, x);
    PrintedStripped(f, x);
    Decides(f, Print(f, x));
  }

  lemma PrintedStripped(f: Format, x: Date)
    requires f in FORMATS && ValidDate(x)
    ensures Print(f, x) != "" && Text.Strip(Print(f, x)) == Print(f, x)
  {
    var s := Print(f, x);
    FormatsMention(f);
    PrintedNotEmpty(f, x);
    NoBlankEnds(f, x);
    Text.StripPadded("", s, "");
    assert "" + (s + "") == s;
  }

  lemma PrintedNotEmpty(f: Format, x: Date)
    requires ValidDate(x) && f != End
    ensures Print(f, x) != ""
  {
  }

  lemma NoBlankEnds(f: Format, x: Date)
    requires f in FORMATS && ValidDate(x) && Print(f, x) != ""
    ensures var s := Print(f, x); !Text.IsSpace(s[0]) && !Text.IsSpace(s[|s| - 1])
  {
    FormatsMention(f);
    PrintedCharacter(f, x, 0);
    PrintedCharacter(f, x, |Print(f, x)| - 1);
  }

  // ---------- the two parsers agree ----------

  predicate Padded(s: string) {
    Shape(s, '-', 4, 7) || Shape(s, '-', 2, 5) || Shape(s, '/', 2, 5) || Shape(s, '/', 4, 7)
  }

  lemma ShapeDecides(f: Format, g: Format, s: string)
    requires f in FORMATS && g in FORMATS && Strptime(g, s).Some?
    requires (f == ISO && Shape(s, '-', 4, 7)) || (f == DMY && Shape(s, '-', 2, 5))
          || (f == MDY && Shape(s, '/', 2, 5)) || (f == YMD && Shape(s, '/', 4, 7))
    ensures f == g
  {
    if YearFirst(g) { YearFirstLooks(g, s); } else { YearLastLooks(g, s); }
  }

  /** The normalizer's parser returns a date exactly when the connector's does and the text is one of
      the four padded forms; then they return the same date. */
  lemma ParsersAgree(s: string)
    ensures NormalizerParseDate(s) == if Padded(Text.Strip(s)) then ConnectorToDate(s) else None
  {
    var t := Text.Strip(s);
    if Padded(t) {
      var f := if Shape(t, '-', 4, 7) then ISO else if Shape(t, '-', 2, 5) then DMY
               else if Shape(t, '/', 2, 5) then MDY else YMD;
      if g :| g in FORMATS && Strptime(g, t).Some? {
        ShapeDecides(f, g, t);
        Decides(f, s);
      } else {
        NoneFinds(FORMATS, t);
      }
    }
  }
}
