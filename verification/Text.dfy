/** The string operations of Python that the importer relies on, over ASCII text. */
module Text {
  /** `str.isspace` on ASCII: tab to carriage return, the four separators, and the blank. */
  predicate IsSpace(c: char) {
    '\t' <= c <= '\r' || '\U{1C}' <= c <= ' '
  }

  predicate IsDigit(c: char) { '0' <= c <= '9' }

  function StripLeft(s: string): string {
    if s != "" && IsSpace(s[0]) then StripLeft(s[1..]) else s
  }

  function StripRight(s: string): string {
    if s != "" && IsSpace(s[|s| - 1]) then StripRight(s[..|s| - 1]) else s
  }

  /** `str.strip()`. */
  function Strip(s: string): string { StripRight(StripLeft(s)) }

  /** `str.replace(",", "")`. */
  function RemoveCommas(s: string): string {
    if s == "" then ""
    else (if s[0] == ',' then "" else [s[0]]) + RemoveCommas(s[1..])
  }

  predicate AllSpaces(s: string) { forall i | 0 <= i < |s| :: IsSpace(s[i]) }

  predicate NoCommas(s: string) { forall i | 0 <= i < |s| :: s[i] != ',' }

  lemma {:induction false} NothingToRemove(s: string)
    requires NoCommas(s)
    ensures RemoveCommas(s) == s
  {
    if s != "" { NothingToRemove(s[1..]); }
  }

  lemma {:induction false} RemoveCommasAppend(s: string, t: string)
    ensures RemoveCommas(s + t) == RemoveCommas(s) + RemoveCommas(t)
  {
    if s == "" {
      assert s + t == t;
    } else {
      assert (s + t)[0] == s[0] && (s + t)[1..] == s[1..] + t;
      RemoveCommasAppend(s[1..], t);
    }
  }

  lemma {:induction false} StripLeftPadded(pad: string, s: string)
    requires AllSpaces(pad) && (s != "" ==> !IsSpace(s[0]))
    ensures StripLeft(pad + s) == s
  {
    if pad == "" {
      assert pad + s == s;
    } else {
      assert (pad + s)[0] == pad[0] && (pad + s)[1..] == pad[1..] + s;
      StripLeftPadded(pad[1..], s);
    }
  }

  lemma {:induction false} StripRightPadded(s: string, pad: string)
    requires AllSpaces(pad) && (s != "" ==> !IsSpace(s[|s| - 1]))
    ensures StripRight(s + pad) == s
  {
    if pad == "" {
      assert s + pad == s;
    } else {
      var n := |pad| - 1;
      assert (s + pad)[|s + pad| - 1] == pad[n] && (s + pad)[..|s + pad| - 1] == s + pad[..n];
      StripRightPadded(s, pad[..n]);
    }
  }

  /** A text without blanks at its ends comes out of any padding. */
  lemma StripPadded(before: string, s: string, after: string)
    requires AllSpaces(before) && AllSpaces(after)
    requires s != "" && !IsSpace(s[0]) && !IsSpace(s[|s| - 1])
    ensures Strip(before + (s + after)) == s
  {
    assert (s + after)[0] == s[0];
    StripLeftPadded(before, s + after);
    StripRightPadded(s, after);
  }

  /** Stripping twice is stripping once: the connector strips, and the normalizer again. */
  lemma StripTwice(s: string)
    ensures Strip(Strip(s)) == Strip(s)
  {
    var l := StripLeft(s);
    var r := StripRight(l);
    StripLeftStart(s);
    StripRightEnd(l);
    if r != "" { StripPadded("", r, ""); }
    assert "" + (r + "") == r;
  }

  /** Stripping takes blanks away from the two ends, all of them, and nothing else. */
  lemma StripSplits(s: string) returns (before: string, after: string)
    ensures s == before + Strip(s) + after && AllSpaces(before) && AllSpaces(after)
    ensures Strip(s) != "" ==> !IsSpace(Strip(s)[0]) && !IsSpace(Strip(s)[|Strip(s)| - 1])
  {
    before := StripLeftSplits(s);
    after := StripRightSplits(StripLeft(s));
    StripLeftStart(s);
    StripRightEnd(StripLeft(s));
    assert StripLeft(s) == Strip(s) + after && s == before + StripLeft(s);
    assert Strip(s) != "" ==> Strip(s)[0] == StripLeft(s)[0];
  }

  lemma {:induction false} StripLeftSplits(s: string) returns (before: string)
    ensures s == before + StripLeft(s) && AllSpaces(before)
  {
    before := "";
    if s != "" && IsSpace(s[0]) {
      var rest := StripLeftSplits(s[1..]);
      before := [s[0]] + rest;
      assert s == [s[0]] + s[1..];
    }
  }

  lemma {:induction false} StripRightSplits(s: string) returns (after: string)
    ensures s == StripRight(s) + after && AllSpaces(after)
  {
    after := "";
    if s != "" && IsSpace(s[|s| - 1]) {
      var rest := StripRightSplits(s[..|s| - 1]);
      after := rest + [s[|s| - 1]];
      assert s == s[..|s| - 1] + [s[|s| - 1]];
    }
  }

  /** The blanks are these ten characters. */
  lemma Blanks(c: char)
    ensures IsSpace(c) <==>
      c in {'\t', '\n', '\U{0B}', '\U{0C}', '\r', '\U{1C}', '\U{1D}', '\U{1E}', '\U{1F}', ' '}
  {
  }

  /** Removing commas leaves every other character, and no comma. */
  lemma {:induction false} CommasGone(s: string)
    ensures NoCommas(RemoveCommas(s))
    ensures forall c | c != ',' :: multiset(RemoveCommas(s))[c] == multiset(s)[c]
  {
    if s != "" {
      CommasGone(s[1..]);
      assert s == [s[0]] + s[1..];
    }
  }

  lemma {:induction false} StripLeftStart(s: string)
    ensures StripLeft(s) != "" ==> !IsSpace(StripLeft(s)[0])
  {
    if s != "" { StripLeftStart(s[1..]); }
  }

  lemma {:induction false} StripRightEnd(s: string)
    ensures var r := StripRight(s); r <= s && (r != "" ==> !IsSpace(r[|r| - 1]))
  {
    if s != "" { StripRightEnd(s[..|s| - 1]); }
  }
}
