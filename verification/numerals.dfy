/**
  Which strings JavaScript's `Number(text)` turns into a number rather than
  `NaN`: the StringNumericLiteral grammar of section 7.1.4.1 of ECMA-262
  (ToNumber applied to the String type). Only the shape is decided here; the
  IEEE double a numeral denotes is not modelled.
 */
module Numerals {
  import opened Wrappers
  import opened Strings

  /** WhiteSpace and LineTerminator code points, which `Number` ignores around a numeral. */
  predicate IsSpace(c: char) {
    c == '\t' || c == '\U{000B}' || c == '\U{000C}' || c == ' ' || c == '\U{00A0}' || c == '\U{FEFF}'
    || c == '\n' || c == '\r' || c == '\U{2028}' || c == '\U{2029}'
    || c == '\U{1680}' || ('\U{2000}' <= c <= '\U{200A}') || c == '\U{202F}' || c == '\U{205F}' || c == '\U{3000}'
  }

  /** The text without its leading and trailing white space. */
  function Trim(s: string): (r: string)
    ensures |r| <= |s|
    ensures r != [] ==> !IsSpace(r[0]) && !IsSpace(r[|r| - 1])
    ensures (forall i :: 0 <= i < |s| ==> !IsSpace(s[i])) ==> r == s
    decreases |s|
  {
    if s == [] then s
    else if IsSpace(s[0]) then Trim(s[1..])
    else if IsSpace(s[|s| - 1]) then Trim(s[..|s| - 1])
    else s
  }

  /** `s[..i]` and `s[j..]` are white space. */
  predicate SpaceOutside(s: string, i: int, j: int) {
    0 <= i <= j <= |s| && (forall k :: 0 <= k < i ==> IsSpace(s[k])) && (forall k :: j <= k < |s| ==> IsSpace(s[k]))
  }

  /**
    Trimming cuts the text at both ends and nowhere else: what it removes in
    front and behind is white space. With the end-character clause of `Trim`
    this fixes the result, and white space alone trims to the empty text.
   */
  lemma {:induction false} TrimStrips(s: string)
    ensures exists i, j :: SpaceOutside(s, i, j) && Trim(s) == s[i..j]
    decreases |s|
  {
    if s == [] {
      assert SpaceOutside(s, 0, 0) && Trim(s) == s[0..0];
    } else if IsSpace(s[0]) {
      var t := s[1..];
      TrimStrips(t);
      var i, j :| SpaceOutside(t, i, j) && Trim(t) == t[i..j];
      SpaceBefore(s, i, j);
      assert t[i..j] == s[i + 1..j + 1];
    } else if IsSpace(s[|s| - 1]) {
      var t := s[..|s| - 1];
      TrimStrips(t);
      var i, j :| SpaceOutside(t, i, j) && Trim(t) == t[i..j];
      SpaceAfter(s, i, j);
      assert t[i..j] == s[i..j];
    } else {
      assert SpaceOutside(s, 0, |s|) && Trim(s) == s[0..|s|];
    }
  }

  /** A space in front of a cut text moves the cut one place on. */
  lemma SpaceBefore(s: string, i: int, j: int)
    requires s != [] && IsSpace(s[0]) && SpaceOutside(s[1..], i, j)
    ensures SpaceOutside(s, i + 1, j + 1)
  {
    forall k | 0 <= k < i + 1 ensures IsSpace(s[k]) {
      if k > 0 { assert s[k] == s[1..][k - 1]; }
    }
    forall k | j + 1 <= k < |s| ensures IsSpace(s[k]) {
      assert s[k] == s[1..][k - 1];
    }
  }

  /** A space behind a cut text keeps the cut where it is. */
  lemma SpaceAfter(s: string, i: int, j: int)
    requires s != [] && IsSpace(s[|s| - 1]) && SpaceOutside(s[..|s| - 1], i, j)
    ensures SpaceOutside(s, i, j)
  {
    forall k | 0 <= k < i ensures IsSpace(s[k]) {
      assert s[k] == s[..|s| - 1][k];
    }
    forall k | j <= k < |s| ensures IsSpace(s[k]) {
      if k < |s| - 1 { assert s[k] == s[..|s| - 1][k]; }
    }
  }

  /** White space alone trims to the empty text, as `Number` reads it. */
  lemma BlankTrimsEmpty(s: string)
    requires forall k :: 0 <= k < |s| ==> IsSpace(s[k])
    ensures Trim(s) == []
  {
    TrimStrips(s);
  }

  /** The first position holding one of `cs`. */
  function FirstOf(s: string, cs: set<char>): (r: Option<nat>)
    ensures r.Some? ==> r.value < |s| && s[r.value] in cs && forall j :: 0 <= j < r.value ==> s[j] !in cs
    ensures r.None? <==> forall j :: 0 <= j < |s| ==> s[j] !in cs
    decreases |s|
  {
    if s == [] then None
    else if s[0] in cs then Some(0)
    else match FirstOf(s[1..], cs)
      case None => None
      case Some(k) => Some(k + 1)
  }

  predicate IsSign(c: char) {
    c == '+' || c == '-'
  }

  /** SignedInteger: decimal digits with an optional sign. */
  predicate SignedInteger(s: string) {
    IsDecimal(s) || (|s| > 0 && IsSign(s[0]) && IsDecimal(s[1..]))
  }

  /** `digits`, `digits.`, `digits.digits` or `.digits`. */
  predicate Mantissa(m: string) {
    match FirstOf(m, {'.'})
    case None => IsDecimal(m)
    case Some(i) =>
      var whole, fraction := m[..i], m[i + 1..];
      (IsDecimal(whole) && (fraction == [] || IsDecimal(fraction))) || (whole == [] && IsDecimal(fraction))
  }

  /** StrUnsignedDecimalLiteral: `Infinity`, or a mantissa with an optional exponent. */
  predicate UnsignedDecimal(s: string) {
    s == "Infinity" ||
    match FirstOf(s, {'e', 'E'})
    case None => Mantissa(s)
    case Some(i) => Mantissa(s[..i]) && SignedInteger(s[i + 1..])
  }

  /** StrDecimalLiteral: an unsigned decimal with an optional sign. */
  predicate SignedDecimal(s: string) {
    UnsignedDecimal(s) || (|s| > 0 && IsSign(s[0]) && UnsignedDecimal(s[1..]))
  }

  predicate IsHexDigit(c: char) {
    IsDigit(c) || ('a' <= c <= 'f') || ('A' <= c <= 'F')
  }

  /** NonDecimalIntegerLiteral: `0b`, `0o` or `0x` and at least one digit of that base, no sign. */
  predicate NonDecimalInteger(s: string) {
    |s| > 2 && s[0] == '0' &&
    ((s[1] in "bB" && forall i :: 2 <= i < |s| ==> s[i] in "01") ||
     (s[1] in "oO" && forall i :: 2 <= i < |s| ==> '0' <= s[i] <= '7') ||
     (s[1] in "xX" && forall i :: 2 <= i < |s| ==> IsHexDigit(s[i])))
  }

  /**
    `!isNaN(Number(s))`: white space alone (which denotes 0), or a decimal or
    non-decimal numeral surrounded by optional white space.
   */
  predicate IsNumeral(s: string) {
    var t := Trim(s);
    t == [] || SignedDecimal(t) || NonDecimalInteger(t)
  }

  /** A plain run of decimal digits is always a numeral. */
  lemma DecimalIsNumeral(s: string)
    requires IsDecimal(s)
    ensures IsNumeral(s)
  {
    assert forall i :: 0 <= i < |s| ==> !IsSpace(s[i]);
    assert Trim(s) == s;
    assert FirstOf(s, {'e', 'E'}).None?;
    assert FirstOf(s, {'.'}).None?;
    assert Mantissa(s);
  }

  /** Fractions and signs are numerals. */
  lemma FractionNumerals()
    ensures IsNumeral("1.5") && IsNumeral("-3")
  {
    Fraction();
    Signed();
  }

  lemma Fraction()
    ensures IsNumeral("1.5")
  {
    assert Trim("1.5") == "1.5";
    assert FirstOf("1.5", {'e', 'E'}) == None;
    assert FirstOf("1.5", {'.'}) == Some(1);
    assert "1.5"[..1] == "1" && "1.5"[2..] == "5";
  }

  lemma Signed()
    ensures IsNumeral("-3")
  {
    assert Trim("-3") == "-3";
    assert "-3"[1..] == "3";
    assert FirstOf("3", {'e', 'E'}) == None && FirstOf("3", {'.'}) == None;
  }

  /** Exponents and a bare fraction are numerals. */
  lemma ExponentNumerals()
    ensures IsNumeral("1e3") && IsNumeral(".5")
  {
    Exponent();
    BareFraction();
  }

  lemma Exponent()
    ensures IsNumeral("1e3")
  {
    assert Trim("1e3") == "1e3";
    assert FirstOf("1e3", {'e', 'E'}) == Some(1);
    assert "1e3"[..1] == "1" && "1e3"[2..] == "3";
    assert FirstOf("1", {'.'}) == None;
  }

  lemma BareFraction()
    ensures IsNumeral(".5")
  {
    assert Trim(".5") == ".5";
    assert FirstOf(".5", {'e', 'E'}) == None && FirstOf(".5", {'.'}) == Some(0);
    assert ".5"[..0] == "" && ".5"[1..] == "5";
  }

  /** Hexadecimal, `Infinity` and a padded numeral are numerals. */
  lemma OtherNumerals()
    ensures IsNumeral("0x1F") && IsNumeral("Infinity") && IsNumeral(" 7")
  {
    Hexadecimal();
    Infinite();
    Padded();
  }

  lemma Hexadecimal()
    ensures IsNumeral("0x1F")
  {
    assert NonDecimalInteger("0x1F");
  }

  lemma Infinite()
    ensures IsNumeral("Infinity")
  {
    assert Trim("Infinity") == "Infinity";
  }

  lemma Padded()
    ensures IsNumeral(" 7")
  {
    assert Trim(" 7") == "7";
    assert FirstOf("7", {'e', 'E'}) == None && FirstOf("7", {'.'}) == None;
  }

  /** A trailing letter or a second point makes `NaN`. */
  lemma NotNumerals()
    ensures !IsNumeral("2a") && !IsNumeral("1.2.3")
  {
    TrailingLetter();
    TwoPoints();
  }

  lemma TrailingLetter()
    ensures !IsNumeral("2a")
  {
    assert FirstOf("2a", {'e', 'E'}) == None && FirstOf("2a", {'.'}) == None;
    assert !IsDigit("2a"[1]) && !IsDigit("a"[0]);
  }

  lemma TwoPoints()
    ensures !IsNumeral("1.2.3")
  {
    assert FirstOf("1.2.3", {'e', 'E'}) == None && FirstOf("1.2.3", {'.'}) == Some(1);
    assert "1.2.3"[..1] == "1" && "1.2.3"[2..] == "2.3" && !IsDigit("2.3"[1]);
    assert !IsDigit("1.2.3"[1]);
  }

  /** An exponent needs a mantissa, and a non-decimal numeral takes no sign. */
  lemma MoreNotNumerals()
    ensures !IsNumeral("e5") && !IsNumeral("-0x1")
  {
    BareExponent();
    SignedHexadecimal();
  }

  lemma BareExponent()
    ensures !IsNumeral("e5")
  {
    assert FirstOf("e5", {'e', 'E'}) == Some(0) && FirstOf("", {'.'}) == None;
    assert "e5"[..0] == "";
  }

  lemma SignedHexadecimal()
    ensures !IsNumeral("-0x1")
  {
    assert !IsDigit("-0x1"[0]) && !IsDigit("0x1"[1]);
    assert FirstOf("-0x1", {'e', 'E'}) == None && FirstOf("-0x1", {'.'}) == None;
    assert FirstOf("0x1", {'e', 'E'}) == None && FirstOf("0x1", {'.'}) == None;
    assert "-0x1"[1..] == "0x1";
  }
}
