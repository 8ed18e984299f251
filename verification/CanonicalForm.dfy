/** Why canonical text can be compared byte by byte: of all the spellings a reader accepts for a string or a
    float, the printer uses the one that a short description singles out. */
module CanonicalForm {
  import opened Envelope
  import opened Decimal
  import opened FloatText
  import opened NumberText
  import opened JsonString

  // ---- strings ----

  /** No upper-case hexadecimal digit. */
  predicate LowerCase(s: string) {
    forall i | 0 <= i < |s| :: !('A' <= s[i] <= 'F')
  }

  lemma HexDigitIsTheOne(c: char)
    requires HexValue(c).Some? && !('A' <= c <= 'F')
    ensures HexValue(c).value < 16 && HexDigit(HexValue(c).value) == c
  {
  }

  /** The digits of a control character's `\u` escape. */
  lemma ControlDigits(s: string, c: char)
    requires ReadUnicode(s) == Some((c, "")) && c < ' '
    ensures |s| == 4 && HexUnit(s) == Some(c as nat)
  {
    assert |s| >= 4 && HexUnit(s).Some?;
    assert |s[4..]| == 0;
  }

  lemma DigitsOfUnit(s: string)
    requires |s| == 4 && HexUnit(s).Some? && HexUnit(s).value < 32 && LowerCase(s)
    ensures var u := HexUnit(s).value; s == "00" + [HexDigit(u / 16), HexDigit(u % 16)]
  {
    var a, b, c, d := HexValue(s[0]).value, HexValue(s[1]).value, HexValue(s[2]).value, HexValue(s[3]).value;
    HexDigitIsTheOne(s[0]);
    HexDigitIsTheOne(s[1]);
    HexDigitIsTheOne(s[2]);
    HexDigitIsTheOne(s[3]);
    assert a == 0 && b == 0;
    assert s == [HexDigit(a), HexDigit(b), HexDigit(c), HexDigit(d)];
  }

  /** Whatever reads as the character inside a string is at least as long as its escape, and of that
      length, in lower case, only the escape itself. */
  lemma EscapeIsShortest(c: char, s: string)
    requires s != "" && s[0] != '"' && ReadChar(s) == Some((c, ""))
    ensures |EscapeChar(c)| <= |s|
    ensures |s| == |EscapeChar(c)| && (|s| > 2 ==> LowerCase(s)) ==> s == EscapeChar(c)
    ensures |EscapeChar(c)| > 2 ==> LowerCase(EscapeChar(c))
  {
    if s[0] != '\\' {
      assert s == [s[0]] + s[1..] == [c];
    } else {
      assert s == "\\" + s[1..];
      assert LowerCase(s) ==> LowerCase(s[1..]);
      EscapeAfterBackslash(c, s[1..]);
    }
    if |EscapeChar(c)| > 2 { HexIsLower(c); }
  }

  lemma HexIsLower(c: char)
    requires c < ' ' && EscapeChar(c) == "\\u00" + [HexDigit(c as int / 16), HexDigit(c as int % 16)]
    ensures LowerCase(EscapeChar(c))
  {
  }

  lemma EscapeAfterBackslash(c: char, s: string)
    requires ReadEscape(s) == Some((c, ""))
    ensures |EscapeChar(c)| <= 1 + |s|
    ensures 1 + |s| == |EscapeChar(c)| && (|s| > 1 ==> LowerCase(s)) ==> "\\" + s == EscapeChar(c)
  {
    if s[0] == 'u' {
      UnicodeEscape(c, s);
    } else {
      assert s == [s[0]] + s[1..] == [s[0]];
    }
  }

  lemma UnicodeEscape(c: char, s: string)
    requires s != "" && s[0] == 'u' && ReadUnicode(s[1..]) == Some((c, ""))
    ensures |EscapeChar(c)| <= 1 + |s|
    ensures 1 + |s| == |EscapeChar(c)| && LowerCase(s) ==> "\\" + s == EscapeChar(c)
  {
    if c < ' ' {
      ControlDigits(s[1..], c);
      if LowerCase(s) && |EscapeChar(c)| == 6 {
        assert LowerCase(s[1..]);
        DigitsOfUnit(s[1..]);
        assert s == "u" + s[1..];
      }
    }
  }

  /** So the canonical text of a string is no longer than any other text of it. */
  lemma {:induction false} StringIsShortest(t: string, s: string)
    requires ReadString(s) == Some((t, ""))
    ensures |Escaped(t)| + 1 <= |s|
    decreases |s|
  {
    if s[0] != '"' {
      var c := ReadChar(s).value;
      var used := s[..|s| - |c.1|];
      CharIsSuffix(s);
      EscapeIsShortest(c.0, used);
      assert t[0] == c.0 && t[1..] == ReadString(c.1).value.0;
      StringIsShortest(t[1..], c.1);
    }
  }

  /** A character is read off the front, whatever comes after it. */
  lemma CharIsSuffix(s: string)
    requires s != "" && ReadChar(s).Some?
    ensures var (c, rest) := ReadChar(s).value;
            var used := s[..|s| - |rest|];
            used != "" && s == used + rest && ReadChar(used) == Some((c, ""))
  {
    var (c, rest) := ReadChar(s).value;
    var used := s[..|s| - |rest|];
    if s[0] != '\\' {
      assert rest == s[1..] && used == s[..1] && used[1..] == "";
    } else {
      EscapeIsSuffix(s[1..]);
      assert used[1..] == s[1..][..|s[1..]| - |rest|];
      assert s == "\\" + s[1..];
    }
  }

  lemma EscapeIsSuffix(s: string)
    requires ReadEscape(s).Some?
    ensures var (c, rest) := ReadEscape(s).value;
            var used := s[..|s| - |rest|];
            used != "" && s == used + rest && ReadEscape(used) == Some((c, ""))
  {
    var (c, rest) := ReadEscape(s).value;
    if s[0] == 'u' {
      UnicodeIsSuffix(s[1..]);
      var used := s[..|s| - |rest|];
      assert used[1..] == s[1..][..|s[1..]| - |rest|];
    } else {
      assert rest == s[1..] && s[..1][1..] == "";
    }
  }

  lemma UnicodeIsSuffix(s: string)
    requires ReadUnicode(s).Some?
    ensures var (c, rest) := ReadUnicode(s).value;
            var used := s[..|s| - |rest|];
            s == used + rest && ReadUnicode(used) == Some((c, ""))
  {
    var (c, rest) := ReadUnicode(s).value;
    var used := s[..|s| - |rest|];
    if rest == s[4..] {
      assert used == s[..4] && used[4..] == "";
    } else {
      assert rest == s[10..] && used == s[..10] && used[10..] == "" && used[6..][..4] == s[6..][..4];
    }
  }

  // ---- floats ----

  predicate NoZeroAtEnd(s: string) {
    s != "" ==> s[|s| - 1] != '0'
  }

  /** How Python spells floats. With an exponent below -4 or above 15: one digit other than zero before the
      point, nothing or digits without a zero at the end after it. Otherwise no exponent, at least one
      digit after the point, and no zero at the end beyond that. */
  predicate PythonForm(n: Numeral) {
    && WellFormed(n)
    && if n.hasExp then
         |n.whole| == 1 && n.whole != "0" && NoZeroAtEnd(n.frac) && (n.exp < -4 || n.exp > 15)
       else
         && n.exp == 0 && n.frac != "" && (|n.frac| == 1 || NoZeroAtEnd(n.frac))
         && (if n.whole != "0" then |n.whole| <= 16
             else n.frac == "0" || exists i :: 0 <= i < 4 && i < |n.frac| && n.frac[i] != '0')
  }

  lemma {:induction false} LeadingZeros(s: string) returns (z: nat)
    ensures var t := StripLeading(s);
            && z + |t| == |s| && s == Zeros(z) + t && (t != "" ==> t[0] != '0' && t[|t| - 1] == s[|s| - 1])
            && (forall i | 0 <= i < z :: s[i] == '0') && (t == "" ==> forall i | 0 <= i < |s| :: s[i] == '0')
  {
    if s == "" || s[0] != '0' {
      z := 0;
      assert s == Zeros(0) + s;
    } else {
      var y := LeadingZeros(s[1..]);
      z := y + 1;
      assert s == "0" + s[1..];
      Assoc("0", Zeros(y), StripLeading(s[1..]));
      assert forall i | 0 < i < z :: s[i] == s[1..][i - 1];
    }
  }

  lemma ScientificIsLayout(n: Numeral)
    requires PythonForm(n) && n.hasExp
    ensures var s := n.whole + n.frac;
            Meaning(n) == Float(Finite(n.neg, s, n.exp)) && n == Layout(n.neg, s, n.exp + 1)
  {
    var s := n.whole + n.frac;
    assert s[0] == n.whole[0] && s[..1] == n.whole && s[1..] == n.frac;
    assert s[|s| - 1] == if n.frac == "" then n.whole[0] else n.frac[|n.frac| - 1];
  }

  lemma FractionMeans(neg: bool, frac: string)
    requires StripLeading(frac) != "" && StripTrailing(StripLeading(frac)) == StripLeading(frac)
    ensures var d := StripLeading(frac);
            FromScientific(neg, "0" + frac, 0) == Finite(neg, d, |d| - |frac| - 1)
  {
    var s := "0" + frac;
    assert s[0] == '0' && s[1..] == frac;
  }

  /** The first digit other than zero is among the first four. */
  lemma FewZeros(frac: string) returns (z: nat)
    requires frac != "" && frac[|frac| - 1] != '0' && exists i :: 0 <= i < 4 && i < |frac| && frac[i] != '0'
    ensures var d := StripLeading(frac);
            d != "" && d[|d| - 1] != '0' && z < 4 && z == |frac| - |d| && frac == Zeros(z) + d
  {
    z := LeadingZeros(frac);
    var i :| 0 <= i < 4 && i < |frac| && frac[i] != '0';
    assert z <= i;
  }

  lemma FractionIsLayout(n: Numeral)
    requires PythonForm(n) && !n.hasExp && n.whole == "0" && n.frac != "0"
    ensures var d := StripLeading(n.frac);
            && d != "" && Meaning(n) == Float(Finite(n.neg, d, |d| - |n.frac| - 1))
            && n == Layout(n.neg, d, |d| - |n.frac|)
  {
    assert n.frac[|n.frac| - 1] != '0' by { if |n.frac| == 1 { assert n.frac == [n.frac[0]]; } }
    var z := FewZeros(n.frac);
    FractionMeans(n.neg, n.frac);
  }

  lemma WholeMeans(neg: bool, s: string, exp: int)
    requires s != "" && s[0] != '0'
    ensures FromScientific(neg, s, exp) == Finite(neg, StripTrailing(s), exp)
  {
  }

  /** A whole number: its zeros at the end, and the one after the point, do not count. */
  lemma RoundIsLayout(neg: bool, whole: string)
    requires whole != "" && whole[0] != '0' && |whole| <= 16
    ensures var d := StripTrailing(whole);
            d != "" && d[0] != '0' && StripTrailing(whole + "0") == d
            && Layout(neg, d, |whole|) == Numeral(neg, whole, "0", false, 0)
  {
    var d := StripTrailing(whole);
    StripTrailingKeeps(whole);
    assert (whole + "0")[..|whole|] == whole;
    assert whole == d + Zeros(|whole| - |d|);
  }

  lemma BrokenIsLayout(neg: bool, whole: string, frac: string)
    requires whole != "" && |whole| <= 16 && frac != "" && frac[|frac| - 1] != '0'
    ensures var s := whole + frac;
            StripTrailing(s) == s && Layout(neg, s, |whole|) == Numeral(neg, whole, frac, false, 0)
  {
    var s := whole + frac;
    assert s[|s| - 1] == frac[|frac| - 1] && s[..|whole|] == whole && s[|whole|..] == frac;
  }

  lemma WholeIsLayout(n: Numeral)
    requires PythonForm(n) && !n.hasExp && n.whole != "0"
    ensures var d := StripTrailing(n.whole + n.frac);
            && d != "" && Meaning(n) == Float(Finite(n.neg, d, |n.whole| - 1))
            && n == Layout(n.neg, d, |n.whole|)
  {
    assert n.whole[0] != '0' by { if |n.whole| == 1 { assert n.whole == [n.whole[0]]; } }
    WholeMeans(n.neg, n.whole + n.frac, |n.whole| - 1);
    if n.frac == "0" {
      RoundIsLayout(n.neg, n.whole);
    } else {
      assert n.frac[|n.frac| - 1] != '0' by { if |n.frac| == 1 { assert n.frac == [n.frac[0]]; } }
      BrokenIsLayout(n.neg, n.whole, n.frac);
    }
  }

  lemma ZeroForm(n: Numeral)
    requires PythonForm(n) && !n.hasExp && n.whole == "0" && n.frac == "0"
    ensures Meaning(n) == Float(Zero(n.neg))
  {
    assert n.whole + n.frac == "00" && "00"[1..] == "0" && "0"[1..] == "";
    assert StripLeading("0") == "" && StripLeading("00") == "";
  }

  /** Of all number texts of Python's form at most one means a given float. */
  lemma OneForm(n: Numeral, f: Float)
    requires PythonForm(n) && Meaning(n) == Float(f)
    ensures f.Finite? ==> f.digits != "" && n == Layout(f.neg, f.digits, f.exp + 1)
    ensures f.Zero? ==> n == Numeral(f.neg, "0", "0", false, 0)
  {
    if n.hasExp {
      ScientificIsLayout(n);
    } else if n.whole != "0" {
      WholeIsLayout(n);
    } else if n.frac != "0" {
      FractionIsLayout(n);
    } else {
      ZeroForm(n);
    }
  }

  lemma LayoutForm(neg: bool, digits: string, point: int)
    requires digits != "" && AllDigits(digits) && digits[0] != '0' && digits[|digits| - 1] != '0'
    ensures PythonForm(Layout(neg, digits, point))
  {
    LayoutOk(neg, digits, point);
    var n := Layout(neg, digits, point);
    if point <= -4 || point > 16 {
    } else if point <= 0 {
      assert n.frac[-point] == digits[0];
    }
  }

  /** The text of a float has Python's form, and no other number text of that form means the float: the
      layout, the threshold of the exponent and the number of digits are all fixed. */
  lemma FloatTextIsTheOne(f: Float, n: Numeral)
    requires Spelled(f) && !f.NonFinite?
    ensures exists m :: PythonForm(m) && NumeralText(m) == FloatRepr(f) && Meaning(m) == Float(Normalised(f))
    ensures PythonForm(n) && Meaning(n) == Float(Normalised(f)) ==> NumeralText(n) == FloatRepr(f)
  {
    NormalisedIsNormal(f);
    var g := Normalised(f);
    var m := if g.Zero? then Numeral(g.neg, "0", "0", false, 0) else Layout(g.neg, g.digits, g.exp + 1);
    if g.Zero? {
      assert "." + "0" + "" == ".0" && "0" + ".0" == "0.0";
      assert NumeralText(m) == Sign(g.neg) + "0.0";
      ZeroForm(m);
    } else {
      LayoutForm(g.neg, g.digits, g.exp + 1);
      LayoutText(g.neg, g.digits, g.exp + 1);
      LayoutMeans(g.neg, g.digits, g.exp + 1);
    }
    assert PythonForm(m) && NumeralText(m) == FloatRepr(f);
    if PythonForm(n) && Meaning(n) == Float(g) { OneForm(n, g); }
  }

  /** An exponent is printed exactly when the float's own is below -4 or above 15. */
  lemma ExponentIff(f: Float)
    requires Spelled(f) && !f.NonFinite?
    ensures 'e' in FloatRepr(f) <==> f.Finite? && (f.exp < -4 || f.exp > 15)
  {
    NormalisedIsNormal(f);
    if f.Zero? {
      assert FloatRepr(f) == Sign(f.neg) + "0.0";
    } else {
      MagnitudeExponent(Normalised(f).digits, f.exp + 1);
      assert 'e' in FloatRepr(f) <==> 'e' in Sign(f.neg) || 'e' in Magnitude(Normalised(f).digits, f.exp + 1);
    }
  }

  lemma MagnitudeExponent(digits: string, point: int)
    requires digits != "" && AllDigits(digits)
    ensures 'e' in Magnitude(digits, point) <==> point <= -4 || point > 16
  {
    assert 'e' in "e" && forall s | AllDigits(s) :: 'e' !in s;
  }

  /** The exponent is printed with its sign and at least two digits, and none that could be left out. */
  lemma ExponentText(exp: int)
    ensures var s := ExpText(true, exp);
            && |s| >= 4 && s[0] == 'e' && s[1] == (if exp < 0 then '-' else '+') && AllDigits(s[2..])
            && NatValue(s[2..]) == Abs(exp) && (|s| > 4 ==> s[2] != '0')
  {
    var sign := if exp < 0 then "-" else "+";
    var s := ExpText(true, exp);
    assert s == "e" + sign + TwoDigits(Abs(exp)) && s[2..] == TwoDigits(Abs(exp));
    TwoDigitsValue(Abs(exp));
  }
}
