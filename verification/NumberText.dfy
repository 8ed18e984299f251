/** The number grammar of RFC 8259 section 6: a reader, what a number text denotes, and what printed
    numbers read back as. */
module NumberText {
  import opened Envelope
  import opened Decimal
  import opened FloatText

  datatype Number = Int(n: int) | Float(f: Float)

  /** `[ minus ] int [ frac ] [ exp ]`; `frac` is empty when there is none. */
  datatype Numeral = Numeral(neg: bool, whole: string, frac: string, hasExp: bool, exp: int)

  function DigitSpan(s: string): (k: nat)
    ensures k <= |s| && AllDigits(s[..k]) && (k < |s| ==> !IsDigit(s[k]))
  {
    if s == "" || !IsDigit(s[0]) then 0 else 1 + DigitSpan(s[1..])
  }

  function ReadExponent(neg: bool, whole: string, frac: string, s: string): (r: Option<(Numeral, string)>)
    ensures r.Some? ==> |r.value.1| <= |s| && r.value.0.whole == whole && r.value.0.frac == frac && r.value.0.neg == neg
  {
    if s != "" && (s[0] == 'e' || s[0] == 'E') then
      var signed := |s| > 1 && (s[1] == '+' || s[1] == '-');
      var digits := if signed then s[2..] else s[1..];
      var k := DigitSpan(digits);
      if k == 0 then None
      else
        var magnitude: int := NatValue(digits[..k]);
        Some((Numeral(neg, whole, frac, true, if signed && s[1] == '-' then -magnitude else magnitude), digits[k..]))
    else Some((Numeral(neg, whole, frac, false, 0), s))
  }

  predicate Negative(s: string) {
    s != "" && s[0] == '-'
  }

  function ReadFraction(neg: bool, whole: string, tail: string): (r: Option<(Numeral, string)>)
    ensures r.Some? ==>
              |r.value.1| <= |tail| && r.value.0.whole == whole && r.value.0.neg == neg && AllDigits(r.value.0.frac)
  {
    if tail != "" && tail[0] == '.' then
      var f := DigitSpan(tail[1..]);
      if f == 0 then None else ReadExponent(neg, whole, tail[1..][..f], tail[1..][f..])
    else ReadExponent(neg, whole, "", tail)
  }

  function ReadMagnitude(neg: bool, body: string): (r: Option<(Numeral, string)>)
    ensures r.Some? ==> |r.value.1| < |body| && r.value.0.neg == neg && WellFormed(r.value.0)
  {
    var w := DigitSpan(body);
    if w == 0 || (w > 1 && body[0] == '0') then None else ReadFraction(neg, body[..w], body[w..])
  }

  /** Reads one number off the front of a text. */
  function ReadNumeral(s: string): (r: Option<(Numeral, string)>)
    ensures r.Some? ==> |r.value.1| < |s| && WellFormed(r.value.0)
  {
    ReadMagnitude(Negative(s), if Negative(s) then s[1..] else s)
  }

  predicate WellFormed(n: Numeral) {
    && n.whole != "" && AllDigits(n.whole) && (|n.whole| > 1 ==> n.whole[0] != '0') && AllDigits(n.frac)
  }

  // ---- what a numeral means ----

  function StripLeading(s: string): (t: string)
    ensures |t| <= |s|
  {
    if s == "" || s[0] != '0' then s else StripLeading(s[1..])
  }

  /** The float spelled d.ddd * 10^exp, leading zeros allowed. */
  function FromScientific(neg: bool, digits: string, exp: int): Float {
    var tail := StripLeading(digits);
    if tail == "" then Zero(neg) else Finite(neg, StripTrailing(tail), exp - (|digits| - |tail|))
  }

  function Meaning(n: Numeral): Number {
    if n.frac == "" && !n.hasExp then Int(if n.neg then 0 - NatValue(n.whole) else NatValue(n.whole))
    else Float(FromScientific(n.neg, n.whole + n.frac, n.exp + |n.whole| - 1))
  }

  // ---- reading a spelled-out number ----

  lemma {:induction false} DigitSpanAppend(a: string, b: string)
    requires AllDigits(a) && (b == "" || !IsDigit(b[0]))
    ensures DigitSpan(a + b) == |a| && (a + b)[..|a|] == a && (a + b)[|a|..] == b
    decreases |a|
  {
    if a != "" {
      assert (a + b)[1..] == a[1..] + b;
      DigitSpanAppend(a[1..], b);
    } else {
      assert a + b == b;
    }
  }

  /** Nothing that would continue a number. */
  predicate Stops(s: string) {
    s == "" || (!IsDigit(s[0]) && s[0] != '.' && s[0] != 'e' && s[0] != 'E')
  }

  function FracText(frac: string): string {
    if frac == "" then "" else "." + frac
  }

  function ExpText(hasExp: bool, exp: int): string {
    if hasExp then "e" + (if exp < 0 then "-" else "+") + TwoDigits(Abs(exp)) else ""
  }

  function NumeralText(n: Numeral): string {
    Sign(n.neg) + (n.whole + (FracText(n.frac) + ExpText(n.hasExp, n.exp)))
  }

  lemma TwoDigitsValue(n: nat)
    ensures NatValue(TwoDigits(n)) == n
  {
    NatRoundTrip(n);
    if n < 10 {
      var s := TwoDigits(n);
      assert s[..1] == "0" && NatValue("0") == 0;
    }
  }

  lemma ReadExp(neg: bool, whole: string, frac: string, hasExp: bool, exp: int, rest: string)
    requires Stops(rest) && (!hasExp ==> exp == 0)
    ensures ReadExponent(neg, whole, frac, ExpText(hasExp, exp) + rest)
         == Some((Numeral(neg, whole, frac, hasExp, exp), rest))
  {
    if hasExp {
      var sign := if exp < 0 then "-" else "+";
      Assoc("e" + sign, TwoDigits(Abs(exp)), rest);
      ReadSignedExp(neg, whole, frac, sign, TwoDigits(Abs(exp)), rest);
      TwoDigitsValue(Abs(exp));
    } else {
      assert ExpText(hasExp, exp) + rest == rest;
    }
  }

  lemma ReadSignedExp(neg: bool, whole: string, frac: string, sign: string, digits: string, rest: string)
    requires (sign == "-" || sign == "+") && digits != "" && AllDigits(digits) && Stops(rest)
    ensures ReadExponent(neg, whole, frac, "e" + sign + (digits + rest))
         == Some((Numeral(neg, whole, frac, true,
                       if sign == "-" then 0 - NatValue(digits) else NatValue(digits)), rest))
  {
    var s := "e" + sign + (digits + rest);
    assert s[2..] == digits + rest && s[0] == 'e' && s[1] == sign[0];
    DigitSpanAppend(digits, rest);
  }

  lemma ReadFrac(neg: bool, whole: string, frac: string, hasExp: bool, exp: int, rest: string)
    requires AllDigits(frac) && Stops(rest) && (!hasExp ==> exp == 0)
    ensures ReadFraction(neg, whole, FracText(frac) + (ExpText(hasExp, exp) + rest))
         == Some((Numeral(neg, whole, frac, hasExp, exp), rest))
  {
    var after := ExpText(hasExp, exp) + rest;
    ReadExp(neg, whole, frac, hasExp, exp, rest);
    NoDigitFirst(hasExp, exp, rest);
    if frac != "" {
      ReadDigitsAfterPoint(neg, whole, frac, after);
    } else {
      assert FracText(frac) + after == after;
    }
  }

  lemma ReadDigitsAfterPoint(neg: bool, whole: string, frac: string, after: string)
    requires frac != "" && AllDigits(frac) && (after == "" || !IsDigit(after[0]))
    ensures ReadFraction(neg, whole, "." + frac + after) == ReadExponent(neg, whole, frac, after)
  {
    assert ("." + frac + after)[1..] == frac + after;
    DigitSpanAppend(frac, after);
  }

  lemma NoDigitFirst(hasExp: bool, exp: int, rest: string)
    requires Stops(rest)
    ensures var after := ExpText(hasExp, exp) + rest; after == "" || (!IsDigit(after[0]) && after[0] != '.')
  {
    if !hasExp { assert ExpText(hasExp, exp) + rest == rest; }
  }

  lemma ReadMagnitudeBack(n: Numeral, rest: string)
    requires WellFormed(n) && Stops(rest) && (!n.hasExp ==> n.exp == 0)
    ensures ReadMagnitude(n.neg, n.whole + (FracText(n.frac) + (ExpText(n.hasExp, n.exp) + rest))) == Some((n, rest))
  {
    var after := ExpText(n.hasExp, n.exp) + rest;
    var tail := FracText(n.frac) + after;
    NoDigitFirst(n.hasExp, n.exp, rest);
    if n.frac == "" { assert tail == after; }
    assert tail == "" || !IsDigit(tail[0]);
    DigitSpanAppend(n.whole, tail);
    ReadFrac(n.neg, n.whole, n.frac, n.hasExp, n.exp, rest);
  }

  lemma Assoc(a: string, b: string, c: string)
    ensures (a + b) + c == a + (b + c)
  {
  }

  /** Reading back the text of a well-formed numeral. */
  lemma ReadBack(n: Numeral, rest: string)
    requires WellFormed(n) && Stops(rest) && (!n.hasExp ==> n.exp == 0)
    ensures ReadNumeral(NumeralText(n) + rest) == Some((n, rest))
  {
    var f, e := FracText(n.frac), ExpText(n.hasExp, n.exp);
    var body := n.whole + (f + (e + rest));
    Assoc(Sign(n.neg), n.whole + (f + e), rest);
    Assoc(n.whole, f + e, rest);
    Assoc(f, e, rest);
    assert NumeralText(n) + rest == Sign(n.neg) + body;
    ReadMagnitudeBack(n, rest);
    SignedBody(n.neg, body);
  }

  lemma SignedBody(neg: bool, body: string)
    requires body != "" && IsDigit(body[0])
    ensures var s := Sign(neg) + body; Negative(s) == neg && (if Negative(s) then s[1..] else s) == body
  {
    if !neg { assert Sign(neg) + body == body; }
  }

  lemma PlainText(n: Numeral)
    requires n.frac == "" && !n.hasExp
    ensures NumeralText(n) == Sign(n.neg) + n.whole
  {
    assert FracText(n.frac) + ExpText(n.hasExp, n.exp) == "";
  }

  lemma IntReadsBack(n: int, rest: string)
    requires Stops(rest)
    ensures var r := ReadNumeral(IntText(n) + rest); r.Some? && r.value.1 == rest && Meaning(r.value.0) == Int(n)
  {
    var numeral := Numeral(n < 0, NatText(Abs(n)), "", false, 0);
    PlainText(numeral);
    ReadBack(numeral, rest);
    NatRoundTrip(Abs(n));
  }

  // ---- floats ----

  /** The four layouts as numerals. */
  function Layout(neg: bool, digits: string, point: int): Numeral {
    if digits == "" then Numeral(neg, "0", "", false, 0)
    else if point <= -4 || point > 16 then Numeral(neg, digits[..1], digits[1..], true, point - 1)
    else if point <= 0 then Numeral(neg, "0", Zeros(-point) + digits, false, 0)
    else if point >= |digits| then Numeral(neg, digits + Zeros(point - |digits|), "0", false, 0)
    else Numeral(neg, digits[..point], digits[point..], false, 0)
  }

  lemma LayoutOk(neg: bool, digits: string, point: int)
    requires digits != "" && AllDigits(digits) && digits[0] != '0'
    ensures WellFormed(Layout(neg, digits, point))
  {
  }

  lemma LayoutText(neg: bool, digits: string, point: int)
    requires digits != "" && AllDigits(digits) && digits[0] != '0'
    ensures NumeralText(Layout(neg, digits, point)) == Sign(neg) + Magnitude(digits, point)
  {
    var n := Layout(neg, digits, point);
    var f, e := FracText(n.frac), ExpText(n.hasExp, n.exp);
    assert NumeralText(n) == Sign(neg) + (n.whole + (f + e));
    if point <= -4 || point > 16 {
      var sign := if point - 1 < 0 then "-" else "+";
      Assoc(n.whole, f, e);
      Assoc(n.whole + f, "e" + sign, TwoDigits(Abs(point - 1)));
      Assoc(n.whole + f, "e", sign);
      assert Magnitude(digits, point) == n.whole + f + "e" + sign + TwoDigits(Abs(point - 1));
    } else {
      assert f + e == f;
      FixedText(neg, digits, point);
    }
  }

  lemma FixedText(neg: bool, digits: string, point: int)
    requires digits != "" && AllDigits(digits) && -4 < point <= 16
    ensures var n := Layout(neg, digits, point); n.whole + FracText(n.frac) == Magnitude(digits, point)
  {
    if point <= 0 {
      Assoc("0", ".", Zeros(-point) + digits);
      Assoc("0.", Zeros(-point), digits);
      assert "0" + "." == "0.";
    } else if point >= |digits| {
      assert "." + "0" == ".0";
    } else {
      Assoc(digits[..point], ".", digits[point..]);
    }
  }

  lemma {:induction false} StripLeadingZeros(n: nat, s: string)
    requires s != "" && s[0] != '0'
    ensures StripLeading(Zeros(n) + s) == s
  {
    if n > 0 {
      Assoc("0", Zeros(n - 1), s);
      assert ("0" + (Zeros(n - 1) + s))[1..] == Zeros(n - 1) + s;
      StripLeadingZeros(n - 1, s);
    } else {
      assert Zeros(n) + s == s;
    }
  }

  lemma {:induction false} StripTrailingZeros(s: string, n: nat)
    requires s != "" && s[|s| - 1] != '0'
    ensures StripTrailing(s + Zeros(n)) == s
  {
    if n > 0 {
      ZerosSnoc(n - 1);
      var t := s + Zeros(n);
      assert t[..|t| - 1] == s + Zeros(n - 1);
      StripTrailingZeros(s, n - 1);
    } else {
      assert s + Zeros(n) == s;
    }
  }

  lemma PaddedMeans(neg: bool, a: nat, digits: string, b: nat, exp: int)
    requires digits != "" && digits[0] != '0' && digits[|digits| - 1] != '0'
    ensures FromScientific(neg, Zeros(a) + (digits + Zeros(b)), exp) == Finite(neg, digits, exp - a)
  {
    StripLeadingZeros(a, digits + Zeros(b));
    StripTrailingZeros(digits, b);
  }

  /** Every layout means the float it was made from. */
  lemma LayoutMeans(neg: bool, digits: string, point: int)
    requires digits != "" && digits[0] != '0' && digits[|digits| - 1] != '0'
    ensures Meaning(Layout(neg, digits, point)) == Float(Finite(neg, digits, point - 1))
  {
    var n := Layout(neg, digits, point);
    var a, b := Padding(neg, digits, point);
    PaddedNumeral(n, a, digits, b, point);
  }

  lemma PaddedNumeral(n: Numeral, a: nat, digits: string, b: nat, point: int)
    requires digits != "" && digits[0] != '0' && digits[|digits| - 1] != '0'
    requires (n.frac != "" || n.hasExp)
    requires n.whole + n.frac == Zeros(a) + (digits + Zeros(b)) && n.exp + |n.whole| - 1 - a == point - 1
    ensures Meaning(n) == Float(Finite(n.neg, digits, point - 1))
  {
    PaddedMeans(n.neg, a, digits, b, n.exp + |n.whole| - 1);
  }

  /** The digits of a layout are the float's digits with zeros on one side. */
  lemma Padding(neg: bool, digits: string, point: int) returns (a: nat, b: nat)
    requires digits != ""
    ensures var n := Layout(neg, digits, point);
            && n.whole + n.frac == Zeros(a) + (digits + Zeros(b)) && n.exp + |n.whole| - 1 - a == point - 1
            && (n.frac != "" || n.hasExp)
  {
    if point <= -4 || point > 16 {
      a, b := 0, 0;
      assert digits[..1] + digits[1..] == Zeros(0) + (digits + Zeros(0));
    } else if point <= 0 {
      a, b := 1 - point, 0;
      Assoc("0", Zeros(-point), digits);
      assert digits + Zeros(0) == digits;
    } else if point >= |digits| {
      a, b := 0, point - |digits| + 1;
      ZerosSnoc(point - |digits|);
      Assoc(digits, Zeros(point - |digits|), "0");
      assert Zeros(0) + (digits + Zeros(b)) == digits + Zeros(b);
    } else {
      a, b := 0, 0;
      assert digits[..point] + digits[point..] == Zeros(0) + (digits + Zeros(0));
    }
  }

  lemma ZeroReadsBack(neg: bool, rest: string)
    requires Stops(rest)
    ensures var r := ReadNumeral(Sign(neg) + "0.0" + rest);
            r.Some? && r.value.1 == rest && Meaning(r.value.0) == Float(Zero(neg))
  {
    var n := Numeral(neg, "0", "0", false, 0);
    assert "." + "0" + "" == ".0" && "0" + ".0" == "0.0";
    assert NumeralText(n) == Sign(neg) + "0.0";
    ReadBack(n, rest);
    assert "0" + "0" == "00" && "00"[1..] == "0" && "0"[1..] == "";
    assert StripLeading("0") == "" && StripLeading("00") == "";
  }

  lemma FiniteReadsBack(neg: bool, digits: string, exp: int, rest: string)
    requires Normal(Finite(neg, digits, exp)) && Stops(rest)
    ensures var r := ReadNumeral(Sign(neg) + Magnitude(digits, exp + 1) + rest);
            r.Some? && r.value.1 == rest && Meaning(r.value.0) == Float(Finite(neg, digits, exp))
  {
    LayoutOk(neg, digits, exp + 1);
    LayoutText(neg, digits, exp + 1);
    LayoutMeans(neg, digits, exp + 1);
    ReadBack(Layout(neg, digits, exp + 1), rest);
  }

  /** The text of a float is a number of the grammar and reads back as that float, sign of zero
      included. */
  lemma FloatReadsBack(f: Float, rest: string)
    requires Spelled(f) && !f.NonFinite? && Stops(rest)
    ensures var r := ReadNumeral(FloatRepr(f) + rest);
            r.Some? && r.value.1 == rest && Meaning(r.value.0) == Float(Normalised(f))
  {
    var g := Normalised(f);
    NormalisedIsNormal(f);
    if g.Zero? {
      ZeroReadsBack(g.neg, rest);
    } else {
      FiniteReadsBack(g.neg, g.digits, g.exp, rest);
    }
  }

  /** Two floats print alike exactly when they are the same float. */
  lemma FloatReprInjective(f: Float, g: Float)
    requires Spelled(f) && Spelled(g) && !f.NonFinite? && !g.NonFinite?
    ensures FloatRepr(f) == FloatRepr(g) <==> Normalised(f) == Normalised(g)
  {
    FloatReadsBack(f, "");
    FloatReadsBack(g, "");
    assert Normalised(f) == Normalised(g) ==> FloatRepr(f) == FloatRepr(g);
  }
}
