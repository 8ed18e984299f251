/** What number texts denote, as exact rationals: the spelling of a float loses nothing. */
module NumberValue {
  import opened Envelope
  import opened Decimal
  import opened FloatText
  import opened NumberText

  /** x * 10^e */
  function Scaled(x: real, e: int): real
    decreases if e < 0 then -e else e
  {
    if e == 0 then x else if e > 0 then 10.0 * Scaled(x, e - 1) else Scaled(x, e + 1) / 10.0
  }

  lemma {:induction false} ScaledTen(x: real, e: int)
    ensures Scaled(10.0 * x, e) == Scaled(x, e + 1) == 10.0 * Scaled(x, e)
    decreases if e < 0 then -e else e
  {
    if e > 0 { ScaledTen(x, e - 1); } else if e < 0 { ScaledTen(x, e + 1); }
  }

  lemma {:induction false} ScaledZero(e: int)
    ensures Scaled(0.0, e) == 0.0
    decreases if e < 0 then -e else e
  {
    if e > 0 { ScaledZero(e - 1); } else if e < 0 { ScaledZero(e + 1); }
  }

  function Signed(neg: bool, x: real): real {
    if neg then 0.0 - x else x
  }

  /** d.ddd * 10^exp, the digits read as an integer. */
  function FloatValue(f: Float): real {
    match f
    case NonFinite => 0.0
    case Zero(neg) => 0.0
    case Finite(neg, digits, exp) => Signed(neg, Scaled(NatValue(digits) as real, exp + 1 - |digits|))
  }

  /** Section 6 of RFC 8259: integer part and fraction as one integer, scaled by the exponent and
      the length of the fraction. */
  function NumeralValue(n: Numeral): real {
    Signed(n.neg, Scaled(NatValue(n.whole + n.frac) as real, n.exp - |n.frac|))
  }

  lemma {:induction false} LeadingZeroCountsNothing(s: string)
    requires s != "" && s[0] == '0'
    ensures NatValue(s) == NatValue(s[1..])
    decreases |s|
  {
    if |s| > 1 {
      var front := s[..|s| - 1];
      LeadingZeroCountsNothing(front);
      assert s[1..][..|s| - 2] == front[1..];
    } else {
      assert s[..0] == "" && s[1..] == "";
    }
  }

  lemma {:induction false} StripLeadingValue(s: string)
    ensures NatValue(StripLeading(s)) == NatValue(s)
    decreases |s|
  {
    if s != "" && s[0] == '0' {
      LeadingZeroCountsNothing(s);
      StripLeadingValue(s[1..]);
    }
  }

  lemma {:induction false} StripTrailingValue(s: string, scale: int)
    ensures Scaled(NatValue(s) as real, scale)
         == Scaled(NatValue(StripTrailing(s)) as real, scale + |s| - |StripTrailing(s)|)
    decreases |s|
  {
    if s != "" && s[|s| - 1] == '0' {
      var front := s[..|s| - 1];
      StripTrailingValue(front, scale + 1);
      ScaledTen(NatValue(front) as real, scale);
      assert NatValue(s) == 10 * NatValue(front);
    }
  }

  /** Dropping zeros at the end does not change the value. */
  lemma NormalisedValue(f: Float)
    ensures FloatValue(Normalised(f)) == FloatValue(f)
  {
    if f.Finite? { StripTrailingValue(f.digits, f.exp + 1 - |f.digits|); }
  }

  lemma ScientificValue(neg: bool, digits: string, exp: int)
    ensures FloatValue(FromScientific(neg, digits, exp))
         == Signed(neg, Scaled(NatValue(digits) as real, exp + 1 - |digits|))
  {
    var tail := StripLeading(digits);
    StripLeadingValue(digits);
    if tail == "" {
      ScaledZero(exp + 1 - |digits|);
    } else {
      StripTrailingValue(tail, exp + 1 - |digits|);
    }
  }

  /** Reading keeps the value the grammar gives to the text, for every number text. */
  lemma MeaningIsExact(n: Numeral)
    requires !n.hasExp ==> n.exp == 0
    ensures Meaning(n).Int? ==> NumeralValue(n) == Meaning(n).n as real
    ensures Meaning(n).Float? ==> FloatValue(Meaning(n).f) == NumeralValue(n)
  {
    if n.frac == "" && !n.hasExp {
      WholeValue(n);
    } else {
      FractionValue(n, n.whole + n.frac, n.exp + |n.whole| - 1);
    }
  }

  lemma FractionValue(n: Numeral, digits: string, exp: int)
    requires (n.frac != "" || n.hasExp) && digits == n.whole + n.frac && exp == n.exp + |n.whole| - 1
    ensures Meaning(n) == Float(FromScientific(n.neg, digits, exp))
    ensures FloatValue(FromScientific(n.neg, digits, exp)) == NumeralValue(n)
  {
    assert n.exp - |n.frac| == exp + 1 - |digits|;
    ScientificValue(n.neg, digits, exp);
  }

  lemma WholeValue(n: Numeral)
    requires n.frac == "" && n.exp == 0
    ensures NumeralValue(n) == Signed(n.neg, NatValue(n.whole) as real)
  {
    assert n.whole + n.frac == n.whole;
  }

  /** All four layouts are exact: the printed text is a number of the grammar and denotes the very
      decimal value that was printed. */
  lemma ReprIsExact(f: Float)
    requires Spelled(f) && !f.NonFinite?
    ensures var r := ReadNumeral(FloatRepr(f));
            r.Some? && r.value.1 == "" && NumeralValue(r.value.0) == FloatValue(f)
  {
    FloatReadsBack(f, "");
    assert FloatRepr(f) + "" == FloatRepr(f);
    MeaningIsExact(ReadNumeral(FloatRepr(f)).value.0);
    NormalisedValue(f);
  }

}
