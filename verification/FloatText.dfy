/** How a float is spelled in canonical JSON: Python's `repr` layout over the shortest digits. */
module FloatText {
  import opened Decimal

  /** A binary float by its decimal spelling in scientific notation: `Finite` is d.ddd * 10^exp with
      the digit string dddd. */
  datatype Float = NonFinite | Zero(neg: bool) | Finite(neg: bool, digits: string, exp: int)

  /** Scientific notation starts with a digit other than zero. */
  predicate Spelled(f: Float) {
    f.Finite? ==> f.digits != "" && AllDigits(f.digits) && f.digits[0] != '0'
  }

  function StripTrailing(s: string): (t: string)
    ensures |t| <= |s|
  {
    if s == "" || s[|s| - 1] != '0' then s else StripTrailing(s[..|s| - 1])
  }

  lemma {:induction false} StripTrailingKeeps(s: string)
    requires s != "" && s[0] != '0'
    ensures var t := StripTrailing(s);
            && t != "" && t == s[..|t|] && t[|t| - 1] != '0' && StripTrailing(t) == t
            && forall i | |t| <= i < |s| :: s[i] == '0'
    decreases |s|
  {
    if s[|s| - 1] == '0' { StripTrailingKeeps(s[..|s| - 1]); }
  }

  /** Two spellings of one float differ only in zeros at the end. */
  function Normalised(f: Float): Float {
    if f.Finite? then f.(digits := StripTrailing(f.digits)) else f
  }

  predicate Normal(f: Float) {
    Spelled(f) && (f.Finite? ==> f.digits[|f.digits| - 1] != '0')
  }

  lemma NormalisedIsNormal(f: Float)
    requires Spelled(f)
    ensures Normal(Normalised(f)) && Normalised(Normalised(f)) == Normalised(f)
  {
    if f.Finite? { StripTrailingKeeps(f.digits); }
  }

  function Zeros(n: nat): (s: string)
    ensures |s| == n && AllDigits(s) && forall i | 0 <= i < n :: s[i] == '0'
  {
    if n == 0 then "" else "0" + Zeros(n - 1)
  }

  function Sign(neg: bool): string {
    if neg then "-" else ""
  }

  /** `{:02}`. */
  function TwoDigits(n: nat): (s: string)
    ensures |s| >= 2 && AllDigits(s)
  {
    if n < 10 then "0" + NatText(n) else NatText(n)
  }

  function Abs(n: int): nat {
    if n < 0 then -n else n
  }

  /** The four layouts; `point` is the position of the decimal point relative to the digits. */
  function Magnitude(digits: string, point: int): string {
    if digits == "" then ""
    else if point <= -4 || point > 16 then
      digits[..1] + (if |digits| > 1 then "." + digits[1..] else "")
      + "e" + (if point - 1 < 0 then "-" else "+") + TwoDigits(Abs(point - 1))
    else if point <= 0 then "0." + Zeros(-point) + digits
    else if point >= |digits| then digits + Zeros(point - |digits|) + ".0"
    else digits[..point] + "." + digits[point..]
  }

  /** The text of a float that has one. */
  function FloatRepr(f: Float): string {
    NormalRepr(Normalised(f))
  }

  function NormalRepr(f: Float): string {
    match f
    case NonFinite => ""
    case Zero(neg) => Sign(neg) + "0.0"
    case Finite(neg, digits, exp) => Sign(neg) + Magnitude(digits, exp + 1)
  }

  /** `python_float_repr`: the layout built by pushing characters; a non-finite float is an error. */
  method PythonFloatRepr(f: Float) returns (ok: bool, out: string)
    requires Spelled(f)
    ensures ok == !f.NonFinite?
    ensures ok ==> out == FloatRepr(f)
  {
    if f.NonFinite? {
      return false, "";
    }
    if f.Zero? {
      return true, if f.neg then "-0.0" else "0.0";
    }
    NormalisedIsNormal(f);
    out := PushDigits(if f.neg then "-" else "", Normalised(f).digits, f.exp + 1);
    ok := true;
  }

  method PushDigits(text: string, digits: string, decpt: int) returns (out: string)
    requires digits != ""
    ensures out == text + Magnitude(digits, decpt)
  {
    if decpt <= -4 || decpt > 16 {
      out := PushScientific(text, digits, decpt);
    } else if decpt <= 0 {
      out := PushFraction(text, digits, decpt);
    } else if decpt >= |digits| {
      out := PushWhole(text, digits, decpt);
    } else {
      out := text + digits[..decpt];
      out := out + ".";
      out := out + digits[decpt..];
    }
  }

  method PushScientific(text: string, digits: string, decpt: int) returns (out: string)
    requires digits != "" && (decpt <= -4 || decpt > 16)
    ensures out == text + Magnitude(digits, decpt)
  {
    var added := digits[..1];
    if |digits| > 1 {
      added := added + ".";
      added := added + digits[1..];
    }
    assert added == digits[..1] + (if |digits| > 1 then "." + digits[1..] else "");
    var exp := decpt - 1;
    added := added + "e";
    added := added + if exp < 0 then "-" else "+";
    added := added + TwoDigits(Abs(exp));
    out := text + added;
  }

  method PushFraction(text: string, digits: string, decpt: int) returns (out: string)
    requires digits != "" && -4 < decpt <= 0
    ensures out == text + Magnitude(digits, decpt)
  {
    var added := PushZeros("0.", -decpt);
    added := added + digits;
    out := text + added;
  }

  method PushWhole(text: string, digits: string, decpt: int) returns (out: string)
    requires 0 < |digits| <= decpt <= 16
    ensures out == text + Magnitude(digits, decpt)
  {
    var added := PushZeros(digits, decpt - |digits|);
    added := added + ".0";
    out := text + added;
  }

  method PushZeros(text: string, n: nat) returns (out: string)
    ensures out == text + Zeros(n)
  {
    out := text;
    for i := 0 to n
      invariant out == text + Zeros(i)
    {
      ZerosSnoc(i);
      out := out + "0";
    }
  }

  lemma {:induction false} ZerosSnoc(n: nat)
    ensures Zeros(n) + "0" == Zeros(n + 1)
  {
    if n > 0 {
      ZerosSnoc(n - 1);
      assert Zeros(n) + "0" == "0" + (Zeros(n - 1) + "0");
    }
  }

  /** A float is never spelled like an integer. */
  lemma NeverAnInteger(f: Float, n: int)
    requires Spelled(f) && !f.NonFinite?
    ensures '.' in FloatRepr(f) || 'e' in FloatRepr(f)
    ensures FloatRepr(f) != IntText(n)
  {
    IntTextExcludes(n, '.');
    IntTextExcludes(n, 'e');
    var s := FloatRepr(f);
    if f.Zero? {
      assert s == Sign(f.neg) + "0" + "." + "0";
    } else {
      NormalisedIsNormal(f);
      MarkInside(Normalised(f).digits, f.exp + 1);
    }
  }

  lemma MarkInside(digits: string, point: int)
    requires digits != ""
    ensures '.' in Magnitude(digits, point) || 'e' in Magnitude(digits, point)
  {
    if point <= -4 || point > 16 {
      assert 'e' in "e";
    } else {
      assert '.' in "." && '.' in "0." && '.' in ".0";
    }
  }
}
