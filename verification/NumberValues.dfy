/**
 The value of a number text: sign, digits, point and exponent, for every text
 that is read as a number, not only for those that are printed.
 */
module NumberValues {
  import opened Results
  import opened Text
  import opened Numbers

  /** Ten to the power `e`. */
  function Tens(e: int): real
    decreases if e < 0 then -e else e
  {
    if e == 0 then 1.0 else if e > 0 then 10.0 * Tens(e - 1) else Tens(e + 1) / 10.0
  }

  /** The number with these digits before and behind its point. */
  function Digits(whole: string, frac: string): real
    requires AllDigits(whole) && AllDigits(frac)
  {
    NatOf(whole) as real + FracValue(frac)
  }

  function Signed(negative: bool, x: real): real {
    if negative then -x else x
  }

  function Product(x: real, y: real): real {
    x * y
  }

  lemma {:induction false} FracSnocZero(s: string)
    requires AllDigits(s)
    ensures FracValue(s + "0") == FracValue(s)
  {
    if s == "" {
      assert "" + "0" == "0" && "0"[1..] == "";
    } else {
      assert (s + "0")[1..] == s[1..] + "0";
      FracSnocZero(s[1..]);
    }
  }

  lemma {:induction false} TrailingZerosWeighNothing(s: string)
    requires AllDigits(s)
    ensures FracValue(WithoutTrailingZeros(s)) == FracValue(s)
    decreases |s|
  {
    if s != "" && s[|s| - 1] == '0' {
      var t := s[..|s| - 1];
      assert s == t + "0";
      FracSnocZero(t);
      TrailingZerosWeighNothing(t);
    }
  }

  lemma {:induction false} NoFraction(f: string)
    requires AllDigits(f) && (f == "" || f[|f| - 1] != '0')
    ensures FracValue(f) == 0.0 <==> f == ""
  {
    if f != "" {
      if |f| > 1 {
        assert f[1..][|f[1..]| - 1] == f[|f| - 1];
        NoFraction(f[1..]);
      } else {
        assert f[1..] == "";
      }
    }
  }

  lemma FiniteValue(negative: bool, whole: string, frac: string)
    requires AllDigits(whole) && AllDigits(frac)
    ensures var x := FiniteOf(negative, whole, frac); x.Finite? && Value(x) == Signed(negative, Digits(whole, frac))
  {
    TrailingZerosWeighNothing(frac);
    NoFraction(WithoutTrailingZeros(frac));
    hide WithoutTrailingZeros, NatOf, FracValue;
  }

  /** The point one place to the right. */
  lemma PointRight(whole: string, frac: string)
    requires AllDigits(whole) && AllDigits(frac)
    ensures Digits(whole + "0", "") == 10.0 * NatOf(whole) as real
    ensures frac != "" ==> Digits(whole + frac[..1], frac[1..]) == 10.0 * Digits(whole, frac)
    ensures frac == "" ==> Digits(whole, frac) == NatOf(whole) as real
  {
    assert (whole + "0")[..|whole|] == whole;
    if frac != "" {
      assert (whole + frac[..1])[..|whole|] == whole;
    }
  }

  /** And to the left. */
  lemma PointLeft(whole: string, frac: string)
    requires AllDigits(whole) && AllDigits(frac)
    ensures whole == "" ==> Digits("", "0" + frac) == Digits(whole, frac) / 10.0
    ensures whole != "" ==>
              Digits(whole[..|whole| - 1], whole[|whole| - 1..] + frac) == Digits(whole, frac) / 10.0
  {
    if whole == "" {
      assert ("0" + frac)[1..] == frac;
    } else {
      var d := whole[|whole| - 1..];
      assert (d + frac)[1..] == frac && (d + frac)[0] == whole[|whole| - 1];
    }
  }

  lemma TensStep(x: real, e: int)
    ensures e > 0 ==> Product(10.0 * x, Tens(e - 1)) == Product(x, Tens(e))
    ensures e < 0 ==> Product(x / 10.0, Tens(e + 1)) == Product(x, Tens(e))
    ensures Product(x, Tens(0)) == x
  {
    var t := Tens(e);
    if e > 0 {
      var u := Tens(e - 1);
      assert t == 10.0 * u;
      assert (10.0 * x) * u == x * (10.0 * u);
    } else if e < 0 {
      var u := Tens(e + 1);
      assert t == u / 10.0;
      assert (x / 10.0) * u == x * (u / 10.0);
    }
  }

  /** Moving the point multiplies by a power of ten. */
  lemma {:induction false} ScaledValue(negative: bool, whole: string, frac: string, e: int)
    requires AllDigits(whole) && AllDigits(frac)
    ensures var x := Numbers.Scaled(negative, whole, frac, e);
            x.Finite? && Value(x) == Signed(negative, Product(Digits(whole, frac), Tens(e)))
    decreases if e < 0 then -e else e
  {
    hide Digits, Product, Tens, Value, FiniteOf;
    TensStep(Digits(whole, frac), e);
    PointRight(whole, frac);
    PointLeft(whole, frac);
    if e == 0 {
      FiniteValue(negative, whole, frac);
    } else if e > 0 {
      if frac == "" {
        ScaledValue(negative, whole + "0", "", e - 1);
      } else {
        ScaledValue(negative, whole + frac[..1], frac[1..], e - 1);
      }
    } else if whole == "" {
      ScaledValue(negative, "", "0" + frac, e + 1);
    } else {
      ScaledValue(negative, whole[..|whole| - 1], whole[|whole| - 1..] + frac, e + 1);
    }
  }

  // ---------------- the text --------------------------------------------

  /** The parts of a number text: `sign whole point frac`, and perhaps `mark sign exponent`. */
  datatype Parts = Parts(sign: string, whole: string, point: string, frac: string, exponent: Exponent)

  datatype Exponent = Absent | Present(mark: char, sign: string, digits: string)

  predicate IsSign(s: string) {
    s == "" || s == "+" || s == "-"
  }

  predicate IsNumber(p: Parts) {
    && IsSign(p.sign) && AllDigits(p.whole) && AllDigits(p.frac) && p.whole + p.frac != ""
    && (p.point == "." || (p.point == "" && p.frac == ""))
    && (p.exponent.Present? ==>
          && p.exponent.mark in {'e', 'E'} && IsSign(p.exponent.sign)
          && p.exponent.digits != "" && AllDigits(p.exponent.digits))
  }

  function ExponentText(e: Exponent): string {
    match e
    case Absent => ""
    case Present(mark, sign, digits) => [mark] + (sign + digits)
  }

  function Mantissa(p: Parts): string {
    p.whole + p.point + p.frac
  }

  function NumberText(p: Parts): string {
    p.sign + (Mantissa(p) + ExponentText(p.exponent))
  }

  function ExponentNumber(e: Exponent): int
    requires e.Present? ==> AllDigits(e.digits)
  {
    match e
    case Absent => 0
    case Present(_, sign, digits) => if sign == "-" then -(NatOf(digits) as int) else NatOf(digits)
  }

  /** The number that the parts of a text say. */
  function NumberValue(p: Parts): real
    requires IsNumber(p)
  {
    Signed(p.sign == "-", Product(Digits(p.whole, p.frac), Tens(ExponentNumber(p.exponent))))
  }

  lemma {:induction false} ExponentAtMark(a: string, b: string)
    requires AllButExponent(a) && (b == "" || b[0] == 'e' || b[0] == 'E')
    ensures ExponentAt(a + b) == |a|
  {
    if a == "" {
      assert a + b == b;
    } else {
      assert (a + b)[1..] == a[1..] + b;
      ExponentAtMark(a[1..], b);
    }
  }

  lemma MantissaSplits(p: Parts)
    requires IsNumber(p)
    ensures var m := Mantissa(p); var point := IndexOf(m, '.');
            && AllButExponent(m) && m != "" && m[..point] == p.whole
            && (if point == |m| then "" else m[point + 1..]) == p.frac
  {
    var m := Mantissa(p);
    assert forall i | 0 <= i < |p.whole| :: m[i] == p.whole[i] && m[i] != '.';
    if p.point == "." {
      IndexOfIs(m, '.', |p.whole|);
      assert m[|p.whole| + 1..] == p.frac;
    } else {
      assert m == p.whole;
    }
  }

  lemma SignTakenOff(sign: string, rest: string)
    requires IsSign(sign) && rest != "" && rest[0] != '+' && rest[0] != '-'
    ensures Unsigned(sign + rest) == rest && (Minus(sign + rest) <==> sign == "-")
  {
    if sign == "" {
      assert sign + rest == rest;
    } else {
      assert (sign + rest)[1..] == rest;
    }
  }

  lemma ExponentReads(e: Exponent)
    requires e.Present? && IsSign(e.sign) && e.digits != "" && AllDigits(e.digits)
    ensures ExponentOf(e.sign + e.digits) == Some(ExponentNumber(e))
  {
    assert IsDigit(e.digits[0]);
    SignTakenOff(e.sign, e.digits);
    hide NatOf, Unsigned, Minus;
  }

  lemma NoWord(rest: string)
    requires rest != "" && (IsDigit(rest[0]) || rest[0] == '.')
    ensures var w := LowerCase(rest); w != "inf" && w != "infinity" && w != "nan"
  {
    var w := LowerCase(rest);
    assert w[0] == rest[0] && w[0] != 'i' && w[0] != 'n';
  }

  lemma MantissaStarts(p: Parts)
    requires IsNumber(p)
    ensures var m := Mantissa(p); m != "" && (IsDigit(m[0]) || m[0] == '.')
  {
    var m := Mantissa(p);
    assert m[0] == if p.whole != "" then p.whole[0] else '.';
  }

  /** The sign is taken off, and the rest is no word. */
  lemma BodyIsRead(p: Parts)
    requires IsNumber(p)
    ensures Read(NumberText(p)) == ReadDecimal(p.sign == "-", Mantissa(p) + ExponentText(p.exponent))
  {
    hide Unsigned, Minus, LowerCase, ReadDecimal, Mantissa, ExponentText;
    MantissaStarts(p);
    var rest := Mantissa(p) + ExponentText(p.exponent);
    assert rest[0] == Mantissa(p)[0];
    SignTakenOff(p.sign, rest);
    NoWord(rest);
  }

  lemma ExponentIsRead(m: string, e: Exponent)
    requires AllButExponent(m)
    requires e.Present? ==> e.mark in {'e', 'E'} && IsSign(e.sign) && e.digits != "" && AllDigits(e.digits)
    ensures var s := m + ExponentText(e);
            && ExponentAt(s) == |m| && s[..|m|] == m
            && (if |m| == |s| then Some(0) else ExponentOf(s[|m| + 1..])) == Some(ExponentNumber(e))
  {
    hide ExponentOf, ExponentAt, AllButExponent, NatOf, AllDigits;
    ExponentAtMark(m, ExponentText(e));
    var s := m + ExponentText(e);
    if e.Present? {
      assert s[|m| + 1..] == e.sign + e.digits;
      ExponentReads(e);
    }
  }

  lemma DecimalIsRead(negative: bool, p: Parts)
    requires IsNumber(p)
    ensures ReadDecimal(negative, Mantissa(p) + ExponentText(p.exponent)) ==
            Some(Numbers.Scaled(negative, p.whole, p.frac, ExponentNumber(p.exponent)))
  {
    hide Mantissa, ExponentText, ExponentAt, ExponentOf, IndexOf, Numbers.Scaled, ExponentNumber, AllButExponent;
    MantissaSplits(p);
    ExponentIsRead(Mantissa(p), p.exponent);
  }

  /** Every text of that form is read as the number it says. */
  lemma NumbersAreRead(p: Parts)
    requires IsNumber(p)
    ensures var x := Read(NumberText(p)); x.Some? && x.value.Finite? && Value(x.value) == NumberValue(p)
  {
    hide Read, ReadDecimal, NumberText, Value, Tens, Product, Digits, ExponentNumber, Numbers.Scaled;
    BodyIsRead(p);
    DecimalIsRead(p.sign == "-", p);
    ScaledValue(p.sign == "-", p.whole, p.frac, ExponentNumber(p.exponent));
  }

  /** And every text that is read as a finite number is of that form. */
  lemma OnlyNumbersAreRead(s: string) returns (p: Parts)
    requires Read(s).Some? && Read(s).value.Finite?
    ensures IsNumber(p) && NumberText(p) == s
  {
    hide ReadDecimal, LowerCase, AllDigits;
    var sign, body := SignAndRest(s);
    p := DecimalParts(Minus(s), body);
    p := p.(sign := sign);
  }

  lemma SignAndRest(s: string) returns (sign: string, rest: string)
    ensures IsSign(sign) && s == sign + rest && rest == Unsigned(s)
  {
    rest := Unsigned(s);
    sign := s[..|s| - |rest|];
  }

  lemma DecimalParts(negative: bool, body: string) returns (p: Parts)
    requires ReadDecimal(negative, body).Some?
    ensures IsNumber(p) && p.sign == "" && Mantissa(p) + ExponentText(p.exponent) == body
  {
    hide NatOf, FracValue, Numbers.Scaled, ExponentOf, ExponentAt;
    var e := ExponentAt(body);
    var m := body[..e];
    var exponent := ExponentParts(body);
    var whole, point, frac := PointParts(m);
    p := Parts("", whole, point, frac, exponent);
  }

  lemma PointParts(m: string) returns (whole: string, point: string, frac: string)
    ensures m == whole + point + frac && (point == "." || (point == "" && frac == ""))
    ensures var n := IndexOf(m, '.'); whole == m[..n] && frac == if n == |m| then "" else m[n + 1..]
  {
    var n := IndexOf(m, '.');
    whole := m[..n];
    if n == |m| {
      point, frac := "", "";
    } else {
      point, frac := ".", m[n + 1..];
    }
  }

  lemma ExponentParts(body: string) returns (e: Exponent)
    requires var n := ExponentAt(body); n < |body| ==> ExponentOf(body[n + 1..]).Some?
    ensures body == body[..ExponentAt(body)] + ExponentText(e)
    ensures e.Present? ==> e.mark in {'e', 'E'} && IsSign(e.sign) && e.digits != "" && AllDigits(e.digits)
  {
    hide NatOf, ExponentAt, Unsigned, Minus, AllDigits;
    var n := ExponentAt(body);
    ExponentMark(body);
    if n < |body| {
      var sign, digits := SignAndRest(body[n + 1..]);
      e := Present(body[n], sign, digits);
      assert body == body[..n] + ([body[n]] + body[n + 1..]);
    } else {
      e := Absent;
      assert body == body[..n] + "";
    }
  }

  lemma {:induction false} ExponentMark(s: string)
    ensures ExponentAt(s) < |s| ==> s[ExponentAt(s)] in {'e', 'E'}
  {
    if s != "" && s[0] != 'e' && s[0] != 'E' {
      ExponentMark(s[1..]);
    }
  }

  // ---------------- unsigned numbers ------------------------------------

  /** Exactly which texts are unsigned numbers below `bound`: digits, behind a plus sign at most. */
  lemma UnsignedExactly(s: string, bound: nat, n: nat)
    ensures ParseUnsigned(s, bound) == Some(n) <==>
            exists sign | sign in {"", "+"} :: IsDigitsBehind(s, sign, n) && n < bound
  {
    hide NatOf;
    if ParseUnsigned(s, bound) == Some(n) {
      var sign := if s[0] == '+' then "+" else "";
      assert IsDigitsBehind(s, sign, n);
    }
    if exists sign | sign in {"", "+"} :: IsDigitsBehind(s, sign, n) && n < bound {
      var sign :| sign in {"", "+"} && IsDigitsBehind(s, sign, n) && n < bound;
      assert IsDigit(s[|sign|..][0]);
    }
  }

  predicate IsDigitsBehind(s: string, sign: string, n: nat) {
    && sign <= s && s[|sign|..] != "" && AllDigits(s[|sign|..]) && NatOf(s[|sign|..]) == n
  }
}
