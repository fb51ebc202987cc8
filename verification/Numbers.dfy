/**
 Numbers as they appear in the config text: decimal naturals, and `f64` values
 as Rust prints and parses them.

 An `f64` prints without an exponent and reads back as itself, so it is
 modelled as the exact decimal it prints as. Reading does not round, has no
 largest magnitude, and keeps no sign on zero.
 */
module Numbers {
  import opened Results
  import opened Text
  import opened YamlRoundTrip

  predicate IsDigit(c: char) {
    '0' <= c <= '9'
  }

  predicate AllDigits(s: string) {
    forall i | 0 <= i < |s| :: IsDigit(s[i])
  }

  function Digit(n: nat): (c: char)
    requires n < 10
    ensures IsDigit(c) && DigitValue(c) == n
  {
    '0' + n as char
  }

  function DigitValue(c: char): (n: nat)
    requires IsDigit(c)
    ensures n < 10
  {
    c as int - '0' as int
  }

  function NatText(n: nat): (s: string)
    ensures s != "" && AllDigits(s)
  {
    if n < 10 then [Digit(n)] else NatText(n / 10) + [Digit(n % 10)]
  }

  function NatOf(s: string): nat
    requires AllDigits(s)
  {
    if s == "" then 0 else NatOf(s[..|s| - 1]) * 10 + DigitValue(s[|s| - 1])
  }

  /** Rust's `str::parse` for an unsigned type with `bound` values. */
  function ParseUnsigned(s: string, bound: nat): Option<nat> {
    var digits := if s != "" && s[0] == '+' then s[1..] else s;
    if digits != "" && AllDigits(digits) && NatOf(digits) < bound then Some(NatOf(digits)) else None
  }

  lemma {:induction false} NatRoundTrip(n: nat)
    ensures NatOf(NatText(n)) == n
  {
    if n >= 10 {
      NatRoundTrip(n / 10);
      var s := NatText(n);
      assert s[..|s| - 1] == NatText(n / 10);
    }
  }

  /** Printing a natural and parsing it back are inverse, up to the type's bound. */
  lemma UnsignedRoundTrip(n: nat, bound: nat)
    ensures ParseUnsigned(NatText(n), bound) == if n < bound then Some(n) else None
  {
    NatRoundTrip(n);
    assert IsDigit(NatText(n)[0]);
  }

  // ---------------- f64 ------------------------------------------------

  /** The digits behind the point, without trailing zeros. */
  type Fraction = f: string | AllDigits(f) && (f == "" || f[|f| - 1] != '0') witness ""

  datatype Float = NaN | Infinite(negative: bool) | Finite(negative: bool, whole: nat, frac: Fraction)

  type F64 = x: Float | x.Finite? && x.whole == 0 && x.frac == "" ==> !x.negative
    witness Finite(false, 0, "")

  function FracValue(f: string): (r: real)
    requires AllDigits(f)
    ensures r >= 0.0
  {
    if f == "" then 0.0 else (DigitValue(f[0]) as real + FracValue(f[1..])) / 10.0
  }

  /** The number a finite `f64` is. */
  function Value(x: F64): real
    requires x.Finite?
  {
    var magnitude := x.whole as real + FracValue(x.frac);
    if x.negative then -magnitude else magnitude
  }

  function Whole(n: nat): F64 {
    Finite(false, n, "")
  }

  /** Rust's `Display` for `f64`. */
  function Show(x: F64): string {
    match x
    case NaN => "NaN"
    case Infinite(negative) => if negative then "-inf" else "inf"
    case Finite(negative, whole, frac) =>
      (if negative then "-" else "") + Magnitude(whole, frac)
  }

  function Magnitude(whole: nat, frac: string): (s: string)
    ensures s != "" && IsDigit(s[0])
  {
    NatText(whole) + if frac == "" then "" else "." + frac
  }

  /** Position of the exponent mark, or the length when there is none. */
  function ExponentAt(s: string): (n: nat)
    ensures n <= |s|
    ensures AllButExponent(s) ==> n == |s|
  {
    if s == "" || s[0] == 'e' || s[0] == 'E' then 0 else 1 + ExponentAt(s[1..])
  }

  predicate AllButExponent(s: string) {
    forall i | 0 <= i < |s| :: s[i] != 'e' && s[i] != 'E'
  }

  function WithoutTrailingZeros(s: string): (f: string)
    requires AllDigits(s)
    ensures AllDigits(f) && (f == "" || f[|f| - 1] != '0')
    ensures s == "" || s[|s| - 1] != '0' ==> f == s
  {
    if s != "" && s[|s| - 1] == '0' then WithoutTrailingZeros(s[..|s| - 1]) else s
  }

  function FiniteOf(negative: bool, whole: string, frac: string): F64
    requires AllDigits(whole) && AllDigits(frac)
  {
    var w, f := NatOf(whole), WithoutTrailingZeros(frac);
    Finite(negative && !(w == 0 && f == ""), w, f)
  }

  /** Moves the decimal point `exponent` places to the right. */
  function Scaled(negative: bool, whole: string, frac: string, exponent: int): F64
    requires AllDigits(whole) && AllDigits(frac)
    decreases if exponent < 0 then -exponent else exponent
  {
    if exponent == 0 then FiniteOf(negative, whole, frac)
    else if exponent > 0 then
      if frac == "" then Scaled(negative, whole + "0", "", exponent - 1)
      else Scaled(negative, whole + frac[..1], frac[1..], exponent - 1)
    else
      if whole == "" then Scaled(negative, "", "0" + frac, exponent + 1)
      else Scaled(negative, whole[..|whole| - 1], whole[|whole| - 1..] + frac, exponent + 1)
  }

  function Unsigned(s: string): string {
    if s != "" && (s[0] == '-' || s[0] == '+') then s[1..] else s
  }

  predicate Minus(s: string) {
    s != "" && s[0] == '-'
  }

  /** The exponent part behind its mark: an optional sign and some digits. */
  function ExponentOf(s: string): Option<int> {
    var digits := Unsigned(s);
    if digits == "" || !AllDigits(digits) then None
    else
      var e: int := NatOf(digits);
      Some(if Minus(s) then -e else e)
  }

  function ReadDecimal(negative: bool, s: string): Option<F64> {
    var e := ExponentAt(s);
    var exponent := if e == |s| then Some(0) else ExponentOf(s[e + 1..]);
    var mantissa := s[..e];
    var point := IndexOf(mantissa, '.');
    var whole := mantissa[..point];
    var frac := if point == |mantissa| then "" else mantissa[point + 1..];
    if exponent.None? || !AllDigits(whole) || !AllDigits(frac) || whole + frac == "" then None
    else Some(Scaled(negative, whole, frac, exponent.value))
  }

  /** Rust's `str::parse::<f64>`. */
  function Read(s: string): Option<F64> {
    var body := Unsigned(s);
    var word := LowerCase(body);
    if word == "inf" || word == "infinity" then Some(Infinite(Minus(s)))
    else if word == "nan" then Some(NaN)
    else ReadDecimal(Minus(s), body)
  }

  lemma MagnitudeSplits(w: string, frac: string)
    requires AllDigits(w) && AllDigits(frac)
    ensures var s := w + if frac == "" then "" else "." + frac;
            && ExponentAt(s) == |s|
            && IndexOf(s, '.') == |w| && s[..|w|] == w
            && (frac == "" ==> |w| == |s|) && (frac != "" ==> |w| < |s| && s[|w| + 1..] == frac)
  {
    hide ExponentAt, IndexOf;
    var s := w + if frac == "" then "" else "." + frac;
    assert AllButExponent(s);
    assert forall i | 0 <= i < |w| :: s[i] == w[i] && s[i] != '.';
    if frac != "" {
      IndexOfIs(s, '.', |w|);
    }
  }

  lemma MagnitudeReads(negative: bool, whole: nat, frac: Fraction)
    requires whole == 0 && frac == "" ==> !negative
    ensures ReadDecimal(negative, Magnitude(whole, frac)) == Some(Finite(negative, whole, frac))
  {
    hide NatText, NatOf, WithoutTrailingZeros, ExponentAt, IndexOf;
    var w := NatText(whole);
    var s := Magnitude(whole, frac);
    NatRoundTrip(whole);
    MagnitudeSplits(w, frac);
    assert s[..|s|] == s;
  }

  lemma WordsRead()
    ensures Read("NaN") == Some(NaN)
    ensures Read("inf") == Some(Infinite(false)) && Read("-inf") == Some(Infinite(true))
  {
    hide ReadDecimal;
    assert LowerCase("NaN") == "nan";
    assert LowerCase("inf") == "inf";
    assert "-inf"[1..] == "inf";
  }

  lemma DigitsAreNoWord(m: string)
    requires m != "" && IsDigit(m[0])
    ensures LowerCase(m) != "inf" && LowerCase(m) != "infinity" && LowerCase(m) != "nan"
    ensures Unsigned(m) == m && !Minus(m)
  {
    var w := LowerCase(m);
    assert w[0] == m[0] && w[0] != 'i' && w[0] != 'n';
  }

  lemma NegativeReads(m: string)
    requires m != "" && IsDigit(m[0])
    ensures Read("-" + m) == ReadDecimal(true, m) && Read(m) == ReadDecimal(false, m)
  {
    hide ReadDecimal, LowerCase;
    DigitsAreNoWord(m);
    assert ("-" + m)[1..] == m;
  }

  /** Every `f64` reads back from its own printed form. */
  lemma FloatRoundTrip(x: F64)
    ensures Read(Show(x)) == Some(x)
  {
    hide Read, Magnitude;
    match x
    case NaN => WordsRead();
    case Infinite(_) => WordsRead();
    case Finite(negative, whole, frac) =>
      var m := Magnitude(whole, frac);
      MagnitudeReads(negative, whole, frac);
      NegativeReads(m);
      assert "" + m == m;
  }

  // ---------------- fit to be written bare -----------------------------

  predicate Graphic(s: string) {
    forall i | 0 <= i < |s| :: '*' < s[i] <= 'z'
  }

  lemma GraphicIsClean(s: string)
    requires s != "" && Graphic(s)
    ensures CleanScalar(s)
  {
    assert forall i | 0 <= i < |s| :: !IsSpace(s[i]);
  }

  lemma NatTextIsClean(n: nat)
    ensures CleanScalar(NatText(n))
  {
    GraphicIsClean(NatText(n));
  }

  lemma ShowIsClean(x: F64)
    ensures CleanScalar(Show(x))
  {
    hide NatText;
    if x.Finite? {
      var m := Magnitude(x.whole, x.frac);
      assert Graphic(m);
      assert Graphic(Show(x));
    }
    GraphicIsClean(Show(x));
  }
}
