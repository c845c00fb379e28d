/** Python's `int()` and `float()` over a restricted decimal grammar, with
    exact rational arithmetic in place of IEEE doubles, and the two
    float-to-int conversions the ingestors use. */
module Numbers {
  import opened Wrappers
  import opened Text

  function DigitValue(c: char): nat
    requires IsDigit(c)
  {
    c as int - '0' as int
  }

  function DigitChar(d: nat): char
    requires d < 10
  {
    ('0' as int + d) as char
  }

  /** The base-ten value of a digit string; "" reads as 0. */
  function DigitsValue(s: string): nat
    requires AllDigits(s)
    decreases |s|
  {
    if |s| == 0 then 0 else DigitsValue(s[..|s| - 1]) * 10 + DigitValue(s[|s| - 1])
  }

  function Pow10(n: nat): (p: nat)
    ensures p >= 1
  {
    if n == 0 then 1 else 10 * Pow10(n - 1)
  }

  /** A numeral of k digits is below 10^k. */
  lemma {:induction false} DigitsValueBound(s: string)
    requires AllDigits(s)
    ensures DigitsValue(s) < Pow10(|s|)
    decreases |s|
  {
    if |s| > 0 {
      var init := s[..|s| - 1];
      DigitsValueBound(init);
      assert DigitsValue(init) * 10 <= (Pow10(|init|) - 1) * 10;
    }
  }

  /** The decimal numeral of `n`, without leading zeros. */
  function ShowNat(n: nat): (s: string)
    ensures IsDigits(s)
    decreases n
  {
    if n < 10 then [DigitChar(n)] else ShowNat(n / 10) + [DigitChar(n % 10)]
  }

  /** Reading back a printed natural gives the natural. */
  lemma {:induction false} ShowNatValue(n: nat)
    ensures DigitsValue(ShowNat(n)) == n
    decreases n
  {
    if n >= 10 {
      var s := ShowNat(n);
      assert s[..|s| - 1] == ShowNat(n / 10);
      ShowNatValue(n / 10);
    }
  }

  function ShowInt(n: int): string {
    if n < 0 then "-" + ShowNat(-n) else ShowNat(n)
  }

  predicate IsSign(c: char) {
    c == '+' || c == '-'
  }

  /** Python's `int(text)`: an optional sign, then decimal digits. */
  function ParseInt(s: string): (r: Option<int>)
    ensures IsDigits(s) ==> r == Some(DigitsValue(s) as int)
    ensures r.Some? ==> |s| > 0
  {
    if |s| > 0 && IsSign(s[0]) then
      if IsDigits(s[1..]) then
        Some(if s[0] == '-' then -(DigitsValue(s[1..]) as int) else DigitsValue(s[1..]))
      else None
    else if IsDigits(s) then Some(DigitsValue(s))
    else None
  }

  /** `int()` reads back every printed integer. */
  lemma ParseShowInt(n: int)
    ensures ParseInt(ShowInt(n)) == Some(n)
  {
    if n < 0 {
      var s := ShowInt(n);
      assert s[1..] == ShowNat(-n);
      ShowNatValue(-n);
    } else {
      ShowNatValue(n);
    }
  }

  /** A Python float: a finite value (held exactly) or NaN. */
  datatype Float = Num(v: real) | NaN

  /** The value of the numeral `whole.frac`. */
  function DecimalValue(whole: string, frac: string): real
    requires AllDigits(whole) && AllDigits(frac)
  {
    DigitsValue(whole) as real + DigitsValue(frac) as real / Pow10(|frac|) as real
  }

  /** The unsigned decimal grammar `digits ['.' digits]` or `'.' digits`,
      with at least one digit. */
  function ParseDecimal(s: string): (r: Option<real>)
    ensures r.Some? ==> r.value >= 0.0
    ensures r.Some? ==> ',' !in s
  {
    match IndexOf(s, '.')
    case None =>
      if IsDigits(s) then Some(DigitsValue(s) as real) else None
    case Some(i) =>
      var whole := s[..i];
      var frac := s[i + 1..];
      if AllDigits(whole) && AllDigits(frac) && |whole| + |frac| > 0 then
        assert s == whole + ['.'] + frac;
        Some(DecimalValue(whole, frac))
      else None
  }

  function Negate(f: Float): Float {
    match f
    case NaN => NaN
    case Num(v) => Num(-v)
  }

  function ParseUnsigned(s: string): Option<Float> {
    if Lower(s) == "nan" then Some(NaN)
    else match ParseDecimal(s)
      case None => None
      case Some(v) => Some(Num(v))
  }

  /** Python's `float(text)` over an optional sign followed by "nan" (any
      case) or the decimal grammar above; `None` is the ValueError. */
  function ParseFloat(s: string): (r: Option<Float>)
    ensures ',' in s ==> r.None?
  {
    if |s| > 0 && IsSign(s[0]) then
      assert ',' in s ==> ',' in s[1..];
      match ParseUnsigned(s[1..])
      case None => None
      case Some(f) => Some(if s[0] == '-' then Negate(f) else f)
    else ParseUnsigned(s)
  }

  /** A string starting with a digit is not "nan" in any case. */
  lemma DigitNotNan(s: string)
    requires |s| > 0 && IsDigit(s[0])
    ensures Lower(s) != "nan"
  {
    assert Lower(s)[0] == s[0];
  }

  /** A numeral that starts with a digit has no sign to strip. */
  lemma ParseFloatDigitLed(s: string)
    requires |s| > 0 && IsDigit(s[0])
    ensures ParseFloat(s) == ParseUnsigned(s)
  {
  }

  lemma ParseDecimalPoint(whole: string, frac: string)
    requires AllDigits(whole) && AllDigits(frac) && |whole| > 0
    ensures ParseDecimal(whole + "." + frac) == Some(DecimalValue(whole, frac))
  {
    var s := whole + "." + frac;
    assert s == whole + ['.'] + frac;
    assert forall i :: 0 <= i < |whole| ==> whole[i] != '.';
    IndexOfJoin(whole, '.', frac);
    assert s[..|whole|] == whole;
    assert s[|whole| + 1..] == frac;
  }

  lemma ParseUnsignedShowNat(m: nat)
    ensures ParseUnsigned(ShowNat(m)) == Some(Num(m as real))
  {
    var digits := ShowNat(m);
    assert forall i :: 0 <= i < |digits| ==> digits[i] != '.';
    ShowNatValue(m);
    DigitNotNan(digits);
  }

  /** `float()` reads back every printed integer. */
  lemma ParseFloatShowInt(n: int)
    ensures ParseFloat(ShowInt(n)) == Some(Num(n as real))
  {
    var m: nat := if n < 0 then -n else n;
    ParseUnsignedShowNat(m);
    var s := ShowInt(n);
    if n < 0 {
      assert s[0] == '-' && s[1..] == ShowNat(m);
    } else {
      assert s[0] == ShowNat(m)[0];
      DigitNotNan(s);
    }
  }

  /** `float()` of `n.frac` is the value of that numeral. */
  lemma ParseFloatDecimal(n: nat, frac: string)
    requires AllDigits(frac)
    ensures ParseFloat(ShowNat(n) + "." + frac) == Some(Num(DecimalValue(ShowNat(n), frac)))
  {
    var whole := ShowNat(n);
    var s := whole + "." + frac;
    ParseDecimalPoint(whole, frac);
    assert s[0] == whole[0];
    DigitNotNan(s);
    ParseFloatDigitLed(s);
  }

  lemma SignOfProduct(a: real, b: real)
    requires b > 0.0
    ensures a < 0.0 ==> a * b < 0.0
    ensures a > 0.0 ==> a * b > 0.0
    ensures a == 0.0 ==> a * b == 0.0
  {
  }

  /** A fraction d/p below one, compared with one half in integers. */
  lemma FractionBounds(d: nat, p: nat)
    requires 0 < p && d < p
    ensures 0.0 <= d as real / p as real < 1.0
    ensures d as real / p as real < 0.5 <==> 2 * d < p
    ensures d as real / p as real > 0.5 <==> 2 * d > p
  {
    var q, P, D := d as real / p as real, p as real, d as real;
    assert q * P == D;
    ShiftedProduct(q, 0.0, P, D);
    ShiftedProduct(q, 0.5, P, D);
    ShiftedProduct(q, 1.0, P, D);
  }

  /** With q * P == D and P positive, q compares with c as D with c * P. */
  lemma ShiftedProduct(q: real, c: real, P: real, D: real)
    requires P > 0.0 && q * P == D
    ensures q < c <==> D < c * P
    ensures q > c <==> D > c * P
  {
    assert (q - c) * P == D - c * P;
    SignOfProduct(q - c, P);
  }

  /** `n.frac` lies in [n, n + 1), at distance DigitsValue(frac) / 10^|frac| from n. */
  lemma DecimalValueBounds(n: nat, frac: string)
    requires AllDigits(frac)
    ensures var v := DecimalValue(ShowNat(n), frac);
            var d := DigitsValue(frac);
            var p := Pow10(|frac|);
            && n as real <= v < n as real + 1.0
            && (v < n as real + 0.5 <==> 2 * d < p)
            && (v > n as real + 0.5 <==> 2 * d > p)
  {
    ShowNatValue(n);
    DigitsValueBound(frac);
    FractionBounds(DigitsValue(frac), Pow10(|frac|));
  }

  /** Casting a float to int: truncation toward zero. */
  function Truncate(v: real): (r: int)
    ensures v >= 0.0 ==> r as real <= v < r as real + 1.0
    ensures v < 0.0 ==> r as real - 1.0 < v <= r as real
  {
    if v >= 0.0 then v.Floor else -((-v).Floor)
  }

  /** numpy's `round()`: to the nearest integer, ties to the even one. */
  function RoundHalfEven(v: real): (r: int)
    ensures -0.5 <= r as real - v <= 0.5
    ensures r as real - v == 0.5 || v - r as real == 0.5 ==> r % 2 == 0
  {
    var f := v.Floor;
    var d := v - f as real;
    if d < 0.5 then f
    else if d > 0.5 then f + 1
    else if f % 2 == 0 then f
    else f + 1
  }

  /** Rounding a value in `[n, n + 1)` picks `n` below the midpoint, `n + 1`
      above it, and the even one of the two at the midpoint. */
  lemma RoundBetween(v: real, n: int)
    requires n as real <= v < n as real + 1.0
    ensures RoundHalfEven(v)
            == if v < n as real + 0.5 then n
               else if v > n as real + 0.5 then n + 1
               else if n % 2 == 0 then n else n + 1
  {
    assert v.Floor == n;
  }
}
