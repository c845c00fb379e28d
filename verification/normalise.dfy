/** The cell normalisers of the ingestors. The domain ingestors of processing
    and importation lower-case, swap the decimal comma, map sentinels to "0",
    parse and cast to int (truncating or rounding); production casts straight
    to int; the legacy ingestors test the raw cell against the sentinels and
    otherwise parse a float. */
module Normalise {
  import opened Wrappers
  import opened Text
  import opened Numbers

  /** The "not informed" tokens: the set literal of the processing and legacy
      ingestors and INVALID_VALUES of the importation constants. */
  const Sentinels: set<string> := {"nd", "+", "*"}

  /** How a parsed float becomes an int: `.astype(int)`, or `.round().astype(int)`. */
  datatype Cast = Truncating | Rounding

  function ApplyCast(v: real, cast: Cast): int {
    match cast
    case Truncating => Truncate(v)
    case Rounding => RoundHalfEven(v)
  }

  /** The text a domain normaliser hands to `float()`: lower-cased, decimal
      comma swapped for a point, sentinel replaced by "0". */
  function Cleaned(text: string): (t: string)
    ensures ',' !in t
  {
    var t := Replace(Lower(text), ',', '.');
    if t in Sentinels then "0" else t
  }

  /** The processing and importation quantity normaliser for one present cell.
      A failure here is raised inside the data-frame preparation. */
  function DomainQuantity(text: string, cast: Cast): (r: Result<int, Failure>)
    ensures r.Success? <==> ParseFloat(Cleaned(text)).Some? && ParseFloat(Cleaned(text)).value.Num?
  {
    match ParseFloat(Cleaned(text))
    case None => Failure(BadNumber(text))
    case Some(NaN) => Failure(NotFinite(text))
    case Some(Num(v)) => Success(ApplyCast(v, cast))
  }

  /** The production quantity normaliser: `.astype(int)` of the cell, read
      here as `int()` of its text. Pandas would have typed a column with a
      fractional cell as float64 and truncated it; this reading rejects
      such a cell instead. */
  function PlainInt(text: string): (r: Result<int, Failure>)
    ensures r.Success? ==> ParseFloat(text) == Some(Num(r.value as real))
  {
    match ParseInt(text)
    case None => Failure(BadNumber(text))
    case Some(n) =>
      IntIsFloat(text);
      Success(n)
  }

  /** Whatever `int()` accepts, `float()` reads as the same value. */
  lemma IntIsFloat(text: string)
    requires ParseInt(text).Some?
    ensures ParseFloat(text) == Some(Num(ParseInt(text).value as real))
  {
    var n := ParseInt(text).value;
    if IsSign(text[0]) {
      var d := text[1..];
      assert forall i :: 0 <= i < |d| ==> d[i] != '.';
      DigitNotNan(d);
    } else {
      assert forall i :: 0 <= i < |text| ==> text[i] != '.';
      DigitNotNan(text);
    }
  }

  /** The legacy quantity normaliser: a missing cell or a raw sentinel (no
      lower-casing) is 0.0, anything else is `float()` of the comma-swapped text. */
  function LegacyQuantity(cell: Option<string>): (r: Result<Float, Failure>)
    ensures cell.None? || cell.value in Sentinels ==> r == Success(Num(0.0))
    ensures r.Success? && r.value.NaN? ==> cell.Some? && ParseFloat(Replace(cell.value, ',', '.')) == Some(NaN)
  {
    if cell.None? || cell.value in Sentinels then Success(Num(0.0))
    else match ParseFloat(Replace(cell.value, ',', '.'))
      case None => Failure(BadNumber(cell.value))
      case Some(f) => Success(f)
  }

  /** `float(str(cell).replace(",", "."))` with no sentinel handling: a
      missing cell prints as "nan" and so reads as NaN. */
  function PlainFloat(cell: Option<string>): (r: Result<Float, Failure>)
    ensures cell.None? ==> r == Success(NaN)
  {
    var text := if cell.None? then "nan" else cell.value;
    match ParseFloat(Replace(text, ',', '.'))
    case None => Failure(BadNumber(text))
    case Some(f) => Success(f)
  }

  lemma LowerDigitsComma(s: string)
    requires forall i :: 0 <= i < |s| ==> IsDigit(s[i]) || s[i] == ','
    ensures Lower(s) == s
  {
  }

  /** Every sentinel, in any letter case, normalises to 0 in the domain normaliser. */
  lemma SentinelIsZero(text: string, cast: Cast)
    requires Lower(text) in Sentinels
    ensures DomainQuantity(text, cast) == Success(0)
  {
    SentinelCleaned(text);
    ParseFloatShowInt(0);
    assert ShowInt(0) == "0";
    assert ParseFloat(Cleaned(text)) == Some(Num(0.0));
  }

  lemma SentinelCleaned(text: string)
    requires Lower(text) in Sentinels
    ensures Cleaned(text) == "0"
  {
    var l := Lower(text);
    assert l == "nd" || l == "+" || l == "*";
    var r := Replace(l, ',', '.');
    assert |r| == |l| && forall i :: 0 <= i < |l| ==> r[i] == l[i];
    assert r == l;
  }

  lemma DomainQuantityOfValue(text: string, cast: Cast, v: real)
    requires ParseFloat(Cleaned(text)) == Some(Num(v))
    ensures DomainQuantity(text, cast) == Success(ApplyCast(v, cast))
  {
  }

  /** A comma-decimal numeral `n,frac` truncates to `n`. */
  lemma CommaDecimalTruncates(n: nat, frac: string)
    requires AllDigits(frac)
    ensures DomainQuantity(ShowNat(n) + "," + frac, Truncating) == Success(n)
  {
    var v := DecimalValue(ShowNat(n), frac);
    CommaDecimalParses(n, frac);
    DomainQuantityOfValue(ShowNat(n) + "," + frac, Truncating, v);
    DecimalValueBounds(n, frac);
    assert Truncate(v) == n;
  }

  /** A comma-decimal numeral `n,frac` rounds to the nearer of `n` and `n + 1`,
      and to the even one on a tie. */
  lemma CommaDecimalRounds(n: nat, frac: string)
    requires AllDigits(frac)
    ensures var d := DigitsValue(frac);
            var p := Pow10(|frac|);
            DomainQuantity(ShowNat(n) + "," + frac, Rounding)
            == Success(if 2 * d < p then n else if 2 * d > p then n + 1 else if n % 2 == 0 then n else n + 1)
  {
    var v := DecimalValue(ShowNat(n), frac);
    CommaDecimalParses(n, frac);
    DomainQuantityOfValue(ShowNat(n) + "," + frac, Rounding, v);
    DecimalValueBounds(n, frac);
    RoundBetween(v, n);
  }

  /** The cleaned form of `n,frac` is `n.frac`, which parses to its value. */
  lemma CommaDecimalParses(n: nat, frac: string)
    requires AllDigits(frac)
    ensures ParseFloat(Cleaned(ShowNat(n) + "," + frac)) == Some(Num(DecimalValue(ShowNat(n), frac)))
  {
    CleanedComma(n, frac);
    ParseFloatDecimal(n, frac);
  }

  lemma CleanedComma(n: nat, frac: string)
    requires AllDigits(frac)
    ensures Cleaned(ShowNat(n) + "," + frac) == ShowNat(n) + "." + frac
  {
    var whole := ShowNat(n);
    var s := whole + "," + frac;
    DigitsCommaShape(whole, frac);
    LowerDigitsComma(s);
    ReplaceDigitsComma(whole, frac);
    var t := whole + "." + frac;
    assert IsDigit(t[0]);
    assert t !in Sentinels;
  }

  lemma DigitsCommaShape(whole: string, frac: string)
    requires AllDigits(whole) && AllDigits(frac)
    ensures var s := whole + "," + frac;
            forall i :: 0 <= i < |s| ==> IsDigit(s[i]) || s[i] == ','
  {
  }

  lemma ReplaceDigitsComma(whole: string, frac: string)
    requires AllDigits(whole) && AllDigits(frac)
    ensures Replace(whole + "," + frac, ',', '.') == whole + "." + frac
  {
    var s := whole + "," + frac;
    var r := Replace(s, ',', '.');
    forall i | 0 <= i < |s|
      ensures r[i] == (whole + "." + frac)[i]
    {
      if i < |whole| {
        assert s[i] == whole[i];
      } else if i > |whole| {
        assert s[i] == frac[i - |whole| - 1];
      }
    }
  }

  /** "1234,56" is 1234 truncated and 1235 rounded. */
  lemma CommaDecimalExample()
    ensures DomainQuantity("1234,56", Truncating) == Success(1234)
    ensures DomainQuantity("1234,56", Rounding) == Success(1235)
  {
    ExampleText();
    CommaDecimalTruncates(1234, "56");
    ExampleRounds();
  }

  lemma ExampleText()
    ensures "1234,56" == ShowNat(1234) + "," + "56"
  {
    assert ShowNat(1234) == "1234";
  }

  lemma ExampleRounds()
    ensures DomainQuantity(ShowNat(1234) + "," + "56", Rounding) == Success(1235)
  {
    assert DigitsValue("56") == 56;
    assert Pow10(2) == 100;
    CommaDecimalRounds(1234, "56");
  }

  /** The legacy sentinel test is case-sensitive: "ND" is zero for the domain
      normaliser but a parse failure for the legacy one. */
  lemma SentinelCaseExample()
    ensures DomainQuantity("ND", Truncating) == Success(0)
    ensures LegacyQuantity(Some("ND")).Failure?
  {
    assert Lower("ND") == "nd";
    SentinelIsZero("ND", Truncating);
    assert Replace("ND", ',', '.') == "ND";
    assert Lower("ND") != "nan";
    assert IndexOf("ND", '.') == None;
  }
}
