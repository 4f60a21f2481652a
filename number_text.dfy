/** Conversions between numbers and their decimal text, as the two components
    use them: `parseInt` on the value of a selected option, `parseFloat` on the
    rate typed into the check-in form, and `String(n)` when an id is written
    into a template literal or an option value. */
module NumberText {
  import opened Options

  predicate IsDigit(c: char) {
    '0' <= c <= '9'
  }

  predicate AllDigits(s: string) {
    forall i :: 0 <= i < |s| ==> IsDigit(s[i])
  }

  function DigitValue(c: char): (v: nat)
    requires IsDigit(c)
    ensures v < 10
  {
    c as int - '0' as int
  }

  function DigitChar(v: nat): (c: char)
    requires v < 10
    ensures IsDigit(c) && DigitValue(c) == v
  {
    ('0' as int + v) as char
  }

  function Pow10(k: nat): (p: nat)
    ensures p >= 1
  {
    if k == 0 then 1 else 10 * Pow10(k - 1)
  }

  /** The number a run of digits denotes, most significant digit first
      (0 for the empty run). */
  function DigitsValue(s: string): nat
    requires AllDigits(s)
  {
    if s == [] then 0 else 10 * DigitsValue(s[..|s| - 1]) + DigitValue(s[|s| - 1])
  }

  /** The length of the longest prefix of `s` that is made of digits. */
  function LeadingDigits(s: string): (n: nat)
    ensures n <= |s| && AllDigits(s[..n])
    ensures n < |s| ==> !IsDigit(s[n])
  {
    if s == [] || !IsDigit(s[0]) then 0 else 1 + LeadingDigits(s[1..])
  }

  /** The text after one optional leading `+` or `-`. */
  function Unsigned(s: string): string {
    if |s| > 0 && (s[0] == '-' || s[0] == '+') then s[1..] else s
  }

  predicate Negative(s: string) {
    |s| > 0 && s[0] == '-'
  }

  /** `parseInt(s)` on text without leading blanks or a `0x` prefix: an
      optional sign, then the longest run of digits, and whatever follows is
      ignored. None stands for NaN. */
  function ParseInt(s: string): (r: Option<int>)
    ensures r.Some? <==> |Unsigned(s)| > 0 && IsDigit(Unsigned(s)[0])
    ensures r.Some? && !Negative(s) ==> r.value >= 0
  {
    var body := Unsigned(s);
    var n := LeadingDigits(body);
    if n == 0 then None
    else
      var magnitude: int := DigitsValue(body[..n]);
      Some(if Negative(s) then -magnitude else magnitude)
  }

  /** `String(n)` for a non-negative integer: its decimal digits, with no
      leading zero. */
  function NaturalText(n: nat): (s: string)
    ensures |s| >= 1 && AllDigits(s)
    ensures s[0] == '0' <==> n == 0
    ensures DigitsValue(s) == n
  {
    if n < 10 then [DigitChar(n)]
    else
      var front := NaturalText(n / 10);
      var s := front + [DigitChar(n % 10)];
      assert s[..|s| - 1] == front;
      s
  }

  /** `String(n)` for an integer. */
  function IntText(n: int): (s: string)
    ensures |s| >= 1 && '\n' !in s
  {
    if n < 0 then "-" + NaturalText(-n) else NaturalText(n)
  }

  /** The id written into an option's value is the id `parseInt` reads back. */
  lemma ParseIntText(n: int)
    ensures ParseInt(IntText(n)) == Some(n)
  {
    var digits := NaturalText(if n < 0 then -n else n);
    assert Unsigned(IntText(n)) == digits;
    assert LeadingDigits(digits) == |digits|;
    assert digits[..|digits|] == digits;
  }

  /** A decimal number `units / 10^scale`, as `parseFloat` reads it from the
      rate field. */
  datatype Decimal = Decimal(units: int, scale: nat)

  /** What follows the point, when the text after the whole digits starts
      with one. */
  function FractionPart(rest: string): string {
    if |rest| > 0 && rest[0] == '.' then rest[1..] else ""
  }

  /** `parseFloat(s)` on plain decimal notation: an optional sign, the longest
      run of digits, then optionally a point and the longest run of digits
      after it; the rest is ignored. None stands for NaN, when neither run
      holds a digit. */
  function ParseDecimal(s: string): (r: Option<Decimal>)
    ensures r.None? <==>
              (LeadingDigits(Unsigned(s)) == 0 &&
               !(|Unsigned(s)| > 1 && Unsigned(s)[0] == '.' && IsDigit(Unsigned(s)[1])))
  {
    var body := Unsigned(s);
    var w := LeadingDigits(body);
    var frac := FractionPart(body[w..]);
    DecimalOf(Negative(s), body[..w], frac[..LeadingDigits(frac)])
  }

  /** The decimal written with the digits `whole`, a point and the digits
      `fraction`; None when both runs are empty. */
  function DecimalOf(negative: bool, whole: string, fraction: string): (r: Option<Decimal>)
    requires AllDigits(whole) && AllDigits(fraction)
    ensures r.None? <==> whole == [] && fraction == []
    ensures r.Some? ==> r.value.scale == |fraction|
  {
    if whole == [] && fraction == [] then None
    else
      var magnitude: int := DigitsValue(whole) * Pow10(|fraction|) + DigitsValue(fraction);
      Some(Decimal(if negative then -magnitude else magnitude, |fraction|))
  }

  /** Digits followed by a character that is not a digit: the run stops there. */
  lemma {:induction false} LeadingDigitsOfRun(digits: string, rest: string)
    requires AllDigits(digits)
    requires rest == [] || !IsDigit(rest[0])
    ensures LeadingDigits(digits + rest) == |digits|
  {
    if digits != [] {
      assert (digits + rest)[1..] == digits[1..] + rest;
      LeadingDigitsOfRun(digits[1..], rest);
    } else {
      assert digits + rest == rest;
    }
  }

  /** A whole number typed as the rate reads back with scale 0. */
  lemma ParseDecimalWhole(n: nat)
    ensures ParseDecimal(NaturalText(n)) == Some(Decimal(n, 0))
  {
    var t := NaturalText(n);
    assert Unsigned(t) == t;
    LeadingDigitsOfRun(t, []);
    assert t + [] == t;
    assert t[..|t|] == t;
  }

  /** `whole.frac` typed as the rate reads back as that many hundredths,
      thousandths, ...: one unit of scale per digit after the point. */
  lemma ParseDecimalFraction(whole: nat, frac: string)
    requires AllDigits(frac)
    ensures ParseDecimal(NaturalText(whole) + "." + frac)
         == Some(Decimal(whole * Pow10(|frac|) + DigitsValue(frac), |frac|))
  {
    var t := NaturalText(whole);
    DigitsPointDigits(t, frac);
    var r := DecimalOf(false, t, frac);
    assert r.Some? && r.value.scale == |frac|;
    assert r.value.units == whole * Pow10(|frac|) + DigitsValue(frac);
  }

  /** ParseDecimal on unsigned text made of digits, a point and digits reads
      exactly those two runs. */
  lemma DigitsPointDigits(t: string, frac: string)
    requires |t| >= 1 && AllDigits(t) && AllDigits(frac)
    ensures ParseDecimal(t + "." + frac) == DecimalOf(false, t, frac)
  {
    var s := t + "." + frac;
    assert LeadingDigits(s) == |t| && s[..|t|] == t by {
      assert s == t + ("." + frac);
      LeadingDigitsOfRun(t, "." + frac);
    }
    assert FractionPart(s[|t|..]) == frac;
    assert LeadingDigits(frac) == |frac| && frac[..|frac|] == frac by {
      LeadingDigitsOfRun(frac, []);
      assert frac + [] == frac;
    }
    assert Unsigned(s) == s && !Negative(s);
  }
}
