/**
 * Decimal integers as text: Go's `strconv.Atoi` (used to read a port) and the
 * `%d` verb of `fmt.Sprintf` (used to print one), which formats an integer
 * as `strconv.FormatInt(n, 10)` does.
 *
 * Integers are unbounded here; Atoi's clamping of out-of-range values to the
 * limits of Go's `int` is not modelled.
 */
module Strconv {

  predicate IsDigit(c: char) {
    '0' <= c <= '9'
  }

  /** One or more ASCII decimal digits and nothing else. */
  predicate IsDigits(s: string) {
    |s| > 0 && forall i :: 0 <= i < |s| ==> IsDigit(s[i])
  }

  /** What Atoi accepts: an optional '+' or '-' followed by one or more digits. */
  predicate IsSignedDecimal(s: string) {
    IsDigits(s) || (|s| > 1 && (s[0] == '+' || s[0] == '-') && IsDigits(s[1..]))
  }

  /** What `%d` prints: "0", or digits without a leading zero, possibly after a '-'. */
  predicate IsCanonicalDecimal(s: string) {
    s == "0"
    || (IsDigits(s) && s[0] != '0')
    || (|s| > 1 && s[0] == '-' && IsDigits(s[1..]) && s[1] != '0')
  }

  function DigitValue(c: char): (d: nat)
    requires IsDigit(c)
    ensures d < 10
  {
    (c as int) - ('0' as int)
  }

  function DigitChar(d: nat): (c: char)
    requires d < 10
    ensures IsDigit(c) && DigitValue(c) == d
  {
    (('0' as int) + d) as char
  }

  /** The number a digit string denotes, most significant digit first. */
  function DecimalValue(ds: string): nat
    requires forall i :: 0 <= i < |ds| ==> IsDigit(ds[i])
    decreases |ds|
  {
    if |ds| == 0 then 0
    else DecimalValue(ds[..|ds| - 1]) * 10 + DigitValue(ds[|ds| - 1])
  }

  /**
   * `strconv.Atoi` with its error discarded: a signed decimal gives its value,
   * anything else (the empty text, a lone sign, any other character) gives 0.
   */
  function Atoi(s: string): (r: int)
    ensures !IsSignedDecimal(s) ==> r == 0
    ensures r < 0 ==> s[0] == '-'
    ensures r > 0 ==> s[0] != '-'
  {
    if IsDigits(s) then DecimalValue(s)
    else if |s| > 0 && s[0] == '+' && IsDigits(s[1..]) then DecimalValue(s[1..])
    else if |s| > 0 && s[0] == '-' && IsDigits(s[1..]) then -(DecimalValue(s[1..]) as int)
    else 0
  }

  /** The digits of a natural number, most significant first, no leading zero. */
  function Digits(n: nat): (ds: string)
    ensures IsDigits(ds)
    ensures DecimalValue(ds) == n
    ensures ds[0] == '0' ==> n == 0 && ds == "0"
    decreases n
  {
    if n < 10 then
      [DigitChar(n)]
    else
      var init := Digits(n / 10);
      var ds := init + [DigitChar(n % 10)];
      assert ds[..|ds| - 1] == init;
      assert ds[0] == init[0];
      ds
  }

  /** `%d`: a '-' for negative numbers, then the digits of the magnitude. */
  function FormatInt(n: int): (s: string)
    ensures IsCanonicalDecimal(s)
    ensures forall i :: 0 <= i < |s| ==> IsDigit(s[i]) || (i == 0 && s[i] == '-')
    ensures Atoi(s) == n
  {
    if n < 0 then
      var s := "-" + Digits(-n);
      assert s[1..] == Digits(-n);
      assert !IsDigits(s) by { assert !IsDigit(s[0]); }
      s
    else
      Digits(n)
  }

  /** A digit string whose value is 0 consists of zeros only, so its first digit is '0'. */
  lemma {:induction false} LeadingDigitPositive(ds: string)
    requires IsDigits(ds) && ds[0] != '0'
    ensures DecimalValue(ds) > 0
    decreases |ds|
  {
    if |ds| > 1 {
      var init := ds[..|ds| - 1];
      assert init[0] == ds[0];
      LeadingDigitPositive(init);
    }
  }

  /** Digits is the inverse of DecimalValue on digit strings without a leading zero. */
  lemma {:induction false} DigitsOfValue(ds: string)
    requires IsDigits(ds) && (ds[0] != '0' || |ds| == 1)
    ensures Digits(DecimalValue(ds)) == ds
    decreases |ds|
  {
    if |ds| == 1 {
      assert DecimalValue(ds) == DigitValue(ds[0]) by {
        assert ds[..0] == [];
      }
      assert DigitChar(DigitValue(ds[0])) == ds[0];
    } else {
      var init := ds[..|ds| - 1];
      var d := DigitValue(ds[|ds| - 1]);
      assert init[0] == ds[0];
      LeadingDigitPositive(init);
      DigitsOfValue(init);
      var v := DecimalValue(ds);
      assert v == DecimalValue(init) * 10 + d;
      assert v >= 10;
      assert v / 10 == DecimalValue(init) && v % 10 == d;
      assert DigitChar(d) == ds[|ds| - 1];
      assert init + [ds[|ds| - 1]] == ds;
    }
  }

  /**
   * Printing what Atoi read gives the text back, for every text `%d` could
   * have printed. With `FormatInt`'s own contract (Atoi of the printed text
   * is the number) the two are mutually inverse between integers and
   * canonical decimals.
   */
  lemma FormatIntAtoi(s: string)
    requires IsCanonicalDecimal(s)
    ensures FormatInt(Atoi(s)) == s
  {
    if s == "0" {
      assert IsDigits(s);
    } else if IsDigits(s) && s[0] != '0' {
      DigitsOfValue(s);
    } else {
      var m := s[1..];
      assert !IsDigits(s) by { assert !IsDigit(s[0]); }
      LeadingDigitPositive(m);
      DigitsOfValue(m);
      assert Atoi(s) == -(DecimalValue(m) as int);
      assert "-" + m == s;
    }
  }

  /** A character that is neither a digit nor a leading sign makes Atoi fail, so the result is 0. */
  lemma AtoiRejects(s: string, i: nat)
    requires i < |s| && !IsDigit(s[i])
    requires i > 0 || (s[0] != '+' && s[0] != '-')
    ensures Atoi(s) == 0
  {
    if i > 0 {
      assert !IsDigit(s[1..][i - 1]);
    }
  }
}
