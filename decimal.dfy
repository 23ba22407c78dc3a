/**
 * JavaScript's `parseInt(text, 10)`, which the handlers apply to the `id`
 * path parameter, and the decimal text of an integer it reads back.
 */
module Decimal {
  import opened Wrappers
  import opened Text

  predicate IsDigit(c: char) {
    '0' <= c <= '9'
  }

  predicate AllDigits(s: string) {
    forall i :: 0 <= i < |s| ==> IsDigit(s[i])
  }

  function DigitValue(c: char): nat
    requires IsDigit(c)
  {
    c as int - '0' as int
  }

  function DigitChar(d: nat): (c: char)
    requires d < 10
    ensures IsDigit(c) && DigitValue(c) == d
  {
    ('0' as int + d) as char
  }

  /** The longest prefix of `s` made of decimal digits. */
  function LeadingDigits(s: string): (r: string)
    ensures r <= s && AllDigits(r)
    ensures |r| < |s| ==> !IsDigit(s[|r|])
  {
    if |s| > 0 && IsDigit(s[0]) then [s[0]] + LeadingDigits(s[1..]) else []
  }

  /** The number a run of decimal digits denotes. */
  function Value(ds: string): nat
    requires AllDigits(ds)
  {
    if ds == [] then 0 else Value(ds[..|ds| - 1]) * 10 + DigitValue(ds[|ds| - 1])
  }

  /** What is left once leading white space and one sign character are skipped. */
  function Unsigned(s: string): string {
    var t := TrimStart(s);
    if t != [] && (t[0] == '+' || t[0] == '-') then t[1..] else t
  }

  predicate Negative(s: string) {
    var t := TrimStart(s);
    t != [] && t[0] == '-'
  }

  /**
   * `parseInt(s, 10)`: None is NaN. The number is read from the digits that
   * follow the white space and the optional sign, and ends at the first
   * character that is not a digit.
   */
  function ParseInt(s: string): Option<int> {
    var ds := LeadingDigits(Unsigned(s));
    if ds == [] then None
    else if Negative(s) then Some(-(Value(ds) as int))
    else Some(Value(ds))
  }

  /** The decimal digits of `n`, most significant first, without leading zeros. */
  function Digits(n: nat): (r: string)
    ensures r != [] && AllDigits(r)
    ensures |r| > 1 ==> r[0] != '0'
  {
    if n < 10 then [DigitChar(n)] else Digits(n / 10) + [DigitChar(n % 10)]
  }

  /** `String(n)` for an integer `n`. */
  function DecimalString(n: int): string {
    if n < 0 then "-" + Digits(-n) else Digits(n)
  }

  lemma {:induction false} ValueOfDigits(n: nat)
    ensures Value(Digits(n)) == n
  {
    if n >= 10 {
      ValueOfDigits(n / 10);
      var ds := Digits(n);
      assert ds[..|ds| - 1] == Digits(n / 10);
    }
  }

  lemma {:induction false} LeadingDigitsOf(ds: string, rest: string)
    requires AllDigits(ds)
    requires rest == [] || !IsDigit(rest[0])
    ensures LeadingDigits(ds + rest) == ds
  {
    if ds != [] {
      assert (ds + rest)[1..] == ds[1..] + rest;
      LeadingDigitsOf(ds[1..], rest);
    } else {
      assert ds + rest == rest;
    }
  }

  lemma DigitNotSpace(c: char)
    requires IsDigit(c)
    ensures !IsSpace(c) && c != '+' && c != '-'
  {
  }

  /** A text starting with a digit has no white space or sign to skip. */
  lemma UnsignedDigits(ds: string, rest: string)
    requires ds != [] && AllDigits(ds)
    ensures !Negative(ds + rest) && Unsigned(ds + rest) == ds + rest
  {
    var s := ds + rest;
    assert s[0] == ds[0];
    DigitNotSpace(s[0]);
    TrimStartUnchanged(s);
  }

  /** A text starting with "-" and a digit is negative and reads from the digit on. */
  lemma UnsignedMinusDigits(ds: string, rest: string)
    requires ds != [] && AllDigits(ds)
    ensures Negative("-" + (ds + rest)) && Unsigned("-" + (ds + rest)) == ds + rest
  {
    var t := "-" + (ds + rest);
    TrimStartUnchanged(t);
    assert t[1..] == ds + rest;
  }

  lemma ReadDigits(s: string, u: string, ds: string)
    requires Unsigned(s) == u && LeadingDigits(u) == ds && ds != []
    ensures ParseInt(s) == if Negative(s) then Some(-(Value(ds) as int)) else Some(Value(ds) as int)
  {
  }

  /**
   * `parseInt` reads back the decimal text of any integer, and ignores
   * whatever follows it when that does not start with a digit
   * ("12abc" reads as 12).
   */
  lemma ParseIntDecimal(n: int, rest: string)
    requires rest == [] || !IsDigit(rest[0])
    ensures ParseInt(DecimalString(n) + rest) == Some(n)
  {
    var m: nat := if n < 0 then -n else n;
    var ds := Digits(m);
    ValueOfDigits(m);
    LeadingDigitsOf(ds, rest);
    if n < 0 {
      var t := "-" + (ds + rest);
      UnsignedMinusDigits(ds, rest);
      ReadDigits(t, ds + rest, ds);
      assert DecimalString(n) + rest == t;
    } else {
      UnsignedDigits(ds, rest);
      ReadDigits(ds + rest, ds + rest, ds);
      assert DecimalString(n) + rest == ds + rest;
    }
  }
}
