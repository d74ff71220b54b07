/**
 * A model of the part of JavaScript's global `parseInt` that the wizard
 * relies on when it reads the business start year: an optional sign
 * followed by a prefix of decimal digits.  `NaN` (no digits at all) is
 * `None`.
 */
module JsParseInt {
  import opened Wrappers

  predicate IsDigit(c: char) {
    '0' <= c <= '9'
  }

  predicate AllDigits(s: string) {
    forall i :: 0 <= i < |s| ==> IsDigit(s[i])
  }

  function DigitValue(c: char): (d: nat)
    requires IsDigit(c)
    ensures d < 10
  {
    c as int - '0' as int
  }

  function DigitChar(d: nat): (c: char)
    requires d < 10
    ensures IsDigit(c) && DigitValue(c) == d
  {
    ('0' as int + d) as char
  }

  /** The longest prefix of `s` made of decimal digits: parsing stops at the first other character. */
  function DigitPrefix(s: string): (r: string)
    ensures |r| <= |s| && r == s[..|r|]
    ensures AllDigits(r)
    ensures |r| < |s| ==> !IsDigit(s[|r|])
  {
    if s == [] || !IsDigit(s[0]) then [] else [s[0]] + DigitPrefix(s[1..])
  }

  /** The value of a string of decimal digits, most significant first. */
  function DecimalValue(ds: string): nat
    requires AllDigits(ds)
  {
    if ds == [] then 0 else 10 * DecimalValue(ds[..|ds| - 1]) + DigitValue(ds[|ds| - 1])
  }

  /** Length of the optional leading sign. */
  function SignLength(s: string): (k: nat)
    ensures k <= 1 && k <= |s|
  {
    if |s| > 0 && (s[0] == '-' || s[0] == '+') then 1 else 0
  }

  /** `parseInt(s)` for a string without leading white space and without a `0x` prefix. */
  function ParseInt(s: string): (r: Option<int>)
    ensures r.None? <==> (|s| == SignLength(s) || !IsDigit(s[SignLength(s)]))
    ensures r.Some? && s[0] != '-' ==> r.value >= 0
    ensures r.Some? && s[0] == '-' ==> r.value <= 0
  {
    var k := SignLength(s);
    var ds := DigitPrefix(s[k..]);
    var magnitude: int := if ds == [] then 0 else DecimalValue(ds);
    if ds == [] then None
    else if k == 1 && s[0] == '-' then Some(-magnitude)
    else Some(magnitude)
  }

  /** The value of a run of digits under an optional sign. */
  function SignedValue(sign: string, ds: string): int
    requires AllDigits(ds)
  {
    if sign == "-" then -(DecimalValue(ds) as int) else DecimalValue(ds)
  }

  /** Decimal rendering of a natural number, without leading zeros. */
  function ShowNat(n: nat): (s: string)
  {
    if n < 10 then [DigitChar(n)] else ShowNat(n / 10) + [DigitChar(n % 10)]
  }

  /** Decimal rendering of an integer, with a `-` for negative values. */
  function ShowInt(n: int): string {
    if n < 0 then "-" + ShowNat(-n) else ShowNat(n)
  }

  lemma {:induction false} ShowNatIsDecimal(n: nat)
    ensures |ShowNat(n)| > 0 && AllDigits(ShowNat(n))
    ensures DecimalValue(ShowNat(n)) == n
  {
    if n >= 10 {
      ShowNatIsDecimal(n / 10);
      var s := ShowNat(n);
      assert s[..|s| - 1] == ShowNat(n / 10);
    }
  }

  /** Parsing stops exactly at the end of a run of digits. */
  lemma {:induction false} DigitPrefixOfDigits(ds: string, rest: string)
    requires AllDigits(ds)
    requires rest == [] || !IsDigit(rest[0])
    ensures DigitPrefix(ds + rest) == ds
  {
    if ds != [] {
      assert (ds + rest)[1..] == ds[1..] + rest;
      DigitPrefixOfDigits(ds[1..], rest);
    }
  }

  /**
   * `parseInt` of an optional sign, a run of digits (leading zeros allowed)
   * and any text that does not start with a digit is the signed value of
   * the digits.
   */
  lemma {:induction false} ParseSignedDigits(sign: string, ds: string, rest: string)
    requires sign == "" || sign == "+" || sign == "-"
    requires ds != [] && AllDigits(ds)
    requires rest == [] || !IsDigit(rest[0])
    ensures ParseInt(sign + ds + rest) == Some(SignedValue(sign, ds))
  {
    DigitPrefixOfDigits(ds, rest);
    var s := sign + ds + rest;
    if sign == "" {
      assert s == ds + rest;
      assert IsDigit(s[0]);
    } else {
      assert s[0] == sign[0];
    }
    assert SignLength(s) == |sign|;
    assert s[|sign|..] == ds + rest;
  }

  /**
   * `parseInt` reads back what `ShowInt` writes, whatever non-digit text
   * (a fraction, an exponent, trailing words) follows the number.
   */
  lemma {:induction false} ParseShowInt(n: int, rest: string)
    requires rest == [] || !IsDigit(rest[0])
    ensures ParseInt(ShowInt(n) + rest) == Some(n)
  {
    var m: nat := if n < 0 then -n else n;
    ShowNatIsDecimal(m);
    if n < 0 {
      ParseSignedDigits("-", ShowNat(m), rest);
    } else {
      ParseSignedDigits("", ShowNat(m), rest);
      assert "" + ShowNat(m) + rest == ShowInt(n) + rest;
    }
  }
}
