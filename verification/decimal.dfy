/** Decimal text: `fmt`'s `%d` verb and `strconv.ParseInt(s, 10, 64)`. */
module Decimal {
  import opened Wrappers

  const MinInt64: int := -0x8000_0000_0000_0000
  const MaxInt64: int := 0x7FFF_FFFF_FFFF_FFFF

  predicate IsDigit(c: char) {
    '0' <= c <= '9'
  }

  predicate AllDigits(s: string) {
    forall i :: 0 <= i < |s| ==> IsDigit(s[i])
  }

  function DigitChar(d: nat): (c: char)
    requires d < 10
    ensures IsDigit(c)
  {
    ('0' as int + d) as char
  }

  function DigitValue(c: char): (d: nat)
    requires IsDigit(c)
    ensures d < 10 && DigitChar(d) == c
  {
    c as int - '0' as int
  }

  /** `%d` of a non-negative number: the shortest decimal numeral. */
  function FormatNat(n: nat): (r: string)
    ensures |r| >= 1 && AllDigits(r)
    ensures |r| > 1 ==> r[0] != '0'
    decreases n
  {
    if n < 10 then [DigitChar(n)] else FormatNat(n / 10) + [DigitChar(n % 10)]
  }

  /** `%d` of a signed number. */
  function FormatInt(i: int): (r: string)
    ensures i >= 0 ==> r == FormatNat(i)
    ensures i < 0 ==> r == "-" + FormatNat(-i)
  {
    if i < 0 then "-" + FormatNat(-i) else FormatNat(i)
  }

  /** The number a digit string denotes, most significant digit first. */
  function DigitsValue(s: string): nat
    requires AllDigits(s)
    decreases |s|
  {
    if |s| == 0 then 0 else 10 * DigitsValue(s[..|s| - 1]) + DigitValue(s[|s| - 1])
  }

  /** `FormatNat` is read back exactly by `DigitsValue`. */
  lemma {:induction false} DigitsOfFormat(n: nat)
    ensures DigitsValue(FormatNat(n)) == n
    decreases n
  {
    if n >= 10 {
      var r := FormatNat(n);
      DigitsOfFormat(n / 10);
      assert r[..|r| - 1] == FormatNat(n / 10);
    }
  }

  /** Distinct numbers print differently. */
  lemma FormatNatInjective(a: nat, b: nat)
    ensures FormatNat(a) == FormatNat(b) ==> a == b
  {
    DigitsOfFormat(a);
    DigitsOfFormat(b);
  }

  /** `strconv.ParseInt(s, 10, 64)`: an optional sign followed by at least one
      decimal digit, whose value fits in an `int64`. The syntax and range
      errors Go distinguishes are both `None`; every caller only tests
      whether an error occurred. */
  function ParseInt(s: string): (r: Option<int>)
    ensures r.Some? ==> MinInt64 <= r.value <= MaxInt64
    ensures r.Some? ==> |s| >= 1 && (IsDigit(s[0]) || s[0] == '+' || s[0] == '-')
  {
    if |s| == 0 then None
    else
      var digits := if s[0] == '+' || s[0] == '-' then s[1..] else s;
      if |digits| == 0 || !AllDigits(digits) then None
      else
        var v: int := if s[0] == '-' then -(DigitsValue(digits) as int) else DigitsValue(digits);
        if MinInt64 <= v <= MaxInt64 then Some(v) else None
  }

  /** Every `int64` printed with `%d` parses back to itself. */
  lemma ParseFormat(i: int)
    requires MinInt64 <= i <= MaxInt64
    ensures ParseInt(FormatInt(i)) == Some(i)
  {
    var s := FormatInt(i);
    if i < 0 {
      var d := FormatNat(-i);
      DigitsOfFormat(-i);
      assert s[0] == '-' && s[1..] == d;
      assert ParseInt(s) == Some(-(DigitsValue(d) as int));
    } else {
      DigitsOfFormat(i);
      assert IsDigit(s[0]);
      assert ParseInt(s) == Some(DigitsValue(s));
    }
  }

  /** A string with a character that is neither a digit nor a leading sign
      does not parse. */
  lemma ParseRejectsNonDigit(s: string, k: nat)
    requires 0 < k < |s| && !IsDigit(s[k])
    ensures ParseInt(s) == None
  {
    if |s| > 0 && (s[0] == '+' || s[0] == '-') {
      assert s[1..][k - 1] == s[k];
    }
  }
}
