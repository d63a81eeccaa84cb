/** The JavaScript string operations the core relies on, over `string` = `seq<char>`:
    `toLowerCase`, `endsWith`, `split(sep)[0]`, `String(n)` for an integer, and
    `parseInt` on the text of a number input. */
module Text {
  import opened Wrappers

  predicate IsUpper(c: char) { 'A' <= c <= 'Z' }

  predicate IsDigit(c: char) { '0' <= c <= '9' }

  /** `toLowerCase` on one character; only the ASCII letters are folded. */
  function LowerChar(c: char): (r: char)
    ensures IsUpper(c) ==> r != c && 'a' <= r <= 'z' && r as int - 'a' as int == c as int - 'A' as int
    ensures !IsUpper(c) ==> r == c
  {
    if IsUpper(c) then (c as int - 'A' as int + 'a' as int) as char else c
  }

  function ToLower(s: string): (r: string)
    ensures |r| == |s|
    ensures forall i :: 0 <= i < |s| ==> r[i] == LowerChar(s[i])
  {
    if s == [] then [] else [LowerChar(s[0])] + ToLower(s[1..])
  }

  predicate EndsWith(s: string, suffix: string) {
    |suffix| <= |s| && s[|s| - |suffix|..] == suffix
  }

  /** `s.split(sep)[0]`: everything before the first `sep`, or all of `s` when there is none. */
  function Before(s: string, sep: char): (r: string)
    ensures |r| <= |s| && r == s[..|r|]
    ensures sep !in r
    ensures |r| < |s| ==> s[|r|] == sep
  {
    if s == [] || s[0] == sep then [] else [s[0]] + Before(s[1..], sep)
  }

  function Pow10(k: nat): (r: nat)
    ensures r >= 1
  {
    if k == 0 then 1 else 10 * Pow10(k - 1)
  }

  function DigitChar(d: nat): (c: char)
    requires d < 10
    ensures IsDigit(c)
  {
    ('0' as int + d) as char
  }

  function DigitValue(c: char): (d: nat)
    requires IsDigit(c)
    ensures d < 10 && DigitChar(d) == c
  {
    c as int - '0' as int
  }

  /** `String(n)`: the shortest decimal numeral of `n`. */
  function DecimalString(n: nat): (r: string)
    ensures |r| >= 1
    ensures forall i :: 0 <= i < |r| ==> IsDigit(r[i])
  {
    if n < 10 then [DigitChar(n)] else DecimalString(n / 10) + [DigitChar(n % 10)]
  }

  /** A numeral of `k` digits names a number below 10^k and, past one digit, at least
      10^(k-1); and conversely. */
  lemma {:induction false} DecimalStringLength(n: nat, k: nat)
    requires 1 <= k
    ensures |DecimalString(n)| == k <==> (k == 1 || Pow10(k - 1) <= n) && n < Pow10(k)
  {
    if n < 10 {
      if k > 1 {
        PowMonotone(1, k - 1);
        assert Pow10(1) == 10;
      }
    } else {
      if k == 1 {
      } else {
        DecimalStringLength(n / 10, k - 1);
        assert Pow10(k - 1) == 10 * Pow10(k - 2);
      }
      if k == 1 {
        assert |DecimalString(n)| == |DecimalString(n / 10)| + 1;
      }
    }
  }

  lemma {:induction false} PowMonotone(i: nat, j: nat)
    requires i <= j
    ensures Pow10(i) <= Pow10(j)
  {
    if i < j {
      PowMonotone(i, j - 1);
    }
  }

  /** The value of a non-empty run of decimal digits, read left to right. */
  function DigitsValue(d: string): nat
    requires forall i :: 0 <= i < |d| ==> IsDigit(d[i])
  {
    if d == [] then 0 else 10 * DigitsValue(d[..|d| - 1]) + DigitValue(d[|d| - 1])
  }

  /** The longest prefix of `s` made of decimal digits. */
  function LeadingDigits(s: string): (r: string)
    ensures |r| <= |s| && r == s[..|r|]
    ensures forall i :: 0 <= i < |r| ==> IsDigit(r[i])
    ensures |r| < |s| ==> !IsDigit(s[|r|])
  {
    if s == [] || !IsDigit(s[0]) then [] else [s[0]] + LeadingDigits(s[1..])
  }

  /** `parseInt(s)` on the text a number input yields: an optional sign, then the longest run of
      decimal digits; `None` stands for NaN (no digits at all). */
  function ParseInt(s: string): (r: Option<int>)
    ensures r.None? <==> LeadingDigits(if s != [] && (s[0] == '+' || s[0] == '-') then s[1..] else s) == []
  {
    var negative := s != [] && s[0] == '-';
    var body := if s != [] && (s[0] == '+' || s[0] == '-') then s[1..] else s;
    var digits := LeadingDigits(body);
    if digits == [] then None
    else
      var magnitude: int := DigitsValue(digits);
      Some(if negative then -magnitude else magnitude)
  }

  lemma {:induction false} AllDigitsLeading(s: string)
    requires forall i :: 0 <= i < |s| ==> IsDigit(s[i])
    ensures LeadingDigits(s) == s
  {
    if s != [] {
      AllDigitsLeading(s[1..]);
    }
  }

  lemma {:induction false} DigitsValueDecimal(n: nat)
    ensures DigitsValue(DecimalString(n)) == n
  {
    var s := DecimalString(n);
    if n < 10 {
      assert s[..0] == [];
    } else {
      DigitsValueDecimal(n / 10);
      assert s[..|s| - 1] == DecimalString(n / 10);
    }
  }

  /** `String(n)` for any integer: a minus sign before the magnitude's numeral when negative. */
  function IntString(n: int): (r: string)
    ensures |r| >= 1
  {
    if n < 0 then "-" + DecimalString(-n) else DecimalString(n)
  }

  /** `parseInt(String(n)) === n` for every integer. */
  lemma ParseIntString(n: int)
    ensures ParseInt(IntString(n)) == Some(n)
  {
    var magnitude: nat := if n < 0 then -n else n;
    DigitsValueDecimal(magnitude);
    if n < 0 {
      ParseNegative(DecimalString(magnitude), magnitude);
    } else {
      ParseUnsigned(DecimalString(magnitude), magnitude);
    }
  }

  /** A numeral parses to its value. */
  lemma ParseUnsigned(d: string, v: nat)
    requires d != [] && forall i :: 0 <= i < |d| ==> IsDigit(d[i])
    requires DigitsValue(d) == v
    ensures ParseInt(d) == Some(v)
  {
    assert d[0] != '+' && d[0] != '-';
    AllDigitsLeading(d);
  }

  /** A numeral after a minus sign parses to the negated value. */
  lemma ParseNegative(d: string, v: nat)
    requires d != [] && forall i :: 0 <= i < |d| ==> IsDigit(d[i])
    requires DigitsValue(d) == v
    ensures ParseInt("-" + d) == Some(-(v as int))
  {
    var signed := "-" + d;
    assert signed[0] == '-' && signed[1..] == d;
    AllDigitsLeading(d);
    assert LeadingDigits(signed[1..]) == d;
  }
}
