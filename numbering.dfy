/** Order numbers: decimal strings left-padded with '0' to at least four
    characters, as `str(numero).zfill(4)` produces them, and read back with
    `int()`. */
module Numbering {

  predicate IsDigit(c: char) {
    '0' <= c <= '9'
  }

  predicate AllDigits(s: string) {
    forall i :: 0 <= i < |s| ==> IsDigit(s[i])
  }

  function DigitChar(d: nat): (c: char)
    requires d < 10
    ensures IsDigit(c) && c as int - '0' as int == d
  {
    ('0' as int + d) as char
  }

  function DigitValue(c: char): nat {
    if IsDigit(c) then c as int - '0' as int else 0
  }

  /** The value `int()` gives a string of decimal digits (empty reads as 0). */
  function DigitsValue(s: string): nat {
    if s == [] then 0 else DigitsValue(s[..|s| - 1]) * 10 + DigitValue(s[|s| - 1])
  }

  /** `str(n)` for a natural number: its digits without leading zeros. */
  function NatToString(n: nat): (r: string)
    ensures |r| > 0 && AllDigits(r)
    ensures n > 0 ==> r[0] != '0'
    ensures DigitsValue(r) == n
  {
    if n < 10 then [DigitChar(n)]
    else
      var r := NatToString(n / 10) + [DigitChar(n % 10)];
      assert r[..|r| - 1] == NatToString(n / 10);
      r
  }

  function Zeros(k: nat): (r: string)
    ensures |r| == k && AllDigits(r)
    ensures forall i :: 0 <= i < k ==> r[i] == '0'
  {
    if k == 0 then [] else Zeros(k - 1) + ['0']
  }

  /** Python's `str.zfill` on a string without a sign. */
  function ZFill(s: string, width: nat): string {
    if |s| >= width then s else Zeros(width - |s|) + s
  }

  lemma {:induction false} ZerosValue(k: nat)
    ensures DigitsValue(Zeros(k)) == 0
  {
    if k > 0 {
      assert Zeros(k)[..k - 1] == Zeros(k - 1);
      ZerosValue(k - 1);
    }
  }

  /** Leading zeros do not change the value `int()` reads. */
  lemma {:induction false} LeadingZerosValue(k: nat, s: string)
    ensures DigitsValue(Zeros(k) + s) == DigitsValue(s)
  {
    if s == [] {
      assert Zeros(k) + s == Zeros(k);
      ZerosValue(k);
    } else {
      var t := Zeros(k) + s;
      assert t[..|t| - 1] == Zeros(k) + s[..|s| - 1];
      LeadingZerosValue(k, s[..|s| - 1]);
    }
  }

  /** The stored order number for the integer `n`: at least four digits,
      never truncated, and `int()` of it gives `n` back. */
  function FormatNumber(n: nat): (r: string)
    ensures AllDigits(r) && |r| >= 4 && r != []
    ensures DigitsValue(r) == n
    ensures n >= 1000 ==> r == NatToString(n)
    ensures n < 1000 ==> |r| == 4
  {
    var s := NatToString(n);
    NatToStringShort(n);
    LeadingZerosValue(if |s| < 4 then 4 - |s| else 0, s);
    ZFill(s, 4)
  }

  /** Numbers below 1000 have at most three digits, larger ones at least four. */
  lemma {:induction false} NatToStringShort(n: nat)
    ensures n < 1000 <==> |NatToString(n)| < 4
  {
    if n >= 10 {
      NatToStringShort(n / 10);
    }
  }

  /** Two different numbers never get the same stored number. */
  lemma FormatNumberInjective(a: nat, b: nat)
    requires FormatNumber(a) == FormatNumber(b)
    ensures a == b
  {
  }
}
