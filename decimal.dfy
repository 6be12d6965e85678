/**
 * Decimal digit strings: how JavaScript and Python print non-negative integers,
 * and the number such a string denotes when read back.
 */
module Decimal {

  predicate IsDigit(c: char) { '0' <= c <= '9' }

  predicate IsDigits(s: string) { forall i :: 0 <= i < |s| ==> IsDigit(s[i]) }

  predicate HasNonZeroDigit(s: string) { exists i :: 0 <= i < |s| && s[i] != '0' }

  function DigitValue(c: char): nat
    requires IsDigit(c)
  {
    c as int - '0' as int
  }

  function DigitChar(d: nat): (c: char)
    requires d < 10
    ensures IsDigit(c) && DigitValue(c) == d
  {
    (d + '0' as int) as char
  }

  /** The number a string of decimal digits denotes; leading zeros are allowed. */
  function Value(s: string): nat
    requires IsDigits(s)
    decreases |s|
  {
    if s == [] then 0 else Value(s[..|s| - 1]) * 10 + DigitValue(s[|s| - 1])
  }

  function Pow10(k: nat): nat
  {
    if k == 0 then 1 else 10 * Pow10(k - 1)
  }

  /** `String(n)` for a non-negative integer: its decimal digits, without leading zeros. */
  function NatToString(n: nat): (s: string)
    ensures s != [] && IsDigits(s)
    ensures Value(s) == n
    ensures |s| > 1 ==> s[0] != '0'
    decreases n
  {
    if n < 10 then [DigitChar(n)]
    else
      var t := NatToString(n / 10);
      var s := t + [DigitChar(n % 10)];
      assert s[..|s| - 1] == t;
      assert t[0] != '0' by {
        if |t| == 1 {
          assert Value(t) == DigitValue(t[0]) by { assert t[..0] == []; }
        }
      }
      s
  }

  /** `String(i)` for an integer: a minus sign in front of the magnitude when negative. */
  function IntToString(i: int): string
  {
    if i < 0 then "-" + NatToString(-i) else NatToString(i)
  }

  /** `s.padStart(2, '0')`. */
  function PadStart2(s: string): string
  {
    if |s| >= 2 then s else seq(2 - |s|, _ => '0') + s
  }

  lemma {:induction false} DigitsAppend(a: string, b: string)
    ensures IsDigits(a + b) <==> IsDigits(a) && IsDigits(b)
    ensures HasNonZeroDigit(a + b) <==> HasNonZeroDigit(a) || HasNonZeroDigit(b)
  {
    if IsDigits(a) && IsDigits(b) {
      forall i | 0 <= i < |a + b| ensures IsDigit((a + b)[i]) {
        if i >= |a| { assert (a + b)[i] == b[i - |a|]; }
      }
    }
    if IsDigits(a + b) {
      forall i | 0 <= i < |b| ensures IsDigit(b[i]) { assert (a + b)[|a| + i] == b[i]; }
      forall i | 0 <= i < |a| ensures IsDigit(a[i]) { assert (a + b)[i] == a[i]; }
    }
    if HasNonZeroDigit(a + b) {
      var i :| 0 <= i < |a + b| && (a + b)[i] != '0';
      if i >= |a| { assert b[i - |a|] != '0'; } else { assert a[i] != '0'; }
    }
    if HasNonZeroDigit(b) {
      var i :| 0 <= i < |b| && b[i] != '0';
      assert (a + b)[|a| + i] != '0';
    }
    if HasNonZeroDigit(a) {
      var i :| 0 <= i < |a| && a[i] != '0';
      assert (a + b)[i] != '0';
    }
  }

  /** A digit string denotes a positive number exactly when one of its digits is not zero. */
  lemma {:induction false} ValuePositive(s: string)
    requires IsDigits(s)
    ensures Value(s) > 0 <==> HasNonZeroDigit(s)
  {
    if s != [] {
      var t := s[..|s| - 1];
      assert s == t + [s[|s| - 1]];
      DigitsAppend(t, [s[|s| - 1]]);
      ValuePositive(t);
      assert HasNonZeroDigit([s[|s| - 1]]) <==> s[|s| - 1] != '0' by {
        if s[|s| - 1] != '0' { assert [s[|s| - 1]][0] != '0'; }
      }
    }
  }

  /** `String(n)` shows a digit other than 0 exactly when n is not zero. */
  lemma {:induction false} NatToStringNonZero(n: nat)
    ensures HasNonZeroDigit(NatToString(n)) <==> n > 0
  {
    ValuePositive(NatToString(n));
  }

  /** A number with k + 1 digits is printed with exactly k + 1 characters. */
  lemma {:induction false} NatToStringLength(n: nat, k: nat)
    requires Pow10(k) <= n < Pow10(k + 1)
    ensures |NatToString(n)| == k + 1
  {
    if k > 0 {
      NatToStringLength(n / 10, k - 1);
    }
  }

  /** Two-digit rendering of 1..12 as `String(m).padStart(2, '0')` gives it. */
  lemma {:induction false} PadStart2Month(m: nat)
    requires 1 <= m <= 12
    ensures var t := PadStart2(NatToString(m)); |t| == 2 && IsDigits(t) && Value(t) == m
  {
    var t := PadStart2(NatToString(m));
    if m < 10 {
      assert t == ['0', DigitChar(m)];
      assert t[..1] == ['0'];
      assert Value(['0']) == 0 by { assert ['0'][..0] == []; }
    } else {
      NatToStringLength(m, 1);
    }
  }
}
