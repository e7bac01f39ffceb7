/** Decimal digit strings: the text that `Decimal` (engine) and `Big` (server) print and parse. */
module Digits {

  predicate IsDigit(c: char) {
    '0' <= c <= '9'
  }

  predicate AllDigits(s: string) {
    forall i | 0 <= i < |s| :: IsDigit(s[i])
  }

  function DigitOf(c: char): (d: nat)
    requires IsDigit(c)
    ensures d <= 9
  {
    c as int - '0' as int
  }

  function CharOf(d: nat): (c: char)
    requires d <= 9
    ensures IsDigit(c) && DigitOf(c) == d
  {
    ('0' as int + d) as char
  }

  /** The number a digit string denotes; the empty string denotes zero. */
  function FromDigits(s: string): nat
    requires AllDigits(s)
  {
    if s == [] then 0 else 10 * FromDigits(s[..|s| - 1]) + DigitOf(s[|s| - 1])
  }

  /** The digits of a number, most significant first, with no leading zero. */
  function ToDigits(n: nat): (s: string)
    ensures s != [] && AllDigits(s)
  {
    if n < 10 then [CharOf(n)] else ToDigits(n / 10) + [CharOf(n % 10)]
  }

  lemma {:induction false} FromToDigits(n: nat)
    ensures FromDigits(ToDigits(n)) == n
  {
    var s := ToDigits(n);
    if n < 10 {
      assert s[..|s| - 1] == [];
    } else {
      FromToDigits(n / 10);
      assert s[..|s| - 1] == ToDigits(n / 10);
    }
  }

  /** `n` followed by `k` zeros, that is n * 10^k, by repeated multiplication. */
  function Shift(n: int, k: nat): int {
    if k == 0 then n else 10 * Shift(n, k - 1)
  }

  function Pow10(k: nat): (p: nat)
    ensures p > 0
  {
    if k == 0 then 1 else 10 * Pow10(k - 1)
  }

  lemma {:induction false} ShiftIsPow10(n: int, k: nat)
    ensures Shift(n, k) == n * Pow10(k)
  {
    if k > 0 {
      ShiftIsPow10(n, k - 1);
    }
  }

  lemma {:induction false} ShiftShift(n: int, j: nat, k: nat)
    ensures Shift(Shift(n, j), k) == Shift(n, j + k)
  {
    if k > 0 {
      ShiftShift(n, j, k - 1);
    }
  }

  lemma {:induction false} ShiftAdd(m: int, n: int, k: nat)
    ensures Shift(m + n, k) == Shift(m, k) + Shift(n, k)
    ensures Shift(-m, k) == -Shift(m, k)
  {
    if k > 0 {
      ShiftAdd(m, n, k - 1);
    }
  }

  lemma {:induction false} ShiftMonotone(m: int, n: int, k: nat)
    ensures m < n <==> Shift(m, k) < Shift(n, k)
    ensures m >= 0 ==> Shift(m, k) >= m
  {
    if k > 0 {
      ShiftMonotone(m, n, k - 1);
    }
  }

  function Zeros(k: nat): (s: string)
    ensures |s| == k && AllDigits(s)
    ensures forall i | 0 <= i < k :: s[i] == '0'
  {
    seq(k, _ => '0')
  }

  /** Drops the zeros at the end of a string. */
  function TrimZeros(s: string): (t: string)
    ensures |t| <= |s|
  {
    if s != [] && s[|s| - 1] == '0' then TrimZeros(s[..|s| - 1]) else s
  }

  /** What `TrimZeros` returns: it is `s` without a tail made of zeros only, and does not end in one. */
  lemma {:induction false} TrimZerosSplit(s: string)
    ensures var t := TrimZeros(s);
            && |t| <= |s|
            && s == t + Zeros(|s| - |t|)
            && (t == [] || t[|t| - 1] != '0')
  {
    if s != [] && s[|s| - 1] == '0' {
      TrimZerosSplit(s[..|s| - 1]);
      var t := TrimZeros(s);
      assert s == s[..|s| - 1] + [s[|s| - 1]];
      assert Zeros(|s| - |t|) == Zeros(|s| - 1 - |t|) + ['0'];
    } else {
      assert s == s + Zeros(0);
    }
  }

  lemma {:induction false} FromDigitsZeros(s: string, k: nat)
    requires AllDigits(s)
    ensures FromDigits(s + Zeros(k)) == Shift(FromDigits(s), k)
  {
    if k == 0 {
      assert s + Zeros(0) == s;
    } else {
      FromDigitsZeros(s, k - 1);
      var t := s + Zeros(k);
      assert t[..|t| - 1] == s + Zeros(k - 1);
    }
  }

  lemma {:induction false} FromDigitsPadded(k: nat, s: string)
    requires AllDigits(s)
    ensures FromDigits(Zeros(k) + s) == FromDigits(s)
  {
    if s == [] {
      assert Zeros(k) + s == [] + Zeros(k);
      FromDigitsZeros([], k);
      ShiftIsPow10(0, k);
    } else {
      FromDigitsPadded(k, s[..|s| - 1]);
      var t := Zeros(k) + s;
      assert t[..|t| - 1] == Zeros(k) + s[..|s| - 1];
    }
  }

  lemma {:induction false} FromDigitsMonotone(s: string, t: string)
    requires AllDigits(s) && AllDigits(t)
    ensures AllDigits(s + t) && FromDigits(s) <= FromDigits(s + t)
  {
    if t == [] {
      assert s + t == s;
    } else {
      FromDigitsMonotone(s, t[..|t| - 1]);
      var u := s + t;
      assert u[..|u| - 1] == s + t[..|t| - 1];
    }
  }
}
