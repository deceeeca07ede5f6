/** Decimal digit strings, their natural-number meaning, and powers of ten. */
module Decimal {

  predicate IsDigit(c: char) {
    '0' <= c <= '9'
  }

  predicate AllDigits(s: string) {
    forall i | 0 <= i < |s| :: IsDigit(s[i])
  }

  function DigitOf(c: char): nat
    requires IsDigit(c)
  {
    c as int - '0' as int
  }

  /** The number a digit string spells in base ten; the empty string spells zero. */
  function Nat(s: string): nat
    requires AllDigits(s)
  {
    if s == "" then 0 else 10 * Nat(s[..|s| - 1]) + DigitOf(s[|s| - 1])
  }

  function Zeros(n: nat): string {
    seq(n, _ => '0')
  }

  /** x * 10^n, for any integer n. */
  ghost function Shift(x: real, n: int): real
    decreases if n < 0 then -n else n
  {
    if n == 0 then x else if n > 0 then 10.0 * Shift(x, n - 1) else Shift(x, n + 1) / 10.0
  }

  lemma {:induction false} NatAppend(a: string, b: string)
    requires AllDigits(a) && AllDigits(b)
    ensures AllDigits(a + b)
    ensures Nat(a + b) as real == Shift(Nat(a) as real, |b|) + Nat(b) as real
  {
    if b == "" {
      assert a + b == a;
    } else {
      var b' := b[..|b| - 1];
      assert (a + b)[..|a + b| - 1] == a + b';
      NatAppend(a, b');
    }
  }

  lemma {:induction false} NatZeros(n: nat)
    ensures AllDigits(Zeros(n)) && Nat(Zeros(n)) == 0
  {
    if n > 0 {
      assert Zeros(n)[..n - 1] == Zeros(n - 1);
      NatZeros(n - 1);
    }
  }

  lemma {:induction false} NatPositive(s: string)
    requires AllDigits(s) && s != "" && s[0] != '0'
    ensures Nat(s) > 0
  {
    if |s| > 1 {
      NatPositive(s[..|s| - 1]);
    } else {
      assert s[..0] == "";
    }
  }

  /** A digit string without a leading zero is the only spelling of its number. */
  lemma {:induction false} NatInjective(a: string, b: string)
    requires AllDigits(a) && AllDigits(b)
    requires a != "" ==> a[0] != '0'
    requires b != "" ==> b[0] != '0'
    requires Nat(a) == Nat(b)
    ensures a == b
  {
    if a == "" {
      if b != "" {
        NatPositive(b);
      }
    } else if b == "" {
      NatPositive(a);
    } else {
      var a', b' := a[..|a| - 1], b[..|b| - 1];
      assert Nat(a) == 10 * Nat(a') + DigitOf(a[|a| - 1]) && Nat(b) == 10 * Nat(b') + DigitOf(b[|b| - 1]);
      NatInjective(a', b');
      assert a == a' + [a[|a| - 1]];
      assert b == b' + [b[|b| - 1]];
    }
  }

  lemma ShiftUp(x: real, n: int)
    ensures Shift(x, n + 1) == 10.0 * Shift(x, n)
  {
  }

  lemma {:induction false} ShiftShift(x: real, a: int, b: int)
    ensures Shift(Shift(x, a), b) == Shift(x, a + b)
    decreases if b < 0 then -b else b
  {
    if b > 0 {
      ShiftShift(x, a, b - 1);
      ShiftUp(x, a + b - 1);
    } else if b < 0 {
      ShiftShift(x, a, b + 1);
      ShiftUp(x, a + b);
    }
  }

  lemma {:induction false} ShiftSum(x: real, y: real, n: int)
    ensures Shift(x + y, n) == Shift(x, n) + Shift(y, n)
    decreases if n < 0 then -n else n
  {
    if n > 0 {
      ShiftSum(x, y, n - 1);
    } else if n < 0 {
      ShiftSum(x, y, n + 1);
    }
  }

  lemma {:induction false} ShiftPositive(x: real, n: int)
    requires x > 0.0
    ensures Shift(x, n) > 0.0
    decreases if n < 0 then -n else n
  {
    if n > 0 {
      ShiftPositive(x, n - 1);
    } else if n < 0 {
      ShiftPositive(x, n + 1);
    }
  }

  lemma {:induction false} ShiftZero(n: int)
    ensures Shift(0.0, n) == 0.0
    decreases if n < 0 then -n else n
  {
    if n > 0 {
      ShiftZero(n - 1);
    } else if n < 0 {
      ShiftZero(n + 1);
    }
  }

  function DigitChar(d: nat): char
    requires d < 10
  {
    ('0' as int + d) as char
  }

  /** The decimal text of a natural number. */
  function NatText(n: nat): string {
    if n < 10 then [DigitChar(n)] else NatText(n / 10) + [DigitChar(n % 10)]
  }

  lemma {:induction false} NatTextNat(n: nat)
    ensures AllDigits(NatText(n)) && NatText(n) != "" && Nat(NatText(n)) == n
  {
    if n < 10 {
      assert NatText(n)[..0] == "";
    } else {
      NatTextNat(n / 10);
      assert NatText(n)[..|NatText(n)| - 1] == NatText(n / 10);
    }
  }
}
