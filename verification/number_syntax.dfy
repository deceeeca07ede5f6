/** JSON number syntax (section 6 of RFC 8259): its parts, how they are spelled, the scanner
    that recovers them, and the exact decimal value they denote. */
module NumberSyntax {
  import opened Decimal
  import opened Options

  /** `fraction == ""` and `exponent == ""` mean that the part is absent.
      `exponent` keeps its optional sign and any leading zeros. */
  datatype Parts = Parts(neg: bool, integer: string, fraction: string, mark: char, exponent: string)

  predicate ValidInteger(s: string) {
    AllDigits(s) && s != "" && (s[0] == '0' ==> s == "0")
  }

  function ExponentDigits(s: string): string {
    s[SignWidth(s)..]
  }

  function SignWidth(t: string): (k: nat)
    ensures k <= |t|
  {
    if t != "" && (t[0] == '+' || t[0] == '-') then 1 else 0
  }

  predicate ValidExponent(s: string) {
    ExponentDigits(s) != "" && AllDigits(ExponentDigits(s))
  }

  predicate ValidParts(p: Parts) {
    && ValidInteger(p.integer)
    && AllDigits(p.fraction)
    && (if p.exponent == "" then p.mark == 'e' else (p.mark == 'e' || p.mark == 'E') && ValidExponent(p.exponent))
  }

  function Spell(p: Parts): string {
    SignText(p.neg) + (p.integer + SpellFraction(p.fraction) + SpellExponent(p.mark, p.exponent))
  }

  function SignText(neg: bool): string {
    if neg then "-" else ""
  }

  function SpellFraction(fraction: string): string {
    if fraction == "" then "" else "." + fraction
  }

  function SpellExponent(mark: char, exponent: string): string {
    if exponent == "" then "" else [mark] + exponent
  }

  function ExponentValue(s: string): int
    requires s == "" || ValidExponent(s)
  {
    if s == "" then 0
    else
      var n := Nat(ExponentDigits(s));
      if s[0] == '-' then 0 - n else n
  }

  ghost function Signed(neg: bool, magnitude: real): real {
    if neg then -magnitude else magnitude
  }

  /** The exact decimal value: (integer + fraction / 10^|fraction|) * 10^exponent, signed. */
  ghost function PartsValue(p: Parts): real
    requires ValidParts(p)
  {
    var mantissa := Nat(p.integer) as real + Shift(Nat(p.fraction) as real, -|p.fraction|);
    Signed(p.neg, Shift(mantissa, ExponentValue(p.exponent)))
  }

  // ---- Scanning -------------------------------------------------------------

  function DigitRun(s: string): (n: nat)
    ensures n <= |s|
  {
    if s == "" || !IsDigit(s[0]) then 0 else 1 + DigitRun(s[1..])
  }

  lemma {:induction false} DigitRunDigits(s: string)
    ensures AllDigits(s[..DigitRun(s)])
  {
    if s != "" && IsDigit(s[0]) {
      DigitRunDigits(s[1..]);
      var n := DigitRun(s);
      assert s[..n] == [s[0]] + s[1..][..n - 1];
    }
  }

  function ScanInteger(s: string): Option<(string, string)> {
    if s == "" || !IsDigit(s[0]) then None
    else if s[0] == '0' then Some((s[..1], s[1..]))
    else Some((s[..DigitRun(s)], s[DigitRun(s)..]))
  }

  function ScanFraction(s: string): Option<(string, string)> {
    if s == "" || s[0] != '.' then Some(("", s))
    else
      var n := DigitRun(s[1..]);
      if n == 0 then None else Some((s[1..][..n], s[1..][n..]))
  }

  /** Digits with an optional sign in front. */
  function ScanSigned(t: string): Option<(string, string)> {
    var k := SignWidth(t);
    var n := DigitRun(t[k..]);
    if n == 0 then None else Some((t[..k + n], t[k + n..]))
  }

  /** The mark, the exponent text and what follows. */
  function ScanExponent(s: string): Option<(char, string, string)> {
    if s == "" || (s[0] != 'e' && s[0] != 'E') then Some(('e', "", s))
    else
      var (exponent, rest) :- ScanSigned(s[1..]);
      Some((s[0], exponent, rest))
  }

  /** The longest number at the front of `s`, with the text after it. */
  function ScanNumber(s: string): Option<(Parts, string)> {
    var neg := s != "" && s[0] == '-';
    var (integer, s1) :- ScanInteger(if neg then s[1..] else s);
    var (fraction, s2) :- ScanFraction(s1);
    var (mark, exponent, s3) :- ScanExponent(s2);
    Some((Parts(neg, integer, fraction, mark, exponent), s3))
  }

  predicate IsNumber(text: string) {
    ScanNumber(text).Some? && ScanNumber(text).value.1 == ""
  }

  function PartsOf(text: string): Parts
    requires IsNumber(text)
  {
    ScanNumber(text).value.0
  }

  ghost function NumberValue(text: string): real
    requires IsNumber(text)
  {
    ScanSound(text);
    PartsValue(PartsOf(text))
  }

  /** Nothing in `rest` could still belong to a number that ends before it. */
  predicate EndsNumber(rest: string) {
    rest == "" || !(IsDigit(rest[0]) || rest[0] == '.' || rest[0] == 'e' || rest[0] == 'E')
  }

  lemma {:induction false} DigitRunAppend(digits: string, rest: string)
    requires AllDigits(digits)
    requires rest == "" || !IsDigit(rest[0])
    ensures DigitRun(digits + rest) == |digits|
  {
    if digits == "" {
      assert digits + rest == rest;
    } else {
      assert (digits + rest)[1..] == digits[1..] + rest;
      DigitRunAppend(digits[1..], rest);
    }
  }

  lemma ScanIntegerSound(s: string)
    ensures ScanInteger(s).Some? ==>
              var (integer, rest) := ScanInteger(s).value;
              ValidInteger(integer) && s == integer + rest
  {
    DigitRunDigits(s);
  }

  lemma ScanFractionSound(s: string)
    ensures ScanFraction(s).Some? ==>
              var (fraction, rest) := ScanFraction(s).value;
              AllDigits(fraction) && s == SpellFraction(fraction) + rest
  {
    if s != "" && s[0] == '.' {
      DigitRunDigits(s[1..]);
      var n := DigitRun(s[1..]);
      assert s == "." + s[1..][..n] + s[1..][n..];
    }
  }

  /** Whatever the scanner accepts is well formed and is spelled by the parts it returns. */
  lemma ScanSound(s: string)
    ensures ScanNumber(s).Some? ==>
              var (p, rest) := ScanNumber(s).value;
              ValidParts(p) && s == Spell(p) + rest
  {
    if ScanNumber(s).Some? {
      var neg := s != "" && s[0] == '-';
      var s0 := if neg then s[1..] else s;
      ScanIntegerSound(s0);
      var (integer, s1) := ScanInteger(s0).value;
      ScanFractionSound(s1);
      var (fraction, s2) := ScanFraction(s1).value;
      ScanExponentSound(s2);
      var (mark, exponent, s3) := ScanExponent(s2).value;
      SpellAssoc(Parts(neg, integer, fraction, mark, exponent), s3);
      assert s == (if neg then "-" else "") + s0;
    }
  }

  lemma SpellAssoc(p: Parts, rest: string)
    ensures Spell(p) + rest ==
            SignText(p.neg)
            + (p.integer + (SpellFraction(p.fraction) + (SpellExponent(p.mark, p.exponent) + rest)))
  {
    var a, b, c, d := SignText(p.neg), p.integer, SpellFraction(p.fraction), SpellExponent(p.mark, p.exponent);
    assert a + (b + c + d) + rest == a + (b + (c + (d + rest)));
  }

  lemma ScanSignedSound(t: string)
    ensures ScanSigned(t).Some? ==>
              var (exponent, rest) := ScanSigned(t).value;
              exponent != "" && ValidExponent(exponent) && t == exponent + rest
  {
    hide DigitRun;
    var k := SignWidth(t);
    var n := DigitRun(t[k..]);
    DigitRunDigits(t[k..]);
    SliceSwap(t, k, n);
    assert n > 0 ==> SignWidth(t[..k + n]) == k;
  }

  lemma SliceSwap(t: string, k: nat, n: nat)
    requires k + n <= |t|
    ensures t[..k + n][k..] == t[k..][..n]
  {
  }

  lemma ScanSignedComplete(exponent: string, rest: string)
    requires exponent != "" && ValidExponent(exponent)
    requires rest == "" || !IsDigit(rest[0])
    ensures ScanSigned(exponent + rest) == Some((exponent, rest))
  {
    var t := exponent + rest;
    var k := SignWidth(exponent);
    assert SignWidth(t) == k;
    assert t[k..] == exponent[k..] + rest;
    DigitRunAppend(exponent[k..], rest);
    assert t[..|exponent|] == exponent && t[|exponent|..] == rest;
  }

  lemma ScanExponentSound(s: string)
    ensures ScanExponent(s).Some? ==>
              var (mark, exponent, rest) := ScanExponent(s).value;
              && s == SpellExponent(mark, exponent) + rest
              && (if exponent == "" then mark == 'e' else (mark == 'e' || mark == 'E') && ValidExponent(exponent))
  {
    if ScanExponent(s).Some? && s != "" && (s[0] == 'e' || s[0] == 'E') {
      ScanSignedSound(s[1..]);
      assert s == [s[0]] + s[1..];
    }
  }

  lemma ScanExponentComplete(mark: char, exponent: string, rest: string)
    requires if exponent == "" then mark == 'e' else (mark == 'e' || mark == 'E') && ValidExponent(exponent)
    requires EndsNumber(rest)
    ensures ScanExponent(SpellExponent(mark, exponent) + rest) == Some((mark, exponent, rest))
  {
    if exponent == "" {
      assert SpellExponent(mark, exponent) + rest == rest;
    } else {
      var t := exponent + rest;
      assert SpellExponent(mark, exponent) + rest == [mark] + t;
      ScanSignedComplete(exponent, rest);
      ScanExponentMarked(mark, t);
    }
  }

  lemma ScanExponentMarked(mark: char, t: string)
    requires (mark == 'e' || mark == 'E') && ScanSigned(t).Some?
    ensures ScanExponent([mark] + t) == Some((mark, ScanSigned(t).value.0, ScanSigned(t).value.1))
  {
    assert ([mark] + t)[1..] == t;
  }

  lemma ScanFractionComplete(fraction: string, rest: string)
    requires AllDigits(fraction)
    requires rest == "" || !(IsDigit(rest[0]) || rest[0] == '.')
    ensures ScanFraction(SpellFraction(fraction) + rest) == Some((fraction, rest))
  {
    var s := SpellFraction(fraction) + rest;
    if fraction != "" {
      assert s[1..] == fraction + rest;
      DigitRunAppend(fraction, rest);
    } else {
      assert s == rest;
    }
  }

  lemma ScanIntegerComplete(integer: string, rest: string)
    requires ValidInteger(integer)
    requires rest == "" || !IsDigit(rest[0])
    ensures ScanInteger(integer + rest) == Some((integer, rest))
  {
    DigitRunAppend(integer, rest);
  }

  /** The scanner recovers exactly the parts that were spelled, whatever follows the number. */
  lemma ScanComplete(p: Parts, rest: string)
    requires ValidParts(p) && EndsNumber(rest)
    ensures ScanNumber(Spell(p) + rest) == Some((p, rest))
  {
    var s3 := SpellExponent(p.mark, p.exponent) + rest;
    var s2 := SpellFraction(p.fraction) + s3;
    var s1 := p.integer + s2;
    SpellAssoc(p, rest);
    assert (Spell(p) + rest)[if p.neg then 1 else 0..] == s1;
    ScanIntegerComplete(p.integer, s2);
    ScanFractionComplete(p.fraction, s3);
    ScanExponentComplete(p.mark, p.exponent, rest);
  }

  lemma SpellIsNumber(p: Parts)
    requires ValidParts(p)
    ensures IsNumber(Spell(p)) && PartsOf(Spell(p)) == p
  {
    ScanComplete(p, "");
    assert Spell(p) + "" == Spell(p);
  }
}
