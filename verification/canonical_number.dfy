/** `canonicalNumber` of core/encoding: exact decimal normalisation of a JSON number. */
module CanonicalNumber {
  import opened Options
  import opened Decimal
  import opened NumberSyntax

  const MAX_EXPONENT := 10000

  // ---- The text operations the source uses ----------------------------------

  /** Index of the first character of `s` from `start` on that occurs in `chars`, or -1. */
  function IndexFrom(s: string, chars: set<char>, start: nat): (i: int)
    ensures -1 <= i < |s|
    decreases |s| - start
  {
    if start >= |s| then -1
    else if s[start] in chars then start
    else IndexFrom(s, chars, start + 1)
  }

  function IndexAny(s: string, chars: set<char>): (i: int)
    ensures -1 <= i < |s|
  {
    IndexFrom(s, chars, 0)
  }

  /** Decimal text with an optional sign. The source's machine-width overflow error is subsumed by
      the bounds check that always follows. */
  function Atoi(s: string): Option<int> {
    if ValidExponent(s) then Some(ExponentValue(s)) else None
  }

  function TrimLeftZeros(s: string): string {
    if s != "" && s[0] == '0' then TrimLeftZeros(s[1..]) else s
  }

  lemma {:induction false} TrimShape(s: string)
    ensures var t := TrimLeftZeros(s);
            |t| <= |s| && s == Zeros(|s| - |t|) + t && (t != "" ==> t[0] != '0')
  {
    if s != "" && s[0] == '0' {
      TrimShape(s[1..]);
      var t := TrimLeftZeros(s[1..]);
      assert s == "0" + s[1..];
      assert Zeros(|s| - |t|) == "0" + Zeros(|s| - 1 - |t|);
    }
  }

  // ---- Specification --------------------------------------------------------

  /** Drop a trailing zero for as long as it sits behind the decimal point. */
  function Reduce(digits: string, scale: int): (string, int) {
    if scale > 0 && digits != "" && digits[|digits| - 1] == '0'
    then Reduce(digits[..|digits| - 1], scale - 1)
    else (digits, scale)
  }

  function Render(digits: string, scale: int): string {
    if scale <= 0 then digits + Zeros(-scale)
    else if |digits| > scale then digits[..|digits| - scale] + "." + digits[|digits| - scale..]
    else "0." + Zeros(scale - |digits|) + digits
  }

  /** The canonical text of (-1)^neg * digits * 10^-scale. */
  function Normal(neg: bool, digits: string, scale: int): string {
    var d := TrimLeftZeros(digits);
    if d == "" then "0"
    else
      var (reduced, s) := Reduce(d, scale);
      SignText(neg) + Render(reduced, s)
  }

  predicate IsNegative(text: string) {
    text != "" && text[0] == '-'
  }

  function Unsigned(text: string): string {
    if IsNegative(text) then text[1..] else text
  }

  /** The mantissa text and the exponent, or None for an unreadable or out-of-range exponent. */
  function SplitExponent(body: string): Option<(string, int)> {
    var mark := IndexAny(body, {'e', 'E'});
    if mark < 0 then Some((body, 0))
    else
      match Atoi(body[mark + 1..])
      case None => None
      case Some(e) => if e < -MAX_EXPONENT || e > MAX_EXPONENT then None else Some((body[..mark], e))
  }

  function SplitPoint(mantissa: string): (string, string) {
    var point := IndexAny(mantissa, {'.'});
    if point < 0 then (mantissa, "") else (mantissa[..point], mantissa[point + 1..])
  }

  /** The number (-1)^neg * digits * 10^-scale, with `digits` as yet untrimmed. */
  datatype Scaled = Scaled(neg: bool, digits: string, scale: int)

  function Assemble(neg: bool, mantissa: string, exponent: int): Scaled {
    var (integer, fraction) := SplitPoint(mantissa);
    Scaled(neg, integer + fraction, |fraction| - exponent)
  }

  function Split(text: string): Option<Scaled> {
    match SplitExponent(Unsigned(text))
    case None => None
    case Some((mantissa, exponent)) => Some(Assemble(IsNegative(text), mantissa, exponent))
  }

  function Canonical(text: string): Option<string> {
    var n :- Split(text);
    Some(Normal(n.neg, n.digits, n.scale))
  }

  /** The source's procedure, on every text. */
  method CanonicalNumber(text: string) returns (r: Option<string>)
    ensures r == Canonical(text)
  {
    var neg, value := false, text;
    if text != "" && text[0] == '-' {
      neg, value := true, text[1..];
    }
    var body := value;
    var exponent := 0;
    var index := IndexAny(value, {'e', 'E'});
    if index >= 0 {
      var parsed := Atoi(value[index + 1..]);
      if parsed.None? || parsed.value < -MAX_EXPONENT || parsed.value > MAX_EXPONENT {
        return None;
      }
      exponent, value := parsed.value, value[..index];
    }
    assert SplitExponent(body) == Some((value, exponent));
    var number := SplitDigits(neg, value, exponent);
    assert Split(text) == Some(number);
    var result := NormalizeDigits(number.neg, number.digits, number.scale);
    return Some(result);
  }

  method SplitDigits(neg: bool, value: string, exponent: int) returns (n: Scaled)
    ensures n == Assemble(neg, value, exponent)
  {
    var integer, fraction := value, "";
    var index := IndexAny(value, {'.'});
    if index >= 0 {
      integer, fraction := value[..index], value[index + 1..];
    }
    n := Scaled(neg, integer + fraction, |fraction| - exponent);
  }

  /** The second half of the procedure: trim, reduce in a loop, place the point. */
  method NormalizeDigits(neg: bool, all: string, initialScale: int) returns (result: string)
    ensures result == Normal(neg, all, initialScale)
  {
    var digits, scale := TrimLeftZeros(all), initialScale;
    if digits == "" {
      return "0";
    }
    while scale > 0 && digits != "" && digits[|digits| - 1] == '0'
      invariant Reduce(digits, scale) == Reduce(TrimLeftZeros(all), initialScale)
    {
      digits := digits[..|digits| - 1];
      scale := scale - 1;
    }
    if scale <= 0 {
      result := digits + Zeros(-scale);
    } else if |digits| > scale {
      var point := |digits| - scale;
      result := digits[..point] + "." + digits[point..];
    } else {
      result := "0." + Zeros(scale - |digits|) + digits;
    }
    result := (if neg then "-" else "") + result;
  }

  // ---- The procedure on well-formed numbers ---------------------------------

  lemma {:induction false} IndexFromAt(s: string, chars: set<char>, start: nat, i: nat)
    requires start <= i < |s| && s[i] in chars
    requires forall k | start <= k < i :: s[k] !in chars
    ensures IndexFrom(s, chars, start) == i
    decreases i - start
  {
    if start < i {
      IndexFromAt(s, chars, start + 1, i);
    }
  }

  lemma {:induction false} IndexFromAbsent(s: string, chars: set<char>, start: nat)
    requires forall k | start <= k < |s| :: s[k] !in chars
    ensures IndexFrom(s, chars, start) == -1
    decreases |s| - start
  {
    if start < |s| {
      IndexFromAbsent(s, chars, start + 1);
    }
  }

  lemma IndexAnyAt(before: string, c: char, after: string, chars: set<char>)
    requires c in chars
    requires forall x | x in before :: x !in chars
    ensures IndexAny(before + [c] + after, chars) == |before|
  {
    IndexFromAt(before + [c] + after, chars, 0, |before|);
  }

  lemma IndexAnyAbsent(s: string, chars: set<char>)
    requires forall x | x in s :: x !in chars
    ensures IndexAny(s, chars) == -1
  {
    IndexFromAbsent(s, chars, 0);
  }

  lemma DigitsOnly(s: string)
    requires AllDigits(s)
    ensures forall c | c in s :: IsDigit(c)
  {
  }

  predicate InBounds(p: Parts)
    requires ValidParts(p)
  {
    -MAX_EXPONENT <= ExponentValue(p.exponent) <= MAX_EXPONENT
  }

  lemma ExponentOfParts(mantissa: string, mark: char, exponent: string)
    requires forall c | c in mantissa :: IsDigit(c) || c == '.'
    requires exponent != "" ==> (mark == 'e' || mark == 'E') && ValidExponent(exponent)
    ensures SplitExponent(mantissa + SpellExponent(mark, exponent)) ==
            if -MAX_EXPONENT <= ExponentValue(exponent) <= MAX_EXPONENT
            then Some((mantissa, ExponentValue(exponent)))
            else None
  {
    if exponent == "" {
      assert mantissa + "" == mantissa;
      IndexAnyAbsent(mantissa, {'e', 'E'});
    } else {
      var body := mantissa + [mark] + exponent;
      assert body == mantissa + SpellExponent(mark, exponent);
      IndexAnyAt(mantissa, mark, exponent, {'e', 'E'});
      assert body[|mantissa| + 1..] == exponent;
      assert body[..|mantissa|] == mantissa;
    }
  }

  lemma PointOfParts(integer: string, fraction: string)
    requires AllDigits(integer) && AllDigits(fraction)
    ensures SplitPoint(integer + SpellFraction(fraction)) == (integer, fraction)
  {
    DigitsOnly(integer);
    var mantissa := integer + SpellFraction(fraction);
    if fraction == "" {
      assert mantissa == integer;
      IndexAnyAbsent(mantissa, {'.'});
    } else {
      assert mantissa == integer + ['.'] + fraction;
      IndexAnyAt(integer, '.', fraction, {'.'});
      assert mantissa[..|integer|] == integer;
      assert mantissa[|integer| + 1..] == fraction;
    }
  }

  lemma SignOfParts(neg: bool, body: string)
    requires body != "" && body[0] != '-'
    ensures IsNegative(SignText(neg) + body) == neg && Unsigned(SignText(neg) + body) == body
  {
  }

  lemma ExponentOfNumber(integer: string, fraction: string, mark: char, exponent: string)
    requires AllDigits(integer) && AllDigits(fraction)
    requires exponent != "" ==> (mark == 'e' || mark == 'E') && ValidExponent(exponent)
    ensures SplitExponent(integer + SpellFraction(fraction) + SpellExponent(mark, exponent)) ==
            if -MAX_EXPONENT <= ExponentValue(exponent) <= MAX_EXPONENT
            then Some((integer + SpellFraction(fraction), ExponentValue(exponent)))
            else None
  {
    MantissaCharacters(integer, fraction);
    ExponentOfParts(integer + SpellFraction(fraction), mark, exponent);
  }

  lemma SplitOfParts(p: Parts)
    requires ValidParts(p)
    ensures Split(Spell(p)) ==
            if InBounds(p)
            then Some(Scaled(p.neg, p.integer + p.fraction, |p.fraction| - ExponentValue(p.exponent)))
            else None
  {
    hide IndexFrom, Atoi, Nat;
    ExponentOfNumber(p.integer, p.fraction, p.mark, p.exponent);
    AssembleParts(p.neg, p.integer, p.fraction, ExponentValue(p.exponent));
    var body := p.integer + SpellFraction(p.fraction) + SpellExponent(p.mark, p.exponent);
    if InBounds(p) {
      SplitAccepted(p.neg, body, p.integer + SpellFraction(p.fraction), ExponentValue(p.exponent));
    } else {
      SplitRejected(p.neg, body);
    }
  }

  lemma SplitAccepted(neg: bool, body: string, mantissa: string, exponent: int)
    requires body != "" && body[0] != '-' && SplitExponent(body) == Some((mantissa, exponent))
    ensures Split(SignText(neg) + body) == Some(Assemble(neg, mantissa, exponent))
  {
    SignOfParts(neg, body);
  }

  lemma SplitRejected(neg: bool, body: string)
    requires body != "" && body[0] != '-' && SplitExponent(body) == None
    ensures Split(SignText(neg) + body) == None
  {
    SignOfParts(neg, body);
  }

  lemma AssembleParts(neg: bool, integer: string, fraction: string, exponent: int)
    requires AllDigits(integer) && AllDigits(fraction)
    ensures Assemble(neg, integer + SpellFraction(fraction), exponent) ==
            Scaled(neg, integer + fraction, |fraction| - exponent)
  {
    PointOfParts(integer, fraction);
  }

  lemma MantissaCharacters(integer: string, fraction: string)
    requires AllDigits(integer) && AllDigits(fraction)
    ensures forall c | c in integer + SpellFraction(fraction) :: IsDigit(c) || c == '.'
  {
  }

  // ---- Exact values ---------------------------------------------------------

  ghost function Magnitude(digits: string, scale: int): real
    requires AllDigits(digits)
  {
    Shift(Nat(digits) as real, -scale)
  }

  lemma PartsMagnitude(p: Parts)
    requires ValidParts(p)
    ensures AllDigits(p.integer + p.fraction)
    ensures PartsValue(p) ==
            Signed(p.neg, Magnitude(p.integer + p.fraction, |p.fraction| - ExponentValue(p.exponent)))
  {
    NatAppend(p.integer, p.fraction);
    JoinMagnitude(Nat(p.integer) as real, Nat(p.fraction) as real, |p.fraction|, ExponentValue(p.exponent));
  }

  lemma JoinMagnitude(i: real, n: real, f: int, e: int)
    ensures Shift(Shift(i, f) + n, -(f - e)) == Shift(i + Shift(n, -f), e)
  {
    ShiftShift(Shift(i, f) + n, -f, e);
    ShiftSum(Shift(i, f), n, -f);
    ShiftShift(i, f, -f);
    assert -f + e == -(f - e);
  }

  /** No leading zero, and no trailing zero behind the point. */
  predicate Reduced(digits: string, scale: int) {
    && AllDigits(digits) && digits != "" && digits[0] != '0'
    && (scale > 0 ==> digits[|digits| - 1] != '0')
  }

  lemma {:induction false} ReduceKeepsValue(digits: string, scale: int)
    requires AllDigits(digits) && digits != "" && digits[0] != '0'
    ensures var (d, s) := Reduce(digits, scale);
            && Reduced(d, s) && Magnitude(d, s) == Magnitude(digits, scale)
            && |digits| - |d| == scale - s >= 0 && (s < scale ==> s >= 0)
  {
    if scale > 0 && digits[|digits| - 1] == '0' {
      var shorter := digits[..|digits| - 1];
      ReduceKeepsValue(shorter, scale - 1);
      assert Nat(digits) == 10 * Nat(shorter);
      DropZero(Nat(shorter) as real, scale);
    }
  }

  lemma DropZero(x: real, scale: int)
    ensures Shift(10.0 * x, -scale) == Shift(x, -(scale - 1))
  {
    ShiftShift(x, 1, -scale);
    assert Shift(x, 1) == 10.0 * x;
  }

  lemma TrimKeepsValue(digits: string)
    requires AllDigits(digits)
    ensures var t := TrimLeftZeros(digits);
            AllDigits(t) && Nat(t) == Nat(digits) && (t != "" ==> t[0] != '0') && |t| <= |digits|
  {
    TrimShape(digits);
    var t := TrimLeftZeros(digits);
    var k := |digits| - |t|;
    forall i | 0 <= i < |t| ensures IsDigit(t[i]) {
      assert t[i] == digits[k + i];
    }
    PadLeft(t, k);
  }

  lemma PadLeft(digits: string, k: nat)
    requires AllDigits(digits)
    ensures AllDigits(Zeros(k) + digits) && Nat(Zeros(k) + digits) == Nat(digits)
  {
    NatZeros(k);
    NatAppend(Zeros(k), digits);
    ShiftZero(|digits|);
  }

  /** The parts that `Render` spells. */
  function RenderedParts(neg: bool, digits: string, scale: int): Parts {
    if scale <= 0 then Parts(neg, digits + Zeros(-scale), "", 'e', "")
    else if |digits| > scale then Parts(neg, digits[..|digits| - scale], digits[|digits| - scale..], 'e', "")
    else Parts(neg, "0", Zeros(scale - |digits|) + digits, 'e', "")
  }

  lemma RenderedPartsValid(neg: bool, digits: string, scale: int)
    requires Reduced(digits, scale)
    ensures var p := RenderedParts(neg, digits, scale);
            ValidParts(p) && InBounds(p)
  {
    if scale <= 0 {
      NatZeros(-scale);
    } else if |digits| <= scale {
      NatZeros(scale - |digits|);
    }
  }

  lemma RenderSpells(neg: bool, digits: string, scale: int)
    requires Reduced(digits, scale)
    ensures Spell(RenderedParts(neg, digits, scale)) == SignText(neg) + Render(digits, scale)
  {
    var p := RenderedParts(neg, digits, scale);
    SpellAssoc(p, "");
    if scale <= 0 {
      assert p.integer + "" + "" == p.integer;
    } else if |digits| > scale {
      assert p.integer + ("." + p.fraction + "") == p.integer + "." + p.fraction;
    } else {
      assert "0" + ("." + p.fraction + "") == "0." + Zeros(scale - |digits|) + digits;
    }
  }

  lemma RenderedValue(neg: bool, digits: string, scale: int)
    requires Reduced(digits, scale)
    ensures ValidParts(RenderedParts(neg, digits, scale))
    ensures PartsValue(RenderedParts(neg, digits, scale)) == Signed(neg, Magnitude(digits, scale))
  {
    RenderedPartsValid(neg, digits, scale);
    var p := RenderedParts(neg, digits, scale);
    PartsMagnitude(p);
    RenderedDigits(digits, scale);
  }

  lemma RenderedDigits(digits: string, scale: int)
    requires Reduced(digits, scale)
    ensures var p := RenderedParts(false, digits, scale);
            AllDigits(p.integer + p.fraction)
            && Magnitude(p.integer + p.fraction, |p.fraction|) == Magnitude(digits, scale)
  {
    var p := RenderedParts(false, digits, scale);
    if scale <= 0 {
      FoldZeros(digits, -scale);
      assert p.integer + p.fraction == digits + Zeros(-scale);
    } else if |digits| > scale {
      assert p.integer + p.fraction == digits;
    } else {
      var k := scale - |digits|;
      PadLeft(digits, k + 1);
      assert p.integer + p.fraction == Zeros(k + 1) + digits;
    }
  }

  lemma FoldZeros(digits: string, k: nat)
    requires AllDigits(digits)
    ensures AllDigits(digits + Zeros(k))
    ensures Magnitude(digits + Zeros(k), 0) == Magnitude(digits, 0 - k)
  {
    NatZeros(k);
    NatAppend(digits, Zeros(k));
  }

  // ---- Main results ---------------------------------------------------------

  /** Accepted numbers are the well-formed ones whose exponent is within the bounds. */
  predicate Accepted(text: string) {
    IsNumber(text) && Canonical(text).Some?
  }

  lemma AcceptedExactly(text: string)
    requires IsNumber(text)
    ensures Accepted(text) <==>
            -MAX_EXPONENT <= (ScanSound(text); ExponentValue(PartsOf(text).exponent)) <= MAX_EXPONENT
  {
    ScanSound(text);
    SplitOfParts(PartsOf(text));
    assert Spell(PartsOf(text)) + "" == Spell(PartsOf(text));
  }

  /** An accepted text, seen as digits and scale. */
  lemma AcceptedNormal(text: string) returns (neg: bool, digits: string, scale: int)
    requires Accepted(text)
    ensures AllDigits(digits)
    ensures Canonical(text) == Some(Normal(neg, digits, scale))
    ensures NumberValue(text) == Signed(neg, Magnitude(digits, scale))
  {
    ScanSound(text);
    var p := PartsOf(text);
    assert Spell(p) + "" == Spell(p);
    SplitOfParts(p);
    PartsMagnitude(p);
    neg, digits, scale := p.neg, p.integer + p.fraction, |p.fraction| - ExponentValue(p.exponent);
  }

  lemma ZeroText()
    ensures Accepted("0") && NumberValue("0") == 0.0 && Canonical("0") == Some("0")
  {
    var p := Parts(false, "0", "", 'e', "");
    assert Spell(p) == "0";
    SpellIsNumber(p);
    SplitOfParts(p);
    PartsMagnitude(p);
    TrimKeepsValue("0");
    assert TrimLeftZeros("0") == "";
    assert "0" + "" == "0" && "0"[..0] == "";
  }

  lemma NormalKeepsValue(neg: bool, digits: string, scale: int)
    requires AllDigits(digits)
    ensures Accepted(Normal(neg, digits, scale))
    ensures NumberValue(Normal(neg, digits, scale)) == Signed(neg, Magnitude(digits, scale))
  {
    TrimKeepsValue(digits);
    var d := TrimLeftZeros(digits);
    if d == "" {
      ZeroText();
      ShiftZero(-scale);
    } else {
      ReduceKeepsValue(d, scale);
      var (reduced, s) := Reduce(d, scale);
      RenderAccepted(neg, reduced, s);
    }
  }

  lemma RenderAccepted(neg: bool, digits: string, scale: int)
    requires Reduced(digits, scale)
    ensures Accepted(SignText(neg) + Render(digits, scale))
    ensures NumberValue(SignText(neg) + Render(digits, scale)) == Signed(neg, Magnitude(digits, scale))
  {
    RenderedPartsValid(neg, digits, scale);
    RenderedValue(neg, digits, scale);
    RenderSpells(neg, digits, scale);
    var p := RenderedParts(neg, digits, scale);
    SpellIsNumber(p);
    SplitOfParts(p);
  }

  /** The canonical text is itself an accepted number of exactly the same value. */
  lemma CanonicalKeepsValue(text: string)
    requires Accepted(text)
    ensures Accepted(Canonical(text).value)
    ensures NumberValue(Canonical(text).value) == NumberValue(text)
  {
    var neg, digits, scale := AcceptedNormal(text);
    NormalKeepsValue(neg, digits, scale);
  }

  /** Whole multiples of ten folded into the digits, so that the scale is not negative. */
  function Folded(digits: string, scale: int): (string, nat) {
    if scale <= 0 then (digits + Zeros(-scale), 0) else (digits, scale)
  }

  lemma FoldedProperties(digits: string, scale: int)
    requires Reduced(digits, scale)
    ensures var (d, s) := Folded(digits, scale);
            Reduced(d, s) && Magnitude(d, s) == Magnitude(digits, scale) && Render(d, s) == Render(digits, scale)
  {
    if scale <= 0 {
      FoldZeros(digits, -scale);
      assert digits + Zeros(-scale) + Zeros(0) == digits + Zeros(-scale);
    }
  }

  lemma MagnitudePositive(digits: string, scale: int)
    requires AllDigits(digits) && digits != "" && digits[0] != '0'
    ensures Magnitude(digits, scale) > 0.0
  {
    NatPositive(digits);
    ShiftPositive(Nat(digits) as real, -scale);
  }

  lemma {:induction false} ShiftWhole(n: nat, k: nat) returns (m: nat)
    ensures Shift(n as real, k) == m as real
  {
    if k == 0 {
      m := n;
    } else {
      var m' := ShiftWhole(n, k - 1);
      m := 10 * m';
    }
  }

  /** Equal magnitudes at different scales: the finer one would end in a zero. */
  lemma ScalesAgree(d1: string, s1: nat, d2: string, s2: nat)
    requires Reduced(d1, s1) && Reduced(d2, s2) && s1 <= s2
    requires Magnitude(d1, s1) == Magnitude(d2, s2)
    ensures s1 == s2 && d1 == d2
  {
    ShiftShift(Nat(d1) as real, 0 - s1, s2);
    ShiftShift(Nat(d2) as real, 0 - s2, s2);
    assert Shift(Nat(d1) as real, s2 - s1) == Nat(d2) as real;
    if s1 < s2 {
      var m := ShiftWhole(Nat(d1), s2 - s1 - 1);
      ShiftUp(Nat(d1) as real, s2 - s1 - 1);
      LastDigit(d2, m);
    } else {
      NatInjective(d1, d2);
    }
  }

  lemma LastDigit(digits: string, m: nat)
    requires AllDigits(digits) && digits != ""
    requires Nat(digits) as real == 10.0 * m as real
    ensures digits[|digits| - 1] == '0'
  {
    var prefix, last := Nat(digits[..|digits| - 1]), DigitOf(digits[|digits| - 1]);
    assert 10 * prefix + last == 10 * m;
  }

  lemma ReducedUnique(d1: string, s1: int, d2: string, s2: int)
    requires Reduced(d1, s1) && Reduced(d2, s2)
    requires Magnitude(d1, s1) == Magnitude(d2, s2)
    ensures Render(d1, s1) == Render(d2, s2)
  {
    FoldedProperties(d1, s1);
    FoldedProperties(d2, s2);
    var (f1, k1) := Folded(d1, s1);
    var (f2, k2) := Folded(d2, s2);
    if k1 <= k2 {
      ScalesAgree(f1, k1, f2, k2);
    } else {
      ScalesAgree(f2, k2, f1, k1);
    }
  }

  lemma NormalUnique(n1: bool, d1: string, s1: int, n2: bool, d2: string, s2: int)
    requires AllDigits(d1) && AllDigits(d2)
    requires Signed(n1, Magnitude(d1, s1)) == Signed(n2, Magnitude(d2, s2))
    ensures Normal(n1, d1, s1) == Normal(n2, d2, s2)
  {
    TrimKeepsValue(d1);
    TrimKeepsValue(d2);
    var t1, t2 := TrimLeftZeros(d1), TrimLeftZeros(d2);
    if t1 == "" {
      ShiftZero(-s1);
    } else {
      MagnitudePositive(t1, s1);
    }
    if t2 == "" {
      ShiftZero(-s2);
    } else {
      MagnitudePositive(t2, s2);
    }
    if t1 != "" && t2 != "" {
      assert n1 == n2;
      ReduceKeepsValue(t1, s1);
      ReduceKeepsValue(t2, s2);
      var (r1, c1) := Reduce(t1, s1);
      var (r2, c2) := Reduce(t2, s2);
      ReducedUnique(r1, c1, r2, c2);
    }
  }

  /** Two accepted spellings have the same canonical text exactly when they denote the same number. */
  lemma CanonicalIffSameValue(a: string, b: string)
    requires Accepted(a) && Accepted(b)
    ensures Canonical(a) == Canonical(b) <==> NumberValue(a) == NumberValue(b)
  {
    CanonicalKeepsValue(a);
    CanonicalKeepsValue(b);
    if NumberValue(a) == NumberValue(b) {
      var n1, d1, s1 := AcceptedNormal(a);
      var n2, d2, s2 := AcceptedNormal(b);
      NormalUnique(n1, d1, s1, n2, d2, s2);
    }
  }

  lemma CanonicalIdempotent(text: string)
    requires Accepted(text)
    ensures Canonical(Canonical(text).value) == Canonical(text)
  {
    CanonicalKeepsValue(text);
    CanonicalIffSameValue(text, Canonical(text).value);
  }

  /** The output is longer than the input by at most the exponent bound and one character. */
  lemma CanonicalLength(text: string)
    requires Accepted(text)
    ensures |Canonical(text).value| <= |text| + MAX_EXPONENT + 1
  {
    SplitBounds(text);
    var n := Split(text).value;
    NormalLength(n.neg, n.digits, n.scale);
  }

  lemma SplitBounds(text: string)
    requires Accepted(text)
    ensures var n := Split(text).value;
            && AllDigits(n.digits)
            && |text| >= |SignText(n.neg)| + |n.digits| >= |SignText(n.neg)| + 1
            && -MAX_EXPONENT <= n.scale <= |n.digits| - 1 + MAX_EXPONENT
  {
    ScanSound(text);
    var p := PartsOf(text);
    assert Spell(p) + "" == Spell(p);
    SplitOfParts(p);
    SpellLength(p);
    NatAppend(p.integer, p.fraction);
  }

  lemma SpellLength(p: Parts)
    ensures |Spell(p)| >= |SignText(p.neg)| + |p.integer| + |p.fraction|
  {
  }

  lemma NormalLength(neg: bool, digits: string, scale: int)
    requires AllDigits(digits)
    ensures |Normal(neg, digits, scale)| <= 1 ||
            |Normal(neg, digits, scale)| <= |SignText(neg)| + Max(|digits| + Max(1, -scale), 2 + scale)
  {
    TrimKeepsValue(digits);
    var d := TrimLeftZeros(digits);
    if d != "" {
      ReduceKeepsValue(d, scale);
    }
  }
}
