/** What canonical text looks like, stated without the writer: which characters of a string are escaped and how, which
    spelling of a number is the plain one, and how items and members are put together. The canonical text of a value
    is the one text of that form. */
module CanonicalText {
  import opened Options
  import opened Decimal
  import opened NumberSyntax
  import opened CanonicalNumber
  import opened JsonString
  import opened KeyOrder
  import opened CanonicalJson
  import opened CanonicalJsonProofs

  // ---- Strings ------------------------------------------------------------------------------------

  predicate LowerHex(c: char) {
    '0' <= c <= '9' || 'a' <= c <= 'f'
  }

  /** Two-character escapes where JSON has one and the encoder uses it, `\u` and four lower-case digits for all other
      control characters and for those that matter in HTML and JavaScript, and every other character as it is. */
  predicate EscapedAs(c: char, t: string) {
    if c == '"' || c == '\\' then t == ['\\', c]
    else if c as int == 8 then t == "\\b"
    else if c as int == 12 then t == "\\f"
    else if c as int == 10 then t == "\\n"
    else if c as int == 13 then t == "\\r"
    else if c as int == 9 then t == "\\t"
    else if c as int < 32 || c == '<' || c == '>' || c == '&' || c as int == 0x2028 || c as int == 0x2029 then
      && |t| == 6 && t[..2] == "\\u" && (forall i | 2 <= i < 6 :: LowerHex(t[i])) && Hex4(t[2..]) == Some(c as int)
    else t == [c]
  }

  lemma HexUnique(a: string, b: string)
    requires |a| == 4 && |b| == 4 && (forall i | 0 <= i < 4 :: LowerHex(a[i]) && LowerHex(b[i])) && Hex4(a) == Hex4(b)
    ensures a == b
  {
    forall i | 0 <= i < 4 ensures HexValue(a[i]).Some? && HexValue(b[i]).Some? {
    }
    var x := seq(4, i requires 0 <= i < 4 => HexValue(a[i]).value);
    var y := seq(4, i requires 0 <= i < 4 => HexValue(b[i]).value);
    DigitsUnique(x[0], x[1], x[2], x[3], y[0], y[1], y[2], y[3]);
    assert x == y;
    forall i | 0 <= i < 4 ensures a[i] == b[i] {
      assert x[i] == y[i];
      SameHex(a[i], b[i]);
    }
  }

  lemma SameHex(a: char, b: char)
    requires LowerHex(a) && LowerHex(b) && HexValue(a) == HexValue(b)
    ensures a == b
  {
  }

  lemma DigitsUnique(a: nat, b: nat, c: nat, d: nat, a': nat, b': nat, c': nat, d': nat)
    requires b < 16 && c < 16 && d < 16 && b' < 16 && c' < 16 && d' < 16
    requires a * 0x1000 + b * 0x100 + c * 0x10 + d == a' * 0x1000 + b' * 0x100 + c' * 0x10 + d'
    ensures a == a' && b == b' && c == c' && d == d'
  {
  }

  lemma DigitLower(n: nat)
    requires n < 16
    ensures LowerHex(HexDigit(n))
  {
  }

  lemma UnicodeLower(n: nat)
    requires n < 0x10000
    ensures var t := UnicodeEscape(n);
            |t| == 6 && t[..2] == "\\u" && (forall i | 2 <= i < 6 :: LowerHex(t[i])) && Hex4(t[2..]) == Some(n)
  {
    hide Hex4, HexDigit, LowerHex;
    DigitLower(n / 0x1000);
    DigitLower(n / 0x100 % 16);
    DigitLower(n / 0x10 % 16);
    DigitLower(n % 16);
    Hex4RoundTrip(n, "");
    assert UnicodeEscape(n)[2..] + "" == UnicodeEscape(n)[2..];
  }

  lemma EscapeIff(c: char, t: string)
    ensures EscapedAs(c, t) <==> t == Escape(c)
  {
    hide Hex4, HexDigit, LowerHex, UnicodeEscape;
    if NeedsUnicodeEscape(c) {
      UnicodeLower(c as int);
      if EscapedAs(c, t) && |t| == 6 && |Escape(c)| == 6 {
        HexUnique(t[2..], Escape(c)[2..]);
        assert t == t[..2] + t[2..] && Escape(c) == Escape(c)[..2] + Escape(c)[2..];
      }
    }
  }

  function Joined(parts: seq<string>, between: string): string {
    if parts == [] then "" else if |parts| == 1 then parts[0] else parts[0] + between + Joined(parts[1..], between)
  }

  ghost predicate QuotedBy(s: string, parts: seq<string>, q: string) {
    |parts| == |s| && (forall i | 0 <= i < |s| :: EscapedAs(s[i], parts[i])) && q == "\"" + Joined(parts, "") + "\""
  }

  ghost predicate Quoted(s: string, q: string) {
    exists parts :: QuotedBy(s, parts, q)
  }

  lemma {:induction false} EscapedParts(s: string, parts: seq<string>)
    requires |parts| == |s| && forall i | 0 <= i < |s| :: parts[i] == Escape(s[i])
    ensures Joined(parts, "") == EscapeAll(s)
  {
    hide Escape;
    if |s| == 1 {
      assert s[1..] == "";
    } else if s != "" {
      EscapedParts(s[1..], parts[1..]);
      assert parts[0] + "" == parts[0];
    }
  }

  /** A quoted string is its escaped characters between quotes. */
  lemma QuotedIff(s: string, q: string)
    ensures Quoted(s, q) <==> q == Quote(s)
  {
    hide Escape, EscapedAs, Joined, EscapeAll;
    if Quoted(s, q) {
      var parts :| QuotedBy(s, parts, q);
      forall i | 0 <= i < |s| ensures parts[i] == Escape(s[i]) {
        EscapeIff(s[i], parts[i]);
      }
      EscapedParts(s, parts);
    }
    var written := seq(|s|, i requires 0 <= i < |s| => Escape(s[i]));
    forall i | 0 <= i < |s| ensures EscapedAs(s[i], written[i]) {
      EscapeIff(s[i], written[i]);
    }
    EscapedParts(s, written);
    assert QuotedBy(s, written, Quote(s));
  }

  // ---- Numbers ------------------------------------------------------------------------------------

  /** No exponent, no zero that could be left out, and no negative zero. */
  predicate PlainParts(p: Parts) {
    && AllDigits(p.integer) && p.integer != "" && (p.integer[0] == '0' ==> p.integer == "0")
    && AllDigits(p.fraction) && (p.fraction != "" ==> p.fraction[|p.fraction| - 1] != '0')
    && (p.neg ==> p.integer != "0" || p.fraction != "")
    && p.mark == 'e' && p.exponent == ""
  }

  function PlainText(p: Parts): string {
    (if p.neg then "-" else "") + p.integer + (if p.fraction == "" then "" else "." + p.fraction)
  }

  ghost predicate PlainNumber(text: string) {
    exists p :: PlainParts(p) && text == PlainText(p)
  }

  lemma PlainSpelled(p: Parts)
    requires PlainParts(p)
    ensures ValidParts(p) && p.exponent == "" && InBounds(p) && Spell(p) == PlainText(p)
  {
    assert p.integer + SpellFraction(p.fraction) + "" == p.integer + SpellFraction(p.fraction);
    Regroup(SignText(p.neg), p.integer, SpellFraction(p.fraction), "");
  }

  lemma LastOf(a: string, b: string)
    requires b != ""
    ensures (a + b)[|a + b| - 1] == b[|b| - 1]
  {
  }

  lemma WholePlain(neg: bool, integer: string)
    requires integer != "" && integer[0] != '0'
    ensures Normal(neg, integer, 0) == SignText(neg) + integer
  {
    assert TrimLeftZeros(integer) == integer && integer + "" == integer;
  }

  lemma FractionPlain(neg: bool, integer: string, fraction: string)
    requires integer != "" && integer[0] != '0' && fraction != "" && fraction[|fraction| - 1] != '0'
    ensures Normal(neg, integer + fraction, |fraction|) == SignText(neg) + (integer + "." + fraction)
  {
    var digits := integer + fraction;
    LastOf(integer, fraction);
    assert TrimLeftZeros(digits) == digits && Reduce(digits, |fraction|) == (digits, |fraction|);
    assert digits[..|integer|] == integer && digits[|integer|..] == fraction;
  }

  lemma SmallPlain(neg: bool, fraction: string)
    requires fraction != "" && fraction[|fraction| - 1] != '0'
    ensures Normal(neg, "0" + fraction, |fraction|) == SignText(neg) + ("0." + fraction)
  {
    var d := TrimLeftZeros("0" + fraction);
    ZeroInteger(fraction, d);
    assert Reduce(d, |fraction|) == (d, |fraction|);
    Group("0.", Zeros(|fraction| - |d|), d);
  }

  lemma NormalOfPlain(p: Parts)
    requires PlainParts(p)
    ensures Normal(p.neg, p.integer + p.fraction, |p.fraction|) == PlainText(p)
  {
    hide AllDigits, Normal;
    if p.fraction == "" {
      assert p.integer + p.fraction == p.integer && PlainText(p) == SignText(p.neg) + p.integer;
      if p.integer == "0" {
        ZeroNormal();
      } else {
        WholePlain(p.neg, p.integer);
      }
    } else {
      assert PlainText(p) == SignText(p.neg) + (p.integer + "." + p.fraction);
      if p.integer == "0" {
        SmallPlain(p.neg, p.fraction);
      } else {
        FractionPlain(p.neg, p.integer, p.fraction);
      }
    }
  }

  lemma ZeroNormal()
    ensures Normal(false, "0", 0) == "0"
  {
    assert TrimLeftZeros("0"[1..]) == "";
  }

  /** Behind a zero integer the fraction is the trimmed digits with their leading zeros. */
  lemma ZeroInteger(fraction: string, d: string)
    requires fraction != "" && fraction[|fraction| - 1] != '0' && d == TrimLeftZeros("0" + fraction)
    ensures d != "" && |d| <= |fraction| && fraction == Zeros(|fraction| - |d|) + d && d[|d| - 1] != '0'
  {
    hide TrimLeftZeros;
    LeadingZero(fraction);
    TrimShape(fraction);
    NotAllZeros(fraction, d);
  }

  lemma LeadingZero(fraction: string)
    ensures TrimLeftZeros("0" + fraction) == TrimLeftZeros(fraction)
  {
    assert ("0" + fraction)[1..] == fraction;
  }

  lemma NotAllZeros(fraction: string, d: string)
    requires fraction != "" && |d| <= |fraction| && fraction == Zeros(|fraction| - |d|) + d
    ensures d == "" ==> fraction[|fraction| - 1] == '0'
    ensures d != "" ==> fraction[|fraction| - 1] == d[|d| - 1]
  {
  }

  /** A plain number is its own canonical text. */
  lemma PlainFixed(text: string)
    requires PlainNumber(text)
    ensures IsNumber(text) && Canonical(text) == Some(text)
  {
    hide PlainParts, PlainText, Normal, Split;
    var p :| PlainParts(p) && text == PlainText(p);
    PlainSpelled(p);
    SpellIsNumber(p);
    SplitOfParts(p);
    NormalOfPlain(p);
  }

  lemma RenderedPlain(neg: bool, digits: string, scale: int)
    requires Reduced(digits, scale)
    ensures PlainNumber(SignText(neg) + Render(digits, scale))
  {
    RenderedPartsValid(neg, digits, scale);
    RenderSpells(neg, digits, scale);
    var p := RenderedParts(neg, digits, scale);
    if scale <= 0 {
      assert p.integer[0] == digits[0];
    } else if |digits| <= scale {
      LastOf(Zeros(scale - |digits|), digits);
    }
    assert PlainParts(p);
    PlainSpelled(p);
  }

  lemma CanonicalPlain(text: string)
    requires Accepted(text)
    ensures PlainNumber(Canonical(text).value)
  {
    hide PlainNumber;
    var neg, digits, scale := AcceptedNormal(text);
    TrimKeepsValue(digits);
    var d := TrimLeftZeros(digits);
    if d == "" {
      ZeroPlain();
    } else {
      ReduceKeepsValue(d, scale);
      RenderedPlain(neg, Reduce(d, scale).0, Reduce(d, scale).1);
    }
  }

  lemma ZeroPlain()
    ensures PlainNumber("0")
  {
    var p := Parts(false, "0", "", 'e', "");
    assert PlainParts(p) && PlainText(p) == "0";
  }

  /** The canonical text of an accepted number is the plain spelling of its value. */
  lemma NumberTextIff(n: string, text: string)
    requires Accepted(n)
    ensures Canonical(n) == Some(text) <==> PlainNumber(text) && IsNumber(text) && NumberValue(text) == NumberValue(n)
  {
    hide PlainNumber, Canonical, IsNumber, NumberValue;
    CanonicalPlain(n);
    CanonicalKeepsValue(n);
    if PlainNumber(text) {
      PlainFixed(text);
      CanonicalIffSameValue(n, text);
    }
  }

  // ---- Values -------------------------------------------------------------------------------------

  function Members(keys: seq<string>, texts: seq<string>): seq<string>
    requires |keys| == |texts|
  {
    seq(|keys|, i requires 0 <= i < |keys| => Quote(keys[i]) + ":" + texts[i])
  }

  /** The parts with commas between them, in brackets. */
  predicate Enclosed(open: string, parts: seq<string>, close: string, text: string) {
    text == open + Joined(parts, ",") + close
  }

  /** Every key once, in code-point order. */
  ghost predicate Listed(keys: seq<string>, fields: set<string>) {
    (forall k :: k in keys <==> k in fields) && ByCodePoint(keys)
  }

  /** The text is the value, with strings escaped as above, numbers plain, members in the order of their keys, and
      nothing between the tokens. */
  ghost predicate Writes(v: Value, text: string) {
    match v
    case Null => text == "null"
    case Bool(b) => text == if b then "true" else "false"
    case Str(s) => Quoted(s, text)
    case Num(n) => PlainNumber(text) && IsNumber(text) && IsNumber(n) && NumberValue(text) == NumberValue(n)
    case Arr(items) =>
      exists texts :: Enclosed("[", texts, "]", text) && |texts| == |items|
                      && forall i | 0 <= i < |items| :: Writes(items[i], texts[i])
    case Obj(fields) =>
      exists keys, texts :: Listed(keys, fields.Keys) && |texts| == |keys| && Enclosed("{", Members(keys, texts), "}", text)
                            && forall i | 0 <= i < |keys| :: keys[i] in fields && Writes(fields[keys[i]], texts[i])
  }

  lemma {:induction false} TailJoined(v: Value, texts: seq<string>, i: nat)
    requires v.Arr? && Printable(v) && |texts| == |v.items| && 0 < i <= |texts|
    requires forall j | 0 <= j < |texts| :: texts[j] == Print(v.items[j])
    ensures PrintTail(v, i) == if i == |texts| then "]" else "," + Joined(texts[i..], ",") + "]"
    decreases |texts| - i
  {
    hide Print;
    if i < |texts| {
      TailJoined(v, texts, i + 1);
      assert texts[i..][0] == texts[i] && texts[i..][1..] == texts[i + 1..];
      if i + 1 < |texts| {
        Wrap(",", texts[i], ",", Joined(texts[i + 1..], ","), "]");
      }
    }
  }

  lemma Wrap(a: string, b: string, c: string, d: string, e: string)
    ensures a + b + (c + d + e) == a + (b + c + d) + e
  {
  }

  lemma ArrayText(v: Value, texts: seq<string>)
    requires v.Arr? && Printable(v) && |texts| == |v.items|
    requires forall j | 0 <= j < |texts| :: texts[j] == Print(v.items[j])
    ensures Print(v) == "[" + Joined(texts, ",") + "]"
  {
    hide Print, PrintTail, Joined;
    FirstOfArray(v);
    JoinedSplit(texts);
    if texts != [] {
      TailJoined(v, texts, 1);
      Wrap("[", texts[0], ",", Joined(texts[1..], ","), "]");
    }
  }

  lemma JoinedSplit(texts: seq<string>)
    ensures texts == [] ==> Joined(texts, ",") == ""
    ensures |texts| == 1 ==> Joined(texts, ",") == texts[0]
    ensures |texts| > 1 ==> Joined(texts, ",") == texts[0] + "," + Joined(texts[1..], ",")
  {
  }

  lemma FirstOfArray(v: Value)
    requires v.Arr? && Printable(v)
    ensures Print(v) == if v.items == [] then "[" + "" + "]" else "[" + Print(v.items[0]) + PrintTail(v, 1)
  {
  }

  lemma {:induction false} MembersJoined(v: Value, keys: seq<string>, texts: seq<string>)
    requires v.Obj? && Printable(v) && |keys| == |texts| && forall k | k in keys :: k in v.fields
    requires forall i | 0 <= i < |keys| :: texts[i] == Print(v.fields[keys[i]])
    ensures MemberText(v, keys) == Joined(Members(keys, texts), ",")
  {
    hide Print, Quote;
    if |keys| > 1 {
      MembersJoined(v, keys[1..], texts[1..]);
      assert Members(keys, texts)[1..] == Members(keys[1..], texts[1..]);
    }
  }

  lemma KeysUnique(keys: seq<string>, fields: set<string>)
    requires Listed(keys, fields)
    ensures keys == SortedKeys(fields)
  {
    hide Less, Below, SortedKeys;
    forall i, j | 0 <= i < j < |keys| ensures Less(keys[i], keys[j]) {
      LessIffBelow(keys[i], keys[j]);
    }
    SortedKeysSpec(fields);
    AscendingUnique(keys, SortedKeys(fields));
  }

  /** Of every value whose numbers can be written, the canonical text is the one text that writes it. */
  lemma {:induction false} PrintIff(v: Value, text: string)
    requires WellFormed(v) && Printable(v)
    ensures Writes(v, text) <==> text == Print(v)
    decreases v
  {
    match v
    case Null =>
    case Bool(_) =>
    case Str(s) => QuotedIff(s, text);
    case Num(n) => NumberTextIff(n, text);
    case Arr(_) => ArrayIff(v, text);
    case Obj(_) => ObjectIff(v, text);
  }

  lemma {:induction false} ArrayIff(v: Value, text: string)
    requires v.Arr? && WellFormed(v) && Printable(v)
    ensures Writes(v, text) <==> text == Print(v)
    decreases v, 0
  {
    hide Print, Joined;
    var texts := seq(|v.items|, i requires 0 <= i < |v.items| => Print(v.items[i]));
    forall i | 0 <= i < |v.items| ensures Writes(v.items[i], texts[i]) {
      PrintIff(v.items[i], texts[i]);
    }
    ArrayText(v, texts);
    assert Enclosed("[", texts, "]", Print(v));
    if Writes(v, text) {
      var parts :| Enclosed("[", parts, "]", text) && |parts| == |v.items|
                   && forall i | 0 <= i < |v.items| :: Writes(v.items[i], parts[i]);
      forall i | 0 <= i < |parts| ensures parts[i] == texts[i] {
        PrintIff(v.items[i], parts[i]);
      }
      assert parts == texts;
    }
  }

  lemma {:induction false} ObjectIff(v: Value, text: string)
    requires v.Obj? && WellFormed(v) && Printable(v)
    ensures Writes(v, text) <==> text == Print(v)
    decreases v, 0
  {
    hide Print, Joined, SortedKeys, ByCodePoint, Quote, MemberText;
    var keys := SortedKeys(v.fields.Keys);
    SortedKeysSpec(v.fields.Keys);
    SortedByCodePoint(v.fields.Keys);
    WrittenSorted(v);
    var texts := seq(|keys|, i requires 0 <= i < |keys| => Print(v.fields[keys[i]]));
    forall i | 0 <= i < |keys| ensures Writes(v.fields[keys[i]], texts[i]) {
      PrintIff(v.fields[keys[i]], texts[i]);
    }
    MembersJoined(v, keys, texts);
    assert Listed(keys, v.fields.Keys) && Enclosed("{", Members(keys, texts), "}", Print(v));
    if Writes(v, text) {
      var ks, parts :| Listed(ks, v.fields.Keys) && |parts| == |ks| && Enclosed("{", Members(ks, parts), "}", text)
                       && forall i | 0 <= i < |ks| :: ks[i] in v.fields && Writes(v.fields[ks[i]], parts[i]);
      KeysUnique(ks, v.fields.Keys);
      forall i | 0 <= i < |parts| ensures parts[i] == texts[i] {
        PrintIff(v.fields[ks[i]], parts[i]);
      }
      assert parts == texts;
    }
  }

  /** A document is accepted exactly if it is one value whose numbers are in range, and its canonical text is the one
      text that writes that value. */
  lemma CanonicalizeIff(raw: string, text: string)
    requires Parse(raw).Some?
    ensures Canonicalize(raw) == Some(text) <==> Printable(Parse(raw).value) && Writes(Parse(raw).value, text)
  {
    hide Writes, Print;
    ParseWellFormed(raw);
    if Printable(Parse(raw).value) {
      PrintIff(Parse(raw).value, text);
    }
  }
}
