/** JSON string literals: the escaping that the encoder of Go's standard library applies (HTML-sensitive
    characters included) and the decoder that reads any RFC 8259 string back. Text is a sequence of
    Unicode scalar values. */
module JsonString {
  import opened Options

  const HEX := "0123456789abcdef"
  const REPLACEMENT := '\U{FFFD}'

  function HexDigit(n: nat): char
    requires n < 16
  {
    HEX[n]
  }

  function HexValue(c: char): Option<nat> {
    if '0' <= c <= '9' then Some(c as int - '0' as int)
    else if 'a' <= c <= 'f' then Some(c as int - 'a' as int + 10)
    else if 'A' <= c <= 'F' then Some(c as int - 'A' as int + 10)
    else None
  }

  // ---- Writing --------------------------------------------------------------

  function UnicodeEscape(n: nat): string
    requires n < 0x10000
  {
    ['\\', 'u', HexDigit(n / 0x1000), HexDigit(n / 0x100 % 16), HexDigit(n / 0x10 % 16), HexDigit(n % 16)]
  }

  /** Characters that are written as `\uXXXX`. */
  predicate NeedsUnicodeEscape(c: char) {
    c as int < 0x20 || c == '<' || c == '>' || c == '&' || c == '\U{2028}' || c == '\U{2029}'
  }

  function Escape(c: char): string {
    if c == '"' then ['\\', '"']
    else if c == '\\' then ['\\', '\\']
    else if c as int == 0x08 then ['\\', 'b']
    else if c as int == 0x0C then ['\\', 'f']
    else if c == '\n' then ['\\', 'n']
    else if c == '\r' then ['\\', 'r']
    else if c == '\t' then ['\\', 't']
    else if NeedsUnicodeEscape(c) then UnicodeEscape(c as int)
    else [c]
  }

  function EscapeAll(s: string): string {
    if s == "" then "" else Escape(s[0]) + EscapeAll(s[1..])
  }

  function Quote(s: string): string {
    "\"" + EscapeAll(s) + "\""
  }

  // ---- Reading --------------------------------------------------------------

  function Hex4(s: string): Option<nat> {
    if |s| < 4 then None
    else
      var a :- HexValue(s[0]);
      var b :- HexValue(s[1]);
      var c :- HexValue(s[2]);
      var d :- HexValue(s[3]);
      Some(a * 0x1000 + b * 0x100 + c * 0x10 + d)
  }

  predicate IsSurrogate(n: int) {
    0xD800 <= n < 0xE000
  }

  /** A code unit that follows a first one, as the second half of a surrogate pair. */
  function LowSurrogate(s: string): Option<nat> {
    if |s| < 6 || s[0] != '\\' || s[1] != 'u' then None
    else
      var n :- Hex4(s[2..]);
      if 0xDC00 <= n < 0xE000 then Some(n) else None
  }

  /** The character that a `\u` escape denotes, given the text after the `u`. An unpaired surrogate
      reads as the replacement character and leaves what follows it alone. */
  function UnicodeChar(s: string): (r: Option<(char, string)>)
    ensures r.Some? ==> |r.value.1| < |s|
  {
    var n :- Hex4(s);
    if n >= 0x10000 then None
    else if !IsSurrogate(n) then Some((n as char, s[4..]))
    else if n < 0xDC00 && LowSurrogate(s[4..]).Some? then
      var low := LowSurrogate(s[4..]).value;
      Some(((0x10000 + (n - 0xD800) * 0x400 + (low - 0xDC00)) as char, s[10..]))
    else Some((REPLACEMENT, s[4..]))
  }

  /** The character denoted by the text after a backslash. */
  function Unescape(s: string): (r: Option<(char, string)>)
    ensures r.Some? ==> |r.value.1| < |s|
  {
    if s == "" then None
    else if s[0] == '"' || s[0] == '\\' || s[0] == '/' then Some((s[0], s[1..]))
    else if s[0] == 'b' then Some((0x08 as char, s[1..]))
    else if s[0] == 'f' then Some((0x0C as char, s[1..]))
    else if s[0] == 'n' then Some(('\n', s[1..]))
    else if s[0] == 'r' then Some(('\r', s[1..]))
    else if s[0] == 't' then Some(('\t', s[1..]))
    else if s[0] == 'u' then UnicodeChar(s[1..])
    else None
  }

  /** One character of the literal's content. */
  function NextChar(s: string): (r: Option<(char, string)>)
    ensures r.Some? ==> |r.value.1| < |s|
  {
    if s == "" || s[0] as int < 0x20 || s[0] == '"' then None
    else if s[0] == '\\' then Unescape(s[1..])
    else Some((s[0], s[1..]))
  }

  /** The content of a string literal whose opening quote has been read, and the text after it. */
  function Unquote(s: string): (r: Option<(string, string)>)
    ensures r.Some? ==> |r.value.1| < |s|
    decreases |s|
  {
    if s != "" && s[0] == '"' then Some(("", s[1..]))
    else
      match NextChar(s)
      case None => None
      case Some((c, rest)) =>
        match Unquote(rest)
        case None => None
        case Some((content, after)) => Some(([c] + content, after))
  }

  // ---- Round trip -----------------------------------------------------------

  lemma HexRoundTrip(n: nat)
    requires n < 16
    ensures HexValue(HexDigit(n)) == Some(n)
  {
  }

  lemma Hex4Digits(a: nat, b: nat, c: nat, d: nat, rest: string)
    requires a < 16 && b < 16 && c < 16 && d < 16
    ensures Hex4([HexDigit(a), HexDigit(b), HexDigit(c), HexDigit(d)] + rest) ==
            Some(a * 0x1000 + b * 0x100 + c * 0x10 + d)
  {
    hide HexValue, HexDigit;
    HexRoundTrip(a);
    HexRoundTrip(b);
    HexRoundTrip(c);
    HexRoundTrip(d);
  }

  lemma Hex4Sum(n: nat)
    ensures n / 0x1000 * 0x1000 + n / 0x100 % 16 * 0x100 + n / 0x10 % 16 * 0x10 + n % 16 == n
  {
    var h, q := n / 0x10, n / 0x100;
    assert n == 16 * h + n % 16;
    assert h / 16 == q && h == 16 * q + h % 16;
    assert q / 16 == n / 0x1000 && q == 16 * (n / 0x1000) + q % 16;
  }

  lemma Hex4RoundTrip(n: nat, rest: string)
    requires n < 0x10000
    ensures Hex4(UnicodeEscape(n)[2..] + rest) == Some(n)
  {
    hide Hex4, HexDigit;
    var a, b, c, d := n / 0x1000, n / 0x100 % 16, n / 0x10 % 16, n % 16;
    Hex4Sum(n);
    Hex4Digits(a, b, c, d, rest);
    assert UnicodeEscape(n)[2..] == [HexDigit(a), HexDigit(b), HexDigit(c), HexDigit(d)];
  }

  lemma UnicodeRoundTrip(c: char, rest: string)
    requires c as int < 0x10000
    ensures NextChar(UnicodeEscape(c as int) + rest) == Some((c, rest))
  {
    hide HexValue, HexDigit, LowSurrogate;
    var e := UnicodeEscape(c as int);
    Hex4RoundTrip(c as int, rest);
    assert (e + rest)[1..][1..] == e[2..] + rest;
    assert (e[2..] + rest)[4..] == rest;
  }

  lemma EscapeRoundTrip(c: char, rest: string)
    ensures NextChar(Escape(c) + rest) == Some((c, rest))
    ensures Escape(c)[0] != '"'
  {
    hide UnicodeChar;
    if Escape(c) == [c] {
      assert ([c] + rest)[1..] == rest;
    } else if |Escape(c)| == 2 {
      assert (Escape(c) + rest)[1..][1..] == rest;
    } else {
      UnicodeRoundTrip(c, rest);
    }
  }

  /** Reading back what was escaped recovers the string, whatever follows the closing quote. */
  lemma {:induction false} QuoteRoundTrip(s: string, rest: string)
    ensures Unquote(EscapeAll(s) + "\"" + rest) == Some((s, rest))
  {
    hide NextChar, Escape;
    if s == "" {
      assert EscapeAll(s) + "\"" + rest == "\"" + rest;
    } else {
      var tail := EscapeAll(s[1..]) + "\"" + rest;
      assert EscapeAll(s) + "\"" + rest == Escape(s[0]) + tail;
      EscapeRoundTrip(s[0], tail);
      QuoteRoundTrip(s[1..], rest);
      assert s == [s[0]] + s[1..];
    }
  }
}
