/** Canonical JSON of core/encoding: the writer, a reader for any JSON text, and the proof that the
    canonical text identifies a value up to number spelling and key order. */
module CanonicalJson {
  import opened Options
  import opened NumberSyntax
  import opened CanonicalNumber
  import opened JsonString
  import opened KeyOrder

  /** A decoded document; numbers keep their source text. */
  datatype Value =
    | Null
    | Bool(b: bool)
    | Str(s: string)
    | Num(text: string)
    | Arr(items: seq<Value>)
    | Obj(fields: map<string, Value>)

  /** Every number can be written. */
  predicate Printable(v: Value) {
    match v
    case Num(text) => Canonical(text).Some?
    case Arr(items) => forall i | 0 <= i < |items| :: Printable(items[i])
    case Obj(fields) => forall k | k in fields :: Printable(fields[k])
    case _ => true
  }

  /** Every number is a JSON number, as it is in any decoded document. */
  predicate WellFormed(v: Value) {
    match v
    case Num(text) => IsNumber(text)
    case Arr(items) => forall i | 0 <= i < |items| :: WellFormed(items[i])
    case Obj(fields) => forall k | k in fields :: WellFormed(fields[k])
    case _ => true
  }

  // ---- Writing --------------------------------------------------------------

  function Print(v: Value): string
    requires Printable(v)
    decreases v, 1
  {
    match v
    case Null => "null"
    case Bool(b) => if b then "true" else "false"
    case Str(s) => Quote(s)
    case Num(text) => Canonical(text).value
    case Arr(items) => if items == [] then "[]" else "[" + Print(items[0]) + PrintTail(v, 1)
    case Obj(fields) =>
      SortedKeysSpec(fields.Keys);
      var keys := SortedKeys(fields.Keys);
      if keys == [] then "{}" else "{" + PrintMember(v, keys[0]) + PrintMembers(v, keys[1..])
  }

  /** The items from index `i` on, each behind a comma, and the closing bracket. */
  function PrintTail(v: Value, i: nat): string
    requires v.Arr? && Printable(v) && i <= |v.items|
    decreases v, 0, |v.items| - i
  {
    if i == |v.items| then "]" else "," + Print(v.items[i]) + PrintTail(v, i + 1)
  }

  function PrintMember(v: Value, key: string): string
    requires v.Obj? && Printable(v) && key in v.fields
    decreases v, 0, 0
  {
    Quote(key) + ":" + Print(v.fields[key])
  }

  function PrintMembers(v: Value, keys: seq<string>): string
    requires v.Obj? && Printable(v) && forall k | k in keys :: k in v.fields
    decreases v, 0, |keys| + 1
  {
    if keys == [] then "}" else "," + PrintMember(v, keys[0]) + PrintMembers(v, keys[1..])
  }

  // ---- Reading --------------------------------------------------------------

  function SkipSpace(s: string): (t: string)
    ensures |t| <= |s|
  {
    if s != "" && (s[0] == ' ' || s[0] == '\t' || s[0] == '\n' || s[0] == '\r') then SkipSpace(s[1..]) else s
  }

  function Literal(s: string, word: string, v: Value): (r: Option<(Value, string)>)
    requires word != ""
    ensures r.Some? ==> |r.value.1| < |s|
  {
    if word <= s then Some((v, s[|word|..])) else None
  }

  function ParseNumber(s: string): (r: Option<(Value, string)>)
    ensures r.Some? ==> |r.value.1| < |s|
  {
    ScanSound(s);
    match ScanNumber(s)
    case None => None
    case Some((p, rest)) => Some((Num(Spell(p)), rest))
  }

  function ParseValue(text: string): (r: Option<(Value, string)>)
    ensures r.Some? ==> |r.value.1| < |text|
    decreases |text|, 2
  {
    var s := SkipSpace(text);
    if s == "" then None
    else if s[0] == 'n' then Literal(s, "null", Null)
    else if s[0] == 't' then Literal(s, "true", Bool(true))
    else if s[0] == 'f' then Literal(s, "false", Bool(false))
    else if s[0] == '"' then
      match Unquote(s[1..])
      case None => None
      case Some((content, rest)) => Some((Str(content), rest))
    else if s[0] == '[' then ParseArray(s[1..])
    else if s[0] == '{' then ParseObject(s[1..])
    else ParseNumber(s)
  }

  /** The text after an opening bracket. */
  function ParseArray(text: string): (r: Option<(Value, string)>)
    ensures r.Some? ==> |r.value.1| < |text|
    decreases |text|, 3
  {
    var s := SkipSpace(text);
    if s != "" && s[0] == ']' then Some((Arr([]), s[1..]))
    else
      match ParseValue(s)
      case None => None
      case Some((first, rest)) =>
        match ParseItems(rest)
        case None => None
        case Some((more, after)) => Some((Arr([first] + more), after))
  }

  function ParseItems(text: string): (r: Option<(seq<Value>, string)>)
    ensures r.Some? ==> |r.value.1| < |text|
    decreases |text|, 1
  {
    var s := SkipSpace(text);
    if s != "" && s[0] == ']' then Some(([], s[1..]))
    else if s != "" && s[0] == ',' then
      match ParseValue(s[1..])
      case None => None
      case Some((item, rest)) =>
        match ParseItems(rest)
        case None => None
        case Some((more, after)) => Some(([item] + more, after))
    else None
  }

  /** The text after an opening brace. A repeated key keeps its last value. */
  function ParseObject(text: string): (r: Option<(Value, string)>)
    ensures r.Some? ==> |r.value.1| < |text|
    decreases |text|, 3
  {
    var s := SkipSpace(text);
    if s != "" && s[0] == '}' then Some((Obj(map[]), s[1..]))
    else
      match ParseMember(s)
      case None => None
      case Some((first, rest)) =>
        match ParseMembers(rest)
        case None => None
        case Some((more, after)) => Some((Obj(Fields([first] + more)), after))
  }

  function ParseMember(text: string): (r: Option<((string, Value), string)>)
    ensures r.Some? ==> |r.value.1| < |text|
    decreases |text|, 1
  {
    var s := SkipSpace(text);
    if s == "" || s[0] != '"' then None
    else
      match Unquote(s[1..])
      case None => None
      case Some((key, rest)) =>
        var colon := SkipSpace(rest);
        if colon == "" || colon[0] != ':' then None
        else
          match ParseValue(colon[1..])
          case None => None
          case Some((v, after)) => Some(((key, v), after))
  }

  function ParseMembers(text: string): (r: Option<(seq<(string, Value)>, string)>)
    ensures r.Some? ==> |r.value.1| < |text|
    decreases |text|, 2
  {
    var s := SkipSpace(text);
    if s != "" && s[0] == '}' then Some(([], s[1..]))
    else if s != "" && s[0] == ',' then
      match ParseMember(s[1..])
      case None => None
      case Some((member, rest)) =>
        match ParseMembers(rest)
        case None => None
        case Some((more, after)) => Some(([member] + more, after))
    else None
  }

  function Fields(members: seq<(string, Value)>): map<string, Value> {
    if members == [] then map[]
    else Fields(members[..|members| - 1])[members[|members| - 1].0 := members[|members| - 1].1]
  }

  /** Exactly one JSON value, with white space allowed around it. */
  function Parse(text: string): Option<Value> {
    match ParseValue(text)
    case None => None
    case Some((v, rest)) => if SkipSpace(rest) == "" then Some(v) else None
  }

  /** Canonicalize: decode exactly one value and write it, failing on anything else. */
  function Canonicalize(raw: string): Option<string> {
    match Parse(raw)
    case None => None
    case Some(v) => if Printable(v) then Some(Print(v)) else None
  }
}
