/** What canonical JSON promises, over every document. */
module CanonicalJsonProofs {
  import opened Options
  import opened NumberSyntax
  import opened CanonicalNumber
  import opened JsonString
  import opened KeyOrder
  import opened CanonicalJson

  // ---- The decoder yields well-formed documents -----------------------------

  lemma {:induction false} ParseValueWellFormed(text: string)
    ensures ParseValue(text).Some? ==> WellFormed(ParseValue(text).value.0)
    decreases |text|, 2
  {
    hide Unquote, ScanNumber;
    var s := SkipSpace(text);
    if s != "" && s[0] == '[' {
      ParseArrayWellFormed(s[1..]);
    } else if s != "" && s[0] == '{' {
      ParseObjectWellFormed(s[1..]);
    } else if ParseNumber(s).Some? {
      ParseNumberWellFormed(s);
    }
  }

  lemma ParseNumberWellFormed(s: string)
    requires ParseNumber(s).Some?
    ensures WellFormed(ParseNumber(s).value.0)
  {
    ScanSound(s);
    SpellIsNumber(ScanNumber(s).value.0);
  }

  lemma {:induction false} ParseArrayWellFormed(text: string)
    ensures ParseArray(text).Some? ==> WellFormed(ParseArray(text).value.0)
    decreases |text|, 3
  {
    var s := SkipSpace(text);
    if ParseArray(text).Some? && s != "" && s[0] != ']' {
      ParseValueWellFormed(s);
      ParseItemsWellFormed(ParseValue(s).value.1);
    }
  }

  lemma {:induction false} ParseItemsWellFormed(text: string)
    ensures ParseItems(text).Some? ==> WellFormed(Arr(ParseItems(text).value.0))
    decreases |text|, 1
  {
    var s := SkipSpace(text);
    if ParseItems(text).Some? && s != "" && s[0] != ']' {
      ParseValueWellFormed(s[1..]);
      ParseItemsWellFormed(ParseValue(s[1..]).value.1);
    }
  }

  predicate MembersWellFormed(members: seq<(string, Value)>) {
    forall i | 0 <= i < |members| :: WellFormed(members[i].1)
  }

  lemma {:induction false} FieldsWellFormed(members: seq<(string, Value)>)
    requires MembersWellFormed(members)
    ensures WellFormed(Obj(Fields(members)))
  {
    if members != [] {
      FieldsWellFormed(members[..|members| - 1]);
    }
  }

  lemma {:induction false} ParseObjectWellFormed(text: string)
    ensures ParseObject(text).Some? ==> WellFormed(ParseObject(text).value.0)
    decreases |text|, 3
  {
    var s := SkipSpace(text);
    if ParseObject(text).Some? && s != "" && s[0] != '}' {
      ParseMemberWellFormed(s);
      var (first, rest) := ParseMember(s).value;
      ParseMembersWellFormed(rest);
      FieldsWellFormed([first] + ParseMembers(rest).value.0);
    }
  }

  lemma {:induction false} ParseMemberWellFormed(text: string)
    ensures ParseMember(text).Some? ==> WellFormed(ParseMember(text).value.0.1)
    decreases |text|, 1
  {
    var s := SkipSpace(text);
    if ParseMember(text).Some? {
      var rest := Unquote(s[1..]).value.1;
      ParseValueWellFormed(SkipSpace(rest)[1..]);
    }
  }

  lemma {:induction false} ParseMembersWellFormed(text: string)
    ensures ParseMembers(text).Some? ==> MembersWellFormed(ParseMembers(text).value.0)
    decreases |text|, 2
  {
    var s := SkipSpace(text);
    if ParseMembers(text).Some? && s != "" && s[0] != '}' {
      ParseMemberWellFormed(s[1..]);
      ParseMembersWellFormed(ParseMember(s[1..]).value.1);
    }
  }

  lemma ParseWellFormed(text: string)
    ensures Parse(text).Some? ==> WellFormed(Parse(text).value)
  {
    ParseValueWellFormed(text);
  }

  // ---- Normal form ----------------------------------------------------------

  /** The document with every number in canonical spelling. */
  function Norm(v: Value): Value
    requires Printable(v)
  {
    match v
    case Num(text) => Num(Canonical(text).value)
    case Arr(items) => Arr(seq(|items|, i requires 0 <= i < |items| => Norm(items[i])))
    case Obj(fields) => Obj(map k | k in fields :: Norm(fields[k]))
    case _ => v
  }

  /** The same document, told apart only by what JSON says: numbers compare by exact value. */
  ghost predicate SameJson(v: Value, w: Value)
    requires WellFormed(v) && WellFormed(w)
  {
    match (v, w)
    case (Num(a), Num(b)) => NumberValue(a) == NumberValue(b)
    case (Arr(xs), Arr(ys)) => |xs| == |ys| && forall i | 0 <= i < |xs| :: SameJson(xs[i], ys[i])
    case (Obj(f), Obj(g)) => f.Keys == g.Keys && forall k | k in f :: SameJson(f[k], g[k])
    case _ => v == w
  }

  lemma {:induction false} NormIffSame(v: Value, w: Value)
    requires WellFormed(v) && WellFormed(w) && Printable(v) && Printable(w)
    ensures Norm(v) == Norm(w) <==> SameJson(v, w)
  {
    hide Canonical, IsNumber, NumberValue;
    match (v, w)
    case (Num(a), Num(b)) =>
      CanonicalIffSameValue(a, b);
    case (Arr(xs), Arr(ys)) =>
      if |xs| == |ys| {
        forall i | 0 <= i < |xs| ensures Norm(xs[i]) == Norm(ys[i]) <==> SameJson(xs[i], ys[i]) {
          NormIffSame(xs[i], ys[i]);
        }
        ArrNormEq(xs, ys);
      } else {
        assert |Norm(v).items| == |xs| && |Norm(w).items| == |ys|;
      }
    case (Obj(f), Obj(g)) =>
      if f.Keys == g.Keys {
        forall k | k in f ensures Norm(f[k]) == Norm(g[k]) <==> SameJson(f[k], g[k]) {
          NormIffSame(f[k], g[k]);
        }
        ObjNormEq(f, g);
      } else {
        assert Norm(v).fields.Keys == f.Keys && Norm(w).fields.Keys == g.Keys;
      }
    case _ =>
  }

  lemma ArrNormEq(xs: seq<Value>, ys: seq<Value>)
    requires Printable(Arr(xs)) && Printable(Arr(ys)) && |xs| == |ys|
    ensures Norm(Arr(xs)) == Norm(Arr(ys)) <==> forall i | 0 <= i < |xs| :: Norm(xs[i]) == Norm(ys[i])
  {
    var a, b := Norm(Arr(xs)).items, Norm(Arr(ys)).items;
    assert forall i | 0 <= i < |xs| :: a[i] == Norm(xs[i]) && b[i] == Norm(ys[i]);
  }

  lemma ObjNormEq(f: map<string, Value>, g: map<string, Value>)
    requires Printable(Obj(f)) && Printable(Obj(g)) && f.Keys == g.Keys
    ensures Norm(Obj(f)) == Norm(Obj(g)) <==> forall k | k in f :: Norm(f[k]) == Norm(g[k])
  {
    var a, b := Norm(Obj(f)).fields, Norm(Obj(g)).fields;
    assert forall k | k in f :: k in a && k in b && a[k] == Norm(f[k]) && b[k] == Norm(g[k]);
  }

  // ---- Round trip -----------------------------------------------------------

  lemma SkipNothing(s: string)
    requires s == "" || !(s[0] == ' ' || s[0] == '\t' || s[0] == '\n' || s[0] == '\r')
    ensures SkipSpace(s) == s
  {
  }

  /** First characters of printed values. */
  predicate StartsValue(s: string) {
    && s != "" && s[0] != ']' && s[0] != '}' && s[0] != ',' && s[0] != ':'
    && !(s[0] == ' ' || s[0] == '\t' || s[0] == '\n' || s[0] == '\r')
  }

  lemma PrintStarts(v: Value)
    requires Printable(v) && WellFormed(v)
    ensures StartsValue(Print(v))
  {
    if v.Num? {
      NumberStarts(v.text);
    }
  }

  predicate StartsNumber(s: string) {
    s != "" && (s[0] == '-' || '0' <= s[0] <= '9')
  }

  lemma NumberStarts(text: string)
    requires Accepted(text)
    ensures StartsNumber(Canonical(text).value)
  {
    hide Canonical;
    CanonicalKeepsValue(text);
    var c := Canonical(text).value;
    ScanSound(c);
  }

  lemma ParsePrintedNumber(text: string, rest: string)
    requires Accepted(text) && EndsNumber(rest)
    ensures ParseValue(Canonical(text).value + rest) == Some((Num(Canonical(text).value), rest))
  {
    hide Canonical, ScanNumber, Unquote;
    CanonicalKeepsValue(text);
    NumberStarts(text);
    var c := Canonical(text).value;
    ScanSound(c);
    var p := PartsOf(c);
    assert Spell(p) + "" == Spell(p);
    ScanComplete(p, rest);
    SkipNothing(c + rest);
  }

  lemma ParseLiteral(v: Value, rest: string)
    requires v.Null? || v.Bool?
    ensures ParseValue(Print(v) + rest) == Some((v, rest))
  {
    var s := Print(v) + rest;
    SkipNothing(s);
    assert s[|Print(v)|..] == rest;
  }

  lemma ParsePrintedString(t: string, rest: string)
    ensures ParseValue(Quote(t) + rest) == Some((Str(t), rest))
  {
    hide Unquote, EscapeAll;
    var s := Quote(t) + rest;
    SkipNothing(s);
    QuoteRoundTrip(t, rest);
    assert s[1..] == EscapeAll(t) + "\"" + rest;
  }

  /** Reading a printed value recovers its normal form and stops exactly at its end. */
  lemma {:induction false} ParsePrint(v: Value, rest: string)
    requires Printable(v) && WellFormed(v) && EndsNumber(rest)
    ensures ParseValue(Print(v) + rest) == Some((Norm(v), rest))
    decreases v, 2
  {
    hide Canonical, Unquote, EscapeAll, ParseNumber, IsNumber;
    match v
    case Num(text) =>
      ParsePrintedNumber(text, rest);
    case Str(t) =>
      ParsePrintedString(t, rest);
    case Arr(items) =>
      ParsePrintArray(v, rest);
    case Obj(fields) =>
      ParsePrintObject(v, rest);
    case _ =>
      ParseLiteral(v, rest);
  }

  lemma ParseArrayStep(s: string, first: Value, rest: string, more: seq<Value>, after: string)
    requires StartsValue(s)
    requires ParseValue(s) == Some((first, rest)) && ParseItems(rest) == Some((more, after))
    ensures ParseValue("[" + s) == Some((Arr([first] + more), after))
  {
    hide ParseItems, ParseNumber, ParseObject, Unquote;
    SkipNothing("[" + s);
    SkipNothing(s);
    assert ("[" + s)[1..] == s;
  }

  lemma ParseItemsStep(s: string, item: Value, rest: string, more: seq<Value>, after: string)
    requires ParseValue(s) == Some((item, rest)) && ParseItems(rest) == Some((more, after))
    ensures ParseItems("," + s) == Some(([item] + more, after))
  {
    hide ParseValue;
    SkipNothing("," + s);
    assert ("," + s)[1..] == s;
  }

  lemma ParseItemsEnd(rest: string)
    ensures ParseItems("]" + rest) == Some(([], rest))
    ensures ParseValue("[]" + rest) == Some((Arr([]), rest))
  {
    hide ParseNumber, ParseObject, Unquote;
    SkipNothing("[]" + rest);
    assert ("[]" + rest)[1..] == "]" + rest;
    SkipNothing("]" + rest);
    assert ("]" + rest)[1..] == rest;
  }

  lemma {:induction false} ParsePrintArray(v: Value, rest: string)
    requires v.Arr? && Printable(v) && WellFormed(v)
    ensures ParseValue(Print(v) + rest) == Some((Norm(v), rest))
    decreases v, 1
  {
    hide Canonical, ParseValue, ParseItems, IsNumber;
    if v.items == [] {
      ParseItemsEnd(rest);
    } else {
      var first, tail := Print(v.items[0]), PrintTail(v, 1) + rest;
      assert Print(v) + rest == "[" + (first + tail);
      PrintStarts(v.items[0]);
      ParsePrint(v.items[0], tail);
      ParsePrintTail(v, 1, rest);
      ParseArrayStep(first + tail, Norm(v.items[0]), tail, Norm(v).items[1..], rest);
      assert Norm(v).items == [Norm(v.items[0])] + Norm(v).items[1..];
    }
  }

  lemma {:induction false} ParsePrintTail(v: Value, i: nat, rest: string)
    requires v.Arr? && Printable(v) && WellFormed(v) && i <= |v.items|
    ensures ParseItems(PrintTail(v, i) + rest) == Some((Norm(v).items[i..], rest))
    decreases v, 0, |v.items| - i
  {
    hide Canonical, ParseValue, ParseItems, IsNumber;
    if i == |v.items| {
      ParseItemsEnd(rest);
      assert Norm(v).items[i..] == [];
    } else {
      var item, tail := Print(v.items[i]), PrintTail(v, i + 1) + rest;
      assert PrintTail(v, i) + rest == "," + (item + tail);
      ParsePrint(v.items[i], tail);
      ParsePrintTail(v, i + 1, rest);
      ParseItemsStep(item + tail, Norm(v.items[i]), tail, Norm(v).items[i + 1..], rest);
      assert Norm(v).items[i..] == [Norm(v.items[i])] + Norm(v).items[i + 1..];
    }
  }

  /** The members that printing `keys` of the object would read back as. */
  function NormMembers(v: Value, keys: seq<string>): seq<(string, Value)>
    requires v.Obj? && Printable(v) && forall k | k in keys :: k in v.fields
  {
    seq(|keys|, i requires 0 <= i < |keys| => assert keys[i] in keys; (keys[i], Norm(v.fields[keys[i]])))
  }

  lemma ParseObjectStep(s: string, first: (string, Value), rest: string, more: seq<(string, Value)>, after: string)
    requires s != "" && s[0] == '"'
    requires ParseMember(s) == Some((first, rest)) && ParseMembers(rest) == Some((more, after))
    ensures ParseValue("{" + s) == Some((Obj(Fields([first] + more)), after))
  {
    hide ParseMember, ParseMembers, ParseNumber, ParseArray, Unquote, Fields;
    SkipNothing("{" + s);
    SkipNothing(s);
    assert ("{" + s)[1..] == s;
  }

  lemma ParseEmptyObject(rest: string)
    ensures ParseValue("{}" + rest) == Some((Obj(map[]), rest))
  {
    hide ParseMember, ParseMembers, ParseNumber, ParseArray, Unquote, Fields;
    SkipNothing("{}" + rest);
    assert ("{}" + rest)[1..] == "}" + rest;
    SkipNothing("}" + rest);
    assert ("}" + rest)[1..] == rest;
  }

  lemma PrintObjectText(v: Value, rest: string)
    requires v.Obj? && Printable(v)
    ensures var keys := SortedKeys(v.fields.Keys);
            && (forall k :: k in keys <==> k in v.fields)
            && Print(v) + rest ==
               if keys == [] then "{}" + rest else "{" + (PrintMember(v, keys[0]) + (PrintMembers(v, keys[1..]) + rest))
  {
    hide Canonical, EscapeAll, IsNumber, SortedKeys, PrintMember, PrintMembers;
    SortedKeysSpec(v.fields.Keys);
    var keys := SortedKeys(v.fields.Keys);
    if keys != [] {
      assert Print(v) + rest == "{" + (PrintMember(v, keys[0]) + (PrintMembers(v, keys[1..]) + rest));
    }
  }

  lemma {:induction false} ParsePrintObject(v: Value, rest: string)
    requires v.Obj? && Printable(v) && WellFormed(v)
    ensures ParseValue(Print(v) + rest) == Some((Norm(v), rest))
    decreases v, 1
  {
    hide Canonical, ParseValue, ParseMember, ParseMembers, EscapeAll, IsNumber, SortedKeys, Norm, Print, PrintMember,
         PrintMembers, NormMembers, EndsNumber;
    SortedKeysSpec(v.fields.Keys);
    var keys := SortedKeys(v.fields.Keys);
    NormFields(v, keys);
    PrintObjectText(v, rest);
    if keys == [] {
      ParseEmptyObject(rest);
      assert NormMembers(v, keys) == [] by { NoMembers(v); }
    } else {
      var first, tail := PrintMember(v, keys[0]), PrintMembers(v, keys[1..]) + rest;
      MemberTexts(v, keys, rest);
      ParsePrintMember(v, keys[0], tail);
      ParsePrintMembers(v, keys[1..], rest);
      ParseObjectStep(first + tail, (keys[0], Norm(v.fields[keys[0]])), tail, NormMembers(v, keys[1..]), rest);
    }
  }

  lemma NoMembers(v: Value)
    requires v.Obj? && Printable(v)
    ensures NormMembers(v, []) == []
  {
    hide Norm;
  }

  lemma MemberTexts(v: Value, keys: seq<string>, rest: string)
    requires v.Obj? && Printable(v) && keys != [] && forall k | k in keys :: k in v.fields
    ensures (PrintMember(v, keys[0]) + (PrintMembers(v, keys[1..]) + rest))[..1] == "\""
    ensures EndsNumber(PrintMembers(v, keys[1..]) + rest)
    ensures NormMembers(v, keys) == [(keys[0], Norm(v.fields[keys[0]]))] + NormMembers(v, keys[1..])
  {
    hide Canonical, EscapeAll, IsNumber, Norm;
  }

  lemma {:induction false} ParsePrintMember(v: Value, key: string, rest: string)
    requires v.Obj? && Printable(v) && WellFormed(v) && key in v.fields && EndsNumber(rest)
    ensures ParseMember(PrintMember(v, key) + rest) == Some(((key, Norm(v.fields[key])), rest))
    decreases v, 0, 0
  {
    hide Canonical, Unquote, EscapeAll, ParseNumber, IsNumber;
    var s := PrintMember(v, key) + rest;
    SkipNothing(s);
    var after := ":" + (Print(v.fields[key]) + rest);
    assert s[1..] == EscapeAll(key) + "\"" + after;
    QuoteRoundTrip(key, after);
    SkipNothing(after);
    assert after[1..] == Print(v.fields[key]) + rest;
    ParsePrint(v.fields[key], rest);
  }

  lemma ParseMembersStep(s: string, member: (string, Value), rest: string, more: seq<(string, Value)>, after: string)
    requires ParseMember(s) == Some((member, rest)) && ParseMembers(rest) == Some((more, after))
    ensures ParseMembers("," + s) == Some(([member] + more, after))
  {
    hide ParseMember;
    SkipNothing("," + s);
    assert ("," + s)[1..] == s;
  }

  lemma ParseMembersEnd(rest: string)
    ensures ParseMembers("}" + rest) == Some(([], rest))
  {
    SkipNothing("}" + rest);
    assert ("}" + rest)[1..] == rest;
  }

  lemma {:induction false} ParsePrintMembers(v: Value, keys: seq<string>, rest: string)
    requires v.Obj? && Printable(v) && WellFormed(v) && forall k | k in keys :: k in v.fields
    ensures ParseMembers(PrintMembers(v, keys) + rest) == Some((NormMembers(v, keys), rest))
    decreases v, 0, |keys| + 1
  {
    hide Canonical, ParseMember, ParseMembers, EscapeAll, IsNumber, Norm;
    if keys == [] {
      ParseMembersEnd(rest);
      NoMembers(v);
      assert PrintMembers(v, keys) + rest == "}" + rest;
    } else {
      assert keys[0] in keys;
      var first, tail := PrintMember(v, keys[0]), PrintMembers(v, keys[1..]) + rest;
      assert PrintMembers(v, keys) + rest == "," + (first + tail);
      ParsePrintMember(v, keys[0], tail);
      ParsePrintMembers(v, keys[1..], rest);
      var head, more := (keys[0], Norm(v.fields[keys[0]])), NormMembers(v, keys[1..]);
      ParseMembersStep(first + tail, head, tail, more, rest);
      assert NormMembers(v, keys) == [head] + more;
    }
  }

  lemma {:induction false} FieldsOfMembers(v: Value, keys: seq<string>)
    requires v.Obj? && Printable(v) && forall k | k in keys :: k in v.fields
    ensures var f := Fields(NormMembers(v, keys));
            && (forall k :: k in f <==> k in keys)
            && (forall k | k in keys :: f[k] == Norm(v.fields[k]))
  {
    hide Norm;
    if keys != [] {
      var init, last := keys[..|keys| - 1], keys[|keys| - 1];
      FieldsOfMembers(v, init);
      var members := NormMembers(v, keys);
      assert members[..|members| - 1] == NormMembers(v, init);
      assert keys == init + [last];
    }
  }

  lemma NormFields(v: Value, keys: seq<string>)
    requires v.Obj? && Printable(v) && forall k :: k in keys <==> k in v.fields
    ensures Norm(v) == Obj(Fields(NormMembers(v, keys)))
  {
    FieldsOfMembers(v, keys);
    assert Norm(v).fields == Fields(NormMembers(v, keys));
  }

  // ---- Main results ---------------------------------------------------------

  lemma ParseOfPrint(v: Value)
    requires Printable(v) && WellFormed(v)
    ensures Parse(Print(v)) == Some(Norm(v))
  {
    ParsePrint(v, "");
    assert Print(v) + "" == Print(v);
  }

  /** Unique decodability: two documents are written alike exactly when they are the same JSON. */
  lemma PrintIffSame(v: Value, w: Value)
    requires WellFormed(v) && WellFormed(w) && Printable(v) && Printable(w)
    ensures Print(v) == Print(w) <==> SameJson(v, w)
  {
    ParseOfPrint(v);
    ParseOfPrint(w);
    NormIffSame(v, w);
    if Norm(v) == Norm(w) {
      PrintNorm(v);
      PrintNorm(w);
    }
  }

  lemma {:induction false} NormPrintable(v: Value)
    requires WellFormed(v) && Printable(v)
    ensures WellFormed(Norm(v)) && Printable(Norm(v)) && Norm(Norm(v)) == Norm(v)
  {
    hide Canonical, IsNumber;
    match v
    case Num(text) =>
      CanonicalKeepsValue(text);
      CanonicalIdempotent(text);
    case Arr(items) =>
      forall i | 0 <= i < |items|
        ensures WellFormed(Norm(items[i])) && Printable(Norm(items[i])) && Norm(Norm(items[i])) == Norm(items[i])
      {
        NormPrintable(items[i]);
      }
      assert Norm(Norm(v)).items == Norm(v).items;
    case Obj(fields) =>
      forall k | k in fields
        ensures WellFormed(Norm(fields[k])) && Printable(Norm(fields[k])) && Norm(Norm(fields[k])) == Norm(fields[k])
      {
        NormPrintable(fields[k]);
      }
      assert Norm(Norm(v)).fields == Norm(v).fields;
    case _ =>
  }

  /** The normal form is written exactly as the document itself. */
  lemma {:induction false} PrintNorm(v: Value)
    requires WellFormed(v) && Printable(v)
    ensures Printable(Norm(v)) && Print(Norm(v)) == Print(v)
    decreases v, 1
  {
    hide Canonical, IsNumber, EscapeAll, SortedKeys;
    NormPrintable(v);
    match v
    case Num(text) =>
      CanonicalIdempotent(text);
    case Arr(items) =>
      if items != [] {
        PrintNorm(items[0]);
        PrintTailNorm(v, 1);
      }
    case Obj(fields) =>
      assert Norm(v).fields.Keys == fields.Keys;
      SortedKeysSpec(fields.Keys);
      var keys := SortedKeys(fields.Keys);
      if keys != [] {
        PrintNorm(fields[keys[0]]);
        PrintMembersNorm(v, keys[1..]);
      }
    case _ =>
  }

  lemma {:induction false} PrintTailNorm(v: Value, i: nat)
    requires v.Arr? && WellFormed(v) && Printable(v) && i <= |v.items| && Printable(Norm(v))
    ensures PrintTail(Norm(v), i) == PrintTail(v, i)
    decreases v, 0, |v.items| - i
  {
    hide Canonical, IsNumber;
    if i < |v.items| {
      PrintNorm(v.items[i]);
      PrintTailNorm(v, i + 1);
    }
  }

  lemma {:induction false} PrintMembersNorm(v: Value, keys: seq<string>)
    requires v.Obj? && WellFormed(v) && Printable(v) && Printable(Norm(v)) && forall k | k in keys :: k in v.fields
    ensures PrintMembers(Norm(v), keys) == PrintMembers(v, keys)
    decreases v, 0, |keys|
  {
    hide Canonical, IsNumber, EscapeAll;
    if keys != [] {
      assert keys[0] in keys;
      PrintNorm(v.fields[keys[0]]);
      PrintMembersNorm(v, keys[1..]);
    }
  }

  /** Two accepted texts have the same canonical form exactly when they carry the same document. */
  lemma CanonicalizeIffSame(a: string, b: string)
    requires Canonicalize(a).Some? && Canonicalize(b).Some?
    ensures Parse(a).Some? && Parse(b).Some?
    ensures WellFormed(Parse(a).value) && WellFormed(Parse(b).value)
    ensures Canonicalize(a) == Canonicalize(b) <==> SameJson(Parse(a).value, Parse(b).value)
  {
    ParseWellFormed(a);
    ParseWellFormed(b);
    PrintIffSame(Parse(a).value, Parse(b).value);
  }

  /** Canonical text is accepted again and left unchanged. */
  lemma CanonicalizeIdempotent(raw: string)
    requires Canonicalize(raw).Some?
    ensures Canonicalize(Canonicalize(raw).value) == Canonicalize(raw)
  {
    ParseWellFormed(raw);
    var v := Parse(raw).value;
    ParseOfPrint(v);
    PrintNorm(v);
  }

  // ---- The written object ---------------------------------------------------------

  /** The members in the order of the keys, each a quoted key, a colon and a value, with commas between. */
  function MemberText(v: Value, keys: seq<string>): string
    requires v.Obj? && Printable(v) && forall k | k in keys :: k in v.fields
  {
    if keys == [] then ""
    else if |keys| == 1 then Quote(keys[0]) + ":" + Print(v.fields[keys[0]])
    else Quote(keys[0]) + ":" + Print(v.fields[keys[0]]) + "," + MemberText(v, keys[1..])
  }

  lemma {:induction false} MemberTextWritten(v: Value, keys: seq<string>)
    requires v.Obj? && Printable(v) && keys != [] && forall k | k in keys :: k in v.fields
    ensures PrintMember(v, keys[0]) + PrintMembers(v, keys[1..]) == MemberText(v, keys) + "}"
    decreases |keys|
  {
    hide Print, Quote;
    if |keys| > 1 {
      MemberTextWritten(v, keys[1..]);
      var head, rest := PrintMember(v, keys[0]), keys[1..];
      assert rest[0] in keys && PrintMember(v, keys[0]) == Quote(keys[0]) + ":" + Print(v.fields[keys[0]]);
      Regroup(head, ",", PrintMember(v, rest[0]), PrintMembers(v, rest[1..]));
      Regroup(head, ",", MemberText(v, rest), "}");
    }
  }

  lemma Regroup(a: string, b: string, c: string, d: string)
    ensures a + (b + c + d) == a + b + (c + d) == a + b + c + d
  {
  }

  /** The object is written with exactly these keys, in this order. */
  ghost predicate WrittenAs(v: Value, keys: seq<string>)
    requires v.Obj? && Printable(v)
  {
    (forall k :: k in keys <==> k in v.fields) && Print(v) == "{" + MemberText(v, keys) + "}"
  }

  lemma WrittenSorted(v: Value)
    requires v.Obj? && Printable(v)
    ensures WrittenAs(v, SortedKeys(v.fields.Keys))
  {
    hide Quote, PrintMember, PrintMembers, MemberText, SortedKeys, Print;
    var keys := SortedKeys(v.fields.Keys);
    SortedKeysSpec(v.fields.Keys);
    EmptyObject(v);
    if keys != [] {
      assert forall k | k in keys[1..] :: k in keys;
      MemberTextWritten(v, keys);
      PrintedObject(v, keys);
      Group("{", PrintMember(v, keys[0]), PrintMembers(v, keys[1..]));
      Group("{", MemberText(v, keys), "}");
    }
  }

  /** Every object is written with each of its members once, and each key stands before every later one by code
      point: it is a proper prefix of it, or smaller at the first difference. */
  lemma ObjectInKeyOrder(v: Value)
    requires v.Obj? && Printable(v)
    ensures exists keys: seq<string> :: WrittenAs(v, keys) && ByCodePoint(keys)
  {
    hide WrittenAs, ByCodePoint, SortedKeys;
    WrittenSorted(v);
    SortedByCodePoint(v.fields.Keys);
  }

  lemma Group(a: string, b: string, c: string)
    ensures a + b + c == a + (b + c)
  {
  }

  lemma EmptyObject(v: Value)
    requires v.Obj? && Printable(v)
    ensures MemberText(v, []) == "" && (SortedKeys(v.fields.Keys) == [] ==> Print(v) == "{" + "" + "}")
  {
  }

  lemma PrintedObject(v: Value, keys: seq<string>)
    requires v.Obj? && Printable(v) && keys == SortedKeys(v.fields.Keys) && keys != []
    requires forall k | k in keys :: k in v.fields
    ensures Print(v) == "{" + PrintMember(v, keys[0]) + PrintMembers(v, keys[1..])
  {
    hide SortedKeys, PrintMember, PrintMembers;
  }
}
