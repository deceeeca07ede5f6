/** `writeValue` of core/encoding: the recursive procedure that appends to a buffer. */
module JsonWriter {
  import opened Options
  import opened CanonicalNumber
  import opened JsonString
  import opened KeyOrder
  import opened CanonicalJson

  /** The buffer after writing `v` behind `out`, or an error when some number cannot be written.
      The result does not depend on the order in which the map's keys are visited. */
  method WriteValue(out: string, v: Value) returns (r: Option<string>)
    ensures r == if Printable(v) then Some(out + Print(v)) else None
    decreases v, 1
  {
    match v {
      case Null => r := Some(out + "null");
      case Bool(b) => r := Some(out + if b then "true" else "false");
      case Str(s) => r := Some(out + Quote(s));
      case Num(text) =>
        var number := CanonicalNumber.CanonicalNumber(text);
        r := if number.None? then None else Some(out + number.value);
      case Arr(items) => r := WriteItems(out, v);
      case Obj(fields) => r := WriteMembers(out, v);
    }
  }

  method WriteItems(out: string, v: Value) returns (r: Option<string>)
    requires v.Arr?
    ensures r == if Printable(v) then Some(out + Print(v)) else None
    decreases v, 0
  {
    hide Canonical, Quote;
    var buffer := out + "[";
    for i := 0 to |v.items|
      invariant forall k | 0 <= k < i :: Printable(v.items[k])
      invariant i == 0 ==> buffer == out + "["
      invariant i > 0 && Printable(v) ==> buffer + PrintTail(v, i) == out + Print(v)
    {
      var before := buffer;
      if i > 0 {
        buffer := buffer + ",";
      }
      var written := WriteValue(buffer, v.items[i]);
      if written.None? {
        return None;
      }
      if Printable(v) {
        var item, tail := Print(v.items[i]), PrintTail(v, i + 1);
        assert buffer + item + tail == buffer + (item + tail);
        if i > 0 {
          assert PrintTail(v, i) == "," + item + tail;
          assert before + ("," + item + tail) == before + "," + item + tail;
        } else {
          assert out + "[" + item + tail == out + ("[" + item + tail);
        }
      }
      buffer := written.value;
    }
    assert out + "[" + "]" == out + "[]";
    return Some(buffer + "]");
  }

  method CollectKeys(fields: map<string, Value>) returns (keys: seq<string>)
    ensures Sort(keys) == SortedKeys(fields.Keys)
  {
    keys := [];
    var rest := fields.Keys;
    while rest != {}
      invariant Distinct(keys)
      invariant forall k :: k in keys <==> k in fields.Keys - rest
      invariant rest <= fields.Keys
      decreases rest
    {
      var k :| k in rest;
      forall i | 0 <= i < |keys| ensures keys[i] != k {
        assert keys[i] in keys;
      }
      keys := keys + [k];
      rest := rest - {k};
    }
    SortIsSortedKeys(keys, fields.Keys);
  }

  method WriteMembers(out: string, v: Value) returns (r: Option<string>)
    requires v.Obj?
    ensures r == if Printable(v) then Some(out + Print(v)) else None
    decreases v, 0
  {
    hide Canonical, Quote, SortedKeys;
    var collected := CollectKeys(v.fields);
    var keys := Sort(collected);
    SortedKeysSpec(v.fields.Keys);
    var buffer := out + "{";
    for i := 0 to |keys|
      invariant forall j | 0 <= j < i :: Printable(v.fields[keys[j]])
      invariant i == 0 ==> buffer == out + "{"
      invariant i > 0 && Printable(v) ==> buffer + PrintMembers(v, keys[i..]) == out + Print(v)
    {
      var before := buffer;
      if i > 0 {
        buffer := buffer + ",";
      }
      var written := WriteValue(buffer + Quote(keys[i]) + ":", v.fields[keys[i]]);
      if written.None? {
        return None;
      }
      if Printable(v) {
        MemberWritten(v, keys, i, out, before, buffer);
      }
      buffer := written.value;
    }
    forall k | k in v.fields ensures Printable(v.fields[k]) {
      assert k in keys;
    }
    assert out + "{" + "}" == out + "{}";
    return Some(buffer + "}");
  }

  lemma MemberWritten(v: Value, keys: seq<string>, i: nat, out: string, before: string, buffer: string)
    requires v.Obj? && Printable(v) && i < |keys| && keys == SortedKeys(v.fields.Keys)
    requires forall k :: k in keys <==> k in v.fields
    requires if i == 0 then before == out + "{" && buffer == before
             else before + PrintMembers(v, keys[i..]) == out + Print(v) && buffer == before + ","
    ensures buffer + Quote(keys[i]) + ":" + Print(v.fields[keys[i]]) + PrintMembers(v, keys[i + 1..]) == out + Print(v)
  {
    hide Canonical, Quote, SortedKeys;
    var q, item, tail := Quote(keys[i]), Print(v.fields[keys[i]]), PrintMembers(v, keys[i + 1..]);
    assert buffer + q + ":" + item + tail == buffer + (q + ":" + item + tail);
    if i > 0 {
      assert keys[i..][1..] == keys[i + 1..];
      assert before + ("," + (q + ":" + item) + tail) == before + "," + (q + ":" + item + tail);
    } else {
      assert out + "{" + (q + ":" + item + tail) == out + ("{" + (q + ":" + item) + tail);
    }
  }
}
