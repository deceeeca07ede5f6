/** Objects with a fixed list of member names, some of which may be left out. */
module JsonObject {
  import opened Options
  import opened KeyOrder
  import opened CanonicalJson
  import opened CanonicalJsonProofs

  type Members = seq<Option<Value>>

  /** The object whose member `names[i]` is `values[i]`, absent when that is None. */
  function Build(names: seq<string>, values: Members): map<string, Value>
    requires |names| == |values|
  {
    if names == [] then map[]
    else
      var rest := Build(names[1..], values[1..]);
      if values[0].Some? then rest[names[0] := values[0].value] else rest
  }

  lemma {:induction false} BuildSpec(names: seq<string>, values: Members)
    requires |names| == |values| && Distinct(names)
    ensures forall k | k in Build(names, values) :: k in names
    ensures forall i | 0 <= i < |names| :: names[i] in Build(names, values) <==> values[i].Some?
    ensures forall i | 0 <= i < |names| && values[i].Some? :: Build(names, values)[names[i]] == values[i].value
  {
    if names != [] {
      BuildSpec(names[1..], values[1..]);
      assert forall i | 0 < i < |names| :: names[i] == names[1..][i - 1] && values[i] == values[1..][i - 1];
      assert names == [names[0]] + names[1..];
      assert names[0] !in names[1..];
    }
  }

  lemma BuildWellFormed(names: seq<string>, values: Members)
    requires |names| == |values| && Distinct(names)
    requires forall i | 0 <= i < |values| && values[i].Some? :: WellFormed(values[i].value)
    ensures WellFormed(Obj(Build(names, values)))
  {
    hide Build;
    BuildSpec(names, values);
    var f := Build(names, values);
    forall k | k in f ensures WellFormed(f[k]) {
      var i :| 0 <= i < |names| && names[i] == k;
      assert f[names[i]] == values[i].value;
    }
  }

  lemma BuildPrintable(names: seq<string>, values: Members)
    requires |names| == |values| && Distinct(names)
    ensures Printable(Obj(Build(names, values))) <==>
            forall i | 0 <= i < |values| && values[i].Some? :: Printable(values[i].value)
  {
    hide Build;
    BuildSpec(names, values);
    var f := Build(names, values);
    if forall i | 0 <= i < |values| && values[i].Some? :: Printable(values[i].value) {
      forall k | k in f ensures Printable(f[k]) {
        var i :| 0 <= i < |names| && names[i] == k;
        assert f[names[i]] == values[i].value;
      }
    }
    if Printable(Obj(f)) {
      forall i | 0 <= i < |values| && values[i].Some? ensures Printable(values[i].value) {
        assert f[names[i]] == values[i].value;
      }
    }
  }

  ghost predicate SameMember(a: Option<Value>, b: Option<Value>)
    requires a.Some? ==> WellFormed(a.value)
    requires b.Some? ==> WellFormed(b.value)
  {
    a.Some? == b.Some? && (a.Some? ==> SameJson(a.value, b.value))
  }

  ghost predicate WellFormedMembers(values: Members) {
    forall i | 0 <= i < |values| :: values[i].Some? ==> WellFormed(values[i].value)
  }

  lemma SameBuild(names: seq<string>, a: Members, b: Members)
    requires |names| == |a| == |b| && Distinct(names)
    requires WellFormedMembers(a) && WellFormedMembers(b)
    ensures WellFormed(Obj(Build(names, a))) && WellFormed(Obj(Build(names, b)))
    ensures SameJson(Obj(Build(names, a)), Obj(Build(names, b))) <==>
            forall i | 0 <= i < |names| :: SameMember(a[i], b[i])
  {
    hide Build;
    BuildWellFormed(names, a);
    BuildWellFormed(names, b);
    BuildSpec(names, a);
    BuildSpec(names, b);
    var f, g := Build(names, a), Build(names, b);
    if SameJson(Obj(f), Obj(g)) {
      forall i | 0 <= i < |names| ensures SameMember(a[i], b[i]) {
        assert names[i] in f <==> names[i] in g;
        if names[i] in f {
          assert SameJson(f[names[i]], g[names[i]]);
        }
      }
    }
    if forall i | 0 <= i < |names| :: SameMember(a[i], b[i]) {
      forall k ensures k in f <==> k in g {
        if k in names {
          var i :| 0 <= i < |names| && names[i] == k;
          assert SameMember(a[i], b[i]);
        }
      }
      forall k | k in f ensures SameJson(f[k], g[k]) {
        var i :| 0 <= i < |names| && names[i] == k;
        assert SameMember(a[i], b[i]);
        assert f[names[i]] == a[i].value && g[names[i]] == b[i].value;
      }
      assert f.Keys == g.Keys;
    }
  }
}
