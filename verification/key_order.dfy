/** The key order of canonical objects: lexicographic by code point, which is the byte order of UTF-8. */
module KeyOrder {

  predicate Less(a: string, b: string) {
    if b == "" then false
    else if a == "" then true
    else if a[0] != b[0] then a[0] < b[0]
    else Less(a[1..], b[1..])
  }

  lemma {:induction false} LessTrichotomy(a: string, b: string)
    ensures Less(a, b) || a == b || Less(b, a)
    ensures !(Less(a, b) && Less(b, a)) && !Less(a, a)
  {
    if a != "" && b != "" {
      LessTrichotomy(a[1..], b[1..]);
      assert a == [a[0]] + a[1..] && b == [b[0]] + b[1..];
    }
    if a != "" {
      LessTrichotomy(a[1..], a[1..]);
    }
  }

  lemma {:induction false} LessTransitive(a: string, b: string, c: string)
    requires Less(a, b) && Less(b, c)
    ensures Less(a, c)
  {
    if a != "" && a[0] == b[0] && b[0] == c[0] {
      LessTransitive(a[1..], b[1..], c[1..]);
    }
  }

  /** The two agree on the first `n` characters. */
  predicate AgreeTo(a: string, b: string, n: nat) {
    n <= |a| && n <= |b| && a[..n] == b[..n]
  }

  /** Up to their first difference the two agree, and there `a` ends or has the smaller code point. */
  predicate DiffersBelow(a: string, b: string, n: nat) {
    AgreeTo(a, b, n) && n < |b| && (n == |a| || a[n] as int < b[n] as int)
  }

  ghost predicate Below(a: string, b: string) {
    exists n: nat :: DiffersBelow(a, b, n)
  }

  lemma AgreeFirst(a: string, b: string, n: nat)
    ensures AgreeTo(a, b, n) && n > 0 ==> a != "" && b != "" && a[0] == b[0]
  {
    if AgreeTo(a, b, n) && n > 0 {
      assert a[0] == a[..n][0] && b[0] == b[..n][0];
    }
  }

  /** The order by code point: `a` is a proper prefix of `b`, or smaller at the first difference. */
  lemma {:induction false} LessIffBelow(a: string, b: string)
    ensures Less(a, b) <==> Below(a, b)
  {
    if a == "" || b == "" || a[0] != b[0] {
      assert DiffersBelow(a, b, 0) <==> Less(a, b);
      forall n: nat ensures DiffersBelow(a, b, n) ==> n == 0 {
        AgreeFirst(a, b, n);
      }
    } else {
      LessIffBelow(a[1..], b[1..]);
      if n: nat :| DiffersBelow(a[1..], b[1..], n) {
        assert a[..n + 1] == [a[0]] + a[1..][..n] && b[..n + 1] == [b[0]] + b[1..][..n];
        assert DiffersBelow(a, b, n + 1);
      }
      if n: nat :| DiffersBelow(a, b, n) {
        assert n > 0;
        assert a[1..][..n - 1] == a[..n][1..] && b[1..][..n - 1] == b[..n][1..];
        assert DiffersBelow(a[1..], b[1..], n - 1);
      }
    }
  }

  predicate Ascending(keys: seq<string>) {
    forall i, j | 0 <= i < j < |keys| :: Less(keys[i], keys[j])
  }

  predicate Distinct(keys: seq<string>) {
    forall i, j | 0 <= i < j < |keys| :: keys[i] != keys[j]
  }

  // ---- sort.Strings ---------------------------------------------------------

  /** `key` placed in front of the first element that is not below it. */
  function Insert(key: string, sorted: seq<string>): seq<string> {
    if sorted == [] || Less(key, sorted[0]) then [key] + sorted
    else [sorted[0]] + Insert(key, sorted[1..])
  }

  function Sort(keys: seq<string>): seq<string> {
    if keys == [] then [] else Insert(keys[0], Sort(keys[1..]))
  }

  lemma {:induction false} InsertMembers(key: string, sorted: seq<string>)
    ensures forall k :: k in Insert(key, sorted) <==> k == key || k in sorted
  {
    if sorted != [] {
      InsertMembers(key, sorted[1..]);
      assert sorted == [sorted[0]] + sorted[1..];
    }
  }

  lemma {:induction false} InsertAscending(key: string, sorted: seq<string>)
    requires Ascending(sorted) && key !in sorted
    ensures Ascending(Insert(key, sorted))
  {
    if sorted != [] {
      LessTrichotomy(key, sorted[0]);
      if Less(key, sorted[0]) {
        forall j | 0 < j < |sorted| ensures Less(key, sorted[j]) {
          LessTransitive(key, sorted[0], sorted[j]);
        }
      } else {
        InsertAscending(key, sorted[1..]);
        InsertMembers(key, sorted[1..]);
        forall k | k in Insert(key, sorted[1..]) ensures Less(sorted[0], k) {
        }
      }
    }
  }

  lemma {:induction false} SortSpec(keys: seq<string>)
    requires Distinct(keys)
    ensures Ascending(Sort(keys))
    ensures forall k :: k in Sort(keys) <==> k in keys
  {
    if keys != [] {
      SortSpec(keys[1..]);
      InsertMembers(keys[0], Sort(keys[1..]));
      InsertAscending(keys[0], Sort(keys[1..]));
      assert keys == [keys[0]] + keys[1..];
    }
  }

  /** An ascending sequence is determined by its members, so sorting forgets the iteration order. */
  lemma {:induction false} AscendingUnique(a: seq<string>, b: seq<string>)
    requires Ascending(a) && Ascending(b)
    requires forall k :: k in a <==> k in b
    ensures a == b
  {
    if a != [] {
      assert a[0] in a;
    }
    if b != [] {
      assert b[0] in b;
    }
    if a != [] && b != [] {
      HeadsAgree(a, b);
      forall k ensures k in a[1..] <==> k in b[1..] {
        TailMembers(a, k);
        TailMembers(b, k);
      }
      AscendingUnique(a[1..], b[1..]);
      assert a == [a[0]] + a[1..] && b == [b[0]] + b[1..];
    }
  }

  lemma HeadsAgree(a: seq<string>, b: seq<string>)
    requires Ascending(a) && Ascending(b) && a != [] && b != []
    requires a[0] in b && b[0] in a
    ensures a[0] == b[0]
  {
    if a[0] != b[0] {
      var i :| 0 <= i < |b| && b[i] == a[0];
      var j :| 0 <= j < |a| && a[j] == b[0];
      assert Less(b[0], b[i]) && Less(a[0], a[j]);
      LessTrichotomy(a[0], b[0]);
    }
  }

  lemma TailMembers(a: seq<string>, k: string)
    requires Ascending(a) && a != []
    ensures k in a[1..] <==> k in a && k != a[0]
  {
    LessTrichotomy(a[0], a[0]);
    assert a == [a[0]] + a[1..];
    forall i | 0 <= i < |a[1..]| ensures a[1..][i] != a[0] {
      assert Less(a[0], a[i + 1]);
    }
  }

  // ---- The sorted keys of a set ---------------------------------------------

  predicate IsLeast(k: string, keys: set<string>) {
    k in keys && forall j | j in keys :: j == k || Less(k, j)
  }

  lemma {:induction false} LeastExists(keys: set<string>)
    requires keys != {}
    ensures exists k :: IsLeast(k, keys)
  {
    var x :| x in keys;
    var rest := keys - {x};
    if rest == {} {
      assert keys == {x};
      assert IsLeast(x, keys);
    } else {
      LeastExists(rest);
      var y :| IsLeast(y, rest);
      LessTrichotomy(x, y);
      if Less(x, y) {
        forall j | j in keys ensures j == x || Less(x, j) {
          if j != x && j != y {
            LessTransitive(x, y, j);
          }
        }
        assert IsLeast(x, keys);
      } else {
        assert IsLeast(y, keys);
      }
    }
  }

  lemma LeastUnique(keys: set<string>)
    ensures forall a, b | IsLeast(a, keys) && IsLeast(b, keys) :: a == b
  {
    forall a, b | IsLeast(a, keys) && IsLeast(b, keys) ensures a == b {
      LessTrichotomy(a, b);
    }
  }

  function Least(keys: set<string>): (k: string)
    requires keys != {}
    ensures IsLeast(k, keys)
  {
    LeastExists(keys);
    LeastUnique(keys);
    var k :| k in keys && IsLeast(k, keys);
    k
  }

  /** The keys in ascending order. */
  function SortedKeys(keys: set<string>): seq<string> {
    if keys == {} then []
    else
      var k := Least(keys);
      [k] + SortedKeys(keys - {k})
  }

  lemma {:induction false} SortedKeysSpec(keys: set<string>)
    ensures Ascending(SortedKeys(keys))
    ensures forall k :: k in SortedKeys(keys) <==> k in keys
  {
    if keys != {} {
      var k := Least(keys);
      SortedKeysSpec(keys - {k});
      forall j | j in SortedKeys(keys - {k}) ensures Less(k, j) {
      }
    }
  }

  /** Each key stands before every later one by code point. */
  ghost predicate ByCodePoint(keys: seq<string>) {
    forall i, j | 0 <= i < j < |keys| :: Below(keys[i], keys[j])
  }

  lemma SortedByCodePoint(keys: set<string>)
    ensures ByCodePoint(SortedKeys(keys))
  {
    hide SortedKeys, Less, Below;
    SortedKeysSpec(keys);
    var sorted := SortedKeys(keys);
    forall i, j | 0 <= i < j < |sorted| ensures Below(sorted[i], sorted[j]) {
      LessIffBelow(sorted[i], sorted[j]);
    }
  }

  /** Sorting any duplicate-free enumeration of the keys gives the same sequence. */
  lemma SortIsSortedKeys(enumeration: seq<string>, keys: set<string>)
    requires forall k :: k in enumeration <==> k in keys
    requires Distinct(enumeration)
    ensures Sort(enumeration) == SortedKeys(keys) && ByCodePoint(Sort(enumeration))
  {
    hide ByCodePoint;
    SortedByCodePoint(keys);
    SortSpec(enumeration);
    SortedKeysSpec(keys);
    AscendingUnique(Sort(enumeration), SortedKeys(keys));
  }
}
