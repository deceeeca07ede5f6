/** Menu authorization: normal forms of menu lists and the permission test. */
module AuthMenus {
  const ALL_MENUS: seq<string> := [
    "workbench", "delivery", "humanQA", "chats", "diffs", "testing", "repositories", "agents", "mcp", "skills",
    "automations", "integrations", "artifacts", "runners", "cost", "admin"]

  const LEGACY_MENUS: seq<string> := ["requirements", "bugs", "designReview", "executions"]

  const DELIVERY := 1

  predicate IsMenu(value: string) {
    value in ALL_MENUS
  }

  /** The current name of a menu; blank for an unknown one. */
  function CanonicalMenu(value: string): string {
    if value in LEGACY_MENUS then ALL_MENUS[DELIVERY] else if IsMenu(value) then value else ""
  }

  predicate Selects(menus: seq<string>, menu: string) {
    exists i | 0 <= i < |menus| :: CanonicalMenu(menus[i]) == menu
  }

  /** The members of `all` that `menus` selects, in the order of `all`. */
  function Selected(all: seq<string>, menus: seq<string>): seq<string> {
    if all == [] then []
    else
      var init := Selected(all[..|all| - 1], menus);
      if Selects(menus, all[|all| - 1]) then init + [all[|all| - 1]] else init
  }

  function NormalizeMenus(role: string, menus: seq<string>): seq<string> {
    if role == "admin" then ALL_MENUS else Selected(ALL_MENUS, menus)
  }

  predicate Can(role: string, menus: seq<string>, menu: string) {
    role == "admin" || Selects(menus, CanonicalMenu(menu))
  }

  // ---- The loops --------------------------------------------------------------------

  method Normalize(role: string, menus: seq<string>) returns (r: seq<string>)
    ensures r == NormalizeMenus(role, menus)
  {
    if role == "admin" {
      return ALL_MENUS;
    }
    MenusDistinct();
    r := Select(ALL_MENUS, menus);
  }

  method Select(all: seq<string>, menus: seq<string>) returns (r: seq<string>)
    requires AllDistinct(all)
    ensures r == Selected(all, menus)
  {
    hide CanonicalMenu;
    var seen: set<string> := {};
    r := [];
    for i := 0 to |all|
      invariant r == Selected(all[..i], menus)
      invariant forall k | i <= k < |all| :: all[k] !in seen
    {
      var menu := all[i];
      ghost var before := r;
      for j := 0 to |menus|
        invariant menu in seen <==> exists k | 0 <= k < j :: CanonicalMenu(menus[k]) == menu
        invariant r == if menu in seen then before + [menu] else before
        invariant forall k | i < k < |all| :: all[k] !in seen
      {
        if CanonicalMenu(menus[j]) == menu && menu !in seen {
          seen := seen + {menu};
          r := r + [menu];
        }
      }
      assert all[..i + 1][..i] == all[..i];
    }
    assert all[..|all|] == all;
  }

  method Allows(role: string, menus: seq<string>, menu: string) returns (r: bool)
    ensures r <==> Can(role, menus, menu)
  {
    hide CanonicalMenu, Selects;
    if role == "admin" {
      return true;
    }
    r := Contains(menus, CanonicalMenu(menu));
  }

  method Contains(menus: seq<string>, wanted: string) returns (r: bool)
    ensures r <==> Selects(menus, wanted)
  {
    hide CanonicalMenu;
    for i := 0 to |menus|
      invariant forall k | 0 <= k < i :: CanonicalMenu(menus[k]) != wanted
    {
      if CanonicalMenu(menus[i]) == wanted {
        return true;
      }
    }
    return false;
  }

  // ---- The names ---------------------------------------------------------------------

  /** Length and third letter tell all menu names apart, current and legacy. */
  function Tag(name: string): int
    requires |name| >= 3
  {
    1000 * |name| + name[2] as int
  }

  const TAGS: seq<int> := [9114, 8108, 7109, 5097, 5102, 7115, 12112, 6101, 3112, 6105, 11116, 12116, 9116, 7110, 4115, 5109]

  lemma MenuTags(i: nat)
    requires i < 16
    ensures |ALL_MENUS| == |TAGS| == 16 && |ALL_MENUS[i]| >= 3 && Tag(ALL_MENUS[i]) == TAGS[i]
  {
    if i < 8 { FirstTags(i); } else { LastTags(i); }
  }

  lemma FirstTags(i: nat)
    requires i < 8
    ensures |ALL_MENUS[i]| >= 3 && Tag(ALL_MENUS[i]) == TAGS[i]
  {
    assert ALL_MENUS[0][2] == 'r' && ALL_MENUS[1][2] == 'l' && ALL_MENUS[2][2] == 'm' && ALL_MENUS[3][2] == 'a';
    assert ALL_MENUS[4][2] == 'f' && ALL_MENUS[5][2] == 's' && ALL_MENUS[6][2] == 'p' && ALL_MENUS[7][2] == 'e';
  }

  lemma LastTags(i: nat)
    requires 8 <= i < 16
    ensures |ALL_MENUS[i]| >= 3 && Tag(ALL_MENUS[i]) == TAGS[i]
  {
    assert ALL_MENUS[8][2] == 'p' && ALL_MENUS[9][2] == 'i' && ALL_MENUS[10][2] == 't' && ALL_MENUS[11][2] == 't';
    assert ALL_MENUS[12][2] == 't' && ALL_MENUS[13][2] == 'n' && ALL_MENUS[14][2] == 's' && ALL_MENUS[15][2] == 'm';
  }

  lemma LegacyTags(i: nat)
    requires i < |LEGACY_MENUS|
    ensures |LEGACY_MENUS[i]| >= 3 && Tag(LEGACY_MENUS[i]) == [12113, 4103, 12115, 10101][i]
  {
    assert LEGACY_MENUS[0][2] == 'q' && LEGACY_MENUS[1][2] == 'g' && LEGACY_MENUS[2][2] == 's';
    assert LEGACY_MENUS[3][2] == 'e';
  }

  predicate AllDistinct(names: seq<string>) {
    forall i, j | 0 <= i < j < |names| :: names[i] != names[j]
  }

  lemma MenusDistinct()
    ensures AllDistinct(ALL_MENUS)
  {
    hide Tag;
    forall i, j | 0 <= i < j < |ALL_MENUS| ensures ALL_MENUS[i] != ALL_MENUS[j] {
      MenuTags(i);
      MenuTags(j);
      assert TAGS[i] != TAGS[j];
    }
  }

  lemma NotLegacy(i: nat)
    requires i < |ALL_MENUS|
    ensures ALL_MENUS[i] !in LEGACY_MENUS && ALL_MENUS[i] != ""
  {
    hide Tag;
    MenuTags(i);
    forall k | 0 <= k < |LEGACY_MENUS| ensures LEGACY_MENUS[k] != ALL_MENUS[i] {
      LegacyTags(k);
      assert TAGS[i] != [12113, 4103, 12115, 10101][k];
    }
  }

  lemma CanonicalMenus(i: nat)
    requires i < |ALL_MENUS|
    ensures CanonicalMenu(ALL_MENUS[i]) == ALL_MENUS[i] && ALL_MENUS[i] != ""
  {
    NotLegacy(i);
  }

  lemma CanonicalIsMenu(value: string)
    ensures CanonicalMenu(value) == "" || CanonicalMenu(value) in ALL_MENUS
  {
    assert ALL_MENUS[DELIVERY] in ALL_MENUS;
  }

  // ---- Normal forms --------------------------------------------------------------------

  predicate Subsequence(part: seq<string>, whole: seq<string>) {
    if part == [] then true
    else if whole == [] then false
    else if part[|part| - 1] == whole[|whole| - 1] then Subsequence(part[..|part| - 1], whole[..|whole| - 1])
    else Subsequence(part, whole[..|whole| - 1])
  }

  lemma {:induction false} SelectedMembers(all: seq<string>, menus: seq<string>, menu: string)
    ensures menu in Selected(all, menus) <==> menu in all && Selects(menus, menu)
  {
    hide Selects;
    if all != [] {
      SelectedMembers(all[..|all| - 1], menus, menu);
      assert menu in all <==> menu in all[..|all| - 1] || menu == all[|all| - 1];
    }
  }

  lemma {:induction false} SelectedSubsequence(all: seq<string>, menus: seq<string>)
    requires AllDistinct(all)
    ensures Subsequence(Selected(all, menus), all) && AllDistinct(Selected(all, menus))
  {
    hide Selects;
    if all != [] {
      var init := all[..|all| - 1];
      SelectedSubsequence(init, menus);
      SelectedMembers(init, menus, all[|all| - 1]);
      var part := Selected(init, menus);
      assert (part + [all[|all| - 1]])[..|part|] == part;
      SkipLast(part, init, all[|all| - 1]);
      assert all == init + [all[|all| - 1]];
    }
  }

  /** A subsequence of a list is one of any longer list whose new last element it lacks. */
  lemma SkipLast(part: seq<string>, whole: seq<string>, last: string)
    requires Subsequence(part, whole) && last !in part
    ensures Subsequence(part, whole + [last])
  {
    assert (whole + [last])[..|whole|] == whole;
  }

  lemma {:induction false} SelectedSame(all: seq<string>, a: seq<string>, b: seq<string>)
    requires forall i | 0 <= i < |all| :: Selects(a, all[i]) == Selects(b, all[i])
    ensures Selected(all, a) == Selected(all, b)
  {
    hide Selects;
    if all != [] {
      SelectedSame(all[..|all| - 1], a, b);
    }
  }

  /** A normal form selects exactly the menus the list it came from selects. */
  lemma NormalSelects(menus: seq<string>, i: nat)
    requires i < |ALL_MENUS|
    ensures Selects(Selected(ALL_MENUS, menus), ALL_MENUS[i]) == Selects(menus, ALL_MENUS[i])
  {
    var normal := Selected(ALL_MENUS, menus);
    SelectedMembers(ALL_MENUS, menus, ALL_MENUS[i]);
    CanonicalMenus(i);
    if Selects(normal, ALL_MENUS[i]) {
      var k :| 0 <= k < |normal| && CanonicalMenu(normal[k]) == ALL_MENUS[i];
      SelectedMembers(ALL_MENUS, menus, normal[k]);
      NormalCanonical(menus, k);
    }
  }

  lemma NormalCanonical(menus: seq<string>, k: nat)
    requires k < |Selected(ALL_MENUS, menus)|
    ensures var m := Selected(ALL_MENUS, menus)[k]; m in ALL_MENUS && CanonicalMenu(m) == m && m != ""
  {
    var m := Selected(ALL_MENUS, menus)[k];
    SelectedMembers(ALL_MENUS, menus, m);
    var i :| 0 <= i < |ALL_MENUS| && ALL_MENUS[i] == m;
    CanonicalMenus(i);
  }

  /** Normalising twice is normalising once; the result is a duplicate-free subsequence of all menus. */
  lemma NormalForm(role: string, menus: seq<string>)
    ensures var r := NormalizeMenus(role, menus);
            NormalizeMenus(role, r) == r && AllDistinct(r) && Subsequence(r, ALL_MENUS)
  {
    hide Selected, Selects, Subsequence, ALL_MENUS;
    MenusDistinct();
    if role == "admin" {
      SubsequenceSelf(ALL_MENUS);
    } else {
      SelectedSubsequence(ALL_MENUS, menus);
      forall i | 0 <= i < |ALL_MENUS| ensures Selects(Selected(ALL_MENUS, menus), ALL_MENUS[i]) == Selects(menus, ALL_MENUS[i]) {
        NormalSelects(menus, i);
      }
      SelectedSame(ALL_MENUS, Selected(ALL_MENUS, menus), menus);
    }
  }

  lemma {:induction false} SubsequenceSelf(names: seq<string>)
    ensures Subsequence(names, names)
  {
    if names != [] {
      SubsequenceSelf(names[..|names| - 1]);
    }
  }

  /** Normalising changes no permission on a known or legacy menu, and afterwards nobody but an
      administrator has permission on an unknown one. */
  lemma NormalPermissions(role: string, menus: seq<string>, menu: string)
    ensures CanonicalMenu(menu) != "" ==> (Can(role, NormalizeMenus(role, menus), menu) <==> Can(role, menus, menu))
    ensures CanonicalMenu(menu) == "" && role != "admin" ==> !Can(role, NormalizeMenus(role, menus), menu)
  {
    hide Selected, ALL_MENUS, LEGACY_MENUS;
    var normal := Selected(ALL_MENUS, menus);
    if role != "admin" {
      CanonicalIsMenu(menu);
      if CanonicalMenu(menu) != "" {
        var i :| 0 <= i < |ALL_MENUS| && ALL_MENUS[i] == CanonicalMenu(menu);
        NormalSelects(menus, i);
      } else {
        forall k | 0 <= k < |normal| ensures CanonicalMenu(normal[k]) != "" {
          NormalCanonical(menus, k);
        }
      }
    }
  }
}
