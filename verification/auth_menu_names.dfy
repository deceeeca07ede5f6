/** Which menu names are the same, and which stored menu lists are brought into normal form when accounts are loaded. */
module AuthMenuNames {
  import opened AuthMenus
  import opened Auth

  // ---- Names --------------------------------------------------------------------------------------------

  /** The delivery menu has four older names. */
  predicate NamesDelivery(menu: string) {
    menu == "delivery" || menu == "requirements" || menu == "bugs" || menu == "designReview" || menu == "executions"
  }

  predicate NamesWork(menu: string) {
    || menu == "workbench" || menu == "humanQA" || menu == "chats" || menu == "diffs" || menu == "testing"
    || menu == "repositories" || menu == "agents"
  }

  predicate NamesTool(menu: string) {
    || menu == "mcp" || menu == "skills" || menu == "automations" || menu == "integrations" || menu == "artifacts"
    || menu == "runners" || menu == "cost" || menu == "admin"
  }

  predicate NamesOther(menu: string) {
    NamesWork(menu) || NamesTool(menu)
  }

  predicate SameMenu(a: string, b: string) {
    || (NamesDelivery(a) && NamesDelivery(b)) || (NamesOther(a) && a == b)
    || (!NamesDelivery(a) && !NamesOther(a) && !NamesDelivery(b) && !NamesOther(b))
  }

  lemma CurrentName(menu: string)
    ensures NamesDelivery(menu) ==> CanonicalMenu(menu) == "delivery"
    ensures NamesOther(menu) ==> CanonicalMenu(menu) == menu
    ensures !NamesDelivery(menu) && !NamesOther(menu) ==> CanonicalMenu(menu) == ""
  {
    assert LEGACY_MENUS[0] in LEGACY_MENUS && LEGACY_MENUS[1] in LEGACY_MENUS;
    assert LEGACY_MENUS[2] in LEGACY_MENUS && LEGACY_MENUS[3] in LEGACY_MENUS;
    OtherListed(menu);
    if i :| 0 <= i < |ALL_MENUS| && ALL_MENUS[i] == menu {
      CanonicalMenus(i);
    }
  }

  lemma OtherListed(menu: string)
    ensures NamesOther(menu) || menu == "delivery" <==> menu in ALL_MENUS
  {
    hide NamesWork, NamesTool, ALL_MENUS;
    if NamesWork(menu) || menu == "delivery" {
      WorkListed(menu);
    } else if NamesTool(menu) {
      ToolListed(menu);
    }
    if menu in ALL_MENUS {
      var i :| 0 <= i < |ALL_MENUS| && ALL_MENUS[i] == menu;
      if i < 8 {
        FirstNamed(i);
      } else {
        LastNamed(i);
      }
    }
  }

  lemma FirstNamed(i: nat)
    requires i < 8
    ensures NamesWork(ALL_MENUS[i]) || ALL_MENUS[i] == "delivery"
  {
  }

  lemma LastNamed(i: nat)
    requires 8 <= i < |ALL_MENUS|
    ensures NamesTool(ALL_MENUS[i])
  {
  }

  lemma WorkListed(menu: string)
    requires NamesWork(menu) || menu == "delivery"
    ensures menu in ALL_MENUS
  {
    var i := if menu == "workbench" then 0 else if menu == "delivery" then 1 else if menu == "humanQA" then 2
             else if menu == "chats" then 3 else if menu == "diffs" then 4 else if menu == "testing" then 5
             else if menu == "repositories" then 6 else 7;
    assert ALL_MENUS[i] == menu;
  }

  lemma ToolListed(menu: string)
    requires NamesTool(menu)
    ensures menu in ALL_MENUS
  {
    var i := if menu == "mcp" then 8 else if menu == "skills" then 9 else if menu == "automations" then 10
             else if menu == "integrations" then 11 else if menu == "artifacts" then 12 else if menu == "runners" then 13
             else if menu == "cost" then 14 else 15;
    assert ALL_MENUS[i] == menu;
  }

  /** Who may open a menu: administrators, and everyone whose list has the menu under any of its names. Names that are
      no menu's count as one and the same. */
  lemma CanIff(role: string, menus: seq<string>, menu: string)
    ensures Can(role, menus, menu) <==> role == "admin" || exists m :: m in menus && SameMenu(m, menu)
  {
    hide NamesDelivery, NamesOther, CanonicalMenu;
    forall m ensures CanonicalMenu(m) == CanonicalMenu(menu) <==> SameMenu(m, menu) {
      SameName(m, menu);
    }
    if Selects(menus, CanonicalMenu(menu)) {
      var i :| 0 <= i < |menus| && CanonicalMenu(menus[i]) == CanonicalMenu(menu);
      assert menus[i] in menus && SameMenu(menus[i], menu);
    }
  }

  lemma SameName(a: string, b: string)
    ensures CanonicalMenu(a) == CanonicalMenu(b) <==> SameMenu(a, b)
  {
    hide CanonicalMenu;
    CurrentName(a);
    CurrentName(b);
  }

  // ---- Loading --------------------------------------------------------------------------------------------

  function Nuls(s: string): nat {
    if s == "" then 0 else (if s[0] == '\0' then 1 else 0) + Nuls(s[1..])
  }

  function NulsIn(parts: seq<string>): nat {
    if parts == [] then 0 else Nuls(parts[0]) + NulsIn(parts[1..])
  }

  lemma {:induction false} NulsAppend(a: string, b: string)
    ensures Nuls(a + b) == Nuls(a) + Nuls(b)
  {
    if a == "" {
      assert a + b == b;
    } else {
      assert (a + b)[1..] == a[1..] + b;
      NulsAppend(a[1..], b);
    }
  }

  lemma {:induction false} NulsJoined(parts: seq<string>)
    requires parts != []
    ensures Nuls(Join(parts)) == NulsIn(parts) + |parts| - 1
  {
    if |parts| == 1 {
      assert parts[1..] == [];
    } else {
      NulsJoined(parts[1..]);
      NulsAppend(parts[0] + ['\0'], Join(parts[1..]));
      NulsAppend(parts[0], ['\0']);
      assert Nuls(['\0']) == 1;
    }
  }

  lemma {:induction false} FirstNul(a: string, x: string, b: string, y: string)
    requires Nuls(a) == 0 && Nuls(b) == 0 && a + ['\0'] + x == b + ['\0'] + y
    ensures a == b && x == y
  {
    var s, t := a + ['\0'] + x, b + ['\0'] + y;
    if a == "" || b == "" {
      assert s[0] == t[0];
      assert s[1..] == x || a != "";
      assert t[1..] == y || b != "";
    } else {
      assert a[0] == s[0] && b[0] == t[0];
      assert s[1..] == a[1..] + ['\0'] + x && t[1..] == b[1..] + ['\0'] + y;
      FirstNul(a[1..], x, b[1..], y);
      assert a == [a[0]] + a[1..] && b == [b[0]] + b[1..];
    }
  }

  lemma {:induction false} JoinUnique(a: seq<string>, b: seq<string>)
    requires a != [] && b != [] && NulsIn(a) == 0 && NulsIn(b) == 0 && Join(a) == Join(b)
    ensures a == b
  {
    NulsJoined(a);
    NulsJoined(b);
    if |a| > 1 {
      FirstNul(a[0], Join(a[1..]), b[0], Join(b[1..]));
      JoinUnique(a[1..], b[1..]);
      assert a == [a[0]] + a[1..] && b == [b[0]] + b[1..];
    }
  }

  lemma {:induction false} NoNuls(s: string)
    requires forall i | 0 <= i < |s| :: s[i] != '\0'
    ensures Nuls(s) == 0
  {
    if s != "" {
      NoNuls(s[1..]);
    }
  }

  lemma FirstPlain(i: nat)
    requires i < 8
    ensures forall k | 0 <= k < |ALL_MENUS[i]| :: ALL_MENUS[i][k] != '\0'
  {
  }

  lemma LastPlain(i: nat)
    requires 8 <= i < |ALL_MENUS|
    ensures forall k | 0 <= k < |ALL_MENUS[i]| :: ALL_MENUS[i][k] != '\0'
  {
  }

  lemma MenuWithoutNul(menu: string)
    requires menu in ALL_MENUS
    ensures Nuls(menu) == 0
  {
    hide ALL_MENUS, Nuls;
    var i :| 0 <= i < |ALL_MENUS| && ALL_MENUS[i] == menu;
    if i < 8 {
      FirstPlain(i);
    } else {
      LastPlain(i);
    }
    NoNuls(menu);
  }

  function CurrentNames(menus: seq<string>): set<string> {
    set i | 0 <= i < |menus| :: CanonicalMenu(menus[i])
  }

  lemma {:induction false} FewNames(menus: seq<string>)
    ensures |CurrentNames(menus)| <= |menus|
  {
    hide CanonicalMenu;
    if menus != [] {
      var init := menus[..|menus| - 1];
      FewNames(init);
      assert CurrentNames(menus) == CurrentNames(init) + {CanonicalMenu(menus[|menus| - 1])};
    } else {
      assert CurrentNames(menus) == {};
    }
  }

  lemma {:induction false} DistinctCount(names: seq<string>, all: set<string>)
    requires AllDistinct(names) && forall n | n in names :: n in all
    ensures |names| <= |all|
  {
    if names != [] {
      var init, last := names[..|names| - 1], names[|names| - 1];
      DistinctCount(init, all - {last});
    }
  }

  /** Normal form has no more names than the list it comes from. */
  lemma NormalNotLonger(menus: seq<string>)
    ensures |Selected(ALL_MENUS, menus)| <= |menus|
  {
    hide CanonicalMenu, ALL_MENUS;
    var normal := Selected(ALL_MENUS, menus);
    MenusDistinct();
    SelectedSubsequence(ALL_MENUS, menus);
    forall n | n in normal ensures n in CurrentNames(menus) {
      SelectedMembers(ALL_MENUS, menus, n);
    }
    DistinctCount(normal, CurrentNames(menus));
    FewNames(menus);
  }

  lemma {:induction false} NormalWithoutNuls(names: seq<string>)
    requires forall n | n in names :: n in ALL_MENUS
    ensures NulsIn(names) == 0
  {
    hide ALL_MENUS;
    if names != [] {
      MenuWithoutNul(names[0]);
      NormalWithoutNuls(names[1..]);
    }
  }

  /** Two lists that are joined to the same text, one of them the normal form of the other, are equal, unless the other
      is the one empty name. */
  lemma SameJoined(menus: seq<string>)
    requires Join(Selected(ALL_MENUS, menus)) == Join(menus)
    ensures menus == Selected(ALL_MENUS, menus) || menus == [""]
  {
    hide ALL_MENUS, Selected;
    var normal := Selected(ALL_MENUS, menus);
    forall n | n in normal ensures n in ALL_MENUS {
      SelectedMembers(ALL_MENUS, menus, n);
    }
    NormalWithoutNuls(normal);
    NormalNotLonger(menus);
    if menus != [] {
      NulsJoined(menus);
      if normal == [] {
        assert |menus| == 1 && Join(menus) == menus[0];
      } else {
        NulsJoined(normal);
        JoinUnique(menus, normal);
      }
    }
  }

  lemma EmptyName()
    ensures Selected(ALL_MENUS, [""]) == []
  {
    hide ALL_MENUS, CanonicalMenu;
    var normal := Selected(ALL_MENUS, [""]);
    CurrentName("");
    if normal != [] {
      NormalCanonical([""], 0);
      SelectedMembers(ALL_MENUS, [""], normal[0]);
    }
  }

  /** Loading brings the menus of every account that is no administrator's into normal form, with one exception: a list
      that holds one empty name, which is joined to the same text as its empty normal form, stays as it is. */
  lemma MigratedIff(u: User)
    requires u.role != "admin"
    ensures LoadUser(u).menus == NormalizeMenus(u.role, u.menus) <==> u.menus != [""]
    ensures LoadUser(u) == u.(menus := LoadUser(u).menus)
  {
    hide ALL_MENUS, Selected;
    EmptyName();
    if Join(Selected(ALL_MENUS, u.menus)) == Join(u.menus) {
      SameJoined(u.menus);
    }
  }

  /** Position `i` holds the last account of the file with this id. */
  predicate LastWith(disk: seq<User>, id: string, i: nat) {
    i < |disk| && disk[i].id == id && forall j | i < j < |disk| :: disk[j].id != id
  }

  /** A file loads if and only if every account in it has an id and a password hash; it gives the last account of each
      id it holds. */
  lemma {:induction false} LoadIff(disk: seq<User>, id: string)
    ensures Load(disk).Some? <==> forall i | 0 <= i < |disk| :: disk[i].id != "" && disk[i].phc != ""
    ensures Load(disk).Some? ==> (id in Load(disk).value <==> exists i: nat :: LastWith(disk, id, i))
    ensures Load(disk).Some? ==>
              forall i: nat | LastWith(disk, id, i) :: id in Load(disk).value && Load(disk).value[id] == LoadUser(disk[i])
  {
    hide LoadUser;
    if disk != [] {
      var init, last := disk[..|disk| - 1], |disk| - 1;
      LoadIff(init, id);
      if disk[last].id == id {
        assert LastWith(disk, id, last);
      } else {
        assert forall i: nat :: LastWith(disk, id, i) <==> LastWith(init, id, i);
      }
    }
  }
}
