/** What creating and updating an account does, and what every stored account looks like. */
module AuthAccounts {
  import opened Options
  import opened Text
  import opened AuthMenus
  import opened Auth
  import opened AuthProofs
  import opened AuthLogins

  // ---- What an account looks like ---------------------------------------------------------------------

  predicate NameChar(c: char) {
    c in "abcdefghijklmnopqrstuvwxyz0123456789._-"
  }

  /** A name of three to sixty-four lower-case letters, digits, dots, dashes and underscores, a display name of at
      most a hundred bytes, and one of three roles and two statuses. */
  predicate WellFormed(username: string, displayName: string, role: string, status: string) {
    && 3 <= |username| <= 64 && (forall i | 0 <= i < |username| :: NameChar(username[i]))
    && displayName != "" && ByteLength(displayName) <= 100
    && role in {"admin", "member", "viewer"} && status in {"active", "disabled"}
  }

  predicate MenusKnown(menus: seq<string>) {
    forall i | 0 <= i < |menus| :: CanonicalMenu(menus[i]) != ""
  }

  lemma NameChars(c: char)
    ensures NameChar(c) <==> UsernameChar(c)
  {
    var all := "abcdefghijklmnopqrstuvwxyz0123456789._-";
    assert all == "abcdefghijklmnopqrstuvwxyz" + "0123456789" + "._-";
    Letters(c);
    Digits(c);
    Marks(c);
  }

  lemma Letters(c: char)
    ensures c in "abcdefghijklmnopqrstuvwxyz" <==> 'a' <= c <= 'z'
  {
    var s := "abcdefghijklmnopqrstuvwxyz";
    assert forall i | 0 <= i < 26 :: s[i] as int == 'a' as int + i;
    if 'a' <= c <= 'z' {
      assert s[c as int - 'a' as int] == c;
    }
  }

  lemma Digits(c: char)
    ensures c in "0123456789" <==> '0' <= c <= '9'
  {
    var s := "0123456789";
    assert forall i | 0 <= i < 10 :: s[i] as int == '0' as int + i;
    if '0' <= c <= '9' {
      assert s[c as int - '0' as int] == c;
    }
  }

  lemma Marks(c: char)
    ensures c in "._-" <==> c == '.' || c == '_' || c == '-'
  {
    var s := "._-";
    assert s[0] == '.' && s[1] == '_' && s[2] == '-';
  }

  lemma {:induction false} PlainBytes(s: string)
    requires forall i | 0 <= i < |s| :: s[i] as int < 0x80
    ensures ByteLength(s) == |s|
  {
    if s != "" {
      PlainBytes(s[1..]);
    }
  }

  lemma ValidIff(username: string, displayName: string, role: string, status: string, menus: seq<string>)
    ensures ValidUser(username, displayName, role, status, menus) <==>
            WellFormed(username, displayName, role, status) && MenusKnown(menus)
  {
    hide NameChar, UsernameChar, CanonicalMenu, ByteLength;
    forall c: char ensures NameChar(c) == UsernameChar(c) && (NameChar(c) ==> c as int < 0x80) {
      NameChars(c);
      PlainName(c);
    }
    if forall i | 0 <= i < |username| :: NameChar(username[i]) {
      PlainBytes(username);
    }
  }

  lemma PlainName(c: char)
    ensures UsernameChar(c) ==> c as int < 0x80
  {
  }

  // ---- Creating --------------------------------------------------------------------------------------------

  /** The account a request asks for. */
  function Requested(env: Env, input: NewUser, id: string, phc: string, now: int): User {
    var role := env.lower(Trim(input.role));
    User(id, if input.workspace == "" then "local" else input.workspace, env.lower(Trim(input.username)),
         Trim(input.displayName), role, NormalizeMenus(role, input.menus),
         if input.status == "" then "active" else input.status, now, now, phc)
  }

  /** An account is created if and only if it is well formed, its menus are known, its password has at least ten bytes,
      its name is free and it can be saved; then exactly this account is added, and otherwise nothing changes. */
  lemma CreateIff(env: Env, s: State, input: NewUser, id: string, phc: string, now: int, persisted: bool)
    requires Inv(env, s) && id != "" && phc != "" && id !in s.users
    ensures var u := Requested(env, input, id, phc, now);
            var (t, r) := Step(env, s, Create(input, id, phc, now, persisted));
            && (r.Saved? <==>
                && WellFormed(u.username, u.displayName, u.role, u.status) && MenusKnown(input.menus)
                && ByteLength(input.password) >= 10 && persisted
                && forall other | other in s.users :: s.users[other].username != u.username)
            && (r.Saved? ==> r.user == u.(phc := "") && t.users == s.users[id := u] && t.sessions == s.sessions)
            && (!r.Saved? ==> t == s)
            && (r == Refused(UsernameTaken) ==> exists other :: other in s.users && s.users[other].username == u.username)
  {
    hide ValidUser, WellFormed, MenusKnown, Listing, NormalizeMenus, ByteLength, UsersInv;
    var u := Requested(env, input, id, phc, now);
    ValidIff(u.username, u.displayName, u.role, u.status, input.menus);
  }

  /** Whoever was given an active account can log in with its password. */
  lemma CreateThenLogin(env: Env, s: State, input: NewUser, id: string, phc: string, now: int, token: string, later: int)
    requires Inv(env, s) && Injective(env.hashToken) && id != "" && phc != "" && id !in s.users && token !in s.issued
    requires Step(env, s, Create(input, id, phc, now, true)).1.Saved? && env.verify(phc, input.password)
    requires input.status == "" || input.status == "active"
    requires !LockedOut(s, env.lower(Trim(input.username)), later)
    ensures var t := Step(env, s, Create(input, id, phc, now, true)).0;
            var r := Step(env, t, Login(input.username, input.password, token, later)).1;
            r.LoggedIn? && r.user.id == id
  {
    hide Step, Inv, WellFormed, MenusKnown, NormalizeMenus, ByteLength;
    CreateIff(env, s, input, id, phc, now, true);
    CreateRest(env, s, input, id, phc, now);
    var t := Step(env, s, Create(input, id, phc, now, true)).0;
    StepKeepsInv(env, s, Create(input, id, phc, now, true));
    LoginIff(env, t, input.username, input.password, token, later);
    var name := env.lower(Trim(input.username));
    assert Opens(env, t, id, name, input.password);
    OneAccount(env, t, id, name);
  }

  lemma OneAccount(env: Env, s: State, id: string, name: string)
    requires Inv(env, s) && id in s.users && s.users[id].username == name
    ensures forall other | other in s.users && s.users[other].username == name :: s.users[other].id == id
  {
    hide Listing;
    assert UserInv(id, s.users[id]);
  }

  lemma CreateRest(env: Env, s: State, input: NewUser, id: string, phc: string, now: int)
    ensures var t := Step(env, s, Create(input, id, phc, now, true)).0; t.failures == s.failures && t.issued == s.issued
  {
    hide ValidUser, Listing, NormalizeMenus, ByteLength;
  }

  // ---- Updating ----------------------------------------------------------------------------------------------

  /** A blank field of a patch leaves the account's as it is. */
  predicate Sets(after: string, before: string, given: string, value: string) {
    after == if Blank(given) then before else value
  }

  /** The account after the patch: what the patch names is replaced, everything else stays, and the menus are those
      of the role the account then has. */
  predicate PatchedBy(env: Env, u: User, v: User, patch: Patch, phc: string, now: int) {
    && v.id == u.id && v.username == u.username && v.workspace == u.workspace && v.createdAt == u.createdAt
    && v.updatedAt == now && v.phc == (if patch.password == "" then u.phc else phc)
    && Sets(v.displayName, u.displayName, patch.displayName, Trim(patch.displayName))
    && Sets(v.role, u.role, patch.role, env.lower(Trim(patch.role)))
    && Sets(v.status, u.status, patch.status, env.lower(Trim(patch.status)))
    && v.menus == NormalizeMenus(v.role, if patch.menus.Some? then patch.menus.value else u.menus)
  }

  /** With `v` in the place of `id` no active administrator would be left. */
  predicate LosesAdmins(users: map<string, User>, id: string, v: User) {
    && !(v.role == "admin" && v.status == "active")
    && forall other | other in users && other != id :: !(users[other].role == "admin" && users[other].status == "active")
  }

  lemma LosesIff(users: map<string, User>, id: string, v: User)
    requires UsersInv(users) && id in users
    ensures ActiveAdmin(users[id]) && !ActiveAdmin(v) && |ActiveAdmins(users)| == 1 <==> LosesAdmins(users, id, v)
  {
    hide UserInv, UniqueNames;
    var admins := ActiveAdmins(users);
    if ActiveAdmin(users[id]) && |admins| == 1 {
      assert id in admins;
      OnlyMember(admins, id);
      assert forall other | other in users && other != id :: other !in admins;
    }
    if ActiveAdmin(users[id]) && |admins| != 1 {
      OtherAdmin(users, id);
    }
    if !ActiveAdmin(users[id]) {
      var admin :| admin in users && ActiveAdmin(users[admin]);
      assert admin != id;
    }
  }

  lemma OnlyMember(admins: set<string>, id: string)
    requires |admins| == 1 && id in admins
    ensures admins == {id}
  {
    var rest := admins - {id};
    assert |rest| == 0;
  }

  /** The account is updated if and only if it is there, a new password has at least ten bytes, the patched account is
      well formed, an active administrator is left and it can be saved. Then it is patched, and no other account
      changes. Sessions of an account taken out of service are revoked even when saving fails; otherwise a refusal
      changes nothing. */
  lemma UpdateIff(env: Env, s: State, id: string, patch: Patch, phc: string, now: int, persisted: bool)
    requires Inv(env, s) && (patch.password != "" ==> phc != "")
    ensures var (t, r) := Step(env, s, Update(id, patch, phc, now, persisted));
            && (id !in s.users ==> r == Refused(NotFound) && t == s)
            && (id in s.users ==> forall v | PatchedBy(env, s.users[id], v, patch, phc, now) ::
                  var allowed := (patch.password == "" || ByteLength(patch.password) >= 10)
                                 && WellFormed(v.username, v.displayName, v.role, v.status) && MenusKnown(v.menus);
                  && (r.Saved? <==> allowed && !LosesAdmins(s.users, id, v) && persisted)
                  && (r.Saved? ==> t.users == s.users[id := v] && r.user == v.(phc := ""))
                  && (!r.Saved? ==> t.users == s.users && t.disk == s.disk)
                  && (r == Refused(LastAdmin) <==> allowed && LosesAdmins(s.users, id, v))
                  && t.failures == s.failures && t.issued == s.issued
                  && var revoked := v.status != "active" && allowed && !LosesAdmins(s.users, id, v);
                     forall h :: h in t.sessions <==> h in s.sessions && !(revoked && s.sessions[h].userId == id))
  {
    hide ValidUser, WellFormed, MenusKnown, Listing, NormalizeMenus, ByteLength, UsersInv, LosesAdmins, ActiveAdmins, Blank;
    if id in s.users {
      forall v | PatchedBy(env, s.users[id], v, patch, phc, now)
        ensures v == Patched(env, s.users[id], patch, phc).(updatedAt := now)
      {
      }
      var v := Patched(env, s.users[id], patch, phc).(updatedAt := now);
      ValidIff(v.username, v.displayName, v.role, v.status, v.menus);
      LosesIff(s.users, id, v);
    }
  }

  // ---- Every stored account -------------------------------------------------------------------------------------

  ghost predicate AllWellFormed(s: State) {
    forall id | id in s.users :: WellFormed(s.users[id].username, s.users[id].displayName, s.users[id].role, s.users[id].status)
  }

  lemma StepWellFormed(env: Env, s: State, call: Call)
    requires Inv(env, s) && AllWellFormed(s)
    ensures AllWellFormed(Step(env, s, call).0)
  {
    hide WellFormed, Listing, NormalizeMenus, ByteLength, UsersInv, ActiveAdmins, Load, ValidUser, Patched;
    match call
    case Restart => RestartKeepsInv(env, s);
    case Create(input, id, phc, now, persisted) =>
      var u := Requested(env, input, id, phc, now);
      ValidIff(u.username, u.displayName, u.role, u.status, input.menus);
    case Update(id, patch, phc, now, persisted) =>
      if id in s.users {
        var v := Patched(env, s.users[id], patch, phc);
        ValidIff(v.username, v.displayName, v.role, v.status, v.menus);
      }
    case _ =>
  }

  /** Whatever is called, every account a service holds is well formed. */
  lemma {:induction false} AccountsWellFormed(env: Env, s: State, calls: seq<Call>)
    requires Inv(env, s) && AllWellFormed(s) && Injective(env.hashToken)
    ensures AllWellFormed(Run(env, s, calls)) && Inv(env, Run(env, s, calls))
  {
    hide Inv, Step, AllWellFormed;
    if calls != [] {
      AccountsWellFormed(env, s, calls[..|calls| - 1]);
      StepKeepsInv(env, Run(env, s, calls[..|calls| - 1]), calls[|calls| - 1]);
      StepWellFormed(env, Run(env, s, calls[..|calls| - 1]), calls[|calls| - 1]);
    }
  }

  lemma SeedWellFormed(env: Env, username: string, password: string, id: string, phc: string, now: int)
    requires Seed(env, username, password, id, phc, now).1.Saved?
    ensures AllWellFormed(Seed(env, username, password, id, phc, now).0)
  {
    hide WellFormed, Listing, NormalizeMenus, ByteLength, ValidUser, ALL_MENUS, Blank;
    var name := if Blank(username) then "admin" else username;
    var u := Requested(env, NewUser("local", name, "ADRO Administrator", "admin", ALL_MENUS, "active", password), id, phc, now);
    ValidIff(u.username, u.displayName, u.role, u.status, ALL_MENUS);
  }
}
