/** What the identity service keeps over every sequence of calls. */
module AuthProofs {
  import opened Options
  import opened Text
  import opened KeyOrder
  import opened AuthMenus
  import opened Auth

  // ---- Invariant ----------------------------------------------------------------------

  predicate UserInv(id: string, u: User) {
    u.id == id && id != "" && u.phc != "" && u.menus == NormalizeMenus(u.role, u.menus)
  }

  predicate UniqueNames(users: map<string, User>) {
    forall a, b | a in users && b in users && users[a].username == users[b].username :: a == b
  }

  ghost predicate UsersInv(users: map<string, User>) {
    && UniqueNames(users) && (forall id | id in users :: UserInv(id, users[id]))
    && exists id :: id in users && ActiveAdmin(users[id])
  }

  ghost predicate TokensInv(env: Env, s: State) {
    forall t | t in s.issued && env.hashToken(t) in s.sessions :: s.sessions[env.hashToken(t)].userId == s.issued[t]
  }

  ghost predicate Inv(env: Env, s: State) {
    UsersInv(s.users) && s.disk == Listing(s.users) && TokensInv(env, s)
  }

  // ---- Reloading -------------------------------------------------------------------------

  /** With unique names, the lookup by name finds the one account, whatever order the table is searched in. */
  lemma NamedUser(users: map<string, User>, id: string)
    requires UniqueNames(users) && id in users
    ensures UserNamed(users, users[id].username) == Some(users[id])
  {
  }

  function Restrict(users: map<string, User>, names: seq<string>): map<string, User> {
    map id | id in users && users[id].username in names :: users[id]
  }

  lemma ListingFacts(users: map<string, User>)
    requires UniqueNames(users)
    ensures var names := SortedKeys(Usernames(users));
            && |Listing(users)| == |names| && Ascending(names)
            && (forall n :: n in names <==> n in Usernames(users))
            && forall i | 0 <= i < |names| ::
                 Listing(users)[i].username == names[i] && exists id :: id in users && users[id] == Listing(users)[i]
  {
    hide SortedKeys;
    var names := SortedKeys(Usernames(users));
    SortedKeysSpec(Usernames(users));
    forall i | 0 <= i < |names|
      ensures Listing(users)[i].username == names[i] && exists id :: id in users && users[id] == Listing(users)[i]
    {
      assert names[i] in Usernames(users);
      var id :| id in users && users[id].username == names[i];
      NamedUser(users, id);
    }
  }

  lemma {:induction false} LoadPrefix(users: map<string, User>, k: nat)
    requires UsersInv(users) && k <= |Listing(users)|
    ensures |Listing(users)| == |SortedKeys(Usernames(users))|
    ensures Load(Listing(users)[..k]) == Some(Restrict(users, SortedKeys(Usernames(users))[..k]))
    decreases k
  {
    hide SortedKeys, Listing, NormalizeMenus;
    ListingFacts(users);
    var names := SortedKeys(Usernames(users));
    if k == 0 {
      assert Restrict(users, names[..0]) == map[];
    } else {
      LoadPrefix(users, k - 1);
      var list := Listing(users);
      assert list[..k][..k - 1] == list[..k - 1];
      var last := list[k - 1];
      var id :| id in users && users[id] == last;
      assert UserInv(id, users[id]);
      assert LoadUser(last) == last;
      RestrictOneMore(users, names, k, id);
    }
  }

  lemma RestrictOneMore(users: map<string, User>, names: seq<string>, k: nat, id: string)
    requires UniqueNames(users) && 1 <= k <= |names| && id in users && users[id].username == names[k - 1]
    ensures Restrict(users, names[..k]) == Restrict(users, names[..k - 1])[id := users[id]]
  {
    assert names[..k] == names[..k - 1] + [names[k - 1]];
  }

  /** Writing the accounts out and loading them again gives the same accounts, with nothing to migrate. */
  lemma ReloadGivesMemory(users: map<string, User>)
    requires UsersInv(users)
    ensures Load(Listing(users)) == Some(users) && !Migrates(Listing(users))
  {
    hide SortedKeys, Listing, NormalizeMenus;
    ListingFacts(users);
    var names := SortedKeys(Usernames(users));
    LoadPrefix(users, |names|);
    assert Listing(users)[..|names|] == Listing(users) && names[..|names|] == names;
    assert Restrict(users, names) == users by {
      forall id | id in users ensures users[id].username in names {
        assert users[id].username in Usernames(users);
      }
    }
    forall i | 0 <= i < |Listing(users)| ensures LoadUser(Listing(users)[i]) == Listing(users)[i] {
      var id :| id in users && users[id] == Listing(users)[i];
      assert UserInv(id, users[id]);
    }
  }

  // ---- Every call keeps the invariant -------------------------------------------------------

  lemma OtherAdmin(users: map<string, User>, id: string)
    requires id in users && ActiveAdmin(users[id]) && |ActiveAdmins(users)| != 1
    ensures exists other :: other != id && other in users && ActiveAdmin(users[other])
  {
    var admins := ActiveAdmins(users);
    assert id in admins;
    assert admins != {id};
    var other :| other in admins && other != id;
  }

  lemma CreateKeepsUsers(env: Env, s: State, input: NewUser, id: string, phc: string, now: int)
    requires UniqueNames(s.users) && forall i | i in s.users :: UserInv(i, s.users[i])
    requires CreateUser(env, s, input, id, phc, now, true).1.Saved?
    ensures var t := CreateUser(env, s, input, id, phc, now, true).0;
            && t.disk == Listing(t.users) && UniqueNames(t.users) && (forall i | i in t.users :: UserInv(i, t.users[i]))
            && id in t.users && t.users == s.users[id := t.users[id]] && id !in s.users
            && t == s.(users := t.users, disk := t.disk)
            && t.users[id].role == env.lower(Trim(input.role))
            && t.users[id].status == (if input.status == "" then "active" else input.status)
  {
    hide NormalizeMenus, Listing, ValidUser;
    var role := env.lower(Trim(input.role));
    NormalForm(role, input.menus);
  }

  lemma CreateKeepsInv(env: Env, s: State, call: Call)
    requires Inv(env, s) && call.Create?
    ensures Inv(env, Step(env, s, call).0)
  {
    hide NormalizeMenus, Listing, CreateUser, UserInv;
    CreateOutcome(env, s, call);
    if Step(env, s, call).0 != s {
      CreateKeepsUsers(env, s, call.input, call.id, call.phc, call.now);
      var admin :| admin in s.users && ActiveAdmin(s.users[admin]);
      assert admin in Step(env, s, call).0.users && ActiveAdmin(Step(env, s, call).0.users[admin]);
    }
  }

  lemma CreateOutcome(env: Env, s: State, call: Call)
    requires call.Create?
    ensures var (t, r) := Step(env, s, call); t != s ==> call.persisted && r.Saved?
  {
    hide ValidUser, Listing;
  }

  lemma PatchedUser(env: Env, id: string, u: User, patch: Patch, phc: string)
    requires UserInv(id, u) && (patch.password != "" ==> phc != "")
    ensures var v := Patched(env, u, patch, phc); UserInv(id, v) && v.username == u.username
  {
    hide NormalizeMenus;
    var role := if Blank(patch.role) then u.role else env.lower(Trim(patch.role));
    NormalForm(role, if patch.menus.Some? then patch.menus.value else u.menus);
  }

  /** Replacing an account keeps the table in order unless it demotes the only active administrator. */
  lemma ReplacedUsers(users: map<string, User>, id: string, updated: User)
    requires UsersInv(users) && id in users && UserInv(id, updated) && updated.username == users[id].username
    requires !(ActiveAdmin(users[id]) && !ActiveAdmin(updated) && |ActiveAdmins(users)| == 1)
    ensures UsersInv(users[id := updated])
  {
    hide UserInv, ActiveAdmins;
    var after := users[id := updated];
    if ActiveAdmin(updated) {
      assert id in after && ActiveAdmin(after[id]);
    } else if ActiveAdmin(users[id]) {
      OtherAdmin(users, id);
      var other :| other != id && other in users && ActiveAdmin(users[other]);
      assert other in after && ActiveAdmin(after[other]);
    } else {
      var admin :| admin in users && ActiveAdmin(users[admin]);
      assert admin in after && ActiveAdmin(after[admin]);
    }
  }

  lemma UpdateKeepsInv(env: Env, s: State, call: Call)
    requires Inv(env, s) && call.Update?
    ensures Inv(env, Step(env, s, call).0)
  {
    hide NormalizeMenus, Listing, ValidUser, Patched, ActiveAdmins, ActiveAdmin, UserInv, UniqueNames;
    var (t, r) := Step(env, s, call);
    if r.Saved? {
      var previous := s.users[call.id];
      assert UserInv(call.id, previous);
      PatchedUser(env, call.id, previous, call.patch, call.phc);
      var current := Patched(env, previous, call.patch, call.phc);
      SameButTime(call.id, current, call.now);
      SameRole(current, call.now);
      ReplacedUsers(s.users, call.id, current.(updatedAt := call.now));
    }
  }

  lemma SameRole(u: User, now: int)
    ensures ActiveAdmin(u.(updatedAt := now)) == ActiveAdmin(u)
  {
  }

  lemma SameButTime(id: string, u: User, now: int)
    requires UserInv(id, u)
    ensures UserInv(id, u.(updatedAt := now))
  {
  }

  lemma LoginKeepsInv(env: Env, s: State, call: Call)
    requires Inv(env, s) && Injective(env.hashToken) && (call.Login? || call.CheckToken? || call.Logout?)
    ensures Inv(env, Step(env, s, call).0)
  {
    hide UsersInv, Listing, Failed;
  }

  lemma RestartKeepsInv(env: Env, s: State)
    requires Inv(env, s)
    ensures Inv(env, Step(env, s, Restart).0) && Step(env, s, Restart).1 == Done
    ensures Step(env, s, Restart).0.users == s.users && Step(env, s, Restart).0.disk == s.disk
  {
    hide UsersInv, Listing, Load;
    ReloadGivesMemory(s.users);
  }

  lemma StepKeepsInv(env: Env, s: State, call: Call)
    requires Inv(env, s) && Injective(env.hashToken)
    ensures Inv(env, Step(env, s, call).0)
  {
    hide Inv, Step;
    match call
    case Login(_, _, _, _) => LoginKeepsInv(env, s, call);
    case CheckToken(_, _) => LoginKeepsInv(env, s, call);
    case Logout(_) => LoginKeepsInv(env, s, call);
    case Create(_, _, _, _, _) => CreateKeepsInv(env, s, call);
    case Update(_, _, _, _, _) => UpdateKeepsInv(env, s, call);
    case Restart => RestartKeepsInv(env, s);
  }

  /** From a seeded service, every sequence of calls, persistence failures included, keeps an active
      administrator, unique names, memory equal to what a reload gives, and tokens bound to their user. */
  lemma {:induction false} RunKeepsInv(env: Env, s: State, calls: seq<Call>)
    requires Inv(env, s) && Injective(env.hashToken)
    ensures Inv(env, Run(env, s, calls))
  {
    hide Inv, Step;
    if calls != [] {
      RunKeepsInv(env, s, calls[..|calls| - 1]);
      StepKeepsInv(env, Run(env, s, calls[..|calls| - 1]), calls[|calls| - 1]);
    }
  }

  lemma SeedInv(env: Env, username: string, password: string, id: string, phc: string, now: int)
    requires env.lower("admin") == "admin" && Seed(env, username, password, id, phc, now).1.Saved?
    ensures Inv(env, Seed(env, username, password, id, phc, now).0)
  {
    hide NormalizeMenus, Listing, CreateUser, UserInv, ALL_MENUS;
    var name := if Blank(username) then "admin" else username;
    var input := NewUser("local", name, "ADRO Administrator", "admin", ALL_MENUS, "active", password);
    CreateKeepsUsers(env, EMPTY, input, id, phc, now);
    TrimAdmin();
    var t := Seed(env, username, password, id, phc, now).0;
    assert id in t.users && ActiveAdmin(t.users[id]);
  }

  lemma TrimAdmin()
    ensures Trim("admin") == "admin"
  {
    assert !IsSpace("admin"[0]) && !IsSpace("admin"[4]);
  }

  /** In every reachable state nobody but an administrator has permission on an unknown menu. */
  lemma UnknownMenusRefused(env: Env, s: State, id: string, menu: string)
    requires Inv(env, s) && id in s.users && s.users[id].role != "admin" && CanonicalMenu(menu) == ""
    ensures !Can(s.users[id].role, s.users[id].menus, menu)
  {
    hide NormalizeMenus, Listing, Can;
    assert UserInv(id, s.users[id]);
    NormalPermissions(s.users[id].role, s.users[id].menus, menu);
  }

  // ---- Tokens of a disabled user ----------------------------------------------------------------

  predicate Dead(env: Env, s: State, token: string) {
    token in s.issued && env.hashToken(token) !in s.sessions
  }

  lemma DeadStays(env: Env, s: State, call: Call, token: string)
    requires Injective(env.hashToken) && Dead(env, s, token)
    ensures Dead(env, Step(env, s, call).0, token)
  {
    hide Listing, Load, ValidUser, NormalizeMenus, Failed;
  }

  lemma {:induction false} DeadForever(env: Env, s: State, calls: seq<Call>, token: string)
    requires Injective(env.hashToken) && Dead(env, s, token)
    ensures Dead(env, Run(env, s, calls), token)
  {
    hide Step;
    if calls != [] {
      DeadForever(env, s, calls[..|calls| - 1], token);
      DeadStays(env, Run(env, s, calls[..|calls| - 1]), calls[|calls| - 1], token);
    }
  }

  /** Once an update has disabled a user, no token issued to that user before ever authenticates again:
      not after re-enabling, not after any later logins, and not even if saving the update failed. */
  lemma DisabledTokensNeverAuthenticate(
    env: Env, s: State, id: string, patch: Patch, phc: string, now: int, persisted: bool,
    calls: seq<Call>, token: string, later: int)
    requires Inv(env, s) && Injective(env.hashToken) && token in s.issued && s.issued[token] == id && id in s.users
    requires Patched(env, s.users[id], patch, phc).status != "active"
    requires var r := UpdateUser(env, s, id, patch, phc, now, persisted).1; r.Saved? || r == Refused(PersistFailed)
    ensures var updated := UpdateUser(env, s, id, patch, phc, now, persisted).0;
            AuthenticateToken(env, Run(env, updated, calls), token, later).1 == Unknown
  {
    hide Run, Listing, ValidUser, UsersInv, Patched;
    var t := UpdateUser(env, s, id, patch, phc, now, persisted).0;
    assert Dead(env, t, token);
    DeadForever(env, t, calls, token);
  }

  // ---- Lockout ------------------------------------------------------------------------------------

  /** The most checked failures that can still fall before `end`, five minutes after the interval began. */
  function Allowance(f: Failures, end: int): nat {
    if f.lockedUntil.Some? && f.lockedUntil.value >= end then 0
    else if f.windowStart.None? then MAX_FAILURES
    else if f.windowStart.value + WINDOW < end then
      if 1 <= f.count < MAX_FAILURES then 9 - f.count else MAX_FAILURES
    else if f.count < MAX_FAILURES then MAX_FAILURES - f.count else 1
  }

  predicate FailuresInv(f: Failures) {
    f.windowStart.Some? ==> f.count >= 1
  }

  lemma FailedSpends(f: Failures, now: int, end: int)
    requires FailuresInv(f) && !LockedAt(f, now) && end - LOCK <= now < end
    ensures FailuresInv(Failed(f, now)) && Allowance(Failed(f, now), end) + 1 <= Allowance(f, end)
  {
  }

  predicate Reaches(env: Env, call: Call, reply: Reply, username: string, from: int, end: int) {
    call.Login? && env.lower(Trim(call.username)) == username && reply == Rejected && from <= call.now < end
  }

  /** How many logins for the username were checked and failed in the interval. */
  ghost function CheckedFailures(env: Env, s: State, calls: seq<Call>, username: string, from: int, end: int): nat
    decreases |calls|
  {
    if calls == [] then 0
    else
      var (t, reply) := Step(env, s, calls[0]);
      (if Reaches(env, calls[0], reply, username, from, end) then 1 else 0)
      + CheckedFailures(env, t, calls[1..], username, from, end)
  }

  /** No call logs the username in, and the service is not restarted. */
  ghost predicate NeverLoggedIn(env: Env, s: State, calls: seq<Call>, username: string)
    decreases |calls|
  {
    calls == [] ||
    (var (t, reply) := Step(env, s, calls[0]);
     && !(calls[0].Login? && env.lower(Trim(calls[0].username)) == username && reply.LoggedIn?)
     && calls[0] != Restart
     && NeverLoggedIn(env, t, calls[1..], username))
  }

  /** The effect of a call on one username's failures. */
  lemma FailuresAfter(env: Env, s: State, call: Call, username: string)
    requires call != Restart
    requires !(call.Login? && env.lower(Trim(call.username)) == username && Step(env, s, call).1.LoggedIn?)
    ensures var (t, reply) := Step(env, s, call);
            if call.Login? && env.lower(Trim(call.username)) == username && reply == Rejected
            then
              && !LockedAt(FailuresOf(s, username), call.now)
              && FailuresOf(t, username) == Failed(FailuresOf(s, username), call.now)
            else FailuresOf(t, username) == FailuresOf(s, username)
  {
    hide Listing, Load, ValidUser, NormalizeMenus, Failed;
  }

  predicate NotBefore(calls: seq<Call>, time: int) {
    forall i | 0 <= i < |calls| && calls[i].Login? :: calls[i].now >= time
  }

  /** Logins arrive in the order of their clock readings. */
  predicate MonotoneClock(calls: seq<Call>) {
    forall i, j | 0 <= i < j < |calls| && calls[i].Login? && calls[j].Login? :: calls[i].now <= calls[j].now
  }

  lemma {:induction false} NothingAfterEnd(env: Env, s: State, calls: seq<Call>, username: string, from: int, end: int)
    requires NotBefore(calls, end)
    ensures CheckedFailures(env, s, calls, username, from, end) == 0
    decreases |calls|
  {
    hide Step;
    if calls != [] {
      NothingAfterEnd(env, Step(env, s, calls[0]).0, calls[1..], username, from, end);
    }
  }

  lemma {:induction false} WithinInterval(env: Env, s: State, calls: seq<Call>, username: string, end: int)
    requires MonotoneClock(calls) && NotBefore(calls, end - LOCK) && NeverLoggedIn(env, s, calls, username)
    requires FailuresInv(FailuresOf(s, username))
    ensures CheckedFailures(env, s, calls, username, end - LOCK, end) <= Allowance(FailuresOf(s, username), end)
    decreases |calls|
  {
    hide Step, Failed, Allowance;
    if calls != [] {
      FailuresAfter(env, s, calls[0], username);
      var (t, reply) := Step(env, s, calls[0]);
      if calls[0].Login? && calls[0].now >= end {
        assert NotBefore(calls, end);
        NothingAfterEnd(env, s, calls, username, end - LOCK, end);
      } else {
        if Reaches(env, calls[0], reply, username, end - LOCK, end) {
          FailedSpends(FailuresOf(s, username), calls[0].now, end);
        }
        WithinInterval(env, t, calls[1..], username, end);
      }
    }
  }

  lemma FailedInv(f: Failures, now: int)
    requires FailuresInv(f)
    ensures FailuresInv(Failed(f, now))
  {
  }

  /** With a monotone clock and no successful login of the username, any five minutes hold at most eight
      failed attempts that reached the password check, over every sequence of calls. */
  lemma {:induction false} LockoutBound(env: Env, s: State, calls: seq<Call>, username: string, from: int)
    requires MonotoneClock(calls) && NeverLoggedIn(env, s, calls, username) && FailuresInv(FailuresOf(s, username))
    ensures CheckedFailures(env, s, calls, username, from, from + LOCK) <= 8
    decreases |calls|
  {
    hide Step, Failed;
    if calls != [] {
      if calls[0].Login? && calls[0].now >= from {
        assert NotBefore(calls, from);
        WithinInterval(env, s, calls, username, from + LOCK);
      } else {
        FailuresAfter(env, s, calls[0], username);
        if calls[0].Login? {
          FailedInv(FailuresOf(s, username), calls[0].now);
        }
        LockoutBound(env, Step(env, s, calls[0]).0, calls[1..], username, from);
      }
    }
  }

  lemma StepFailuresInv(env: Env, s: State, call: Call, username: string)
    requires FailuresInv(FailuresOf(s, username))
    ensures FailuresInv(FailuresOf(Step(env, s, call).0, username))
  {
    hide Listing, Load, ValidUser, NormalizeMenus, Failed;
    if call.Login? {
      FailedInv(FailuresOf(s, username), call.now);
    }
  }

  lemma {:induction false} RunFailuresInv(env: Env, s: State, calls: seq<Call>, username: string)
    requires FailuresInv(FailuresOf(s, username))
    ensures FailuresInv(FailuresOf(Run(env, s, calls), username))
  {
    hide Step;
    if calls != [] {
      RunFailuresInv(env, s, calls[..|calls| - 1], username);
      StepFailuresInv(env, Run(env, s, calls[..|calls| - 1]), calls[|calls| - 1], username);
    }
  }

  /** The bound holds from any state a seeded service can be in. */
  lemma LockoutInEveryRun(
    env: Env, username: string, password: string, id: string, phc: string, start: int, before: seq<Call>, calls: seq<Call>,
    name: string, from: int)
    requires var s := Run(env, Seed(env, username, password, id, phc, start).0, before);
             MonotoneClock(calls) && NeverLoggedIn(env, s, calls, name)
    ensures var s := Run(env, Seed(env, username, password, id, phc, start).0, before);
            CheckedFailures(env, s, calls, name, from, from + LOCK) <= 8
  {
    hide Run, NeverLoggedIn, CheckedFailures, CreateUser;
    var s := Seed(env, username, password, id, phc, start).0;
    SeedFailures(env, username, password, id, phc, start);
    RunFailuresInv(env, s, before, name);
    LockoutBound(env, Run(env, s, before), calls, name, from);
  }

  lemma SeedFailures(env: Env, username: string, password: string, id: string, phc: string, now: int)
    ensures Seed(env, username, password, id, phc, now).0.failures == map[]
  {
    hide ValidUser, Listing, NormalizeMenus, ALL_MENUS;
  }

  function FailedAt(f: Failures, times: seq<int>): Failures {
    if times == [] then f else Failed(FailedAt(f, times[..|times| - 1]), times[|times| - 1])
  }

  /** Three attempts left over from an old window and five of a new one. */
  const EIGHT: seq<int> := [WINDOW, WINDOW, WINDOW, WINDOW + 1, WINDOW + 1, WINDOW + 1, WINDOW + 1, WINDOW + 1]

  /** The bound is reached: after one attempt at time zero, eight attempts within five minutes are all checked. */
  lemma EightAttemptsReached(k: nat)
    requires k < |EIGHT|
    ensures WINDOW <= EIGHT[k] < WINDOW + LOCK
    ensures !LockedAt(FailedAt(Failed(NO_FAILURES, 0), EIGHT[..k]), EIGHT[k])
  {
    var f := Failed(NO_FAILURES, 0);
    assert EIGHT[..0] == [] && EIGHT[..1][..0] == EIGHT[..0] && EIGHT[..2][..1] == EIGHT[..1];
    assert EIGHT[..3][..2] == EIGHT[..2];
    assert EIGHT[..4][..3] == EIGHT[..3] && EIGHT[..5][..4] == EIGHT[..4] && EIGHT[..6][..5] == EIGHT[..5];
    assert EIGHT[..7][..6] == EIGHT[..6];
    assert FailedAt(f, EIGHT[..3]) == Failures(4, Some(0), None) by {
      assert FailedAt(f, EIGHT[..1]) == Failures(2, Some(0), None);
      assert FailedAt(f, EIGHT[..2]) == Failures(3, Some(0), None);
    }
    assert FailedAt(f, EIGHT[..4]) == Failures(1, Some(WINDOW + 1), None);
    assert FailedAt(f, EIGHT[..5]) == Failures(2, Some(WINDOW + 1), None);
    assert FailedAt(f, EIGHT[..6]) == Failures(3, Some(WINDOW + 1), None);
    assert FailedAt(f, EIGHT[..7]) == Failures(4, Some(WINDOW + 1), None);
    assert FailedAt(f, EIGHT[..1]) == Failures(2, Some(0), None);
    assert FailedAt(f, EIGHT[..2]) == Failures(3, Some(0), None);
  }
}
