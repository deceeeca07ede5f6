/** The service object. Tables are searched in no particular order; every method is one locked section. */
module AuthService {
  import opened Options
  import opened Text
  import opened KeyOrder
  import opened AuthMenus
  import opened Auth
  import opened AuthProofs

  class Service {
    const env: Env
    var users: map<string, User>
    var sessions: map<string, Session>
    var failures: map<string, Failures>
    var disk: seq<User>
    ghost var issued: map<string, string>

    constructor (env: Env)
      ensures this.env == env && Value() == EMPTY
    {
      this.env := env;
      users, sessions, failures, disk, issued := map[], map[], map[], [], map[];
    }

    ghost function Value(): State
      reads this
    {
      State(users, sessions, failures, disk, issued)
    }

    method UserByUsername(name: string) returns (r: Option<User>)
      requires UniqueNames(users)
      ensures r == UserNamed(users, name)
    {
      var rest := users.Keys;
      while rest != {}
        invariant rest <= users.Keys
        invariant forall id | id in users && id !in rest :: users[id].username != name
        decreases |rest|
      {
        var id :| id in rest;
        if users[id].username == name {
          NamedUser(users, id);
          return Some(users[id]);
        }
        rest := rest - {id};
      }
      return None;
    }

    method ActiveAdminCount() returns (count: nat)
      ensures count == |ActiveAdmins(users)|
    {
      var rest := users.Keys;
      ghost var seen: set<string> := {};
      count := 0;
      while rest != {}
        invariant rest <= users.Keys
        invariant seen == (set id | id in users && id !in rest && ActiveAdmin(users[id])) && count == |seen|
        decreases |rest|
      {
        var id :| id in rest;
        if ActiveAdmin(users[id]) {
          count := count + 1;
          seen := seen + {id};
        }
        rest := rest - {id};
      }
      assert seen == ActiveAdmins(users);
    }

    method RevokeUserSessions(id: string)
      modifies this`sessions
      ensures sessions == Revoke(old(sessions), id)
    {
      var rest := sessions.Keys;
      while rest != {}
        invariant rest <= old(sessions).Keys
        invariant sessions.Keys == set h | h in old(sessions) && (h in rest || old(sessions)[h].userId != id)
        invariant forall h | h in sessions :: sessions[h] == old(sessions)[h]
        decreases |rest|
      {
        var h :| h in rest;
        if h in sessions && sessions[h].userId == id {
          sessions := sessions - {h};
        }
        rest := rest - {h};
      }
      assert sessions.Keys == Revoke(old(sessions), id).Keys;
    }

    method CollectNames() returns (names: seq<string>)
      requires UniqueNames(users)
      ensures Distinct(names) && forall n :: n in names <==> n in Usernames(users)
    {
      var rest := users.Keys;
      names := [];
      while rest != {}
        invariant rest <= users.Keys && Distinct(names)
        invariant forall n :: n in names <==> exists id :: id in users && id !in rest && users[id].username == n
        decreases |rest|
      {
        var id :| id in rest;
        assert users[id].username !in names;
        names := names + [users[id].username];
        rest := rest - {id};
      }
    }

    /** The file as it would be written: the accounts sorted by username. */
    method Snapshot() returns (list: seq<User>)
      requires UniqueNames(users)
      ensures list == Listing(users)
    {
      hide Sort, SortedKeys, UniqueNames;
      var names := CollectNames();
      SortIsSortedKeys(names, Usernames(users));
      var sorted := Sort(names);
      ListingFacts(users);
      list := [];
      for i := 0 to |sorted|
        invariant list == Listing(users)[..i]
      {
        var u := UserByUsername(sorted[i]);
        assert sorted[i] in Usernames(users);
        list := list + [u.value];
      }
    }

    /** Writes the file in one rename; a failure leaves it as it was. */
    method Persist(succeeds: bool) returns (ok: bool)
      requires UniqueNames(users)
      modifies this`disk
      ensures ok == succeeds && disk == if succeeds then Listing(users) else old(disk)
    {
      var list := Snapshot();
      if succeeds {
        disk := list;
      }
      return succeeds;
    }

    method Authenticate(username: string, password: string, token: string, now: int) returns (r: Reply)
      requires UniqueNames(users)
      modifies this
      ensures (Value(), r) == Auth.Authenticate(env, old(Value()), username, password, token, now)
    {
      var name := env.lower(Trim(username));
      var f := if name in failures then failures[name] else NO_FAILURES;
      if LockedAt(f, now) {
        return Locked;
      }
      var user := UserByUsername(name);
      if user.None? || user.value.status != "active" || !env.verify(user.value.phc, password) {
        if f.windowStart.None? || now - f.windowStart.value > WINDOW {
          f := Failures(0, Some(now), None);
        }
        f := f.(count := f.count + 1);
        if f.count >= MAX_FAILURES {
          f := f.(lockedUntil := Some(now + LOCK));
        }
        failures := failures[name := f];
        return Rejected;
      }
      failures := failures - {name};
      sessions := sessions[env.hashToken(token) := Session(user.value.id, now + SESSION_LIFETIME)];
      issued := issued[token := user.value.id];
      return LoggedIn(Public(user.value), token, now + SESSION_LIFETIME);
    }

    method AuthenticateToken(token: string, now: int) returns (r: Reply)
      modifies this
      ensures (Value(), r) == Auth.AuthenticateToken(env, old(Value()), token, now)
    {
      if Blank(token) {
        return Unknown;
      }
      var h := env.hashToken(token);
      if h !in sessions || now > sessions[h].expires {
        sessions := sessions - {h};
        return Unknown;
      }
      var id := sessions[h].userId;
      if id !in users || users[id].status != "active" {
        sessions := sessions - {h};
        return Unknown;
      }
      return Known(Public(users[id]));
    }

    method CreateUser(input: NewUser, id: string, phc: string, now: int, persisted: bool) returns (r: Reply)
      requires UniqueNames(users)
      modifies this
      ensures (Value(), r) == Auth.CreateUser(env, old(Value()), input, id, phc, now, persisted)
    {
      hide NormalizeMenus, Listing, UniqueNames, ValidUser, Trim, ByteLength, Named;
      var username, displayName, role := env.lower(Trim(input.username)), Trim(input.displayName), env.lower(Trim(input.role));
      var workspace := if input.workspace == "" then "local" else input.workspace;
      var status := if input.status == "" then "active" else input.status;
      if !ValidUser(username, displayName, role, status, input.menus) || ByteLength(input.password) < 10 {
        return Refused(InvalidUser);
      }
      var existing := UserByUsername(username);
      if existing.Some? {
        return Refused(UsernameTaken);
      }
      if id == "" || phc == "" || id in users {
        return Refused(Unavailable);
      }
      var menus := Normalize(role, input.menus);
      var user := User(id, workspace, username, displayName, role, menus, status, now, now, phc);
      ghost var before := users;
      users := users[id := user];
      NewNameUnique(before, id, user);
      var ok := Persist(persisted);
      if !ok {
        users := users - {id};
        assert users == before;
        return Refused(PersistFailed);
      }
      return Saved(Public(user));
    }

    method Merge(u: User, patch: Patch, phc: string) returns (v: User)
      ensures v == Patched(env, u, patch, phc)
    {
      hide NormalizeMenus, Trim, Blank;
      v := u;
      if !Blank(patch.displayName) {
        v := v.(displayName := Trim(patch.displayName));
      }
      if !Blank(patch.role) {
        v := v.(role := env.lower(Trim(patch.role)));
      }
      if !Blank(patch.status) {
        v := v.(status := env.lower(Trim(patch.status)));
      }
      if patch.menus.Some? {
        v := v.(menus := patch.menus.value);
      }
      if patch.password != "" {
        v := v.(phc := phc);
      }
      var menus := Normalize(v.role, v.menus);
      v := v.(menus := menus);
    }

    method UpdateUser(id: string, patch: Patch, phc: string, now: int, persisted: bool) returns (r: Reply)
      requires UniqueNames(users)
      modifies this
      ensures (Value(), r) == Auth.UpdateUser(env, old(Value()), id, patch, phc, now, persisted)
    {
      hide Listing, UniqueNames, ValidUser, Patched, ActiveAdmins, ByteLength, Revoke;
      if id !in users {
        return Refused(NotFound);
      }
      if patch.password != "" && ByteLength(patch.password) < 10 {
        return Refused(WeakPassword);
      }
      if patch.password != "" && phc == "" {
        return Refused(Unavailable);
      }
      var previous := users[id];
      var current := Merge(previous, patch, phc);
      PatchedName(env, previous, patch, phc);
      if !ValidUser(current.username, current.displayName, current.role, current.status, current.menus) {
        return Refused(InvalidUser);
      }
      var admins := ActiveAdminCount();
      if ActiveAdmin(previous) && !ActiveAdmin(current) && admins == 1 {
        return Refused(LastAdmin);
      }
      current := current.(updatedAt := now);
      ghost var before := users;
      users := users[id := current];
      SameNameUnique(before, id, current);
      if current.status != "active" {
        RevokeUserSessions(id);
      }
      var ok := Persist(persisted);
      if !ok {
        users := users[id := previous];
        assert users == before;
        return Refused(PersistFailed);
      }
      return Saved(Public(current));
    }
  }

  lemma PatchedName(env: Env, u: User, patch: Patch, phc: string)
    ensures Patched(env, u, patch, phc).username == u.username
  {
  }

  lemma NewNameUnique(users: map<string, User>, id: string, user: User)
    requires UniqueNames(users) && id !in users && !Named(users, user.username)
    ensures UniqueNames(users[id := user])
  {
  }

  lemma SameNameUnique(users: map<string, User>, id: string, user: User)
    requires UniqueNames(users) && id in users && user.username == users[id].username
    ensures UniqueNames(users[id := user])
  {
  }
}
