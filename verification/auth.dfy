/** The local identity service: accounts, logins with lockout, sessions and persistence. */
module Auth {
  import opened Options
  import opened Text
  import opened KeyOrder
  import opened AuthMenus

  const SECOND := 1_000_000_000
  const SESSION_LIFETIME := 12 * 3600 * SECOND
  const WINDOW := 600 * SECOND
  const LOCK := 300 * SECOND
  const MAX_FAILURES := 5

  /** Outside functions: lower-casing, password verification and the token digest. */
  datatype Env = Env(lower: string -> string, verify: (string, string) -> bool, hashToken: string -> string)

  datatype User = User(
    id: string, workspace: string, username: string, displayName: string, role: string, menus: seq<string>,
    status: string, createdAt: int, updatedAt: int, phc: string)

  datatype NewUser = NewUser(
    workspace: string, username: string, displayName: string, role: string, menus: seq<string>, status: string,
    password: string)

  datatype Patch = Patch(
    displayName: string, role: string, status: string, menus: Option<seq<string>>, password: string)

  datatype Session = Session(userId: string, expires: int)
  datatype Failures = Failures(count: nat, windowStart: Option<int>, lockedUntil: Option<int>)

  const NO_FAILURES := Failures(0, None, None)

  /** `issued` records which user each token was ever issued to. */
  datatype State = State(
    users: map<string, User>, sessions: map<string, Session>, failures: map<string, Failures>, disk: seq<User>,
    issued: map<string, string>)

  datatype Reply =
    | LoggedIn(user: User, token: string, expires: int) | Rejected | Locked
    | Known(user: User) | Unknown
    | Saved(user: User) | Refused(error: AuthError)
    | Done

  datatype AuthError = InvalidUser | UsernameTaken | NotFound | WeakPassword | LastAdmin | PersistFailed | Unavailable

  // ---- Accounts -----------------------------------------------------------------------

  predicate UsernameChar(c: char) {
    'a' <= c <= 'z' || '0' <= c <= '9' || c == '.' || c == '_' || c == '-'
  }

  predicate ValidUser(username: string, displayName: string, role: string, status: string, menus: seq<string>) {
    && 3 <= ByteLength(username) <= 64 && (forall i | 0 <= i < |username| :: UsernameChar(username[i]))
    && displayName != "" && ByteLength(displayName) <= 100
    && (role == "admin" || role == "member" || role == "viewer")
    && (status == "active" || status == "disabled")
    && forall i | 0 <= i < |menus| :: CanonicalMenu(menus[i]) != ""
  }

  function Public(u: User): User {
    u.(phc := "")
  }

  ghost predicate Named(users: map<string, User>, name: string) {
    exists id :: id in users && users[id].username == name
  }

  /** A user with this name; which one only matters when names are not unique. */
  ghost function UserNamed(users: map<string, User>, name: string): (r: Option<User>)
    ensures r.None? <==> !Named(users, name)
    ensures r.Some? ==> exists id :: id in users && users[id] == r.value && r.value.username == name
  {
    if Named(users, name) then
      var id :| id in users && users[id].username == name;
      Some(users[id])
    else None
  }

  predicate ActiveAdmin(u: User) {
    u.role == "admin" && u.status == "active"
  }

  function ActiveAdmins(users: map<string, User>): set<string> {
    set id | id in users && ActiveAdmin(users[id])
  }

  // ---- Persistence ----------------------------------------------------------------------

  ghost function Usernames(users: map<string, User>): set<string> {
    set id | id in users :: users[id].username
  }

  /** The users in the order the file lists them: by username. */
  ghost function Listing(users: map<string, User>): seq<User> {
    var names := SortedKeys(Usernames(users));
    seq(|names|, i requires 0 <= i < |names| =>
      var u := UserNamed(users, names[i]); if u.Some? then u.value else User("", "", "", "", "", [], "", 0, 0, ""))
  }

  function Join(parts: seq<string>): string {
    if parts == [] then "" else if |parts| == 1 then parts[0] else parts[0] + ['\0'] + Join(parts[1..])
  }

  function LoadUser(u: User): User {
    var normal := NormalizeMenus(u.role, u.menus);
    if Join(normal) != Join(u.menus) then u.(menus := normal) else u
  }

  /** Some account of the file is rewritten on loading, so the file is saved again. */
  predicate Migrates(disk: seq<User>) {
    exists i | 0 <= i < |disk| :: LoadUser(disk[i]) != disk[i]
  }

  /** The accounts a file gives; None when it holds an invalid one. */
  function Load(disk: seq<User>): Option<map<string, User>> {
    if disk == [] then Some(map[])
    else
      var last := disk[|disk| - 1];
      match Load(disk[..|disk| - 1])
      case None => None
      case Some(users) => if last.id == "" || last.phc == "" then None else Some(users[last.id := LoadUser(last)])
  }

  // ---- Login ---------------------------------------------------------------------------

  function FailuresOf(s: State, username: string): Failures {
    if username in s.failures then s.failures[username] else NO_FAILURES
  }

  predicate LockedAt(f: Failures, now: int) {
    f.lockedUntil.Some? && now < f.lockedUntil.value
  }

  /** The record after one more failed attempt that was checked. */
  function Failed(f: Failures, now: int): Failures {
    var open := if f.windowStart.None? || now - f.windowStart.value > WINDOW then Failures(0, Some(now), None) else f;
    var counted := open.(count := open.count + 1);
    if counted.count >= MAX_FAILURES then counted.(lockedUntil := Some(now + LOCK)) else counted
  }

  /** `token` is the fresh random token a success would issue. */
  ghost function Authenticate(env: Env, s: State, username: string, password: string, token: string,
        now: int): (State, Reply) {
    var name := env.lower(Trim(username));
    var f := FailuresOf(s, name);
    var user := UserNamed(s.users, name);
    if LockedAt(f, now) then (s, Locked)
    else if user.None? || user.value.status != "active" || !env.verify(user.value.phc, password) then
      (s.(failures := s.failures[name := Failed(f, now)]), Rejected)
    else
      (s.(failures := s.failures - {name},
          sessions := s.sessions[env.hashToken(token) := Session(user.value.id, now + SESSION_LIFETIME)],
          issued := s.issued[token := user.value.id]),
       LoggedIn(Public(user.value), token, now + SESSION_LIFETIME))
  }

  function AuthenticateToken(env: Env, s: State, token: string, now: int): (State, Reply) {
    var h := env.hashToken(token);
    if Blank(token) then (s, Unknown)
    else if h !in s.sessions || now > s.sessions[h].expires then (s.(sessions := s.sessions - {h}), Unknown)
    else
      var id := s.sessions[h].userId;
      if id !in s.users || s.users[id].status != "active" then (s.(sessions := s.sessions - {h}), Unknown)
      else (s, Known(Public(s.users[id])))
  }

  // ---- Administration ----------------------------------------------------------------------

  ghost function CreateUser(env: Env, s: State, input: NewUser, id: string, phc: string, now: int,
        persisted: bool): (State, Reply) {
    var username := env.lower(Trim(input.username));
    var displayName := Trim(input.displayName);
    var role := env.lower(Trim(input.role));
    var workspace := if input.workspace == "" then "local" else input.workspace;
    var status := if input.status == "" then "active" else input.status;
    if !ValidUser(username, displayName, role, status, input.menus) || ByteLength(input.password) < 10 then
      (s, Refused(InvalidUser))
    else if Named(s.users, username) then (s, Refused(UsernameTaken))
    else if id == "" || phc == "" || id in s.users then (s, Refused(Unavailable))
    else
      var user := User(id, workspace, username, displayName, role, NormalizeMenus(role, input.menus), status, now, now, phc);
      if !persisted then (s, Refused(PersistFailed))
      else
        var users := s.users[id := user];
        (s.(users := users, disk := Listing(users)), Saved(Public(user)))
  }

  function Revoke(sessions: map<string, Session>, id: string): map<string, Session> {
    map h | h in sessions && sessions[h].userId != id :: sessions[h]
  }

  /** The account with the patch applied, before it is checked. */
  function Patched(env: Env, u: User, patch: Patch, phc: string): User {
    var role := if Blank(patch.role) then u.role else env.lower(Trim(patch.role));
    u.(displayName := if Blank(patch.displayName) then u.displayName else Trim(patch.displayName),
       role := role,
       status := if Blank(patch.status) then u.status else env.lower(Trim(patch.status)),
       menus := NormalizeMenus(role, if patch.menus.Some? then patch.menus.value else u.menus),
       phc := if patch.password == "" then u.phc else phc)
  }

  ghost function UpdateUser(env: Env, s: State, id: string, patch: Patch, phc: string, now: int,
        persisted: bool): (State, Reply) {
    if id !in s.users then (s, Refused(NotFound))
    else
      var previous := s.users[id];
      var current := Patched(env, previous, patch, phc);
      if patch.password != "" && ByteLength(patch.password) < 10 then (s, Refused(WeakPassword))
      else if patch.password != "" && phc == "" then (s, Refused(Unavailable))
      else if !ValidUser(current.username, current.displayName, current.role, current.status, current.menus)
      then (s, Refused(InvalidUser))
      else if ActiveAdmin(previous) && !ActiveAdmin(current) && |ActiveAdmins(s.users)| == 1 then (s, Refused(LastAdmin))
      else
        var updated := current.(updatedAt := now);
        var revoked := s.(sessions := if updated.status != "active" then Revoke(s.sessions, id) else s.sessions);
        if !persisted then (revoked, Refused(PersistFailed))
        else
          var users := s.users[id := updated];
          (revoked.(users := users, disk := Listing(users)), Saved(Public(updated)))
  }

  // ---- Calls ------------------------------------------------------------------------------

  datatype Call =
    | Login(username: string, password: string, token: string, now: int)
    | CheckToken(token: string, now: int)
    | Logout(token: string)
    | Create(input: NewUser, id: string, phc: string, now: int, persisted: bool)
    | Update(id: string, patch: Patch, phc: string, now: int, persisted: bool)
    | Restart

  ghost function Step(env: Env, s: State, call: Call): (State, Reply) {
    match call
    case Login(username, password, token, now) =>
      if token in s.issued then (s, Refused(Unavailable)) else Authenticate(env, s, username, password, token, now)
    case CheckToken(token, now) => AuthenticateToken(env, s, token, now)
    case Logout(token) => (s.(sessions := s.sessions - {env.hashToken(token)}), Done)
    case Create(input, id, phc, now, persisted) => CreateUser(env, s, input, id, phc, now, persisted)
    case Update(id, patch, phc, now, persisted) => UpdateUser(env, s, id, patch, phc, now, persisted)
    case Restart =>
      (match Load(s.disk)
       case None => (s, Refused(Unavailable))
       case Some(users) =>
         (State(users, map[], map[], if Migrates(s.disk) then Listing(users) else s.disk, s.issued), Done))
  }

  ghost function Run(env: Env, s: State, calls: seq<Call>): State {
    if calls == [] then s else Step(env, Run(env, s, calls[..|calls| - 1]), calls[|calls| - 1]).0
  }

  const EMPTY := State(map[], map[], map[], [], map[])

  /** The service after its first start: one administrator with every menu. */
  ghost function Seed(env: Env, username: string, password: string, id: string, phc: string, now: int): (State, Reply) {
    var name := if Blank(username) then "admin" else username;
    var input := NewUser("local", name, "ADRO Administrator", "admin", ALL_MENUS, "active", password);
    CreateUser(env, EMPTY, input, id, phc, now, true)
  }
}
