/** Who can log in, and for how long a token is good. */
module AuthLogins {
  import opened Options
  import opened Text
  import opened AuthMenus
  import opened Auth
  import opened AuthProofs

  const TWELVE_HOURS := 43_200_000_000_000
  const TEN_MINUTES := 600_000_000_000
  const FIVE_MINUTES := 300_000_000_000

  // ---- Logging in -----------------------------------------------------------------------------------

  /** The name is locked at that time. */
  predicate LockedOut(s: State, name: string, now: int) {
    name in s.failures && s.failures[name].lockedUntil.Some? && now < s.failures[name].lockedUntil.value
  }

  /** An active account of that name whose stored hash the password matches. */
  predicate Opens(env: Env, s: State, id: string, name: string, password: string) {
    id in s.users && s.users[id].username == name && s.users[id].status == "active" && env.verify(s.users[id].phc, password)
  }

  /** In every reachable state a login succeeds if and only if the name is not locked and the password opens an active
      account of that name. It then gives that account, without its hash, and the token for twelve hours. A locked
      name is told so, and anything else is rejected. */
  lemma LoginIff(env: Env, s: State, username: string, password: string, token: string, now: int)
    requires Inv(env, s) && token !in s.issued
    ensures var name := env.lower(Trim(username));
            var r := Step(env, s, Login(username, password, token, now)).1;
            && (r.LoggedIn? <==> !LockedOut(s, name, now) && exists id :: Opens(env, s, id, name, password))
            && (r.Locked? <==> LockedOut(s, name, now))
            && (!r.LoggedIn? && !r.Locked? ==> r == Rejected)
            && (r.LoggedIn? ==> exists id :: Opens(env, s, id, name, password)
                                  && r == LoggedIn(s.users[id].(phc := ""), token, now + TWELVE_HOURS))
  {
    hide Listing, Failed;
    var name := env.lower(Trim(username));
    if id :| Opens(env, s, id, name, password) {
      NamedUser(s.users, id);
    }
    var user := UserNamed(s.users, name);
    if user.Some? {
      var id :| id in s.users && s.users[id] == user.value && user.value.username == name;
      assert user.value.status == "active" && env.verify(user.value.phc, password) ==> Opens(env, s, id, name, password);
    }
  }

  /** What a login leaves behind: a success forgets the failures of the name and keeps the token; a rejection is
      counted within ten minutes of the first one, and from the fifth on locks the name for five minutes. */
  lemma LoginEffect(env: Env, s: State, username: string, password: string, token: string, now: int)
    requires Inv(env, s) && token !in s.issued
    ensures var name := env.lower(Trim(username));
            var (t, r) := Step(env, s, Login(username, password, token, now));
            var was := if name in s.failures then s.failures[name] else NO_FAILURES;
            && t.users == s.users && t.disk == s.disk && t.failures - {name} == s.failures - {name}
            && (r.Locked? ==> t == s)
            && (r.LoggedIn? ==>
                  && name !in t.failures && t.issued == s.issued[token := r.user.id]
                  && t.sessions == s.sessions[env.hashToken(token) := Session(r.user.id, now + TWELVE_HOURS)])
            && (r.Rejected? ==>
                  && t.sessions == s.sessions && t.issued == s.issued && name in t.failures
                  && var anew := was.windowStart.None? || now > was.windowStart.value + TEN_MINUTES;
                     var count := if anew then 1 else was.count + 1;
                     && t.failures[name].count == count
                     && t.failures[name].windowStart == (if anew then Some(now) else was.windowStart)
                     && t.failures[name].lockedUntil ==
                        if count >= 5 then Some(now + FIVE_MINUTES) else if anew then None else was.lockedUntil)
  {
    hide Listing, UsersInv;
  }

  // ---- The life of a token ------------------------------------------------------------------------------

  /** The token stands for this account until that time. */
  predicate Standing(env: Env, s: State, token: string, id: string, expires: int) {
    && token in s.issued && env.hashToken(token) in s.sessions
    && s.sessions[env.hashToken(token)] == Session(id, expires)
    && id in s.users && s.users[id].status == "active"
  }

  /** The call ends the token: a restart, its own logout, a check after its time, or an update that takes the
      account out of service. */
  predicate Ends(env: Env, call: Call, token: string, id: string, expires: int) {
    match call
    case Restart => true
    case Logout(t) => t == token
    case CheckToken(t, now) => t == token && now > expires
    case Update(u, patch, _, _, _) => u == id && !Blank(patch.status) && env.lower(Trim(patch.status)) != "active"
    case _ => false
  }

  lemma UpdateStands(env: Env, s: State, call: Call, token: string, id: string, expires: int)
    requires call.Update? && Standing(env, s, token, id, expires) && !Ends(env, call, token, id, expires)
    ensures Standing(env, Step(env, s, call).0, token, id, expires)
  {
    hide Listing, ValidUser, NormalizeMenus, ActiveAdmins, Blank, Trim;
  }

  lemma OtherStands(env: Env, s: State, call: Call, token: string, id: string, expires: int)
    requires Injective(env.hashToken) && Standing(env, s, token, id, expires) && !Ends(env, call, token, id, expires)
    requires !call.Update?
    ensures Standing(env, Step(env, s, call).0, token, id, expires)
  {
    hide Listing, ValidUser, NormalizeMenus, Failed, Load, UserNamed;
  }

  lemma {:induction false} StandsThrough(env: Env, s: State, calls: seq<Call>, token: string, id: string, expires: int)
    requires Injective(env.hashToken) && Standing(env, s, token, id, expires)
    requires forall i | 0 <= i < |calls| :: !Ends(env, calls[i], token, id, expires)
    ensures Standing(env, Run(env, s, calls), token, id, expires)
  {
    hide Step, Standing, Ends;
    if calls != [] {
      StandsThrough(env, s, calls[..|calls| - 1], token, id, expires);
      var before, call := Run(env, s, calls[..|calls| - 1]), calls[|calls| - 1];
      if call.Update? {
        UpdateStands(env, before, call, token, id, expires);
      } else {
        OtherStands(env, before, call, token, id, expires);
      }
    }
  }

  /** A token that a login issued gives its account, as it then is, at every time up to twelve hours later and at none
      after that, whatever other calls come between: other logins, checks, accounts and updates. */
  lemma TokenStands(env: Env, s: State, username: string, password: string, token: string, now: int, calls: seq<Call>,
        later: int)
    requires Inv(env, s) && Injective(env.hashToken) && token !in s.issued && !Blank(token)
    requires Step(env, s, Login(username, password, token, now)).1.LoggedIn?
    requires var id := Step(env, s, Login(username, password, token, now)).1.user.id;
             forall i | 0 <= i < |calls| :: !Ends(env, calls[i], token, id, now + TWELVE_HOURS)
    ensures var (t, r) := Step(env, s, Login(username, password, token, now));
            var after := Run(env, t, calls);
            && r.user.id in after.users
            && AuthenticateToken(env, after, token, later).1 ==
               if later <= now + TWELVE_HOURS then Known(after.users[r.user.id].(phc := "")) else Unknown
  {
    hide Run, Step, Listing, UsersInv;
    var (t, r) := Step(env, s, Login(username, password, token, now));
    LoginStands(env, s, username, password, token, now);
    StandsThrough(env, t, calls, token, r.user.id, now + TWELVE_HOURS);
  }

  lemma LoginStands(env: Env, s: State, username: string, password: string, token: string, now: int)
    requires Inv(env, s) && token !in s.issued
    requires Step(env, s, Login(username, password, token, now)).1.LoggedIn?
    ensures var (t, r) := Step(env, s, Login(username, password, token, now));
            Standing(env, t, token, r.user.id, now + TWELVE_HOURS)
  {
    hide Listing, Step;
    LoginIff(env, s, username, password, token, now);
    LoginEffect(env, s, username, password, token, now);
    var name := env.lower(Trim(username));
    var r := Step(env, s, Login(username, password, token, now)).1;
    var id :| Opens(env, s, id, name, password) && r == LoggedIn(s.users[id].(phc := ""), token, now + TWELVE_HOURS);
    assert UserInv(id, s.users[id]);
  }

  /** A token that was logged out, or issued before a restart, is never good again. */
  lemma EndedForGood(env: Env, s: State, call: Call, token: string, calls: seq<Call>, later: int)
    requires Inv(env, s) && Injective(env.hashToken) && token in s.issued
    requires call == Logout(token) || call == Restart
    ensures AuthenticateToken(env, Run(env, Step(env, s, call).0, calls), token, later).1 == Unknown
  {
    hide Run, Inv;
    EndsNow(env, s, call, token);
    DeadForever(env, Step(env, s, call).0, calls, token);
  }

  lemma EndsNow(env: Env, s: State, call: Call, token: string)
    requires Inv(env, s) && token in s.issued && (call == Logout(token) || call == Restart)
    ensures Dead(env, Step(env, s, call).0, token)
  {
    hide Listing, Load, UsersInv, Step;
    if call == Restart {
      RestartClears(env, s);
    } else {
      LogoutClears(env, s, token);
    }
  }

  lemma RestartClears(env: Env, s: State)
    requires Inv(env, s)
    ensures Step(env, s, Restart).0.sessions == map[] && Step(env, s, Restart).0.issued == s.issued
  {
    hide Listing, UsersInv, Load;
    ReloadGivesMemory(s.users);
  }

  lemma LogoutClears(env: Env, s: State, token: string)
    ensures Step(env, s, Logout(token)).0 == s.(sessions := s.sessions - {env.hashToken(token)})
  {
  }
}
