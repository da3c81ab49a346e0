/** Users and session cookies (api/v1/users.go): where admin rights come from. */
module Sessions {
  import opened Wrappers

  datatype User = User(username: string, isAdmin: bool, archived: bool)

  /** The values of a session cookie. Cookies are signed, so a client can only present one that was issued. */
  datatype Cookie = Cookie(userID: Option<nat>, authorized: bool, admin: bool)

  /** Users by id, and every cookie issued so far; an old cookie stays presentable. */
  datatype State = State(users: seq<User>, cookies: seq<Cookie>)

  /** presented is the index of the request's cookie, None for a request without one; an index that no
      cookie has stands for a forged or damaged one, which does not decode. A fault is that of the
      write to the users table; an invalid body, or a failure before that write, Fails. fails stands
      for a failure of login between the password check and the session. */
  datatype Event =
    | Create(presented: Option<nat>, username: string, wantsAdmin: bool, fault: Fault)
    | Login(presented: Option<nat>, userID: nat, passwordMatches: bool, fails: bool)
    | Logout(presented: Option<nat>)
    | Delete(presented: Option<nat>, target: nat, fault: Fault)
    | Update(target: nat, passwordMatches: bool, username: string, wantsAdmin: bool, fault: Fault)

  const NO_COOKIE: Cookie := Cookie(None, false, false)

  predicate Decodes(s: State, presented: Option<nat>) {
    presented.Some? ==> presented.value < |s.cookies|
  }

  /** The session values a request comes with. */
  function Session(s: State, presented: Option<nat>): Cookie {
    if presented.Some? && Decodes(s, presented) then s.cookies[presented.value] else NO_COOKIE
  }

  predicate LiveUser(s: State, u: nat) {
    u < |s.users| && !s.users[u].archived
  }

  predicate UsernameTaken(s: State, username: string) {
    exists u :: 0 <= u < |s.users| && LiveUser(s, u) && s.users[u].username == username
  }

  /** The request takes effect. */
  predicate Accepted(s: State, e: Event) {
    match e
    case Create(p, name, wantsAdmin, fault) =>
      fault != Fails && Decodes(s, p) && (wantsAdmin ==> Session(s, p).admin) && !UsernameTaken(s, name)
    case Login(p, u, ok, fails) => !fails && ok && LiveUser(s, u) && Decodes(s, p)
    case Logout(p) => Decodes(s, p)
    case Delete(p, u, fault) => fault != Fails && LiveUser(s, u) && Session(s, p).admin
    case Update(u, ok, _, _, fault) => fault != Fails && ok && LiveUser(s, u)
  }

  /** What an accepted request does; a refused one changes nothing. A creation that fails late adds the
      user without a session. Logging out clears only the authorized value, and an update takes no
      admin flag from the body. */
  function Step(s: State, e: Event): State {
    if !Accepted(s, e) then s else
    match e
    case Create(p, name, wantsAdmin, fault) =>
      State(s.users + [User(name, wantsAdmin, false)],
            s.cookies + if fault == NoFault then [Cookie(Some(|s.users|), true, wantsAdmin)] else [])
    case Login(_, u, _, _) => s.(cookies := s.cookies + [Cookie(Some(u), true, s.users[u].isAdmin)])
    case Logout(p) => s.(cookies := s.cookies + [Session(s, p).(authorized := false)])
    case Delete(_, u, _) => s.(users := s.users[u := s.users[u].(archived := true)])
    case Update(u, _, name, _, _) =>
      var existing := s.users[u];
      s.(users := s.users[u := User(if name == "" then existing.username else name, existing.isAdmin, false)])
  }

  ghost predicate IsRun(ss: seq<State>, es: seq<Event>) {
    |ss| == |es| + 1 && forall i :: 0 <= i < |es| ==> ss[i + 1] == Step(ss[i], es[i])
  }

  predicate AdminUser(s: State, u: nat) {
    u < |s.users| && s.users[u].isAdmin
  }

  predicate AdminCookie(s: State, c: nat) {
    c < |s.cookies| && s.cookies[c].admin
  }

  // ----- provenance -----

  /** The admin user u was there initially, or was created before step n by a request whose
      cookie's admin flag has an origin of its own. */
  ghost predicate UserOrigin(ss: seq<State>, es: seq<Event>, n: nat, u: nat)
    requires IsRun(ss, es) && n <= |es|
    decreases n
  {
    || AdminUser(ss[0], u)
    || exists i :: 0 <= i < n && CreatedBy(ss, es, i, u) && CookieOrigin(ss, es, i, es[i].presented.value)
  }

  /** Step i created the admin user u through a presented cookie that carried the admin flag. */
  ghost predicate CreatedBy(ss: seq<State>, es: seq<Event>, i: nat, u: nat)
    requires IsRun(ss, es) && i < |es|
  {
    && es[i].Create? && es[i].wantsAdmin && Accepted(ss[i], es[i])
    && u == |ss[i].users| < |ss[i + 1].users|
    && es[i].presented.Some? && AdminCookie(ss[i], es[i].presented.value)
  }

  /** The admin flag of cookie c was there initially, or was set before step n by the creation of an
      admin user, by the login of an admin user, or kept by the logout of a flagged session, with an
      origin of its own each. */
  ghost predicate CookieOrigin(ss: seq<State>, es: seq<Event>, n: nat, c: nat)
    requires IsRun(ss, es) && n <= |es|
    decreases n
  {
    || AdminCookie(ss[0], c)
    || exists i :: 0 <= i < n && IssuedBy(ss, es, i, c)
         && (if es[i].Login? then AdminUser(ss[i], es[i].userID) && UserOrigin(ss, es, i, es[i].userID)
             else es[i].presented.Some? && AdminCookie(ss[i], es[i].presented.value)
                  && CookieOrigin(ss, es, i, es[i].presented.value))
  }

  /** Step i issued cookie c. */
  ghost predicate IssuedBy(ss: seq<State>, es: seq<Event>, i: nat, c: nat)
    requires IsRun(ss, es) && i < |es|
  {
    && ((es[i].Create? && es[i].wantsAdmin) || es[i].Login? || es[i].Logout?) && Accepted(ss[i], es[i])
    && c == |ss[i].cookies| < |ss[i + 1].cookies|
  }

  lemma OriginsLast(ss: seq<State>, es: seq<Event>, m: nat, n: nat, x: nat)
    requires IsRun(ss, es) && m <= n <= |es|
    ensures UserOrigin(ss, es, m, x) ==> UserOrigin(ss, es, n, x)
    ensures CookieOrigin(ss, es, m, x) ==> CookieOrigin(ss, es, n, x)
  {
  }

  /** Admin users and flagged cookies that a step adds are the created user and the issued cookie. */
  lemma StepAdds(s: State, e: Event, x: nat)
    ensures AdminUser(Step(s, e), x) ==>
      AdminUser(s, x) || (x == |s.users| && e.Create? && e.wantsAdmin && Accepted(s, e))
    ensures AdminCookie(Step(s, e), x) ==> AdminCookie(s, x) || (x == |s.cookies| && IssuesFlag(s, e))
  {
  }

  /** The step issues a cookie with the admin flag. */
  predicate IssuesFlag(s: State, e: Event) {
    Accepted(s, e) &&
    match e
    case Create(p, _, wantsAdmin, _) => wantsAdmin && Session(s, p).admin
    case Login(_, u, _, _) => AdminUser(s, u)
    case Logout(p) => Session(s, p).admin
    case _ => false
  }

  lemma FlaggedSessionIsCookie(s: State, p: Option<nat>)
    requires Session(s, p).admin
    ensures p.Some? && AdminCookie(s, p.value)
  {
  }

  /** After any run, every admin user and every admin flag has an origin: the chain of creators,
      logins and logouts behind it goes back to an initial admin user or an initial flagged session. */
  lemma {:induction false} AdminProvenance(ss: seq<State>, es: seq<Event>, n: nat)
    requires IsRun(ss, es) && n <= |es|
    ensures forall u: nat :: AdminUser(ss[n], u) ==> UserOrigin(ss, es, n, u)
    ensures forall c: nat :: AdminCookie(ss[n], c) ==> CookieOrigin(ss, es, n, c)
  {
    if n > 0 {
      AdminProvenance(ss, es, n - 1);
      forall u: nat | AdminUser(ss[n], u)
        ensures UserOrigin(ss, es, n, u)
      {
        UserStepOrigin(ss, es, n - 1, u);
      }
      forall c: nat | AdminCookie(ss[n], c)
        ensures CookieOrigin(ss, es, n, c)
      {
        CookieStepOrigin(ss, es, n - 1, c);
      }
    }
  }

  lemma UserStepOrigin(ss: seq<State>, es: seq<Event>, i: nat, u: nat)
    requires IsRun(ss, es) && i < |es| && AdminUser(ss[i + 1], u)
    requires AdminUser(ss[i], u) ==> UserOrigin(ss, es, i, u)
    requires forall c: nat :: AdminCookie(ss[i], c) ==> CookieOrigin(ss, es, i, c)
    ensures UserOrigin(ss, es, i + 1, u)
  {
  }

  lemma CookieStepOrigin(ss: seq<State>, es: seq<Event>, i: nat, c: nat)
    requires IsRun(ss, es) && i < |es| && AdminCookie(ss[i + 1], c)
    requires forall u: nat :: AdminUser(ss[i], u) ==> UserOrigin(ss, es, i, u)
    requires forall d: nat :: AdminCookie(ss[i], d) ==> CookieOrigin(ss, es, i, d)
    ensures CookieOrigin(ss, es, i + 1, c)
  {
    var s, e := ss[i], es[i];
    StepAdds(s, e, c);
    if AdminCookie(s, c) {
      OriginsLast(ss, es, i, i + 1, c);
    } else {
      if !e.Login? {
        FlaggedSessionIsCookie(s, e.presented);
      }
      assert IssuedBy(ss, es, i, c);
    }
  }

  lemma NoFlaggedSession(s: State, e: Event)
    requires forall x: nat :: !AdminUser(s, x) && !AdminCookie(s, x)
    ensures forall p: Option<nat> :: !Session(s, p).admin
    ensures !IssuesFlag(s, e)
    ensures e.Create? && Accepted(s, e) ==> !e.wantsAdmin
  {
    forall p: Option<nat>
      ensures !Session(s, p).admin
    {
      assert p.Some? ==> !AdminCookie(s, p.value);
    }
  }

  /** With no admin user and no flagged cookie at the start there never is one. */
  lemma {:induction false} NoAdminFromNothing(ss: seq<State>, es: seq<Event>, n: nat)
    requires IsRun(ss, es) && n <= |es|
    requires forall x: nat :: !AdminUser(ss[0], x) && !AdminCookie(ss[0], x)
    ensures forall x: nat :: !AdminUser(ss[n], x) && !AdminCookie(ss[n], x)
  {
    if n > 0 {
      NoAdminFromNothing(ss, es, n - 1);
      NoFlaggedSession(ss[n - 1], es[n - 1]);
      forall x: nat
        ensures !AdminUser(ss[n], x) && !AdminCookie(ss[n], x)
      {
        StepAdds(ss[n - 1], es[n - 1], x);
      }
    }
  }

  /** Users are never removed, and no request changes the admin flag of an existing one. */
  lemma {:induction false} AdminFlagIsPermanent(ss: seq<State>, es: seq<Event>, m: nat, n: nat, u: nat)
    requires IsRun(ss, es) && m <= n <= |es| && u < |ss[m].users|
    ensures u < |ss[n].users| && ss[n].users[u].isAdmin == ss[m].users[u].isAdmin
    ensures ss[m].users[u].archived ==> ss[n].users[u].archived
  {
    if m < n {
      AdminFlagIsPermanent(ss, es, m, n - 1, u);
    }
  }

  // ----- what outlives a user -----

  /** An issued cookie stays as it is: no request takes one back or changes it. */
  lemma {:induction false} CookiesPersist(ss: seq<State>, es: seq<Event>, m: nat, n: nat)
    requires IsRun(ss, es) && m <= n <= |es|
    ensures ss[m].cookies <= ss[n].cookies
  {
    if m < n {
      CookiesPersist(ss, es, m, n - 1);
    }
  }

  /** A cookie with the admin flag admits the creation of admin users and the deletion of users in every
      later state, whatever happened in between: logging out and archiving its user included. */
  lemma AdminFlagOutlivesItsUser(ss: seq<State>, es: seq<Event>, m: nat, n: nat, c: nat, name: string, u: nat)
    requires IsRun(ss, es) && m <= n <= |es| && AdminCookie(ss[m], c)
    ensures Accepted(ss[n], Create(Some(c), name, true, NoFault)) <==> !UsernameTaken(ss[n], name)
    ensures Accepted(ss[n], Delete(Some(c), u, NoFault)) <==> LiveUser(ss[n], u)
  {
    CookiesPersist(ss, es, m, n);
  }

  /** The user of the flagged cookie logs out and archives itself, and the cookie still creates an admin user. */
  lemma ArchivedAdminCreatesAdmin() returns (ss: seq<State>, es: seq<Event>)
    ensures IsRun(ss, es) && |es| == 4
    ensures es[0] == Login(None, 0, true, false) && es[1] == Logout(Some(0)) && es[2] == Delete(Some(0), 0, NoFault)
    ensures ss[0].users == [User("ada", true, false)] && !LiveUser(ss[3], 0)
    ensures es[3] == Create(Some(0), "bob", true, NoFault) && AdminUser(ss[4], 1)
  {
    var s0 := State([User("ada", true, false)], []);
    es := [Login(None, 0, true, false), Logout(Some(0)), Delete(Some(0), 0, NoFault),
           Create(Some(0), "bob", true, NoFault)];
    var s1 := Step(s0, es[0]);
    var s2 := Step(s1, es[1]);
    var s3 := Step(s2, es[2]);
    ss := [s0, s1, s2, s3, Step(s3, es[3])];
    assert LiveUser(s0, 0);
    assert s1.cookies == [Cookie(Some(0), true, true)];
    assert s2.users == s0.users && AdminCookie(s2, 0);
    assert s3.users == [User("ada", true, true)] && AdminCookie(s3, 0);
    assert !UsernameTaken(s3, "bob");
  }

  // ----- usernames -----

  ghost predicate UsernamesDistinct(s: State) {
    forall u: nat, v: nat :: LiveUser(s, u) && LiveUser(s, v) && s.users[u].username == s.users[v].username ==> u == v
  }

  /** Another live user has the username. */
  ghost predicate TakenElsewhere(s: State, u: nat, username: string) {
    exists v: nat :: v != u && LiveUser(s, v) && s.users[v].username == username
  }

  lemma UpdateKeepsUsernamesIff(s: State, e: Event)
    requires UsernamesDistinct(s) && e.Update? && Accepted(s, e)
    ensures UsernamesDistinct(Step(s, e)) <==> e.username == "" || !TakenElsewhere(s, e.target, e.username)
  {
    var s' := Step(s, e);
    assert forall u: nat :: LiveUser(s', u) == LiveUser(s, u);
    if e.username != "" && TakenElsewhere(s, e.target, e.username) {
      var v: nat :| v != e.target && LiveUser(s, v) && s.users[v].username == e.username;
      assert LiveUser(s', v) && LiveUser(s', e.target) && s'.users[v].username == s'.users[e.target].username;
    }
  }

  /** Live users keep distinct usernames through every request but an update to a username that another
      live user has: user creation checks for one, the update does not. */
  lemma StepKeepsUsernamesIff(s: State, e: Event)
    requires UsernamesDistinct(s)
    ensures UsernamesDistinct(Step(s, e)) <==>
      !(e.Update? && Accepted(s, e) && e.username != "" && TakenElsewhere(s, e.target, e.username))
  {
    if Accepted(s, e) {
      match e
      case Update(_, _, _, _, _) => UpdateKeepsUsernamesIff(s, e);
      case Delete(_, _, _) => assert forall u: nat :: LiveUser(Step(s, e), u) ==> LiveUser(s, u);
      case _ =>
    }
  }

  // ----- the handlers -----

  /** The fault of a write that a handler reaches only when nothing failed before it. */
  function Reached(reached: bool, fault: Fault): Fault {
    if reached then fault else Fails
  }

  class Accounts {
    var users: seq<User>
    var cookies: seq<Cookie>

    constructor (initial: seq<User>)
      ensures S() == State(initial, [])
    {
      users, cookies := initial, [];
    }

    ghost function S(): State
      reads this
    {
      State(users, cookies)
    }

    /** None for a cookie that does not decode. */
    method GetSession(presented: Option<nat>) returns (session: Option<Cookie>)
      ensures session == if Decodes(S(), presented) then Some(Session(S(), presented)) else None
    {
      if presented.None? {
        return Some(NO_COOKIE);
      }
      return if presented.value < |cookies| then Some(cookies[presented.value]) else None;
    }

    /** The user creation handler. checkFails is the username check; a failure to hash the password is
        one of fault. */
    method CreateUser(presented: Option<nat>, username: string, wantsAdmin: bool, validBody: bool, checkFails: bool,
                      fault: Fault) returns (status: Status)
      modifies this
      ensures S() == Step(old(S()), Create(presented, username, wantsAdmin, Reached(validBody && !checkFails, fault)))
      ensures status == Created201 <==>
        && fault == NoFault
        && Accepted(old(S()), Create(presented, username, wantsAdmin, Reached(validBody && !checkFails, fault)))
      ensures status == Forbidden403 <==>
        validBody && Decodes(old(S()), presented) && wantsAdmin && !Session(old(S()), presented).admin
      ensures status == BadRequest400 <==>
        || !validBody
        || !Decodes(old(S()), presented)
        || ((wantsAdmin ==> Session(old(S()), presented).admin)
            && (checkFails || exists u :: 0 <= u < |old(users)| && !old(users)[u].archived
                                          && old(users)[u].username == username))
      ensures status != Created201 ==>
        cookies == old(cookies) && (users == old(users) || users == old(users) + [User(username, wantsAdmin, false)])
      ensures status == BadRequest400 || status == Forbidden403 ==> users == old(users)
      ensures status == Created201 ==>
        && (forall u :: 0 <= u < |old(users)| && !old(users)[u].archived ==> old(users)[u].username != username)
        && users == old(users) + [User(username, wantsAdmin, false)]
        && cookies == old(cookies) + [Cookie(Some(|old(users)|), true, wantsAdmin)]
    {
      if !validBody {
        return BadRequest400;
      }
      var session := GetSession(presented);
      if session.None? {
        return BadRequest400;
      }
      if wantsAdmin {
        if !session.value.admin {
          return Forbidden403;
        }
      }
      var taken := UsernameTaken(State(users, cookies), username);
      if checkFails || taken {
        return BadRequest400;
      }
      if fault == Fails {
        return Internal500;
      }
      var createdUserID := |users|;
      users := users + [User(username, wantsAdmin, false)];
      if fault == FailsLate {
        return Internal500;
      }
      cookies := cookies + [session.value.(userID := Some(createdUserID), authorized := true, admin := wantsAdmin)];
      return Created201;
    }

    /** The login handler after the attempt has been recorded: the password is hashed anew when its hash
        is weak, and the new hash stored. */
    method FinishLogin(presented: Option<nat>, u: nat, passwordMatches: bool, hashFails: bool, storeFails: bool)
      returns (status: Status)
      modifies this
      ensures S() == Step(old(S()), Login(presented, u, passwordMatches, hashFails || storeFails))
      ensures status == OK200 <==> Accepted(old(S()), Login(presented, u, passwordMatches, hashFails || storeFails))
      ensures status == NotFound404 <==> !LiveUser(old(S()), u)
      ensures status == Unauthorized401 <==> LiveUser(old(S()), u) && !passwordMatches
      ensures status == BadRequest400 <==>
        LiveUser(old(S()), u) && passwordMatches && (hashFails || (!storeFails && !Decodes(old(S()), presented)))
      ensures users == old(users)
      ensures status == OK200 ==>
        && u < |users| && !users[u].archived && passwordMatches
        && cookies == old(cookies) + [Cookie(Some(u), true, users[u].isAdmin)]
    {
      if u >= |users| || users[u].archived {
        return NotFound404;
      }
      if !passwordMatches {
        return Unauthorized401;
      }
      if hashFails {
        return BadRequest400;
      }
      if storeFails {
        return Internal500;
      }
      var session := GetSession(presented);
      if session.None? {
        return BadRequest400;
      }
      cookies := cookies + [session.value.(userID := Some(u), authorized := true, admin := users[u].isAdmin)];
      return OK200;
    }

    method LogoutUser(presented: Option<nat>) returns (status: Status)
      modifies this
      ensures S() == Step(old(S()), Logout(presented))
      ensures status == if Decodes(old(S()), presented) then OK200 else BadRequest400
      ensures users == old(users)
      ensures status == OK200 ==>
        && |cookies| == |old(cookies)| + 1 && old(cookies) <= cookies
        && !cookies[|old(cookies)|].authorized
        && (presented.None? ==> cookies[|old(cookies)|] == Cookie(None, false, false))
        && (presented.Some? ==>
              && presented.value < |old(cookies)|
              && cookies[|old(cookies)|].userID == old(cookies)[presented.value].userID
              && cookies[|old(cookies)|].admin == old(cookies)[presented.value].admin)
    {
      var session := GetSession(presented);
      if session.None? {
        return BadRequest400;
      }
      cookies := cookies + [session.value.(authorized := false)];
      return OK200;
    }

    method DeleteUser(presented: Option<nat>, target: nat, lookupFails: bool, fault: Fault) returns (status: Status)
      modifies this
      ensures S() == Step(old(S()), Delete(presented, target, Reached(!lookupFails, fault)))
      ensures status == OK200 <==>
        fault == NoFault && Accepted(old(S()), Delete(presented, target, Reached(!lookupFails, fault)))
      ensures status == NotFound404 <==> !lookupFails && !LiveUser(old(S()), target)
      ensures status == BadRequest400 <==>
        !lookupFails && LiveUser(old(S()), target) && !Decodes(old(S()), presented)
      ensures status == Forbidden403 <==>
        && !lookupFails && LiveUser(old(S()), target)
        && Decodes(old(S()), presented) && !Session(old(S()), presented).admin
      ensures cookies == old(cookies)
      ensures status == OK200 ==>
        && presented.Some? && presented.value < |cookies| && cookies[presented.value].admin
        && target < |old(users)| && !old(users)[target].archived
        && users == old(users)[target := old(users)[target].(archived := true)]
    {
      if lookupFails {
        return Internal500;
      }
      if target >= |users| || users[target].archived {
        return NotFound404;
      }
      var session := GetSession(presented);
      if session.None? {
        return BadRequest400;
      }
      if !session.value.admin {
        return Forbidden403;
      }
      if fault != Fails {
        users := users[target := users[target].(archived := true)];
      }
      return if fault == NoFault then OK200 else Internal500;
    }

    /** The user update handler. validBody covers the new password; wantsAdmin is the is_admin field of
        the body, which the handler drops; a failure to hash the password is one of fault. */
    method UpdateUser(target: nat, validBody: bool, lookupFails: bool, passwordMatches: bool, username: string,
                      wantsAdmin: bool, fault: Fault) returns (status: Status)
      modifies this
      ensures S() == Step(old(S()), Update(target, passwordMatches, username, wantsAdmin,
                                           Reached(validBody && !lookupFails, fault)))
      ensures status == OK200 <==>
        && fault == NoFault
        && Accepted(old(S()), Update(target, passwordMatches, username, wantsAdmin,
                                     Reached(validBody && !lookupFails, fault)))
      ensures status == BadRequest400 <==> !validBody
      ensures status == NotFound404 <==> validBody && !lookupFails && !LiveUser(old(S()), target)
      ensures status == Unauthorized401 <==>
        validBody && !lookupFails && LiveUser(old(S()), target) && !passwordMatches
      ensures cookies == old(cookies)
      ensures status == OK200 ==>
        && passwordMatches && target < |old(users)| && !old(users)[target].archived
        && |users| == |old(users)|
        && (forall u :: 0 <= u < |users| && u != target ==> users[u] == old(users)[u])
        && users[target].username == (if username != "" then username else old(users)[target].username)
        && users[target].isAdmin == old(users)[target].isAdmin && !users[target].archived
    {
      if !validBody {
        return BadRequest400;
      }
      if lookupFails {
        return Internal500;
      }
      if target >= |users| || users[target].archived {
        return NotFound404;
      }
      if !passwordMatches {
        return Unauthorized401;
      }
      if fault == Fails {
        return Internal500;
      }
      var existing := users[target];
      var updated := User(username, false, false);
      // mergo.Merge: zero fields are filled from the stored user.
      updated := User(if updated.username == "" then existing.username else updated.username,
                      updated.isAdmin || existing.isAdmin, updated.archived || existing.archived);
      users := users[target := updated];
      return if fault == NoFault then OK200 else Internal500;
    }
  }
}
