/**
 * The server actions `loginAction`, `logoutAction` and `getSession` over the
 * request's cookie store.  A session is nothing but a cookie named
 * `session` with the value `authenticated`.
 */
module AuthActions {
  import opened Wrappers

  const ValidEmail: string := "test@example.com"
  const ValidPassword: string := "password123"
  const SessionCookieName: string := "session"
  const AuthenticatedValue: string := "authenticated"
  /** 24 hours, in seconds. */
  const SessionMaxAge: int := 60 * 60 * 24

  datatype CookieOptions = CookieOptions(httpOnly: bool, secure: bool, sameSite: string, maxAge: int)
  datatype Cookie = Cookie(value: string, options: CookieOptions)

  datatype SessionUser = SessionUser(name: string, email: string)
  const TestUser: SessionUser := SessionUser("Test User", ValidEmail)

  datatype LoginResult = LoginSucceeded(user: SessionUser) | LoginFailed(error: string)

  /** The cookie store `cookies()` hands out: a name-to-cookie map that the actions update. */
  class CookieStore {
    var jar: map<string, Cookie>

    constructor (initial: map<string, Cookie>)
      ensures jar == initial
    {
      jar := initial;
    }

    method Set(name: string, value: string, options: CookieOptions)
      modifies this
      ensures jar == old(jar)[name := Cookie(value, options)]
    {
      jar := jar[name := Cookie(value, options)];
    }

    method Delete(name: string)
      modifies this
      ensures jar == old(jar) - {name}
    {
      jar := jar - {name};
    }

    method Get(name: string) returns (c: Option<Cookie>)
      ensures c.Some? <==> name in jar
      ensures c.Some? ==> c.value == jar[name]
    {
      c := if name in jar then Some(jar[name]) else None;
    }
  }

  /** The cookie a successful login sets; `secure` follows `NODE_ENV === "production"`. */
  function SessionCookie(production: bool): (c: Cookie)
    ensures c.value == AuthenticatedValue && c.options.maxAge == 86400
  {
    Cookie(AuthenticatedValue, CookieOptions(true, production, "lax", SessionMaxAge))
  }

  /** Who `getSession` reports for a cookie jar. */
  function SessionUserOf(jar: map<string, Cookie>): (u: Option<SessionUser>)
    ensures u.Some? <==> SessionCookieName in jar && jar[SessionCookieName].value == AuthenticatedValue
    ensures u.Some? ==> u.value == TestUser
  {
    if SessionCookieName in jar && jar[SessionCookieName].value == AuthenticatedValue then Some(TestUser) else None
  }

  /** `loginAction`: only the exact test credentials open a session. */
  method LoginAction(store: CookieStore, email: string, password: string, production: bool) returns (r: LoginResult)
    modifies store
    ensures r.LoginSucceeded? <==> email == ValidEmail && password == ValidPassword
    ensures r.LoginSucceeded? ==>
              r.user == TestUser && store.jar == old(store.jar)[SessionCookieName := SessionCookie(production)]
    ensures r.LoginFailed? ==> r.error == "Invalid credentials" && store.jar == old(store.jar)
  {
    if email == ValidEmail && password == ValidPassword {
      store.Set(SessionCookieName, AuthenticatedValue, CookieOptions(true, production, "lax", SessionMaxAge));
      return LoginSucceeded(SessionUser("Test User", ValidEmail));
    }
    return LoginFailed("Invalid credentials");
  }

  /** `logoutAction`: removes the session cookie and nothing else, and always succeeds. */
  method LogoutAction(store: CookieStore) returns (success: bool)
    modifies store
    ensures success
    ensures store.jar == old(store.jar) - {SessionCookieName}
  {
    store.Delete(SessionCookieName);
    return true;
  }

  /** `getSession`: the test user when the session cookie says `authenticated`, otherwise nobody. */
  method GetSession(store: CookieStore) returns (user: Option<SessionUser>)
    ensures user == SessionUserOf(store.jar)
  {
    var session := store.Get(SessionCookieName);
    if session.Some? && session.value.value == AuthenticatedValue {
      return Some(SessionUser("Test User", ValidEmail));
    }
    return None;
  }

  /** After a successful login the session is open, whatever other cookies there are. */
  lemma SessionAfterLogin(jar: map<string, Cookie>, production: bool)
    ensures SessionUserOf(jar[SessionCookieName := SessionCookie(production)]) == Some(TestUser)
  {
  }

  /** After a logout the session is closed, and every other cookie is as it was. */
  lemma SessionAfterLogout(jar: map<string, Cookie>)
    ensures SessionUserOf(jar - {SessionCookieName}) == None
    ensures forall name :: name in jar && name != SessionCookieName ==> name in jar - {SessionCookieName} && (jar - {SessionCookieName})[name] == jar[name]
  {
  }

  /** Log in, read the session, log out, read it again. */
  method SignInAndOut(store: CookieStore, production: bool) returns (during: Option<SessionUser>, after: Option<SessionUser>)
    modifies store
    ensures during == Some(TestUser) && after == None
    ensures store.jar == old(store.jar) - {SessionCookieName}
  {
    var r := LoginAction(store, ValidEmail, ValidPassword, production);
    during := GetSession(store);
    var _ := LogoutAction(store);
    after := GetSession(store);
    assert store.jar == old(store.jar)[SessionCookieName := SessionCookie(production)] - {SessionCookieName};
  }
}
