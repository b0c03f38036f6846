/**
 * `/api/login` (app/api/login/route.ts): the submitted password is compared with the
 * configured one; only a match issues the auth cookie the access gate looks for.
 */
module LoginRoute {
  import opened Wrappers
  import opened JsText
  import opened Js
  import opened Middleware

  /** `60 * 60 * 24 * 30`: thirty days, in seconds. */
  const MaxAge := 60 * 60 * 24 * 30

  /** The cookie options `res.cookies.set` is given. */
  datatype Cookie = Cookie(
    name: string, value: string, httpOnly: bool, sameSite: string,
    secure: bool, path: string, maxAge: int)

  /**
   * The replies: 401 `{ ok: false }`, 200 `{ ok: true }` with the cookie, and the
   * uncaught error of destructuring a `null` body, which the framework answers with 500.
   */
  datatype Reply = Unauthorized | LoggedIn(cookie: Cookie) | Crashed

  /** The status each reply is sent with. */
  function StatusCode(reply: Reply): int {
    match reply
    case Unauthorized => 401
    case LoggedIn(_) => 200
    case Crashed => 500
  }

  /** `SITE_PASSWORD || ""` */
  function Expected(sitePassword: Option<string>): string {
    if sitePassword.Some? then sitePassword.value else ""
  }

  /**
   * `POST`: `body` is the parsed JSON (`None`: not JSON, read as `{ password: "" }`),
   * `sitePassword` and `cookieEnv` the two environment variables, `production` whether
   * `NODE_ENV` is "production".
   */
  function Post(body: Option<Value>, sitePassword: Option<string>, cookieEnv: Option<string>, production: bool): Reply {
    if body == Some(Null) then Crashed
    else
      var password := BodyOr(body, Obj(map["password" := Str("")]));
      var expected := Expected(sitePassword);
      if expected == [] || Get(password, "password") != Str(expected) then Unauthorized
      else LoggedIn(Cookie(CookieName(cookieEnv), "1", true, "lax", production, "/", MaxAge))
  }

  /** Without a configured password nothing logs in. */
  lemma NoPasswordNoLogin(body: Option<Value>, sitePassword: Option<string>, cookieEnv: Option<string>, production: bool)
    requires Expected(sitePassword) == []
    requires body != Some(Null)
    ensures Post(body, sitePassword, cookieEnv, production) == Unauthorized
  {
  }

  /** A login succeeds exactly when the submitted password is the configured, non-empty one. */
  lemma LoginIff(b: Value, sitePassword: Option<string>, cookieEnv: Option<string>, production: bool)
    requires !b.Null?
    ensures Post(Some(b), sitePassword, cookieEnv, production).LoggedIn?
      <==> Expected(sitePassword) != [] && Get(b, "password") == Str(Expected(sitePassword))
    ensures !Post(Some(b), sitePassword, cookieEnv, production).LoggedIn?
      ==> StatusCode(Post(Some(b), sitePassword, cookieEnv, production)) == 401
  {
  }

  /** A `null` body fails on its destructuring, outside any catch: the framework answers 500 and no cookie is set. */
  lemma NullBodyCrashes(sitePassword: Option<string>, cookieEnv: Option<string>, production: bool)
    ensures Post(Some(Null), sitePassword, cookieEnv, production) == Crashed
    ensures StatusCode(Post(Some(Null), sitePassword, cookieEnv, production)) == 500
  {
  }

  /** A body that is not JSON stands for an empty password and is refused. */
  lemma NotJsonRefused(sitePassword: Option<string>, cookieEnv: Option<string>, production: bool)
    ensures Post(None, sitePassword, cookieEnv, production) == Unauthorized
  {
  }

  /** The issued cookie: the gate's name, value "1", HTTP only, lax, secure in production, path "/", thirty days. */
  lemma IssuedCookie(body: Option<Value>, sitePassword: Option<string>, cookieEnv: Option<string>, production: bool)
    requires Post(body, sitePassword, cookieEnv, production).LoggedIn?
    ensures var c := Post(body, sitePassword, cookieEnv, production).cookie;
      && c.name == CookieName(cookieEnv) && c.value == "1" && c.httpOnly && c.sameSite == "lax"
      && c.secure == production && c.path == "/" && c.maxAge == 2592000
  {
  }

  /**
   * With the same environment, a browser that stores the issued cookie passes the gate
   * on every page afterwards.
   */
  lemma LoginOpensGate(body: Option<Value>, sitePassword: Option<string>, cookieEnv: Option<string>, production: bool,
                       cookies: map<string, string>, url: Url)
    requires Post(body, sitePassword, cookieEnv, production).LoggedIn?
    ensures var c := Post(body, sitePassword, cookieEnv, production).cookie;
      Gate(url, cookies[c.name := c.value], cookieEnv) == Next
  {
  }
}
