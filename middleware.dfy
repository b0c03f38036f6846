/**
 * The site-wide access gate (middleware.ts): framework assets, the API and the login
 * page itself are open; every other page needs the auth cookie set to "1", and a
 * visitor without it is sent to the login page with the page they wanted in `from`.
 */
module Middleware {
  import opened Wrappers
  import opened JsText

  /** `COOKIE_NAME`: `SITE_PASSWORD_COOKIE` when set and non-empty, else `soiree_auth`. */
  function CookieName(env: Option<string>): (name: string)
    ensures name != []
    ensures env.Some? && env.value != [] ==> name == env.value
    ensures env.None? || env.value == [] ==> name == "soiree_auth"
  {
    if env.Some? && env.value != [] then env.value else "soiree_auth"
  }

  /** The paths let through whatever the cookies say. */
  predicate Exempt(path: string) {
    || StartsWith(path, "/_next")
    || StartsWith(path, "/favicon")
    || StartsWith(path, "/api")
    || path == "/login"
  }

  /** A URL as the redirect builds it: a path and its query parameters. */
  datatype Url = Url(pathname: string, query: map<string, string>)

  /** `NextResponse.next()` or `NextResponse.redirect(url)`. */
  datatype Decision = Next | Redirect(url: Url)

  /** `req.cookies.get(COOKIE_NAME)?.value === "1"` */
  predicate Authed(cookies: map<string, string>, env: Option<string>) {
    CookieName(env) in cookies && cookies[CookieName(env)] == "1"
  }

  /**
   * `middleware` for a request to `url` carrying `cookies`; the redirect keeps the
   * request's other query parameters and sets `from` to the path asked for.
   */
  function Gate(url: Url, cookies: map<string, string>, env: Option<string>): Decision {
    if Exempt(url.pathname) then Next
    else if Authed(cookies, env) then Next
    else Redirect(Url("/login", url.query["from" := url.pathname]))
  }

  /** Exempt paths pass without any cookie. */
  lemma ExemptPasses(url: Url, cookies: map<string, string>, env: Option<string>)
    requires Exempt(url.pathname)
    ensures Gate(url, cookies, env) == Next
  {
  }

  /** Only the login page itself is exempt, not the paths below it. */
  lemma LoginExactlyExempt()
    ensures Exempt("/login")
    ensures !Exempt("/login/x")
  {
    var p := "/login/x";
    assert p[..6][1] == 'l' != "/_next"[1];
    assert p[..8][1] == 'l' != "/favicon"[1];
    assert p[..4][1] == 'l' != "/api"[1];
  }

  /** A guarded page passes exactly when the auth cookie reads "1"; otherwise it redirects to the login page. */
  lemma GateDecides(url: Url, cookies: map<string, string>, env: Option<string>)
    requires !Exempt(url.pathname)
    ensures Gate(url, cookies, env).Next? <==> Authed(cookies, env)
    ensures Gate(url, cookies, env).Redirect? ==>
      && Gate(url, cookies, env).url.pathname == "/login"
      && Gate(url, cookies, env).url.query == url.query["from" := url.pathname]
  {
  }

  /** The redirect target is itself let through, so the gate never redirects twice in a row. */
  lemma RedirectTargetPasses(url: Url, cookies: map<string, string>, env: Option<string>)
    requires Gate(url, cookies, env).Redirect?
    ensures Gate(Gate(url, cookies, env).url, cookies, env) == Next
  {
  }
}
