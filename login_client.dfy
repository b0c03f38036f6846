/**
 * The login form (app/login/LoginClient.tsx): where to go after logging in, and a submit
 * that does nothing while an earlier one is still in flight.
 */
module LoginClient {
  import opened Wrappers
  import opened JsText
  import opened Js
  import opened Middleware

  /** The `from` memo: the `from` query parameter, `/` when absent or empty or pointing back at the login page. */
  function From(param: Option<string>): (target: string)
    ensures !StartsWith(target, "/login")
    ensures param.None? || param == Some([]) ==> target == "/"
    ensures param.Some? && StartsWith(param.value, "/login") ==> target == "/"
    ensures param.Some? && param.value != [] && !StartsWith(param.value, "/login") ==> target == param.value
  {
    var f := if param.Some? && param.value != [] then param.value else "/";
    if StartsWith(f, "/login") then "/" else f
  }

  /**
   * A visitor the gate turned away comes back, after logging in, to the page they asked
   * for, unless that page lies under `/login`. A URL's path always begins with `/`.
   */
  lemma ReturnsToRequestedPage(url: Url, cookies: map<string, string>, env: Option<string>)
    requires Gate(url, cookies, env).Redirect?
    requires url.pathname != [] && url.pathname[0] == '/'
    requires !StartsWith(url.pathname, "/login")
    ensures "from" in Gate(url, cookies, env).url.query
    ensures From(Some(Gate(url, cookies, env).url.query["from"])) == url.pathname
  {
  }

  /** What the login endpoint's answer looked like to `fetch`: a network error, or a status and a body. */
  datatype Response = NetworkError(error: Value) | Answer(ok: bool, data: Option<Value>)

  const WrongPassword := "Mot de passe incorrect ou erreur serveur."
  const NetworkFailure := "Erreur r\U{00E9}seau."

  /** `m || fallback` as the text shown. */
  function MessageOr(m: Value, fallback: string): string {
    if Truthy(m) then ToStr(m) else fallback
  }

  /** Whether an answer means the login worked: `res.ok && data?.ok`, an unparsable body read as `{}`. */
  predicate Succeeded(res: Response) {
    res.Answer? && res.ok && Truthy(Get(BodyOr(res.data, Obj(map[])), "ok"))
  }

  /** The form's state: the password typed, whether a submit is in flight, the error shown, and the pages navigated to. */
  class LoginForm {
    const from: string
    var pw: string
    var loading: bool
    var err: Option<string>
    var visited: seq<string>

    /** The form never navigates to the login page. */
    predicate Valid()
      reads this
    {
      !StartsWith(from, "/login") && forall i :: 0 <= i < |visited| ==> !StartsWith(visited[i], "/login")
    }

    constructor (param: Option<string>)
      ensures from == From(param) && pw == [] && !loading && err.None? && visited == []
      ensures Valid()
    {
      from := From(param);
      pw := [];
      loading := false;
      err := None;
      visited := [];
    }

    /**
     * The first half of `submit`: nothing happens while `loading`; otherwise the error is
     * cleared, `loading` is set and the body `{ password: pw }` is sent.
     */
    method Submit() returns (sent: Option<Value>)
      requires Valid()
      modifies this
      ensures Valid()
      ensures old(loading) ==> sent.None? && unchanged(this)
      ensures !old(loading) ==> sent == Some(Obj(map["password" := Str(pw)]))
      ensures !old(loading) ==> loading && err.None? && pw == old(pw) && visited == old(visited)
    {
      if loading {
        return None;
      }
      err := None;
      loading := true;
      sent := Some(Obj(map["password" := Str(pw)]));
    }

    /**
     * The second half of `submit`, once `fetch` settles: a failure shows its message,
     * a success navigates to `from`; either way `loading` ends.
     */
    method Settle(res: Response)
      requires Valid()
      modifies this
      ensures Valid() && !loading && pw == old(pw)
      ensures Succeeded(res) ==> err == old(err) && visited == old(visited) + [from]
      ensures res.NetworkError? ==> err == Some(MessageOr(Get(res.error, "message"), NetworkFailure)) && visited == old(visited)
      ensures res.Answer? && !Succeeded(res) ==>
        err == Some(MessageOr(Get(BodyOr(res.data, Obj(map[])), "message"), WrongPassword)) && visited == old(visited)
    {
      match res {
        case NetworkError(e) =>
          err := Some(MessageOr(Get(e, "message"), NetworkFailure));
        case Answer(ok, data) =>
          var d := BodyOr(data, Obj(map[]));
          if !ok || !Truthy(Get(d, "ok")) {
            err := Some(MessageOr(Get(d, "message"), WrongPassword));
            loading := false;
            return;
          }
          visited := visited + [from];
      }
      loading := false;
    }
  }
}
