/** `Rq`: the request-scoped helper for headers, cookies and the current actor. */
module Rq {
  import opened Types
  import opened Text
  import opened Members
  import opened Security

  /** A servlet cookie with the attributes `setCookie` controls. */
  datatype Cookie = Cookie(
    name: string,
    value: string,
    path: Option<string>,
    domain: Option<string>,
    httpOnly: bool,
    secure: bool,
    sameSite: Option<string>,
    maxAge: int)

  /** The parts of an incoming request the core reads; `cookies == None` is a
      request without any cookie (`getCookies()` returns `null`). */
  datatype Request = Request(uri: string, headers: map<string, string>, cookies: Option<seq<Cookie>>)

  const ONE_YEAR_SECONDS: int := 60 * 60 * 24 * 365

  /** A cookie as a browser sends it back: only its name and value. */
  function RequestCookie(name: string, value: string): Cookie {
    Cookie(name, value, None, None, false, false, None, -1)
  }

  /** `getHeader(name, defaultValue)`: the header's value, or the default when absent. */
  function GetHeader(req: Request, name: string, default: string): (r: string)
    ensures name in req.headers ==> r == req.headers[name]
    ensures name !in req.headers ==> r == default
  {
    if name in req.headers then req.headers[name] else default
  }

  /** Position of the first cookie called `name`. */
  function FirstNamed(cookies: seq<Cookie>, name: string): (r: Option<nat>)
    ensures r.None? <==> forall i :: 0 <= i < |cookies| ==> cookies[i].name != name
    ensures r.Some? ==> r.value < |cookies| && cookies[r.value].name == name
    ensures r.Some? ==> forall j :: 0 <= j < r.value ==> cookies[j].name != name
  {
    if |cookies| == 0 then None
    else if cookies[0].name == name then Some(0)
    else
      match FirstNamed(cookies[1..], name)
      case None => None
      case Some(i) => Some(i + 1)
  }

  /** Some cookie called `name` carries `value`. */
  predicate HasCookie(cookies: seq<Cookie>, name: string, value: string) {
    exists i :: 0 <= i < |cookies| && cookies[i].name == name && cookies[i].value == value
  }

  /** `getCookieValue(name, defaultValue)`: only the first cookie with that name
      counts; its value when non-blank, otherwise (and with no such cookie or no
      cookies at all) the default. */
  function GetCookieValue(cookies: Option<seq<Cookie>>, name: string, default: string): (r: string)
    ensures cookies.None? ==> r == default
    ensures r == default || (cookies.Some? && HasCookie(cookies.value, name, r) && !IsBlank(r))
    ensures cookies.Some? && FirstNamed(cookies.value, name).Some? ==>
              var first := cookies.value[FirstNamed(cookies.value, name).value];
              r == (if IsBlank(first.value) then default else first.value)
  {
    match cookies
    case None => default
    case Some(cs) =>
      match FirstNamed(cs, name)
      case None => default
      case Some(i) => if IsBlank(cs[i].value) then default else cs[i].value
  }

  /** The cookie `setCookie(name, value)` builds: `null` becomes `""`; path `/`,
      HTTP-only, secure, `SameSite=Strict`, domain `localhost`; kept one year when
      the value is non-blank, expired at once otherwise. */
  function NewCookie(name: string, value: Option<string>): (c: Cookie)
    ensures c.name == name && c.value == value.OrElse("")
    ensures c.path == Some("/") && c.domain == Some("localhost") && c.sameSite == Some("Strict")
    ensures c.httpOnly && c.secure
    ensures c.maxAge == 0 <==> value.None? || IsBlank(value.value)
    ensures c.maxAge != 0 ==> c.maxAge == 31536000
  {
    var maxAge := if value.None? || IsBlank(value.value) then 0 else ONE_YEAR_SECONDS;
    Cookie(name, value.OrElse(""), Some("/"), Some("localhost"), true, true, Some("Strict"), maxAge)
  }

  /** `setCookie`: exactly one cookie is added to the response, after those already there. */
  function SetCookie(response: seq<Cookie>, name: string, value: Option<string>): (r: seq<Cookie>)
    ensures |r| == |response| + 1 && r[..|response|] == response
    ensures r[|response|] == NewCookie(name, value)
  {
    response + [NewCookie(name, value)]
  }

  /** `deleteCookie(name)` is `setCookie(name, null)`: an empty, already expired cookie. */
  function DeleteCookie(response: seq<Cookie>, name: string): (r: seq<Cookie>)
    ensures r == SetCookie(response, name, None)
    ensures var c := r[|response|];
            c.name == name && c.value == "" && c.maxAge == 0 && c.path == Some("/") && c.httpOnly
  {
    SetCookie(response, name, None)
  }

  /** A cookie set with a non-blank value reads back as that value once the browser
      returns it; a deleted (or blank) one reads back as the default. */
  lemma SetThenGetCookie(name: string, value: Option<string>, default: string)
    ensures var c := NewCookie(name, value);
            GetCookieValue(Some([RequestCookie(c.name, c.value)]), name, default)
              == (if c.maxAge == 0 then default else value.value)
  {
    var c := NewCookie(name, value);
    if value.Some? && !IsBlank(value.value) {
      assert c.value == value.value;
    }
  }

  /** `getActor()`: a lightweight member built from the `SecurityUser` principal
      (a `null` nickname becomes `""`); `None` stands for the `IllegalStateException`
      thrown when there is no such principal. */
  function GetActor(principal: Option<Principal>): (r: Option<Member>)
    ensures r.Some? <==> principal.Some? && principal.value.UserPrincipal?
    ensures r.Some? ==> var u := principal.value.user;
              r.value.id == Some(u.id) && r.value.username == Some(u.username)
              && r.value.name == Some(u.nickname.OrElse(""))
              && r.value.password.None? && r.value.apiKey.None? && r.value.profileImgUrl.None?
  {
    match principal
    case Some(UserPrincipal(u)) => Some(WithIdentity(u.id, Some(u.username), Some(u.nickname.OrElse(""))))
    case _ => None
  }
}
