/** `CustomAuthenticationFilter`: the per-request gate. Public paths pass straight
    through; otherwise the API key and access token are read from the
    `Authorization` header or from cookies, resolved to a member (access token
    first, then API key), and either installed as the request's identity or turned
    into a `401` error response. The token decoder and the member lookup by API key
    are inputs. */
module AuthFilter {
  import opened Types
  import opened Text
  import opened Members
  import opened Security
  import opened Rq
  import opened Exceptions
  import opened ResultEnvelope

  const EXCLUDED_PATHS: set<string> :=
    {"/api/v1/members/login", "/api/v1/members/logout", "/api/v1/members/join"}

  const BEARER_PREFIX: string := "Bearer "

  /** A request is authenticated when it is under `/api/` and not one of the excluded paths. */
  predicate NeedsAuthentication(uri: string) {
    StartsWith(uri, "/api/") && uri !in EXCLUDED_PATHS
  }

  /** A value in a decoded token payload, by its runtime type; only a 32-bit
      value is an `Int` to `as? Int`. */
  datatype ClaimValue = IntClaim(i: Int32) | LongClaim(l: int) | StringClaim(s: string) | OtherClaim

  /** A decoded token payload. */
  type Claims = map<string, ClaimValue>

  /** The API key and the access token a request carries (each possibly empty). */
  datatype Credentials = Credentials(apiKey: string, accessToken: string)

  /** The four `ServiceException`s the filter raises. */
  datatype AuthError = MalformedHeader | UnknownApiKey | MalformedToken | MissingCredentials {

    function Exception(): ServiceException {
      match this
      case MalformedHeader => ServiceException("401-2", "Authorization 헤더가 Bearer 형식이 아닙니다.")
      case UnknownApiKey => ServiceException("401-3", "API 키가 유효하지 않습니다.")
      case MalformedToken => ServiceException("401-4", "유효하지 않은 토큰입니다.")
      case MissingCredentials => ServiceException("401-5", "인증 정보가 없습니다.")
    }
  }

  /** Every filter error stands for HTTP status 401. */
  lemma AuthErrorIs401(k: AuthError)
    ensures GetRsData(k.Exception()) == Some(RsData(k.Exception().resultCode, 401, k.Exception().msg, None))
  {
    var code := k.Exception().resultCode;
    assert FormatInt(401) == "401" by {
      assert NatDigits(4) == "4";
      assert NatDigits(40) == "40";
    }
    assert code == FormatInt(401) + "-" + code[4..];
    StatusOfNumericPrefix(401, code[4..]);
  }

  /** `header.split(" ", limit = 3)`: the second piece is the API key, the third (which
      keeps any later spaces) the access token; a missing piece is `""`. */
  function BearerCredentials(header: string): (c: Credentials)
    ensures ' ' !in c.apiKey
  {
    var parts := Split(header, ' ', 3);
    SplitPiecesFree(header, ' ', 3);
    SplitLastPieceFree(header, ' ', 3);
    Credentials(if |parts| > 1 then parts[1] else "", if |parts| > 2 then parts[2] else "")
  }

  /** After `"Bearer "`, the API key runs to the next space and the access token is everything after it. */
  lemma BearerHeaderSplit(rest: string)
    ensures ' ' !in rest ==> BearerCredentials(BEARER_PREFIX + rest) == Credentials(rest, "")
    ensures ' ' in rest ==>
              var i := IndexOf(rest, ' ').value;
              BearerCredentials(BEARER_PREFIX + rest) == Credentials(rest[..i], rest[i + 1..])
  {
    var header := BEARER_PREFIX + rest;
    assert header[..6] == "Bearer" && header[6] == ' ' && header[7..] == rest;
    SplitAt(header, ' ', 3, 6);
    if ' ' in rest {
      var i := IndexOf(rest, ' ').value;
      SplitAt(rest, ' ', 2, i);
    }
  }

  /** `"Bearer <k> <t>"` gives `(k, t)` and `"Bearer <k>"` gives `(k, "")` for a key without spaces. */
  lemma BearerKeyAndToken(k: string, t: string)
    requires ' ' !in k
    ensures BearerCredentials(BEARER_PREFIX + k + " " + t) == Credentials(k, t)
    ensures BearerCredentials(BEARER_PREFIX + k) == Credentials(k, "")
  {
    var rest := k + " " + t;
    assert rest[..|k|] == k && rest[|k|] == ' ' && rest[|k| + 1..] == t;
    IndexOfFirst(rest, ' ', |k|);
    assert BEARER_PREFIX + k + " " + t == BEARER_PREFIX + rest;
    BearerHeaderSplit(rest);
    BearerHeaderSplit(k);
  }

  /** A blank header does not start with `"Bearer "`. */
  lemma BlankHeaderNotBearer(header: string)
    requires IsBlank(header)
    ensures !StartsWith(header, BEARER_PREFIX)
  {
    if |header| >= |BEARER_PREFIX| {
      assert header[..|BEARER_PREFIX|][0] == header[0];
      assert !IsWhitespace('B');
    }
  }

  /** `extractCredentials`: a non-blank `Authorization` header must start with
      `"Bearer "` (else `401-2`) and supplies both values; a blank or absent one
      leaves them to the `apiKey` and `accessToken` cookies. */
  function ExtractCredentials(req: Request): (r: Result<Credentials, AuthError>)
    ensures var header := GetHeader(req, "Authorization", "");
            IsBlank(header) ==> r == Ok(Credentials(GetCookieValue(req.cookies, "apiKey", ""),
                                                    GetCookieValue(req.cookies, "accessToken", "")))
    ensures var header := GetHeader(req, "Authorization", "");
            !IsBlank(header) && !StartsWith(header, BEARER_PREFIX) ==> r == Err(MalformedHeader)
    ensures var header := GetHeader(req, "Authorization", "");
            StartsWith(header, BEARER_PREFIX) ==> r == Ok(BearerCredentials(header))
  {
    var header := GetHeader(req, "Authorization", "");
    if !IsBlank(header) then
      if !StartsWith(header, BEARER_PREFIX) then Err(MalformedHeader)
      else Ok(BearerCredentials(header))
    else
      BlankHeaderNotBearer(header);
      Ok(Credentials(GetCookieValue(req.cookies, "apiKey", ""), GetCookieValue(req.cookies, "accessToken", "")))
  }

  /** `payload[key] as? Int`. */
  function IntClaimOf(claims: Claims, key: string): (r: Option<int>)
    ensures r.Some? <==> key in claims && claims[key].IntClaim?
    ensures r.Some? ==> IsInt(r.value) && claims[key] == IntClaim(r.value)
  {
    if key in claims && claims[key].IntClaim? then Some(claims[key].i) else None
  }

  /** `payload[key] as? String`. */
  function StringClaimOf(claims: Claims, key: string): (r: Option<string>)
    ensures r.Some? <==> key in claims && claims[key].StringClaim?
    ensures r.Some? ==> claims[key] == StringClaim(r.value)
  {
    if key in claims && claims[key].StringClaim? then Some(claims[key].s) else None
  }

  /** A non-blank access token that decodes. */
  predicate TokenDecodes(accessToken: string, decode: string -> Option<Claims>) {
    !IsBlank(accessToken) && decode(accessToken).Some?
  }

  /** `authenticateUser`: a non-blank access token whose payload decodes decides
      alone (its `Int` id, or `401-4`); otherwise a non-blank API key is looked up
      (`401-3` when unknown); with neither, `401-5`. */
  function AuthenticateUser(apiKey: string, accessToken: string, decode: string -> Option<Claims>,
                            membersByApiKey: map<string, Member>): (r: Result<Member, AuthError>)
    ensures TokenDecodes(accessToken, decode) ==>
              var claims := decode(accessToken).value;
              match IntClaimOf(claims, "id")
              case None => r == Err(MalformedToken)
              case Some(id) =>
                r == Ok(WithIdentity(id, StringClaimOf(claims, "username"), StringClaimOf(claims, "name")))
    ensures !TokenDecodes(accessToken, decode) && !IsBlank(apiKey) ==>
              r == (if apiKey in membersByApiKey then Ok(membersByApiKey[apiKey]) else Err(UnknownApiKey))
    ensures !TokenDecodes(accessToken, decode) && IsBlank(apiKey) ==> r == Err(MissingCredentials)
  {
    if !IsBlank(accessToken) && decode(accessToken).Some? then
      var claims := decode(accessToken).value;
      match IntClaimOf(claims, "id")
      case None => Err(MalformedToken)
      case Some(id) => Ok(WithIdentity(id, StringClaimOf(claims, "username"), StringClaimOf(claims, "name")))
    else if !IsBlank(apiKey) then
      if apiKey in membersByApiKey then Ok(membersByApiKey[apiKey]) else Err(UnknownApiKey)
    else
      Err(MissingCredentials)
  }

  /** A decodable access token wins: the API key and the member store do not matter. */
  lemma TokenTakesPrecedence(apiKey1: string, apiKey2: string, accessToken: string,
                             decode: string -> Option<Claims>,
                             store1: map<string, Member>, store2: map<string, Member>)
    requires TokenDecodes(accessToken, decode)
    ensures AuthenticateUser(apiKey1, accessToken, decode, store1)
         == AuthenticateUser(apiKey2, accessToken, decode, store2)
  {
  }

  /** `setSecurityContext`: the identity installed for a member; `None` stands for
      the `NullPointerException` of `member.id!!` or `member.username!!`. */
  function ToSecurityUser(m: Member): (r: Option<SecurityUser>)
    ensures r.Some? <==> m.id.Some? && m.username.Some?
    ensures r.Some? ==> r.value.id == m.id.value && r.value.username == m.username.value
    ensures r.Some? ==> r.value.password == "" && r.value.nickname == Some(m.name.OrElse(""))
    ensures r.Some? ==> r.value.authorities == Authorities(m)
  {
    if m.id.None? || m.username.None? then None
    else Some(SecurityUser(m.id.value, m.username.value, "", Some(m.name.OrElse("")), Authorities(m)))
  }

  /** The installed identity reads back through `Rq.getActor` as the same member. */
  lemma InstalledIdentityIsActor(m: Member)
    requires m.id.Some? && m.username.Some?
    ensures var actor := GetActor(Some(UserPrincipal(ToSecurityUser(m).value)));
            actor.Some? && SameMember(actor.value, m) && actor.value.username == m.username
            && actor.value.name == Some(m.name.OrElse(""))
            && IsAdmin(actor.value) == IsAdmin(m)
  {
  }

  /** What a request leads to. */
  datatype FilterOutcome =
    | Continue(identity: Option<SecurityUser>)   // the downstream chain runs, with or without an identity
    | Respond(status: int, body: RsData<()>)       // an error response is written; the chain does not run
    | Abort                                        // an exception other than ServiceException escapes

  /** `handleServiceException`: the response status is the number before the `-`
      of the error's result code, and the body is the error's envelope. */
  function HandleServiceException(e: ServiceException): (r: FilterOutcome)
    ensures r.Respond? <==> StatusOf(e.resultCode).Some?
    ensures r.Respond? ==> r.status == StatusOf(e.resultCode).value && r.status == r.body.statusCode
    ensures r.Respond? ==> r.body.resultCode == e.resultCode && r.body.msg == e.msg && r.body.data.None?
    ensures !r.Respond? ==> r == Abort
  {
    match GetRsData(e)
    case None => Abort
    case Some(rs) => Respond(rs.statusCode, rs)
  }

  /** The error response for one of the filter's errors: status 401 and the error's envelope. */
  function Rejected(k: AuthError): FilterOutcome {
    Respond(401, RsData(k.Exception().resultCode, 401, k.Exception().msg, None))
  }

  /** `handleServiceException` applied to a filter error gives that error's `401` response. */
  lemma HandleAuthError(k: AuthError)
    ensures HandleServiceException(k.Exception()) == Rejected(k)
  {
    AuthErrorIs401(k);
  }

  /** Different filter errors give different responses. */
  lemma RejectedInjective(a: AuthError, b: AuthError)
    ensures Rejected(a) == Rejected(b) ==> a == b
  {
    var ca := a.Exception().resultCode;
    var cb := b.Exception().resultCode;
    assert |ca| == 5 && |cb| == 5;
    if a != b {
      assert ca[4] != cb[4];
    }
  }

  /** `doFilterInternal` with `processAuthentication`. */
  function Filter(req: Request, decode: string -> Option<Claims>, membersByApiKey: map<string, Member>)
    : (r: FilterOutcome)
    ensures !NeedsAuthentication(req.uri) ==> r == Continue(None)
    ensures r.Respond? ==> exists k: AuthError :: r == Rejected(k)
    ensures r.Respond? ==> r.status == 401 && StatusOf(r.body.resultCode) == Some(r.status)
    ensures r.Continue? && r.identity.Some? ==> NeedsAuthentication(req.uri)
  {
    if !NeedsAuthentication(req.uri) then Continue(None)
    else
      match ExtractCredentials(req)
      case Err(k) => HandleAuthError(k); HandleServiceException(k.Exception())
      case Ok(creds) =>
        if IsBlank(creds.apiKey) && IsBlank(creds.accessToken) then Continue(None)
        else
          match AuthenticateUser(creds.apiKey, creds.accessToken, decode, membersByApiKey)
          case Err(k) => HandleAuthError(k); HandleServiceException(k.Exception())
          case Ok(member) =>
            match ToSecurityUser(member)
            case None => Abort
            case Some(user) => Continue(Some(user))
  }

  /** On a protected path, a successful authentication, by access token or by API
      key, from the header or from the cookies, continues the chain with that
      member's identity installed. */
  lemma FilterInstallsAuthenticatedMember(req: Request, decode: string -> Option<Claims>,
                                          store: map<string, Member>, m: Member)
    requires NeedsAuthentication(req.uri) && ExtractCredentials(req).Ok?
    ensures var c := ExtractCredentials(req).value;
            !(IsBlank(c.apiKey) && IsBlank(c.accessToken))
            && AuthenticateUser(c.apiKey, c.accessToken, decode, store) == Ok(m) ==>
              Filter(req, decode, store)
              == (if ToSecurityUser(m).Some? then Continue(ToSecurityUser(m)) else Abort)
  {
  }

  /** A protected request without an `Authorization` header whose only cookie is a
      known API key is let through as the member that key belongs to. */
  lemma ApiKeyCookieAuthenticates(uri: string, k: string, decode: string -> Option<Claims>,
                                  store: map<string, Member>)
    requires NeedsAuthentication(uri) && !IsBlank(k) && k in store
    ensures var req := Request(uri, map[], Some([RequestCookie("apiKey", k)]));
            Filter(req, decode, store)
            == (if ToSecurityUser(store[k]).Some? then Continue(ToSecurityUser(store[k])) else Abort)
  {
    var cookies := [RequestCookie("apiKey", k)];
    assert FirstNamed(cookies, "apiKey") == Some(0);
    assert FirstNamed(cookies, "accessToken").None?;
  }

  /** Conversely, an installed identity always comes from a successful
      authentication of the request's credentials. */
  lemma InstalledIdentityWasAuthenticated(req: Request, decode: string -> Option<Claims>,
                                          store: map<string, Member>)
    ensures var r := Filter(req, decode, store);
            r.Continue? && r.identity.Some? ==>
              && NeedsAuthentication(req.uri)
              && ExtractCredentials(req).Ok?
              && var c := ExtractCredentials(req).value;
                 var auth := AuthenticateUser(c.apiKey, c.accessToken, decode, store);
                 auth.Ok? && ToSecurityUser(auth.value) == r.identity
  {
  }

  /** A public path is let through whatever credentials the request carries. */
  lemma PublicPathsIgnoreCredentials(req: Request, decode: string -> Option<Claims>, store: map<string, Member>)
    requires !NeedsAuthentication(req.uri)
    ensures Filter(req, decode, store) == Continue(None)
  {
  }

  /** A protected request whose non-blank `Authorization` header is not a Bearer
      header is answered with `401-2`, and the chain does not run. */
  lemma NonBearerHeaderRejected(req: Request, decode: string -> Option<Claims>, store: map<string, Member>)
    requires NeedsAuthentication(req.uri)
    requires "Authorization" in req.headers
    requires !IsBlank(req.headers["Authorization"]) && !StartsWith(req.headers["Authorization"], BEARER_PREFIX)
    ensures Filter(req, decode, store) == Rejected(MalformedHeader)
  {
    assert GetHeader(req, "Authorization", "") == req.headers["Authorization"];
    assert ExtractCredentials(req) == Err(MalformedHeader);
    HandleAuthError(MalformedHeader);
  }

  /** With neither an API key nor an access token the request continues anonymously. */
  lemma NoCredentialsContinueAnonymously(req: Request, decode: string -> Option<Claims>, store: map<string, Member>)
    requires ExtractCredentials(req).Ok?
    requires IsBlank(ExtractCredentials(req).value.apiKey) && IsBlank(ExtractCredentials(req).value.accessToken)
    ensures Filter(req, decode, store) == Continue(None)
  {
  }

  /** Which step produced an error response: the header check, or authentication. */
  lemma FilterRejection(req: Request, decode: string -> Option<Claims>, store: map<string, Member>, k: AuthError)
    ensures Filter(req, decode, store) == Rejected(k) && ExtractCredentials(req).Err? ==> k == MalformedHeader
    ensures Filter(req, decode, store) == Rejected(k) && ExtractCredentials(req).Ok? ==>
              var c := ExtractCredentials(req).value;
              !(IsBlank(c.apiKey) && IsBlank(c.accessToken))
              && AuthenticateUser(c.apiKey, c.accessToken, decode, store) == Err(k)
  {
    var creds := ExtractCredentials(req);
    if Filter(req, decode, store) != Rejected(k) {
    } else if creds.Err? {
      HandleAuthError(creds.error);
      RejectedInjective(creds.error, k);
    } else {
      var c := creds.value;
      var auth := AuthenticateUser(c.apiKey, c.accessToken, decode, store);
      if auth.Err? {
        HandleAuthError(auth.error);
        RejectedInjective(auth.error, k);
      }
    }
  }

  /** `401-5` is answered only when the API key is blank and the access token is
      non-blank but does not decode. */
  lemma NoCredentialsErrorReachability(req: Request, decode: string -> Option<Claims>, store: map<string, Member>)
    ensures Filter(req, decode, store) == Rejected(MissingCredentials) ==>
              && ExtractCredentials(req).Ok?
              && var c := ExtractCredentials(req).value;
                 IsBlank(c.apiKey) && !IsBlank(c.accessToken) && decode(c.accessToken).None?
  {
    FilterRejection(req, decode, store, MissingCredentials);
    if Filter(req, decode, store) == Rejected(MissingCredentials) {
      var c := ExtractCredentials(req).value;
      MissingCredentialsOnlyWhen(c.apiKey, c.accessToken, decode, store);
    }
  }

  /** Authentication reports missing credentials only for a blank API key and a token that does not decode. */
  lemma MissingCredentialsOnlyWhen(apiKey: string, accessToken: string, decode: string -> Option<Claims>,
                                   store: map<string, Member>)
    requires AuthenticateUser(apiKey, accessToken, decode, store) == Err(MissingCredentials)
    ensures IsBlank(apiKey) && !TokenDecodes(accessToken, decode)
  {
  }

  /** The filter fails closed: on a protected path with non-blank credentials, an
      authentication failure is answered with that failure's `401` response and
      the chain does not run. */
  lemma FilterRejectsFailedAuthentication(req: Request, decode: string -> Option<Claims>,
                                          store: map<string, Member>, k: AuthError)
    requires NeedsAuthentication(req.uri) && ExtractCredentials(req).Ok?
    requires var c := ExtractCredentials(req).value;
             !(IsBlank(c.apiKey) && IsBlank(c.accessToken))
             && AuthenticateUser(c.apiKey, c.accessToken, decode, store) == Err(k)
    ensures Filter(req, decode, store) == Rejected(k)
  {
    HandleAuthError(k);
  }

  /** A Bearer header carrying a decodable token with an `Int` id and a string
      username authenticates as that id, whatever API key precedes it and whatever
      the member store holds. */
  lemma BearerTokenAuthenticates(uri: string, k: string, t: string, cookies: Option<seq<Cookie>>,
                                 decode: string -> Option<Claims>, store: map<string, Member>)
    requires NeedsAuthentication(uri)
    requires ' ' !in k && !IsBlank(t) && decode(t).Some?
    requires IntClaimOf(decode(t).value, "id").Some? && StringClaimOf(decode(t).value, "username").Some?
    ensures var req := Request(uri, map["Authorization" := BEARER_PREFIX + k + " " + t], cookies);
            var r := Filter(req, decode, store);
            r.Continue? && r.identity.Some?
            && r.identity.value.id == IntClaimOf(decode(t).value, "id").value
            && r.identity.value.username == StringClaimOf(decode(t).value, "username").value
  {
    var header := BEARER_PREFIX + k + " " + t;
    BearerKeyAndToken(k, t);
    assert StartsWith(header, BEARER_PREFIX) by {
      assert header[..|BEARER_PREFIX|] == BEARER_PREFIX;
    }
  }
}
