/** The edge of the API (lib/middleware/apiTokenMiddleware.ts and
    app/api/auth/token/route.ts): which paths are API and webhook routes,
    the webhook secret check, and the two ways an API token is exchanged for
    a session JWT cookie. The JWT codec is an oracle: `decode` gives the
    `exp` claim as ApiAuth.ShouldRenewJwt expects it, `encode` the minted
    text. */
module Gateway {
  import opened Common
  import opened JsText
  import opened Session
  import opened ApiAuth

  const CookieName := "authjs.session-token"
  const CookieMaxAge := 1800

  predicate IsExcludedApiRoute(pathname: string) { StartsWith(pathname, "/api/auth") }

  /** isApiRoute */
  predicate IsApiRoute(pathname: string) {
    StartsWith(pathname, "/api/") && !IsExcludedApiRoute(pathname)
  }

  /** isWebhookRoute */
  predicate IsWebhookRoute(pathname: string) { StartsWith(pathname, "/api/webhooks") }

  /** The token exchange under `/api/auth` is outside the API middleware, and
      so is any path that merely begins with those letters; every other path
      under `/api/` is inside it, the webhooks included; `/api` itself and the
      pages are not. */
  lemma RouteClassification()
    ensures !IsApiRoute("/api/auth/token") && !IsWebhookRoute("/api/auth/token")
    ensures !IsApiRoute("/api/authors")
    ensures IsApiRoute("/api/webhooks/pagbb") && IsWebhookRoute("/api/webhooks/pagbb")
    ensures IsApiRoute("/api/tokens") && !IsWebhookRoute("/api/tokens")
    ensures !IsApiRoute("/api") && !IsApiRoute("/dashboard") && !IsWebhookRoute("/webhooks")
  {
    assert !IsApiRoute("/api/auth/token") by { assert "/api/auth/token"[..9] == "/api/auth"; }
    assert !IsApiRoute("/api/authors") by { assert "/api/authors"[..9] == "/api/auth"; }
    assert IsWebhookRoute("/api/webhooks/pagbb") by { assert "/api/webhooks/pagbb"[..13] == "/api/webhooks"; }
    assert IsApiRoute("/api/webhooks/pagbb") by {
      assert "/api/webhooks/pagbb"[..5] == "/api/";
      assert "/api/webhooks/pagbb"[..9][5] == 'w';
    }
    assert IsApiRoute("/api/tokens") by {
      assert "/api/tokens"[..5] == "/api/";
      assert "/api/tokens"[..9][5] == 't';
    }
    assert !IsApiRoute("/dashboard") by { assert "/dashboard"[..5][1] == 'd'; }
  }

  /** Every webhook route is also an API route. */
  lemma WebhookRouteIsApiRoute(pathname: string)
    requires IsWebhookRoute(pathname)
    ensures IsApiRoute(pathname)
  {
    assert pathname[..5] == pathname[..13][..5];
    assert pathname[..13][5] == 'w';
    assert pathname[..13][5] == pathname[5];
    if |pathname| >= 9 {
      assert pathname[..9][5] == pathname[5];
    }
  }

  /** safeCompare on ASCII strings: a length mismatch is false at once, then
      the bytes are compared. */
  function SafeCompare(a: string, b: string): (same: bool)
    ensures same <==> a == b
  {
    |a| == |b| && a == b
  }

  datatype Cookie = Cookie(name: string, value: string, httpOnly: bool, secure: bool, sameSite: string,
                           maxAge: int, path: string)

  /** A middleware answer: pass the request on (possibly setting a cookie), or
      answer with a status and an error text. */
  datatype Response = Next(cookie: Option<Cookie>) | Reply(status: int, error: string)

  const Unauthorized := Reply(401, "Unauthorized")

  /** webhookMiddleware: an unset or empty configured secret refuses every
      request; otherwise the header must equal it. */
  function WebhookMiddleware(secretHeader: Option<string>, expected: Option<string>): (r: Response)
    ensures r == Next(None) <==> Truthy(expected) && secretHeader == expected
    ensures r != Next(None) ==> r == Unauthorized
  {
    var secret := secretHeader.GetOr("");
    var wanted := expected.GetOr("");
    if wanted == "" || !SafeCompare(secret, wanted) then Unauthorized else Next(None)
  }

  /** The cookie carrying a minted JWT; `production` decides `secure`. */
  function SessionCookie(jwt: string, production: bool): (c: Cookie)
    ensures c.name == CookieName && c.value == jwt && c.httpOnly && c.secure == production
    ensures c.sameSite == "lax" && c.maxAge == 1800 && c.path == "/"
  {
    Cookie(CookieName, jwt, true, production, "lax", CookieMaxAge, "/")
  }

  /** needsJwtRenewal: no JWT at all (or an empty one) always needs one, and
      so does one that does not decode or has no `exp`; otherwise a new one
      is minted exactly when fewer than 300 seconds are left. */
  function NeedsJwtRenewal(existingJwt: Option<string>, decode: string -> Option<Option<int>>, nowMs: int): (renew: bool)
    ensures !Truthy(existingJwt) ==> renew
    ensures Truthy(existingJwt) ==>
      var d := decode(existingJwt.value);
      (d.None? || d.value.None? ==> renew)
      && (d.Some? && d.value.Some? && d.value.value != 0 ==> (renew <==> d.value.value - nowMs / 1000 < 300))
  {
    !Truthy(existingJwt) || ShouldRenewJwt(decode(existingJwt.value), nowMs)
  }

  /** apiTokenMiddleware: an invalid token is refused with 401 and no cookie;
      a valid one passes, and a freshly minted JWT for it is set exactly when
      the request has none or the one it has needs renewal. */
  function ApiTokenMiddleware(authHeader: Option<string>, rows: seq<ApiTokenRow>, now: int,
                              compare: (string, string) -> bool, existingJwt: Option<string>,
                              decode: string -> Option<Option<int>>, encode: TokenClaims -> string,
                              production: bool): (r: Response)
    ensures r == Unauthorized <==> ValidateApiToken(authHeader, rows, now, compare).identity.None?
    ensures r.Next? ==>
      var identity := ValidateApiToken(authHeader, rows, now, compare).identity;
      identity.Some?
      && (r.cookie.Some? <==> NeedsJwtRenewal(existingJwt, decode, now))
      && (r.cookie.Some? ==> r.cookie.value == SessionCookie(encode(ApiJwtClaims(identity.value)), production))
    ensures r.Reply? ==> r == Unauthorized
  {
    var verified := ValidateApiToken(authHeader, rows, now, compare);
    match verified.identity
    case None => Unauthorized
    case Some(identity) =>
      if !NeedsJwtRenewal(existingJwt, decode, now) then Next(None)
      else Next(Some(SessionCookie(encode(ApiJwtClaims(identity)), production)))
  }

  /** getClientIP: the first comma field of `x-forwarded-for` when it is not
      empty, else `x-real-ip` when present and not empty, else `unknown`. */
  function GetClientIp(forwardedFor: Option<string>, realIp: Option<string>): (ip: string)
    ensures ip != []
    ensures forwardedFor.Some? && Split(forwardedFor.value, ',')[0] != [] ==>
      ip == Split(forwardedFor.value, ',')[0] && ',' !in ip
    ensures (forwardedFor.None? || Split(forwardedFor.value, ',')[0] == []) ==>
      ip == (if Truthy(realIp) then realIp.value else "unknown")
  {
    if forwardedFor.Some? && Split(forwardedFor.value, ',')[0] != [] then Split(forwardedFor.value, ',')[0]
    else if Truthy(realIp) then realIp.value
    else "unknown"
  }

  /** A proxy chain `client, proxy1, proxy2` is attributed to the client. */
  lemma ClientIpIsFirstHop(client: string, rest: string, realIp: Option<string>)
    requires client != [] && ',' !in client
    ensures GetClientIp(Some(client + "," + rest), realIp) == client
  {
    IndexOfAfterFree(client, ',', "," + rest);
    assert client + "," + rest == client + ("," + rest);
    assert (client + "," + rest)[..|client|] == client;
  }

  /** The JSON body of a token request: unparsable, the JSON `null` (whose
      destructuring throws a TypeError), or parsed with a `token` field that
      may be missing or not a string (`None`). */
  datatype TokenBody = Malformed | NullBody | Parsed(token: Option<string>)

  /** What the token route answers: a status, an error text or the `renewed`
      flag, and the cookie it sets. */
  datatype RouteReply = RouteReply(status: int, error: Option<string>, renewed: Option<bool>, cookieJwt: Option<string>)

  function RouteError(status: int, message: string): RouteReply { RouteReply(status, Some(message), None, None) }

  const TooManyAttempts := "Muitas tentativas. Tente novamente em 1 minuto"
  const InvalidTokenBody := "Token inválido"
  const AuthenticationFailed := "Falha na autenticação"
  const InvalidJsonBody := "Body JSON inválido"
  const InternalServerError := "Erro interno do servidor"

  /** POST /api/auth/token. `limiter` is the rate limiter's verdict for this
      client (`None` when it throws, which the route answers with 500). The
      limit is decided before the body is read. */
  function TokenRoute(limiter: Option<bool>, body: TokenBody, rows: seq<ApiTokenRow>, now: int,
                      compare: (string, string) -> bool, existingJwt: Option<string>,
                      decode: string -> Option<Option<int>>, encode: TokenClaims -> string): (r: RouteReply)
    ensures limiter.None? ==> r == RouteError(500, InternalServerError)
    ensures limiter == Some(false) ==> r == RouteError(429, TooManyAttempts)
    ensures limiter == Some(true) && body.Malformed? ==> r == RouteError(400, InvalidJsonBody)
    ensures limiter == Some(true) && body.NullBody? ==> r == RouteError(500, InternalServerError)
    ensures limiter == Some(true) && body.Parsed? && body.token.None? ==> r == RouteError(400, InvalidTokenBody)
    ensures (limiter == Some(true) && body.Parsed? && body.token.Some?
             && VerifyApiToken(body.token.value, rows, now, compare).identity.None?) ==>
      r == RouteError(401, AuthenticationFailed)
    ensures r.status == 200 <==>
      limiter == Some(true) && body.Parsed? && body.token.Some?
      && VerifyApiToken(body.token.value, rows, now, compare).identity.Some?
    ensures r.status == 200 ==>
      var identity := VerifyApiToken(body.token.value, rows, now, compare).identity.value;
      r.error.None? && r.renewed == Some(NeedsJwtRenewal(existingJwt, decode, now))
      && (r.cookieJwt.Some? <==> r.renewed == Some(true))
      && (r.cookieJwt.Some? ==> r.cookieJwt.value == encode(ApiJwtClaims(identity)))
    ensures r.status != 200 ==> r.cookieJwt.None? && r.renewed.None?
  {
    match limiter
    case None => RouteError(500, InternalServerError)
    case Some(allowed) =>
      if !allowed then RouteError(429, TooManyAttempts)
      else
        match body
        case Malformed => RouteError(400, InvalidJsonBody)
        case NullBody => RouteError(500, InternalServerError)
        case Parsed(token) =>
          if token.None? then RouteError(400, InvalidTokenBody)
          else
            match VerifyApiToken(token.value, rows, now, compare).identity
            case None => RouteError(401, AuthenticationFailed)
            case Some(identity) =>
              if !NeedsJwtRenewal(existingJwt, decode, now) then RouteReply(200, None, Some(false), None)
              else RouteReply(200, None, Some(true), Some(encode(ApiJwtClaims(identity))))
  }

  /** The route and the middleware agree on when a JWT is minted for a token
      presented as `Bearer <token>`. */
  lemma RouteAndMiddlewareAgreeOnRenewal(token: string, rows: seq<ApiTokenRow>, now: int,
                                         compare: (string, string) -> bool, existingJwt: Option<string>,
                                         decode: string -> Option<Option<int>>, encode: TokenClaims -> string,
                                         production: bool)
    requires VerifyApiToken(token, rows, now, compare).identity.Some?
    ensures
      var route := TokenRoute(Some(true), Parsed(Some(token)), rows, now, compare, existingJwt, decode, encode);
      var middleware := ApiTokenMiddleware(Some("Bearer " + token), rows, now, compare, existingJwt, decode,
                                           encode, production);
      middleware.Next? && route.status == 200
      && (route.cookieJwt.Some? <==> middleware.cookie.Some?)
      && (route.cookieJwt.Some? ==> middleware.cookie.value == SessionCookie(route.cookieJwt.value, production))
  {
    HeaderFormsVerifySameToken(token, rows, now, compare);
  }
}
