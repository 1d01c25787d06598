/** API tokens and the JWTs minted for them (lib/apiAuth.ts). An API token
    is `<id>.<secret>`; its row stores only a bcrypt hash of the secret.
    bcrypt and the next-auth JWT codec are not part of this model: the hash
    comparison is an oracle, and a decoded JWT is given by its `exp` claim. */
module ApiAuth {
  import opened Common
  import opened JsText
  import opened Users
  import opened Session

  const JwtMaxAge := 1800
  const RenewalThreshold := 300

  /** A row of the API token table. */
  datatype ApiTokenRow = ApiTokenRow(id: nat, name: string, tokenHash: string, expiresAt: Option<int>, active: bool)

  datatype ParsedToken = ParsedToken(id: int, secret: string)

  /** parseToken: exactly one '.', and a first part `parseInt` can read. */
  function ParseToken(token: string): (r: Option<ParsedToken>)
    ensures |Split(token, '.')| != 2 ==> r.None?
    ensures r.Some? <==> |Split(token, '.')| == 2 && ParseInt(Split(token, '.')[0]).Some?
    ensures r.Some? ==>
      var head := Split(token, '.')[0];
      '.' !in head && '.' !in r.value.secret && token == head + "." + r.value.secret
      && ParseInt(head) == Some(r.value.id)
  {
    var parts := Split(token, '.');
    if |parts| != 2 then None
    else
      match ParseInt(parts[0])
      case None => None
      case Some(id) =>
        JoinSplit(token, '.');
        assert parts[1..] == [parts[1]];
        Some(ParsedToken(id, parts[1]))
  }

  /** The text handed to the user when a token is created, as parseToken
      reads it back: any id and any secret without a '.' survive. */
  lemma ParseFormattedToken(id: nat, secret: string)
    requires '.' !in secret
    ensures ParseToken(NatToString(id) + "." + secret) == Some(ParsedToken(id, secret))
  {
    var head := NatToString(id);
    assert '.' !in head by {
      assert forall k :: 0 <= k < |head| ==> IsDigit(head[k]);
    }
    JoinTwo(head, secret, '.');
    SplitJoinSingle([head, secret], '.');
    ParseIntNatToString(id);
  }

  /** A token with no '.', or with two or more, is never parsed. */
  lemma ParseTokenNeedsOneDot(a: string, b: string, c: string)
    requires '.' !in a
    ensures ParseToken(a) == None
    ensures ParseToken(a + "." + b + "." + c) == None
  {
    assert IndexOf(a, '.').None?;
    var s := a + "." + b + "." + c;
    assert s == a + ("." + b + "." + c);
    IndexOfAfterFree(a, '.', "." + b + "." + c);
    assert s[|a| + 1..] == b + "." + c;
    var bc := b + "." + c;
    assert bc[|b|] == '.';
    assert IndexOf(bc, '.').Some?;
    assert Split(s, '.') == [a] + Split(bc, '.');
  }

  /** isTokenExpired: a token without an expiry never expires; otherwise it is
      expired from the instant `expiresAt` on. */
  predicate IsTokenExpired(expiresAt: Option<int>, now: int) {
    expiresAt.Some? && expiresAt.value <= now
  }

  /** Expiry is permanent: a token expired at some instant stays expired at
      every later one, one with no expiry is never expired, and one with an
      expiry is valid up to the millisecond before it. */
  lemma ExpiryIsPermanent(expiresAt: Option<int>, now: int, later: int)
    requires now <= later
    ensures IsTokenExpired(expiresAt, now) ==> IsTokenExpired(expiresAt, later)
    ensures expiresAt.None? ==> !IsTokenExpired(expiresAt, later)
    ensures expiresAt.Some? ==> IsTokenExpired(expiresAt, expiresAt.value) && !IsTokenExpired(expiresAt, expiresAt.value - 1)
  {
  }

  /** findTokenById: the row with that id, provided it is active. */
  function FindActiveToken(rows: seq<ApiTokenRow>, id: int): (r: Option<ApiTokenRow>)
    ensures r.Some? ==> r.value in rows && r.value.id == id && r.value.active
    ensures r.None? <==> forall k :: 0 <= k < |rows| ==> !(rows[k].id == id && rows[k].active)
  {
    if rows == [] then None
    else if rows[0].id == id && rows[0].active then Some(rows[0])
    else FindActiveToken(rows[1..], id)
  }

  /** What verifyApiToken returns, and whether it schedules the `lastUsedAt`
      update of a row (the update itself runs after the response). */
  datatype ApiIdentity = ApiIdentity(id: nat, name: string)
  datatype Verification = Verification(identity: Option<ApiIdentity>, touched: Option<nat>)

  /** verifyApiToken: a parse failure, no active row, an expired row and a
      secret that does not match the stored hash all give `null`; only a
      match schedules the `lastUsedAt` update, for that row. */
  function VerifyApiToken(token: string, rows: seq<ApiTokenRow>, now: int,
                          compare: (string, string) -> bool): (v: Verification)
    ensures v.touched.Some? <==> v.identity.Some?
    ensures v.identity.Some? ==> v.touched.value == v.identity.value.id
    ensures v.identity.Some? <==>
      ParseToken(token).Some? && FindActiveToken(rows, ParseToken(token).value.id).Some?
      && !IsTokenExpired(FindActiveToken(rows, ParseToken(token).value.id).value.expiresAt, now)
      && compare(ParseToken(token).value.secret, FindActiveToken(rows, ParseToken(token).value.id).value.tokenHash)
    ensures v.identity.Some? ==>
      exists k :: 0 <= k < |rows| && rows[k].active && rows[k].id == v.identity.value.id
                  && rows[k].name == v.identity.value.name && !IsTokenExpired(rows[k].expiresAt, now)
  {
    match ParseToken(token)
    case None => Verification(None, None)
    case Some(parsed) =>
      match FindActiveToken(rows, parsed.id)
      case None => Verification(None, None)
      case Some(row) =>
        if IsTokenExpired(row.expiresAt, now) then Verification(None, None)
        else if !compare(parsed.secret, row.tokenHash) then Verification(None, None)
        else
          var k :| 0 <= k < |rows| && rows[k] == row;
          Verification(Some(ApiIdentity(row.id, row.name)), Some(row.id))
  }

  /** The e-mail a minted JWT carries. */
  function ApiEmail(id: nat): string { "api-" + NatToString(id) + "@system" }

  /** createApiJwt: the claims of a JWT for an API token, with role API. */
  function ApiJwtClaims(identity: ApiIdentity): (c: TokenClaims)
    ensures ParseRole(c.role) == Some(Api)
    ensures c.id == Some(identity.id as int) && c.name == Some(identity.name) && c.email == Some(ApiEmail(identity.id))
  {
    ParseRoleName(Api);
    TokenClaims(Some(identity.id), Some(identity.name), Some(ApiEmail(identity.id)), Some(RoleName(Api)))
  }

  /** Different tokens get different e-mails. */
  lemma ApiEmailInjective(a: nat, b: nat)
    requires ApiEmail(a) == ApiEmail(b)
    ensures a == b
  {
    var sa := NatToString(a);
    var sb := NatToString(b);
    assert ApiEmail(a) == "api-" + (sa + "@system");
    assert ApiEmail(b) == "api-" + (sb + "@system");
    assert sa + "@system" == ApiEmail(a)[4..];
    assert sb + "@system" == ApiEmail(b)[4..];
    assert |sa| == |sb|;
    assert sa == (sa + "@system")[..|sa|];
    assert sb == (sb + "@system")[..|sb|];
    ParseIntNatToString(a);
    ParseIntNatToString(b);
  }

  /** The expiry in seconds of a JWT minted at `issuedAt` (seconds). */
  function MintedExp(issuedAt: int): int { issuedAt + JwtMaxAge }

  /** shouldRenewJwt. `decoded` is `None` when decoding throws or yields
      nothing, `Some(None)` when there is no `exp` claim; an `exp` of 0 is
      falsy and also renews. The current time is in milliseconds. */
  function ShouldRenewJwt(decoded: Option<Option<int>>, nowMs: int): (renew: bool)
    ensures decoded.None? || decoded.value.None? || decoded.value.value == 0 ==> renew
    ensures (decoded.Some? && decoded.value.Some? && decoded.value.value != 0) ==>
      (renew <==> decoded.value.value - nowMs / 1000 < RenewalThreshold)
  {
    match decoded
    case None => true
    case Some(exp) =>
      if exp.None? || exp.value == 0 then true
      else exp.value - nowMs / 1000 < RenewalThreshold
  }

  /** A freshly minted JWT is kept for its first 1500 seconds and renewed in
      its last 300 (the seconds are truncated from milliseconds). */
  lemma MintedJwtRenewalWindow(issuedAt: int, nowMs: int)
    requires issuedAt > 0
    ensures !ShouldRenewJwt(Some(Some(MintedExp(issuedAt))), nowMs) <==>
      nowMs / 1000 <= issuedAt + JwtMaxAge - RenewalThreshold
  {
  }

  /** extractBearerToken: an exact `Bearer ` prefix is removed, anything else
      is taken whole. */
  function ExtractBearerToken(header: string): (t: string)
    ensures StartsWith(header, "Bearer ") ==> header == "Bearer " + t
    ensures !StartsWith(header, "Bearer ") ==> t == header
  {
    if StartsWith(header, "Bearer ") then header[7..] else header
  }

  lemma ExtractBearerOfBearer(token: string)
    ensures ExtractBearerToken("Bearer " + token) == token
  {
    assert ("Bearer " + token)[..7] == "Bearer ";
  }

  /** validateApiToken: an absent or empty Authorization header gives `null`;
      otherwise the bearer token is verified. */
  function ValidateApiToken(authHeader: Option<string>, rows: seq<ApiTokenRow>, now: int,
                            compare: (string, string) -> bool): (v: Verification)
    ensures !Truthy(authHeader) ==> v == Verification(None, None)
    ensures v.identity.Some? ==> Truthy(authHeader) && v.touched == Some(v.identity.value.id)
  {
    if !Truthy(authHeader) then Verification(None, None)
    else VerifyApiToken(ExtractBearerToken(authHeader.value), rows, now, compare)
  }

  /** `Authorization: Bearer <token>` and a bare `<token>` header are verified
      alike. */
  lemma HeaderFormsVerifySameToken(token: string, rows: seq<ApiTokenRow>, now: int,
                                   compare: (string, string) -> bool)
    ensures ValidateApiToken(Some("Bearer " + token), rows, now, compare) == VerifyApiToken(token, rows, now, compare)
    ensures token != [] && !StartsWith(token, "Bearer ") ==>
      ValidateApiToken(Some(token), rows, now, compare) == VerifyApiToken(token, rows, now, compare)
  {
    ExtractBearerOfBearer(token);
  }
}
