/** Session authentication (lib/auth.ts, lib/requireSession.ts): the sign-in,
    jwt and session callbacks, the `authorized` route gate and the role guard
    used by every server action. The payment allow-list is a parameter:
    app/settings/users/security/actions/whitelist.ts is not part of this model. */
module Session {
  import opened Common
  import opened JsText
  import opened Users

  /** `session.user` as the session callback produces it. */
  datatype SessionUser = SessionUser(id: Option<int>, name: Option<string>, email: Option<string>, role: Option<Role>)

  /** A server action either returns or throws a response with a status. */
  datatype Outcome<T> = Returned(value: T) | Threw(status: int)

  /** requireSession: 401 without an e-mail, 401 without a role, 403 when a
      non-empty list of allowed roles leaves the role out; otherwise the user. */
  function RequireSession(session: Option<SessionUser>, allowed: seq<Role>): (r: Outcome<SessionUser>)
    ensures r.Returned? <==>
      (session.Some? && Truthy(session.value.email) && session.value.role.Some?
       && (|allowed| == 0 || session.value.role.value in allowed))
    ensures r.Returned? ==> r.value == session.value
    ensures r.Threw? ==> r.status in {401, 403}
    ensures r == Threw(403) <==>
      (session.Some? && Truthy(session.value.email) && session.value.role.Some?
       && |allowed| > 0 && session.value.role.value !in allowed)
  {
    if session.None? || !Truthy(session.value.email) then Threw(401)
    else if session.value.role.None? then Threw(401)
    else if |allowed| > 0 && session.value.role.value !in allowed then Threw(403)
    else Returned(session.value)
  }

  /** With no allowed roles, any signed-in user that has a role is admitted. */
  lemma RequireSessionEmptyListAdmitsAnyRole(u: SessionUser)
    requires Truthy(u.email) && u.role.Some?
    ensures RequireSession(Some(u), []) == Returned(u)
  {
  }

  /** The signIn callback: refused without an e-mail, otherwise allowed exactly
      when some ACTIVE history row carries that e-mail. */
  function SignIn(email: Option<string>, table: seq<UserHistory>): (ok: bool)
    ensures ok <==> Truthy(email) && exists i :: 0 <= i < |table| && ActiveWithEmail(table[i], email.value)
  {
    if !Truthy(email) then false else LatestActiveByEmail(table, email.value).Some?
  }

  datatype TokenClaims = TokenClaims(id: Option<int>, name: Option<string>, email: Option<string>, role: Option<string>)

  /** The JWT the jwt callback receives and returns, whose fields it assigns. */
  class JwtToken {
    var id: Option<int>
    var name: Option<string>
    var email: Option<string>
    var role: Option<string>

    constructor (claims: TokenClaims)
      ensures Claims() == claims
    {
      id := claims.id;
      name := claims.name;
      email := claims.email;
      role := claims.role;
    }

    function Claims(): TokenClaims
      reads this
    {
      TokenClaims(id, name, email, role)
    }

    /** The jwt callback. An API token is returned untouched; on sign-in the
        claims are copied from the latest ACTIVE history row of that e-mail
        (id, name and role become absent when there is none). */
    method ApplyJwtCallback(signInEmail: Option<string>, table: seq<UserHistory>)
      modifies this
      ensures old(role) == Some(RoleName(Api)) || signInEmail.None? ==> Claims() == old(Claims())
      ensures old(role) != Some(RoleName(Api)) && signInEmail.Some? ==>
        var row := LatestActiveByEmail(table, signInEmail.value);
        Claims() == TokenClaims(
          if row.Some? then Some(row.value.id) else None,
          if row.Some? then Some(row.value.name) else None,
          signInEmail,
          if row.Some? then Some(RoleName(row.value.role)) else None)
    {
      if role == Some(RoleName(Api)) { return; }
      if signInEmail.Some? {
        var row := LatestActiveByEmail(table, signInEmail.value);
        id := if row.Some? then Some(row.value.id) else None;
        name := if row.Some? then Some(row.value.name) else None;
        email := signInEmail;
        role := if row.Some? then Some(RoleName(row.value.role)) else None;
      }
    }
  }

  /** The session callback: id and name come from the token, the e-mail from
      the session, and the role only when the claim is a recognised role. */
  function SessionFromToken(sessionEmail: Option<string>, claims: TokenClaims): (u: SessionUser)
    ensures u.id == claims.id && u.name == claims.name && u.email == sessionEmail
    ensures u.role.Some? <==> (claims.role.Some? && claims.role.value in {"ADMIN", "USER", "API"})
    ensures u.role.Some? ==> claims.role == Some(RoleName(u.role.value))
  {
    SessionUser(claims.id, claims.name, sessionEmail, ParseRole(claims.role))
  }

  /** A user signed in through an ACTIVE history row gets that row's role in
      the session built from the token the jwt callback filled. */
  lemma SignedInSessionCarriesRowRole(h: UserHistory, table: seq<UserHistory>, email: string)
    requires LatestActiveByEmail(table, email) == Some(h)
    ensures SessionFromToken(Some(email),
      TokenClaims(Some(h.id), Some(h.name), Some(email), Some(RoleName(h.role)))).role == Some(h.role)
  {
    ParseRoleName(h.role);
  }

  datatype Authorization = Refuse | Allow | RedirectTo(path: string)

  /** The `authorized` callback: no session is refused; `/settings` needs
      ADMIN; `/posting` needs ADMIN and an allow-listed e-mail; everything else
      is allowed to any signed-in user. */
  function Authorized(auth: Option<SessionUser>, pathname: string, allowList: seq<string>): (r: Authorization)
    ensures auth.None? ==> r == Refuse
    ensures auth.Some? && StartsWith(pathname, "/settings") && auth.value.role != Some(Admin) ==>
      r == RedirectTo("/dashboard/unauthorized")
    ensures (auth.Some? && StartsWith(pathname, "/posting")
             && (auth.value.role != Some(Admin) || !Truthy(auth.value.email) || auth.value.email.value !in allowList))
      ==> r == RedirectTo("/unauthorized")
    ensures r == Allow <==>
      auth.Some?
      && (StartsWith(pathname, "/settings") ==> auth.value.role == Some(Admin))
      && (StartsWith(pathname, "/posting") ==>
            auth.value.role == Some(Admin) && Truthy(auth.value.email) && auth.value.email.value in allowList)
  {
    SettingsIsNotPosting(pathname);
    if auth.None? then Refuse
    else if StartsWith(pathname, "/settings") && auth.value.role != Some(Admin) then
      RedirectTo("/dashboard/unauthorized")
    else if StartsWith(pathname, "/posting")
      && (auth.value.role != Some(Admin) || !Truthy(auth.value.email) || auth.value.email.value !in allowList) then
      RedirectTo("/unauthorized")
    else Allow
  }

  lemma SettingsIsNotPosting(pathname: string)
    ensures !(StartsWith(pathname, "/settings") && StartsWith(pathname, "/posting"))
  {
    if StartsWith(pathname, "/settings") {
      assert pathname[..8][1] == 's';
      assert pathname[..8][1] == pathname[..9][1];
    }
  }

  /** Session cookies last 30 minutes. */
  const SessionMaxAgeSeconds := 30 * 60
}
