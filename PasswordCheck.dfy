/** validatePassword, the first server step of the payment ceremony: an
    ordered chain of refusals, then a bcrypt comparison and a step token for
    the OTP step. The comparison is an oracle that may also throw (`None`);
    so is the token signer, whose minted value is `None` when it throws. */
module PasswordCheck {
  import opened Common
  import opened JsText
  import opened Users
  import opened Session
  import opened SecurityResults

  /** `!user.id`: an absent id or id 0. */
  predicate FalsyId(id: Option<int>) { id.None? || id.value == 0 }

  /** The checks on the session that come before the password is looked at. */
  predicate CallerMayPay(user: SessionUser, allowList: seq<string>) {
    Truthy(user.email) && !FalsyId(user.id) && user.email.value in allowList
  }

  function ValidatePassword(session: Option<SessionUser>, allowList: seq<string>, password: string,
                            table: seq<UserHistory>, queryFails: bool,
                            compare: (string, string) -> Option<bool>, minted: Option<string>): (r: Outcome<ActionResult>)
    ensures RequireSession(session, [Admin]).Threw? <==> r.Threw?
    ensures r.Threw? ==> r == Threw(RequireSession(session, [Admin]).status)
    ensures r.Returned? && !CallerMayPay(session.value, allowList) ==> r.value == Fail(NotAuthorized)
    ensures (r.Returned? && CallerMayPay(session.value, allowList) && !MissingValue(session.value.email)
             && MissingValue(Some(password))) ==>
      r.value == Fail(RequiredMessage("password"))
    ensures r.Returned? && r.value.success ==>
      var h := FetchHistoryById(table, session.value.id.value, queryFails);
      CallerMayPay(session.value, allowList) && !MissingValue(session.value.email) && !MissingValue(Some(password))
      && IsAdmin(h) && Truthy(h.value.passwordHash)
      && compare(password, h.value.passwordHash.value) == Some(true)
      && minted.Some? && r.value.token == Some(StepToken("otp", minted.value))
    ensures r.Returned? && !r.value.success ==> r.value.token.None?
    ensures (RequireSession(session, [Admin]).Returned? && CallerMayPay(session.value, allowList)
             && !MissingValue(session.value.email) && !MissingValue(Some(password))) ==>
      var h := FetchHistoryById(table, session.value.id.value, queryFails);
      (!IsAdmin(h) ==> r == Returned(Fail(ActionForbidden)))
      && (queryFails ==> r == Returned(Fail(ActionForbidden)))
      && ((IsAdmin(h) && Truthy(h.value.passwordHash) && compare(password, h.value.passwordHash.value) == Some(true)
           && minted.Some?) ==> r == Returned(Succeed(StepToken("otp", minted.value))))
      && ((IsAdmin(h) && Truthy(h.value.passwordHash) && compare(password, h.value.passwordHash.value) == Some(true)
           && minted.None?) ==> r == Returned(Fail(InternalError)))
  {
    match RequireSession(session, [Admin])
    case Threw(status) => Threw(status)
    case Returned(user) =>
      ValidateRequiredPair("email", user.email, "password", Some(password));
      Returned(
        if !Truthy(user.email) || FalsyId(user.id) then Fail(NotAuthorized)
        else if user.email.value !in allowList then Fail(NotAuthorized)
        else match ValidateRequired([("email", user.email), ("password", Some(password))])
          case Some(message) => Fail(message)
          case None =>
            if user.email.value !in allowList then Fail(NotAllowedToPay)
            else if FalsyId(user.id) then Fail("Usuário não encontrado")
            else
              var history := FetchHistoryById(table, user.id.value, queryFails);
              if !IsAdmin(history) then Fail(ActionForbidden)
              else if !Truthy(history.value.passwordHash) then Fail(InvalidPassword)
              else match compare(password, history.value.passwordHash.value)
                case None => Fail(InternalError)
                case Some(false) => Fail(InvalidPassword)
                case Some(true) =>
                  if minted.None? then Fail(InternalError) else Succeed(StepToken("otp", minted.value)))
  }

  /** A history row without a stored hash and a wrong password are refused
      with the same message, so a caller cannot tell the two apart. */
  lemma MissingHashLooksLikeWrongPassword(user: SessionUser, allowList: seq<string>, password: string,
                                          table: seq<UserHistory>, compare: (string, string) -> Option<bool>,
                                          minted: Option<string>)
    requires RequireSession(Some(user), [Admin]).Returned? && CallerMayPay(user, allowList)
    requires !MissingValue(user.email) && !MissingValue(Some(password))
    requires IsAdmin(FetchHistoryById(table, user.id.value, false))
    requires var h := FetchHistoryById(table, user.id.value, false).value;
      !Truthy(h.passwordHash) || compare(password, h.passwordHash.value) == Some(false)
    ensures ValidatePassword(Some(user), allowList, password, table, false, compare, minted)
      == Returned(Fail(InvalidPassword))
  {
  }

  /** A comparison that throws becomes the generic server error. */
  lemma CompareFailureIsInternalError(user: SessionUser, allowList: seq<string>, password: string,
                                      table: seq<UserHistory>, compare: (string, string) -> Option<bool>,
                                      minted: Option<string>)
    requires RequireSession(Some(user), [Admin]).Returned? && CallerMayPay(user, allowList)
    requires !MissingValue(user.email) && !MissingValue(Some(password))
    requires var h := FetchHistoryById(table, user.id.value, false);
      IsAdmin(h) && Truthy(h.value.passwordHash) && compare(password, h.value.passwordHash.value).None?
    ensures ValidatePassword(Some(user), allowList, password, table, false, compare, minted)
      == Returned(Fail(InternalError))
  {
  }
}
