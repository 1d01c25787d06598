/** The OTP server actions: validateOtp with its replay markers, getOtpStatus,
    and the two-phase TOTP enrolment (generateOtpQrCode writes a secret while
    OTP is disabled, enableOtp switches it on). The TOTP code generator, the
    QR renderer, the otpauth URL builder and the secret generator are
    oracles passed as parameters; the Redis key space is an in-memory map. */
module Otp {
  import opened Common
  import opened JsText
  import opened Users
  import opened Session
  import opened SecurityResults

  /** `/^\d{6}$/` */
  predicate SixDigits(otp: string) { |otp| == 6 && AllDigits(otp) }

  /** TOTP verification with `window: 1` (RFC 6238, section 5.2): the code is
      accepted for the current 30-second time step and the two adjacent ones.
      `code(secret, step)` is the generator of section 4. */
  function TotpVerify(code: (string, int) -> string, secret: string, otp: string, nowSeconds: int): (accepted: bool)
    ensures otp == code(secret, nowSeconds / 30) ==> accepted
    ensures otp == code(secret, (nowSeconds - 30) / 30) ==> accepted
    ensures otp == code(secret, (nowSeconds + 30) / 30) ==> accepted
    ensures accepted ==> exists step :: nowSeconds / 30 - 1 <= step <= nowSeconds / 30 + 1 && otp == code(secret, step)
  {
    var t := nowSeconds / 30;
    otp == code(secret, t - 1) || otp == code(secret, t) || otp == code(secret, t + 1)
  }

  /** A code generated at any instant is still accepted one time step later. */
  lemma TotpAcceptsPreviousStep(code: (string, int) -> string, secret: string, issuedAt: int)
    ensures TotpVerify(code, secret, code(secret, issuedAt / 30), issuedAt + 30)
  {
    assert (issuedAt + 30) / 30 == issuedAt / 30 + 1;
  }

  /** `used_otp:${userId}:${otp}` */
  function OtpKey(userId: nat, otp: string): string {
    "used_otp:" + NatToString(userId) + ":" + otp
  }

  /** Replay markers of different users or different codes never share a key. */
  lemma OtpKeyInjective(a: nat, otpA: string, b: nat, otpB: string)
    requires ':' !in otpA && ':' !in otpB
    requires OtpKey(a, otpA) == OtpKey(b, otpB)
    ensures a == b && otpA == otpB
  {
    var pa := NatToString(a);
    var pb := NatToString(b);
    assert ':' !in pa by { assert AllDigits(pa); }
    assert ':' !in pb by { assert AllDigits(pb); }
    JoinThree("used_otp", pa, otpA, ':');
    JoinThree("used_otp", pb, otpB, ':');
    assert "used_otp:" == "used_otp" + [':'];
    SplitJoinSingle(["used_otp", pa, otpA], ':');
    SplitJoinSingle(["used_otp", pb, otpB], ':');
    ParseIntNatToString(a);
    ParseIntNatToString(b);
  }

  /** The markers Redis holds: key to expiry instant, in seconds. */
  class UsedOtpStore {
    var markers: map<string, int>

    constructor ()
      ensures markers == map[]
    {
      markers := map[];
    }

    /** `redis.get(key)` at time `now`: present and not yet expired. */
    predicate IsUsed(key: string, now: int)
      reads this
    {
      key in markers && now < markers[key]
    }

    /** `redis.setex(key, ttl, 'used')` */
    method SetEx(key: string, ttl: int, now: int)
      modifies this
      ensures markers == old(markers)[key := now + ttl]
    {
      markers := markers[key := now + ttl];
    }

    /** Redis dropping every marker whose time has come. */
    method Expire(now: int)
      modifies this
      ensures markers == map k | k in old(markers) && now < old(markers)[k] :: old(markers)[k]
      ensures forall k :: IsUsed(k, now) <==> old(IsUsed(k, now))
    {
      markers := map k | k in markers && now < markers[k] :: markers[k];
    }
  }

  const StepTokenInvalid := "Token de step inválido ou expirado"
  const OtpFormatInvalid := "Formato de OTP inválido"
  const OtpNotEnrolled := "OTP não cadastrado"
  const OtpAlreadyUsed := "OTP já foi utilizado"
  const OtpInvalid := "OTP inválido"
  const ReplayMarkerTtl := 3600

  /** The guards of validateOtp before the replay check all pass. */
  predicate ReachesReplayCheck(user: AuthUser, otp: string, stepToken: string,
                               tokenValid: (string, string) -> bool, allowList: seq<string>,
                               table: seq<UserHistory>, queryFails: bool)
    reads table
  {
    var h := FetchHistoryById(table, user.id, queryFails);
    tokenValid(stepToken, "otp") && !MissingValue(Some(user.email)) && !MissingValue(Some(otp))
    && user.email in allowList && SixDigits(otp)
    && IsAdmin(h) && Truthy(h.value.totpSecret) && h.value.totpEnabled
  }

  /** What the replay lookup reports: nothing when Redis fails or there is
      no caller, otherwise whether the caller's marker for this code is live. */
  function ReplayState(markers: map<string, int>, auth: Option<AuthUser>, otp: string, nowSeconds: int,
                       redisFails: bool): (used: Option<bool>)
    ensures used.None? <==> redisFails || auth.None?
    ensures used.Some? ==> (used.value <==> OtpKey(auth.value.id, otp) in markers
                                             && nowSeconds < markers[OtpKey(auth.value.id, otp)])
  {
    if redisFails || auth.None? then None
    else
      var key := OtpKey(auth.value.id, otp);
      Some(key in markers && nowSeconds < markers[key])
  }

  /** The code reaches the end of validateOtp's checks: every guard passes,
      no live marker is reported and TOTP accepts it. */
  predicate CodeVerified(auth: Option<AuthUser>, otp: string, stepToken: string,
                         tokenValid: (string, string) -> bool, allowList: seq<string>,
                         table: seq<UserHistory>, queryFails: bool, alreadyUsed: Option<bool>,
                         code: (string, int) -> string, nowSeconds: int)
    reads table
  {
    auth.Some? && ReachesReplayCheck(auth.value, otp, stepToken, tokenValid, allowList, table, queryFails)
    && alreadyUsed == Some(false)
    && TotpVerify(code, FetchHistoryById(table, auth.value.id, queryFails).value.totpSecret.value, otp, nowSeconds)
  }

  /** The reply of validateOtp, given the replay marker's state as Redis reports
      it (`None` when the lookup throws), whether writing the marker throws
      (`markFails`) and the minted `pix-key` token (`None` when minting throws). */
  function OtpReply(auth: Option<AuthUser>, otp: string, stepToken: string,
                    tokenValid: (string, string) -> bool, allowList: seq<string>,
                    table: seq<UserHistory>, queryFails: bool, alreadyUsed: Option<bool>,
                    code: (string, int) -> string, nowSeconds: int,
                    markFails: bool, minted: Option<string>): (r: ActionResult)
    reads table
    ensures r.success ==> auth.Some?
    ensures auth.None? ==> r == Fail(NotAuthorized)
    ensures auth.Some? && !tokenValid(stepToken, "otp") ==> r == Fail(StepTokenInvalid)
    ensures r.success <==>
      CodeVerified(auth, otp, stepToken, tokenValid, allowList, table, queryFails, alreadyUsed, code, nowSeconds)
      && !markFails && minted.Some?
    ensures r.success ==> r.token == Some(StepToken("pix-key", minted.value))
    ensures !r.success ==> r.token.None?
    ensures (auth.Some? && ReachesReplayCheck(auth.value, otp, stepToken, tokenValid, allowList, table, queryFails)
             && alreadyUsed == Some(true)) ==> r == Fail(OtpAlreadyUsed)
    ensures (CodeVerified(auth, otp, stepToken, tokenValid, allowList, table, queryFails, alreadyUsed, code, nowSeconds)
             && (markFails || minted.None?)) ==> r == Fail(InternalError)
  {
    ValidateRequiredPair("email", if auth.Some? then Some(auth.value.email) else None, "otp", Some(otp));
    if auth.None? then Fail(NotAuthorized)
    else if !tokenValid(stepToken, "otp") then Fail(StepTokenInvalid)
    else match ValidateRequired([("email", Some(auth.value.email)), ("otp", Some(otp))])
      case Some(message) => Fail(message)
      case None =>
        if auth.value.email !in allowList then Fail(NotAllowedToPay)
        else if !SixDigits(otp) then Fail(OtpFormatInvalid)
        else
          var history := FetchHistoryById(table, auth.value.id, queryFails);
          if !IsAdmin(history) then Fail(ActionForbidden)
          else if !Truthy(history.value.totpSecret) || !history.value.totpEnabled then Fail(OtpNotEnrolled)
          else match alreadyUsed
            case None => Fail(InternalError)
            case Some(true) => Fail(OtpAlreadyUsed)
            case Some(false) =>
              if !TotpVerify(code, history.value.totpSecret.value, otp, nowSeconds) then Fail(OtpInvalid)
              else if markFails || minted.None? then Fail(InternalError)
              else Succeed(StepToken("pix-key", minted.value))
  }

  /** The reply of validateOtp together with whether it reaches `setex` and
      the write succeeds. */
  method DecideOtp(auth: Option<AuthUser>, otp: string, stepToken: string,
                   tokenValid: (string, string) -> bool, allowList: seq<string>,
                   table: seq<UserHistory>, queryFails: bool, alreadyUsed: Option<bool>,
                   code: (string, int) -> string, nowSeconds: int,
                   markFails: bool, minted: Option<string>) returns (r: ActionResult, write: bool)
    ensures r == OtpReply(auth, otp, stepToken, tokenValid, allowList, table, queryFails, alreadyUsed, code,
                          nowSeconds, markFails, minted)
    ensures write <==> CodeVerified(auth, otp, stepToken, tokenValid, allowList, table, queryFails, alreadyUsed,
                                    code, nowSeconds) && !markFails
    ensures write ==> auth.Some?
    ensures r.success ==> write
    ensures !r.success && (markFails || minted.Some?) ==> !write
  {
    r := OtpReply(auth, otp, stepToken, tokenValid, allowList, table, queryFails, alreadyUsed, code, nowSeconds,
                  markFails, minted);
    write := CodeVerified(auth, otp, stepToken, tokenValid, allowList, table, queryFails, alreadyUsed, code,
                          nowSeconds) && !markFails;
  }

  /** validateOtp. The marker is written, for an hour, exactly when the code
      verified and `setex` did not throw. Every refusal before that point
      leaves Redis as it was; a mint that throws after the write is refused
      with the marker already written, so the code is spent. */
  method ValidateOtp(store: UsedOtpStore, auth: Option<AuthUser>, otp: string, stepToken: string,
                     tokenValid: (string, string) -> bool, allowList: seq<string>,
                     table: seq<UserHistory>, queryFails: bool, redisFails: bool,
                     code: (string, int) -> string, nowSeconds: int,
                     markFails: bool, minted: Option<string>) returns (r: ActionResult)
    modifies store
    ensures r == old(OtpReply(auth, otp, stepToken, tokenValid, allowList, table, queryFails,
                              ReplayState(store.markers, auth, otp, nowSeconds, redisFails), code, nowSeconds,
                              markFails, minted))
    ensures store.markers ==
      if old(CodeVerified(auth, otp, stepToken, tokenValid, allowList, table, queryFails,
                          ReplayState(store.markers, auth, otp, nowSeconds, redisFails), code, nowSeconds))
         && !markFails
      then old(store.markers)[OtpKey(auth.value.id, otp) := nowSeconds + ReplayMarkerTtl]
      else old(store.markers)
    ensures r.success ==> auth.Some? && store.markers == old(store.markers)[OtpKey(auth.value.id, otp) := nowSeconds + ReplayMarkerTtl]
    ensures !r.success && (markFails || minted.Some?) ==> store.markers == old(store.markers)
  {
    var write;
    r, write := DecideOtp(auth, otp, stepToken, tokenValid, allowList, table, queryFails,
                          ReplayState(store.markers, auth, otp, nowSeconds, redisFails), code, nowSeconds,
                          markFails, minted);
    if write {
      store.SetEx(OtpKey(auth.value.id, otp), ReplayMarkerTtl, nowSeconds);
    }
  }

  /** The same code cannot be used twice within the marker's hour: a second
      validation by the same user after a successful one is refused, whatever
      else the oracles say. */
  method ReplayIsRefused(store: UsedOtpStore, user: AuthUser, otp: string, stepToken: string, secondToken: string,
                         tokenValid: (string, string) -> bool, allowList: seq<string>,
                         table: seq<UserHistory>, code: (string, int) -> string,
                         firstAt: int, secondAt: int, minted: Option<string>) returns (first: ActionResult, second: ActionResult)
    requires firstAt <= secondAt < firstAt + ReplayMarkerTtl
    modifies store
    ensures first.success ==> !second.success
    ensures first.success && tokenValid(secondToken, "otp") ==> second == Fail(OtpAlreadyUsed)
  {
    first := ValidateOtp(store, Some(user), otp, stepToken, tokenValid, allowList, table, false, false, code, firstAt,
                         false, minted);
    second := ValidateOtp(store, Some(user), otp, secondToken, tokenValid, allowList, table, false, false, code, secondAt,
                          false, minted);
  }

  /** A verified code whose `pix-key` token fails to mint is refused with the
      server error, yet its marker is already written: retrying the same code
      within the hour is refused as already used. */
  method MintFailureSpendsCode(store: UsedOtpStore, user: AuthUser, otp: string, stepToken: string, retryToken: string,
                               tokenValid: (string, string) -> bool, allowList: seq<string>,
                               table: seq<UserHistory>, code: (string, int) -> string,
                               firstAt: int, retryAt: int, retryMinted: Option<string>)
      returns (first: ActionResult, retry: ActionResult)
    requires firstAt <= retryAt < firstAt + ReplayMarkerTtl
    requires CodeVerified(Some(user), otp, stepToken, tokenValid, allowList, table, false,
                          ReplayState(store.markers, Some(user), otp, firstAt, false), code, firstAt)
    requires tokenValid(retryToken, "otp")
    modifies store
    ensures first == Fail(InternalError)
    ensures store.IsUsed(OtpKey(user.id, otp), retryAt)
    ensures retry == Fail(OtpAlreadyUsed)
  {
    first := ValidateOtp(store, Some(user), otp, stepToken, tokenValid, allowList, table, false, false, code, firstAt,
                         false, None);
    retry := ValidateOtp(store, Some(user), otp, retryToken, tokenValid, allowList, table, false, false, code, retryAt,
                         false, retryMinted);
  }

  /** getOtpStatus: never throws; false when the caller is unknown, the row is
      missing, or OTP is off. */
  function GetOtpStatus(auth: Option<AuthUser>, table: seq<UserHistory>, queryFails: bool): (enabled: bool)
    reads table
    ensures enabled ==> auth.Some? && FetchHistoryById(table, auth.value.id, queryFails).Some?
    ensures enabled <==> auth.Some? && var h := FetchHistoryById(table, auth.value.id, queryFails);
      h.Some? && h.value.totpEnabled
  {
    if auth.None? then false
    else
      var history := FetchHistoryById(table, auth.value.id, queryFails);
      history.Some? && history.value.totpEnabled
  }

  /** Enabled OTP always has a secret behind it. */
  predicate TotpConsistent(h: UserHistory)
    reads h
  {
    h.totpEnabled ==> Truthy(h.totpSecret)
  }

  predicate AllTotpConsistent(table: seq<UserHistory>)
    reads table
  {
    forall i :: 0 <= i < |table| ==> TotpConsistent(table[i])
  }

  /** While the table is consistent, a reported enabled OTP has a secret to
      verify against. */
  lemma EnabledStatusHasSecret(auth: Option<AuthUser>, table: seq<UserHistory>, queryFails: bool)
    requires AllTotpConsistent(table)
    requires GetOtpStatus(auth, table, queryFails)
    ensures Truthy(FetchHistoryById(table, auth.value.id, queryFails).value.totpSecret)
  {
    var h := FetchHistoryById(table, auth.value.id, queryFails).value;
    var i :| 0 <= i < |table| && table[i] == h;
    assert TotpConsistent(table[i]);
  }

  /** `{ success, message?, qrCode?, secret? }` */
  datatype QrResult = QrResult(success: bool, message: Option<string>, qrCode: Option<string>, secret: Option<string>)

  function QrFail(message: Option<string>): QrResult { QrResult(false, message, None, None) }

  /** The label the authenticator app shows for the account. */
  function OtpLabel(user: AuthUser): string {
    "CC Catarina - ID:" + NatToString(user.id) + " - " + user.email
  }

  /** generateOtpQrCode. Refused once OTP is enabled; an existing secret is
      shown again without any write; otherwise a fresh secret is stored with
      OTP still disabled. `renderQr` answers None when `qrcode.toDataURL`
      throws and `writeFails` says that the user-history update throws; both
      land in the catch, which answers 'Internal server error' and leaves
      the row as it was. */
  method GenerateOtpQrCode(auth: Option<AuthUser>, table: seq<UserHistory>, queryFails: bool,
                           otpauthUrl: (string, string) -> string, renderQr: string -> Option<string>,
                           generatedBase32: Option<string>, generatedUrl: Option<string>,
                           writeFails: bool) returns (r: QrResult)
    modifies table
    ensures auth.None? ==> r == QrFail(Some(NotAuthorized))
    ensures auth.Some? && FetchHistoryById(table, auth.value.id, queryFails).None? ==> r == QrFail(None)
    ensures var h := if auth.Some? then FetchHistoryById(table, auth.value.id, queryFails) else None;
      h.Some? && h.value.role == Admin && old(h.value.totpEnabled) ==> r == QrFail(None)
    ensures var h := if auth.Some? then FetchHistoryById(table, auth.value.id, queryFails) else None;
      r.success <==> (h.Some? && h.value.role == Admin && !old(h.value.totpEnabled)
                      && if Truthy(old(h.value.totpSecret))
                         then renderQr(otpauthUrl(old(h.value.totpSecret.value), OtpLabel(auth.value))).Some?
                         else Truthy(generatedBase32) && Truthy(generatedUrl)
                              && renderQr(generatedUrl.value).Some? && !writeFails)
    ensures var h := if auth.Some? then FetchHistoryById(table, auth.value.id, queryFails) else None;
      (h.Some? && h.value.role == Admin && !old(h.value.totpEnabled)
       && if Truthy(old(h.value.totpSecret))
          then renderQr(otpauthUrl(old(h.value.totpSecret.value), OtpLabel(auth.value))).None?
          else Truthy(generatedBase32) && Truthy(generatedUrl)
               && (renderQr(generatedUrl.value).None? || writeFails))
      ==> r == QrFail(Some(InternalError))
    ensures var h := if auth.Some? then FetchHistoryById(table, auth.value.id, queryFails) else None;
      r.success && Truthy(old(h.value.totpSecret)) ==>
        r == QrResult(true, None, renderQr(otpauthUrl(old(h.value.totpSecret.value), OtpLabel(auth.value))),
                      old(h.value.totpSecret))
        && forall i :: 0 <= i < |table| ==> unchanged(table[i])
    ensures var h := if auth.Some? then FetchHistoryById(table, auth.value.id, queryFails) else None;
      r.success && !Truthy(old(h.value.totpSecret)) ==>
        r == QrResult(true, None, renderQr(generatedUrl.value), generatedBase32)
        && h.value.totpSecret == generatedBase32 && !h.value.totpEnabled
        && h.value.totpVerifiedAt == old(h.value.totpVerifiedAt)
        && forall i :: 0 <= i < |table| && table[i] != h.value ==> unchanged(table[i])
    ensures !r.success ==> forall i :: 0 <= i < |table| ==> unchanged(table[i])
    ensures old(AllTotpConsistent(table)) ==> AllTotpConsistent(table)
  {
    if auth.None? { return QrFail(Some(NotAuthorized)); }
    var history := FetchHistoryById(table, auth.value.id, queryFails);
    if history.None? { return QrFail(None); }
    var h := history.value;
    if h.role != Admin { return QrFail(Some(ActionForbidden)); }
    if h.totpEnabled { return QrFail(None); }
    if Truthy(h.totpSecret) {
      var qr := renderQr(otpauthUrl(h.totpSecret.value, OtpLabel(auth.value)));
      if qr.None? { return QrFail(Some(InternalError)); }
      return QrResult(true, None, qr, h.totpSecret);
    }
    if !Truthy(generatedBase32) || !Truthy(generatedUrl) { return QrFail(Some("Erro ao gerar secret")); }
    var qr := renderQr(generatedUrl.value);
    if qr.None? || writeFails { return QrFail(Some(InternalError)); }
    h.totpSecret := generatedBase32;
    h.totpEnabled := false;
    r := QrResult(true, None, qr, generatedBase32);
  }

  /** enableOtp. It checks the code format and an existing secret but neither
      whether OTP is already on, nor a step token, nor the allow-list, and it
      writes no replay marker. `writeFails` says that the user-history update
      throws, which the catch answers with 'Internal server error' and no
      change. */
  method EnableOtp(auth: Option<AuthUser>, otp: string, table: seq<UserHistory>, queryFails: bool,
                   code: (string, int) -> string, nowMs: int, writeFails: bool) returns (r: ActionResult)
    modifies table
    ensures auth.None? ==> r == Fail(NotAuthorized)
    ensures auth.Some? && !MissingValue(Some(auth.value.email)) && !MissingValue(Some(otp)) && !SixDigits(otp) ==>
      r == Fail(OtpFormatInvalid)
    ensures var h := if auth.Some? then FetchHistoryById(table, auth.value.id, queryFails) else None;
      r.success <==> (auth.Some? && !MissingValue(Some(auth.value.email)) && !MissingValue(Some(otp)) && SixDigits(otp)
                      && IsAdmin(h) && Truthy(old(h.value.totpSecret))
                      && TotpVerify(code, old(h.value.totpSecret.value), otp, nowMs / 1000)
                      && !writeFails)
    ensures var h := if auth.Some? then FetchHistoryById(table, auth.value.id, queryFails) else None;
      (auth.Some? && !MissingValue(Some(auth.value.email)) && !MissingValue(Some(otp)) && SixDigits(otp)
       && IsAdmin(h) && Truthy(old(h.value.totpSecret))
       && TotpVerify(code, old(h.value.totpSecret.value), otp, nowMs / 1000)
       && writeFails) ==> r == Fail(InternalError)
    ensures var h := if auth.Some? then FetchHistoryById(table, auth.value.id, queryFails) else None;
      r.success ==> (r == ActionResult(true, None, None)
                     && h.value.totpEnabled && h.value.totpVerifiedAt == Some(nowMs)
                     && h.value.totpSecret == old(h.value.totpSecret)
                     && forall i :: 0 <= i < |table| && table[i] != h.value ==> unchanged(table[i]))
    ensures !r.success ==> forall i :: 0 <= i < |table| ==> unchanged(table[i])
    ensures old(AllTotpConsistent(table)) ==> AllTotpConsistent(table)
  {
    if auth.None? { return Fail(NotAuthorized); }
    ValidateRequiredPair("email", Some(auth.value.email), "otp", Some(otp));
    var missing := ValidateRequired([("email", Some(auth.value.email)), ("otp", Some(otp))]);
    if missing.Some? { return Fail(missing.value); }
    if !SixDigits(otp) { return Fail(OtpFormatInvalid); }
    var history := FetchHistoryById(table, auth.value.id, queryFails);
    if history.None? { return Fail("Usuário não encontrado"); }
    var h := history.value;
    if h.role != Admin { return Fail(ActionForbidden); }
    if !Truthy(h.totpSecret) { return Fail("Erro ao gerar secret"); }
    if !TotpVerify(code, h.totpSecret.value, otp, nowMs / 1000) { return Fail(OtpInvalid); }
    if writeFails { return Fail(InternalError); }
    h.totpEnabled := true;
    h.totpVerifiedAt := Some(nowMs);
    r := ActionResult(true, None, None);
  }
}
