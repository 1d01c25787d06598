/** The payment modal's handlers: they move the shared step machine between
    the PIX key, its confirmation and the password step, and start the PIX
    submission once an OTP step returns a token. Also the button guards and
    the `m:ss` countdown. */
module PaymentModal {
  import opened Common
  import opened JsText
  import opened AuthFlow
  import opened PixPayment
  import opened SecurityResults
  import Otp
  import Users

  /** `session?.user?.email || ''` */
  function ModalEmail(sessionEmail: Option<string>): (e: string)
    ensures Truthy(sessionEmail) ==> e == sessionEmail.value
    ensures !Truthy(sessionEmail) ==> e == ""
  {
    if Truthy(sessionEmail) then sessionEmail.value else ""
  }

  /** Mounting the modal: the flow is created for `session?.user?.email || ''`
      and the open effect runs. A session without an e-mail is checked as '',
      so when the allow-list holds only non-empty addresses the modal closes
      for it: it opens exactly for a session whose e-mail is listed. */
  method OpenModal(sessionEmail: Option<string>, open: bool, allowList: seq<string>) returns (flow: Flow, closed: bool)
    ensures fresh(flow) && flow.Valid() && flow.email == ModalEmail(sessionEmail)
    ensures closed <==> open && ModalEmail(sessionEmail) !in allowList
    ensures (forall k :: 0 <= k < |allowList| ==> allowList[k] != "") ==>
      (closed <==> open && !(Truthy(sessionEmail) && sessionEmail.value in allowList))
    ensures open && !Truthy(sessionEmail) && "" !in allowList ==> closed
    ensures !closed ==> flow.step == PixKey && flow.maxStepReached == PixKey && flow.timeLeft == OtpWindowSeconds
  {
    flow := new Flow(ModalEmail(sessionEmail));
    closed := flow.OnOpen(open, allowList);
  }

  const PaymentDateRequired := "Data do pagamento é obrigatória"

  /** handlePixKeyContinue: a blank key or an empty date is refused with its
      message and the step stays; otherwise the flow moves to the
      confirmation. */
  method ContinueFromPixKey(flow: Flow, form: PixForm) returns (err: Option<string>)
    requires flow.Valid()
    modifies flow`step, flow`maxStepReached, flow`timeLeft
    ensures flow.Valid()
    ensures err.None? <==> !IsBlank(form.pixKey) && form.paymentDate != ""
    ensures IsBlank(form.pixKey) ==> err == Some(PixKeyRequired)
    ensures !IsBlank(form.pixKey) && form.paymentDate == "" ==> err == Some(PaymentDateRequired)
    ensures err.Some? ==>
      flow.step == old(flow.step) && flow.maxStepReached == old(flow.maxStepReached)
      && flow.timeLeft == old(flow.timeLeft)
    ensures err.None? ==>
      flow.step == PixKeyConfirm && flow.maxStepReached == HigherStep(old(flow.maxStepReached), PixKeyConfirm)
      && flow.timeLeft == old(flow.timeLeft)
  {
    if IsBlank(form.pixKey) { return Some(PixKeyRequired); }
    if form.paymentDate == "" { return Some(PaymentDateRequired); }
    flow.SafeSetStep(PixKeyConfirm);
    err := None;
  }

  /** handlePixKeyConfirm: on to the password step. */
  method ConfirmPixKey(flow: Flow)
    requires flow.Valid()
    modifies flow`step, flow`maxStepReached, flow`timeLeft
    ensures flow.Valid()
    ensures flow.step == Password && flow.maxStepReached == HigherStep(old(flow.maxStepReached), Password)
    ensures flow.timeLeft == old(flow.timeLeft)
  {
    flow.SafeSetStep(Password);
  }

  /** handlePixKeyEdit: back to the key, keeping the furthest step reached. */
  method EditPixKey(flow: Flow)
    requires flow.Valid()
    modifies flow`step, flow`maxStepReached, flow`timeLeft
    ensures flow.Valid()
    ensures flow.step == PixKey && flow.maxStepReached == old(flow.maxStepReached)
    ensures flow.timeLeft == old(flow.timeLeft)
  {
    flow.SafeSetStep(PixKey);
  }

  /** handleOtpSubmit: validate the code, and only when that succeeds with a
      token, submit the payment with that token in place of the held one. */
  method OtpSubmit(flow: Flow, form: PixForm, reply: Option<ActionResult>, debt: Option<DebtData>,
                   email: string, enteredDay: int, now: int, offsetMs: int,
                   pixReply: Option<PixResult>, proofReply: Option<ProofResult>)
    returns (sent: Option<(PaymentData, string)>)
    requires flow.Valid() && form.Valid()
    modifies flow, form`paymentResult
    ensures flow.Valid() && form.Valid()
    ensures sent.Some? ==>
      reply.Some? && reply.value.success && Truthy(TokenText(reply.value))
      && sent.value.1 == TokenText(reply.value).value
      && sent.value.0.userOtp == old(flow.otp) && sent.value.0.userPassword == old(flow.password)
      && sent.value.0.userEmail == email
    ensures (reply.Some? && reply.value.success && Truthy(TokenText(reply.value))
             && ValidatePixInput(form.pixKey, debt).None?) ==> sent.Some?
    ensures !(reply.Some? && reply.value.success) ==> form.paymentResult == old(form.paymentResult)
  {
    sent := None;
    var result := flow.HandleOtpValidation(reply);
    if result.success && Truthy(result.token) {
      var proof, succeeded;
      sent, proof, succeeded := form.HandlePixKeySubmit(flow, debt, email, flow.password, flow.otp,
                                                        result.token.value, enteredDay, now, offsetMs,
                                                        pixReply, proofReply);
    }
  }

  /** handleEnableOtpSubmit: enable OTP with the entered code, and only when
      that succeeds and a token is held, submit the payment with the token
      minted at the password step. */
  method EnableOtpSubmit(flow: Flow, form: PixForm, reply: Option<ActionResult>, debt: Option<DebtData>,
                         email: string, enteredDay: int, now: int, offsetMs: int,
                         pixReply: Option<PixResult>, proofReply: Option<ProofResult>)
    returns (sent: Option<(PaymentData, string)>)
    requires flow.Valid() && form.Valid()
    modifies flow, form`paymentResult
    ensures flow.Valid() && form.Valid()
    ensures sent.Some? ==>
      reply.Some? && reply.value.success && old(flow.stepToken) != ""
      && sent.value.1 == old(flow.stepToken)
      && sent.value.0.userOtp == old(flow.otp) && sent.value.0.userPassword == old(flow.password)
      && sent.value.0.userEmail == email
    ensures (reply.Some? && reply.value.success && old(flow.stepToken) != ""
             && ValidatePixInput(form.pixKey, debt).None?) ==> sent.Some?
    ensures !(reply.Some? && reply.value.success) ==> form.paymentResult == old(form.paymentResult)
  {
    sent := None;
    var result := flow.HandleEnableOtp(reply);
    if result.success && Truthy(result.token) {
      var proof, succeeded;
      sent, proof, succeeded := form.HandlePixKeySubmit(flow, debt, email, flow.password, flow.otp,
                                                        result.token.value, enteredDay, now, offsetMs,
                                                        pixReply, proofReply);
    }
  }

  /** `disabled={loading || !password}` */
  predicate PasswordButtonDisabled(loading: bool, password: string) { loading || password == "" }

  /** Once loading ends, the password button lets through every password the
      server's required-field check accepts, and refuses only passwords that
      check also refuses; a password of spaces gets through it and is refused
      by the server as missing. */
  lemma PasswordButtonAdmitsBlank(password: string)
    ensures PasswordButtonDisabled(false, password) ==> Users.MissingValue(Some(password))
    ensures !Users.MissingValue(Some(password)) ==> !PasswordButtonDisabled(false, password)
    ensures !PasswordButtonDisabled(false, " ") && Users.MissingValue(Some(" "))
  {
    assert Trim(" ") == [] by { assert TrimStart(" ") == TrimStart(" "[1..]); }
  }

  /** `disabled={loading || otp.length !== 6}`, on both OTP forms. */
  predicate OtpButtonDisabled(loading: bool, otp: string) { loading || JsLength(otp) != 6 }

  /** Every code the server could accept can be submitted once loading ends,
      and a submitted code always has the six characters the server asks for. */
  lemma OtpButtonMatchesServerShape(loading: bool, otp: string)
    ensures !loading && Otp.SixDigits(otp) ==> !OtpButtonDisabled(loading, otp)
    ensures !OtpButtonDisabled(loading, otp) ==> JsLength(otp) == 6 && !loading
  {
  }

  const SecondsPerMinute := 60

  /** `${Math.floor(t / 60)}:${(t % 60).toString().padStart(2, '0')}` */
  function CountdownText(t: nat): string
  {
    NatToString(t / SecondsPerMinute) + ":" + Pad2(t % SecondsPerMinute)
  }

  /** The display reads back as the time left: minutes before the colon,
      two-digit seconds after it, and minutes * 60 + seconds is `t`. */
  lemma CountdownReadsBack(t: nat)
    ensures var parts := Split(CountdownText(t), ':');
      |parts| == 2 && |parts[1]| == 2
      && ParseInt(parts[0]).Some? && ParseInt(parts[1]).Some?
      && ParseInt(parts[0]).value * SecondsPerMinute + ParseInt(parts[1]).value == t
  {
    var m := NatToString(t / SecondsPerMinute);
    var s := Pad2(t % SecondsPerMinute);
    assert ':' !in m && ':' !in s by {
      assert forall k :: 0 <= k < |m| ==> IsDigit(m[k]);
      assert forall k :: 0 <= k < |s| ==> IsDigit(s[k]);
    }
    JoinTwo(m, s, ':');
    SplitJoinSingle([m, s], ':');
    ParseIntNatToString(t / SecondsPerMinute);
    ParseIntDigits(s);
  }
}
