/** The client-side step machine of the payment modal (useAuthFlow): the
    current step, the furthest step reached, the inactivity countdown and the
    step token handed from the password step to the OTP step. Each handler is
    one atomic step; the server actions' replies are parameters (`None` when
    the call throws). */
module AuthFlow {
  import opened Common
  import opened JsText
  import opened SecurityResults
  import Otp

  datatype PaymentStep = PixKey | PixKeyConfirm | Password | OtpStep | RegisterOtp | Processing | Done

  const StepOrder: seq<PaymentStep> := [PixKey, PixKeyConfirm, Password, OtpStep, RegisterOtp, Processing, Done]

  /** `stepOrder.indexOf(step)`: every step is in the order exactly once. */
  function StepIndex(s: PaymentStep): (i: nat)
    ensures i < |StepOrder| && StepOrder[i] == s
    ensures forall j :: 0 <= j < |StepOrder| && StepOrder[j] == s ==> j == i
  {
    match s
    case PixKey => 0
    case PixKeyConfirm => 1
    case Password => 2
    case OtpStep => 3
    case RegisterOtp => 4
    case Processing => 5
    case Done => 6
  }

  /** The furthest step after a move to `s`. */
  function HigherStep(max: PaymentStep, s: PaymentStep): (r: PaymentStep)
    ensures StepIndex(r) >= StepIndex(max) && StepIndex(r) >= StepIndex(s)
    ensures r == max || r == s
  {
    if StepIndex(s) > StepIndex(max) then s else max
  }

  const OtpWindowSeconds := 180
  const SecondsPerMinute := 60
  const MaxTimeLeft := 300

  /** Reaching PROCESSING for the first time adds a minute, up to five. */
  predicate Boosts(max: PaymentStep, s: PaymentStep) {
    s == Processing && StepIndex(s) > StepIndex(max)
  }

  function BoostedTime(prev: int): (t: int)
    ensures t <= MaxTimeLeft && (t == prev + SecondsPerMinute || t == MaxTimeLeft)
    ensures prev <= t || prev > MaxTimeLeft
  {
    if prev + SecondsPerMinute < MaxTimeLeft then prev + SecondsPerMinute else MaxTimeLeft
  }

  /** How many of a run of moves add the extra minute, starting from `max`. */
  function BoostCount(max: PaymentStep, moves: seq<PaymentStep>): nat
    decreases |moves|
  {
    if moves == [] then 0
    else (if Boosts(max, moves[0]) then 1 else 0) + BoostCount(HigherStep(max, moves[0]), moves[1..])
  }

  lemma {:induction false} NoBoostPastProcessing(max: PaymentStep, moves: seq<PaymentStep>)
    requires StepIndex(max) >= StepIndex(Processing)
    ensures BoostCount(max, moves) == 0
    decreases |moves|
  {
    if moves != [] {
      NoBoostPastProcessing(HigherStep(max, moves[0]), moves[1..]);
    }
  }

  /** Between two resets the countdown is extended at most once. */
  lemma {:induction false} BoostAtMostOnce(max: PaymentStep, moves: seq<PaymentStep>)
    ensures BoostCount(max, moves) <= 1
    decreases |moves|
  {
    if moves != [] {
      if Boosts(max, moves[0]) {
        NoBoostPastProcessing(HigherStep(max, moves[0]), moves[1..]);
      } else {
        BoostAtMostOnce(HigherStep(max, moves[0]), moves[1..]);
      }
    }
  }

  /** The furthest step reached never goes back, whatever the moves. */
  lemma {:induction false} HigherStepNeverDecreases(max: PaymentStep, moves: seq<PaymentStep>)
    ensures StepIndex(Furthest(max, moves)) >= StepIndex(max)
    ensures forall k :: 0 <= k < |moves| ==> StepIndex(Furthest(max, moves)) >= StepIndex(moves[k])
    decreases |moves|
  {
    if moves != [] {
      HigherStepNeverDecreases(HigherStep(max, moves[0]), moves[1..]);
      assert forall k :: 1 <= k < |moves| ==> moves[k] == moves[1..][k - 1];
    }
  }

  function Furthest(max: PaymentStep, moves: seq<PaymentStep>): PaymentStep
    decreases |moves|
  {
    if moves == [] then max else Furthest(HigherStep(max, moves[0]), moves[1..])
  }

  /** What the OTP handlers hand to the payment submission. */
  datatype Submission = Submission(success: bool, token: Option<string>)

  /** `result.token` as the client sees it. */
  function TokenText(r: ActionResult): Option<string> {
    if r.token.Some? then Some(r.token.value.value) else None
  }

  class Flow {
    const email: string
    var step: PaymentStep
    var maxStepReached: PaymentStep
    var password: string
    var otp: string
    var loading: bool
    var qrCode: Option<string>
    var stepToken: string
    var timeLeft: int
    var previousStep: Option<PaymentStep>

    /** The step shown was reached, and the countdown stays in 1..300. */
    predicate Valid()
      reads this
    {
      StepIndex(step) <= StepIndex(maxStepReached) && 1 <= timeLeft <= MaxTimeLeft
    }

    constructor (email: string)
      ensures Valid() && this.email == email
      ensures step == PixKey && maxStepReached == PixKey && password == "" && otp == ""
      ensures !loading && qrCode.None? && stepToken == "" && timeLeft == OtpWindowSeconds && previousStep.None?
    {
      this.email := email;
      step := PixKey;
      maxStepReached := PixKey;
      password := "";
      otp := "";
      loading := false;
      qrCode := None;
      stepToken := "";
      timeLeft := OtpWindowSeconds;
      previousStep := None;
    }

    /** safeSetStep: always moves to the step asked for, raises the furthest
        step only forward, and adds the extra minute on first reaching
        PROCESSING. */
    method SafeSetStep(newStep: PaymentStep)
      requires Valid()
      modifies this`step, this`maxStepReached, this`timeLeft
      ensures Valid()
      ensures step == newStep && maxStepReached == HigherStep(old(maxStepReached), newStep)
      ensures timeLeft == if Boosts(old(maxStepReached), newStep) then BoostedTime(old(timeLeft)) else old(timeLeft)
    {
      if StepIndex(newStep) > StepIndex(maxStepReached) {
        maxStepReached := newStep;
        if newStep == Processing {
          timeLeft := BoostedTime(timeLeft);
        }
      }
      step := newStep;
    }

    /** The effect run when the modal opens: an allow-listed e-mail restarts the
        ceremony from the PIX key with a three-minute window; any other e-mail
        closes the modal and keeps every field. */
    method OnOpen(open: bool, allowList: seq<string>) returns (closed: bool)
      requires Valid()
      modifies this`step, this`maxStepReached, this`password, this`otp, this`qrCode, this`stepToken,
               this`timeLeft, this`previousStep
      ensures Valid()
      ensures closed <==> open && email !in allowList
      ensures !(open && email in allowList) ==>
        step == old(step) && maxStepReached == old(maxStepReached) && password == old(password)
        && otp == old(otp) && qrCode == old(qrCode) && stepToken == old(stepToken)
        && timeLeft == old(timeLeft) && previousStep == old(previousStep)
      ensures open && email in allowList ==>
        step == PixKey && maxStepReached == PixKey && password == "" && otp == ""
        && qrCode.None? && stepToken == "" && timeLeft == OtpWindowSeconds && previousStep.None?
    {
      closed := false;
      if !open { return; }
      if email !in allowList {
        closed := true;
        return;
      }
      step := PixKey;
      maxStepReached := PixKey;
      password := "";
      otp := "";
      qrCode := None;
      stepToken := "";
      timeLeft := OtpWindowSeconds;
      previousStep := None;
    }

    /** One second of the inactivity interval, which runs only while the modal
        is open past the PIX key step. At the last second the modal is closed
        and the countdown starts over. */
    method Tick(open: bool) returns (closed: bool)
      requires Valid()
      modifies this`timeLeft
      ensures Valid()
      ensures !open || step == PixKey ==> !closed && timeLeft == old(timeLeft)
      ensures open && step != PixKey ==>
        closed == (old(timeLeft) <= 1)
        && timeLeft == if old(timeLeft) <= 1 then OtpWindowSeconds else old(timeLeft) - 1
    {
      closed := false;
      if !open || step == PixKey { return; }
      if timeLeft <= 1 {
        closed := true;
        timeLeft := OtpWindowSeconds;
      } else {
        timeLeft := timeLeft - 1;
      }
    }

    /** handlePassword. A refusal or a failed call leaves everything as it
        was. Otherwise the returned token is kept; then the flow moves to OTP
        when the status says OTP is enabled, or to REGISTER_OTP with a freshly
        fetched QR code when it is not. A status call that throws (`None`)
        keeps the token but not the move. */
    method HandlePassword(reply: Option<ActionResult>, otpStatus: Option<bool>, qrReply: Option<Otp.QrResult>)
      requires Valid()
      modifies this`step, this`maxStepReached, this`timeLeft, this`stepToken, this`qrCode, this`loading
      ensures Valid() && !loading
      ensures reply.None? || !reply.value.success ==>
        step == old(step) && maxStepReached == old(maxStepReached) && timeLeft == old(timeLeft)
        && stepToken == old(stepToken) && qrCode == old(qrCode)
      ensures reply.Some? && reply.value.success ==>
        stepToken == if Truthy(TokenText(reply.value)) then TokenText(reply.value).value else old(stepToken)
      ensures reply.Some? && reply.value.success && otpStatus.None? ==>
        step == old(step) && maxStepReached == old(maxStepReached) && timeLeft == old(timeLeft)
        && qrCode == old(qrCode)
      ensures reply.Some? && reply.value.success && otpStatus.Some? ==>
        step == (if otpStatus.value then OtpStep else RegisterOtp)
        && maxStepReached == HigherStep(old(maxStepReached), step)
        && timeLeft == old(timeLeft)
        && qrCode == (if otpStatus.value then None
                      else if qrReply.Some? && qrReply.value.success && Truthy(qrReply.value.qrCode) then qrReply.value.qrCode
                      else old(qrCode))
    {
      loading := true;
      if reply.None? || !reply.value.success {
        loading := false;
        return;
      }
      var token := TokenText(reply.value);
      if Truthy(token) { stepToken := token.value; }
      if otpStatus.None? {
        loading := false;
        return;
      }
      if otpStatus.value {
        SafeSetStep(OtpStep);
        qrCode := None;
      } else {
        SafeSetStep(RegisterOtp);
        if qrReply.Some? && qrReply.value.success && Truthy(qrReply.value.qrCode) {
          qrCode := qrReply.value.qrCode;
        }
      }
      loading := false;
    }

    /** handleOtpValidation: a successful reply stores its token and moves to
        PROCESSING; a failure leaves the step and the token untouched. */
    method HandleOtpValidation(reply: Option<ActionResult>) returns (s: Submission)
      requires Valid()
      modifies this`step, this`maxStepReached, this`timeLeft, this`stepToken, this`previousStep, this`loading
      ensures Valid() && !loading
      ensures s.success <==> reply.Some? && reply.value.success
      ensures !s.success ==>
        s.token.None? && step == old(step) && maxStepReached == old(maxStepReached)
        && timeLeft == old(timeLeft) && stepToken == old(stepToken) && previousStep == old(previousStep)
      ensures s.success ==>
        s.token == TokenText(reply.value)
        && stepToken == (if Truthy(s.token) then s.token.value else old(stepToken))
        && previousStep == Some(OtpStep) && step == Processing
        && maxStepReached == HigherStep(old(maxStepReached), Processing)
        && timeLeft == if Boosts(old(maxStepReached), Processing) then BoostedTime(old(timeLeft)) else old(timeLeft)
    {
      loading := true;
      if reply.None? || !reply.value.success {
        loading := false;
        return Submission(false, None);
      }
      var token := TokenText(reply.value);
      if Truthy(token) { stepToken := token.value; }
      previousStep := Some(OtpStep);
      SafeSetStep(Processing);
      loading := false;
      s := Submission(true, token);
    }

    /** handleEnableOtp: on success it moves to PROCESSING and hands on the
        token it already holds, the one minted by the password step. */
    method HandleEnableOtp(reply: Option<ActionResult>) returns (s: Submission)
      requires Valid()
      modifies this`step, this`maxStepReached, this`timeLeft, this`qrCode, this`previousStep, this`loading
      ensures Valid() && !loading
      ensures s.success <==> reply.Some? && reply.value.success
      ensures !s.success ==>
        s.token.None? && step == old(step) && maxStepReached == old(maxStepReached)
        && timeLeft == old(timeLeft) && qrCode == old(qrCode) && previousStep == old(previousStep)
      ensures s.success ==>
        s.token == Some(stepToken) && step == Processing && qrCode.None? && previousStep == Some(RegisterOtp)
        && maxStepReached == HigherStep(old(maxStepReached), Processing)
        && timeLeft == if Boosts(old(maxStepReached), Processing) then BoostedTime(old(timeLeft)) else old(timeLeft)
    {
      loading := true;
      if reply.None? || !reply.value.success {
        loading := false;
        return Submission(false, None);
      }
      previousStep := Some(RegisterOtp);
      SafeSetStep(Processing);
      qrCode := None;
      loading := false;
      s := Submission(true, Some(stepToken));
    }
  }
}
