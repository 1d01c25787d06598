/** The PIX part of the payment modal (usePixPayment): the key, its type and
    the payment date the user enters, the request built from them, and the
    submission that drives the shared step machine to PROCESSING and, on a
    confirmed payment, to DONE. The processor, the bank configuration and
    the proof writers are not part of this model; their replies are
    parameters (`None` when the call throws). Calendar days are given as day
    numbers in the browser's local time. */
module PixPayment {
  import opened Common
  import opened JsText
  import opened AuthFlow

  /** The values offered by the key-type select: CPF, CNPJ, e-mail, phone,
      random key. */
  const PixKeyTypes: seq<string> := ["1", "2", "3", "4", "5"]

  const DefaultPixKeyType := "1"

  /** `Number(pixKeyType)` on one of the offered values. */
  function PixKeyTypeNumber(t: string): (n: int)
    requires t in PixKeyTypes
    ensures 1 <= n <= 5 && PixKeyTypes[n - 1] == t
    ensures n >= 0 && NatToString(n) == t
  {
    if t == "1" then 1 else if t == "2" then 2 else if t == "3" then 3 else if t == "4" then 4 else 5
  }

  /** The debt being paid, with its total already converted to a number. */
  datatype DebtData = DebtData(id: string, totalValue: real, description: string)

  const PixKeyRequired := "Chave PIX é obrigatória"
  const DebtDataMissing := "Dados do débito não encontrados"

  /** validatePixInput: the message shown, or `None` when the input may be sent. */
  function ValidatePixInput(pixKey: string, debt: Option<DebtData>): (err: Option<string>)
    ensures err.None? <==> !IsBlank(pixKey) && debt.Some?
    ensures IsBlank(pixKey) ==> err == Some(PixKeyRequired)
    ensures !IsBlank(pixKey) && debt.None? ==> err == Some(DebtDataMissing)
  {
    if IsBlank(pixKey) then Some(PixKeyRequired)
    else if debt.None? then Some(DebtDataMissing)
    else None
  }

  /** `date.split('-').reverse().join('-')` */
  function ReformatDate(date: string): (r: string)
    ensures Split(r, '-') == Reverse(Split(date, '-'))
  {
    var parts := Reverse(Split(date, '-'));
    assert forall k :: 0 <= k < |parts| ==> '-' !in parts[k] by {
      forall k | 0 <= k < |parts| ensures '-' !in parts[k] {
        assert parts[k] == Split(date, '-')[|parts| - 1 - k];
      }
    }
    SplitJoinSingle(parts, '-');
    Join(parts, '-')
  }

  /** A `YYYY-MM-DD` date is sent as `DD-MM-YYYY`. */
  lemma ReformatDateSwapsYearAndDay(year: string, month: string, day: string)
    requires '-' !in year && '-' !in month && '-' !in day
    ensures ReformatDate(year + "-" + month + "-" + day) == day + "-" + month + "-" + year
  {
    JoinThree(year, month, day, '-');
    SplitJoinSingle([year, month, day], '-');
    assert Reverse([year, month, day]) == [day, month, year];
    JoinThree(day, month, year, '-');
  }

  /** Reformatting twice gives back the date as entered. */
  lemma ReformatDateInvolution(date: string)
    ensures ReformatDate(ReformatDate(date)) == date
  {
    var parts := Split(date, '-');
    ReverseReverse(parts);
    JoinSplit(date, '-');
  }

  /** The request handed to the PIX processor. */
  datatype PaymentData = PaymentData(
    debtDataId: string, amount: real, pixKey: string, pixKeyType: int, description: string,
    paymentDate: string, isScheduled: bool, scheduledDate: Option<string>,
    userEmail: string, userPassword: string, userOtp: string)

  const MsPerDay := 86400000

  /** The local calendar day of instant `t`, for a local offset from UTC of
      `offsetMs` (negative west of Greenwich); `setHours(0, 0, 0, 0)` keeps
      exactly this day. */
  function LocalDay(t: int, offsetMs: int): int { (t + offsetMs) / MsPerDay }

  /** createPaymentData. `enteredDay` is the day the `YYYY-MM-DD` text names,
      counted from 1970-01-01; `new Date` reads that text as UTC midnight, and
      `setHours` then keeps that instant's local day. `now` is the current
      instant. The payment is scheduled exactly when that local day is after
      today's, and only then carries the date as entered. */
  function CreatePaymentData(debt: DebtData, email: string, password: string, otp: string,
                             pixKey: string, pixKeyType: string, paymentDate: string,
                             enteredDay: int, now: int, offsetMs: int): (d: PaymentData)
    requires pixKeyType in PixKeyTypes
    ensures d.isScheduled <==> LocalDay(enteredDay * MsPerDay, offsetMs) > LocalDay(now, offsetMs)
    ensures d.scheduledDate.Some? <==> d.isScheduled
    ensures d.scheduledDate.Some? ==> d.scheduledDate.value == paymentDate
    ensures ReformatDate(d.paymentDate) == paymentDate
    ensures d.pixKeyType >= 1 && NatToString(d.pixKeyType) == pixKeyType
    ensures d.debtDataId == debt.id && d.amount == debt.totalValue && d.description == debt.description
    ensures d.pixKey == pixKey && d.userEmail == email && d.userPassword == password && d.userOtp == otp
  {
    ReformatDateInvolution(paymentDate);
    var isScheduled := LocalDay(enteredDay * MsPerDay, offsetMs) > LocalDay(now, offsetMs);
    PaymentData(debt.id, debt.totalValue, pixKey, PixKeyTypeNumber(pixKeyType), debt.description,
                ReformatDate(paymentDate), isScheduled, if isScheduled then Some(paymentDate) else None,
                email, password, otp)
  }

  /** West of Greenwich the UTC midnight of the entered day is still the
      previous local day, so a payment for tomorrow is not scheduled and goes
      out today. */
  lemma TomorrowNotScheduledWestOfUtc(debt: DebtData, email: string, password: string, otp: string,
                                      pixKey: string, pixKeyType: string, paymentDate: string, now: int, offsetMs: int)
    requires pixKeyType in PixKeyTypes && -MsPerDay < offsetMs < 0
    ensures LocalDay((LocalDay(now, offsetMs) + 1) * MsPerDay, offsetMs) == LocalDay(now, offsetMs)
    ensures !CreatePaymentData(debt, email, password, otp, pixKey, pixKeyType, paymentDate,
                               LocalDay(now, offsetMs) + 1, now, offsetMs).isScheduled
  {
    var day := LocalDay(now, offsetMs) + 1;
    assert day * MsPerDay - MsPerDay <= day * MsPerDay + offsetMs < day * MsPerDay;
    DayOf(day * MsPerDay + offsetMs, day - 1);
  }

  lemma DayOf(t: int, d: int)
    requires d * MsPerDay <= t < d * MsPerDay + MsPerDay
    ensures t / MsPerDay == d
  {
  }

  /** Scheduling as intended: by the calendar day entered, against today's
      local day. */
  function ScheduledAsIntended(enteredDay: int, now: int, offsetMs: int): (scheduled: bool)
    ensures scheduled <==> enteredDay > LocalDay(now, offsetMs)
  {
    enteredDay > LocalDay(now, offsetMs)
  }

  /** Read by the calendar day, a payment for tomorrow is scheduled whatever
      the offset, and one for today is not; at or east of Greenwich (and less
      than a day away) the code as written agrees. */
  lemma IntendedScheduling(enteredDay: int, now: int, offsetMs: int)
    ensures ScheduledAsIntended(LocalDay(now, offsetMs) + 1, now, offsetMs)
    ensures !ScheduledAsIntended(LocalDay(now, offsetMs), now, offsetMs)
    ensures 0 <= offsetMs < MsPerDay ==>
      (LocalDay(enteredDay * MsPerDay, offsetMs) > LocalDay(now, offsetMs) <==> ScheduledAsIntended(enteredDay, now, offsetMs))
  {
    if 0 <= offsetMs < MsPerDay {
      DayOf(enteredDay * MsPerDay + offsetMs, enteredDay);
    }
  }

  /** What the processor answers. */
  datatype PixResult = PixResult(success: bool, batchId: Option<string>, isScheduled: bool,
                                 scheduledDate: Option<string>, contractNumber: Option<string>,
                                 wasApproved: Option<bool>, error: Option<string>)

  /** What a proof writer answers. */
  datatype ProofResult = ProofResult(success: bool, proofUrl: Option<string>)

  /** Which proof was asked for, and with what. */
  datatype ProofRequest =
    | ScheduledProof(debtDataId: string, batchId: string, scheduledDate: string)
    | ImmediateProof(debtDataId: string, batchId: string, contractNumber: Option<string>, wasApproved: Option<bool>)

  /** The result shown on the DONE step. */
  datatype PaymentResult = PaymentResult(batchId: string, receiptUrl: Option<string>, hasReceipt: bool)

  /** The processor confirmed the payment with a batch id. */
  predicate Accepted(pixReply: Option<PixResult>) {
    pixReply.Some? && pixReply.value.success && Truthy(pixReply.value.batchId)
  }

  /** The proof to ask for once the processor accepted. */
  function ProofFor(debt: DebtData, reply: PixResult): (p: ProofRequest)
    requires Truthy(reply.batchId)
    ensures p.ScheduledProof? <==> reply.isScheduled && Truthy(reply.scheduledDate)
    ensures p.batchId == reply.batchId.value && p.debtDataId == debt.id
  {
    if reply.isScheduled && Truthy(reply.scheduledDate) then
      ScheduledProof(debt.id, reply.batchId.value, reply.scheduledDate.value)
    else
      ImmediateProof(debt.id, reply.batchId.value, reply.contractNumber, reply.wasApproved)
  }

  class PixForm {
    var pixKey: string
    var pixKeyType: string
    var paymentDate: string
    var paymentResult: Option<PaymentResult>

    predicate Valid()
      reads this
    {
      pixKeyType in PixKeyTypes
    }

    /** A form with no key, the CPF key type, and today's date (`todayIso`). */
    constructor (todayIso: string)
      ensures Valid()
      ensures pixKey == "" && pixKeyType == DefaultPixKeyType && paymentDate == todayIso && paymentResult.None?
    {
      pixKey := "";
      pixKeyType := DefaultPixKeyType;
      paymentDate := todayIso;
      paymentResult := None;
    }

    /** The key-type select only offers the five known values. */
    method SetPixKeyType(t: string)
      requires t in PixKeyTypes
      modifies this`pixKeyType
      ensures Valid() && pixKeyType == t
    {
      pixKeyType := t;
    }

    /** What follows the request once the flow is at PROCESSING: the proof is
        asked for when the processor accepted, and the flow reaches DONE when
        the proof writer answered too. */
    method Settle(flow: Flow, debt: DebtData, pixReply: Option<PixResult>, proofReply: Option<ProofResult>)
      returns (proof: Option<ProofRequest>, succeeded: bool)
      requires Valid() && flow.Valid()
      modifies this`paymentResult, flow`step, flow`maxStepReached, flow`timeLeft
      ensures Valid() && flow.Valid()
      ensures proof.Some? <==> Accepted(pixReply)
      ensures proof.Some? ==> proof.value == ProofFor(debt, pixReply.value)
      ensures succeeded <==> Accepted(pixReply) && proofReply.Some?
      ensures flow.step == (if succeeded then Done else old(flow.step))
      ensures flow.maxStepReached == (if succeeded then HigherStep(old(flow.maxStepReached), Done) else old(flow.maxStepReached))
      ensures flow.timeLeft == old(flow.timeLeft)
      ensures succeeded ==>
        paymentResult == Some(PaymentResult(pixReply.value.batchId.value, proofReply.value.proofUrl,
                                             proofReply.value.success))
      ensures !succeeded ==> paymentResult == old(paymentResult)
    {
      proof, succeeded := None, false;
      if Accepted(pixReply) {
        proof := Some(ProofFor(debt, pixReply.value));
        if proofReply.Some? {
          paymentResult := Some(PaymentResult(pixReply.value.batchId.value, proofReply.value.proofUrl,
                                              proofReply.value.success));
          flow.SafeSetStep(Done);
          succeeded := true;
        }
      }
    }

    /** handlePixKeySubmit. Invalid input changes nothing and sends nothing.
        Otherwise the flow is put at PROCESSING before the request is sent;
        it moves on to DONE, with the payment result recorded, only when the
        processor accepted with a batch id and the proof writer answered.
        Every failure leaves the flow at PROCESSING. `succeeded` is when
        `onSuccess` is called. */
    method HandlePixKeySubmit(flow: Flow, debt: Option<DebtData>, email: string, password: string,
                              otp: string, stepToken: string, enteredDay: int, now: int, offsetMs: int,
                              pixReply: Option<PixResult>, proofReply: Option<ProofResult>)
      returns (sent: Option<(PaymentData, string)>, proof: Option<ProofRequest>, succeeded: bool)
      requires Valid() && flow.Valid()
      modifies this`paymentResult, flow`step, flow`maxStepReached, flow`timeLeft, flow`loading
      ensures Valid() && flow.Valid()
      ensures old(ValidatePixInput(pixKey, debt)).Some? ==>
        sent.None? && proof.None? && !succeeded && paymentResult == old(paymentResult)
        && flow.step == old(flow.step) && flow.maxStepReached == old(flow.maxStepReached)
        && flow.timeLeft == old(flow.timeLeft) && flow.loading == old(flow.loading)
      ensures old(ValidatePixInput(pixKey, debt)).None? ==>
        sent == Some((old(CreatePaymentData(debt.value, email, password, otp, pixKey, pixKeyType, paymentDate,
                                            enteredDay, now, offsetMs)), stepToken))
        && !flow.loading
        && (proof.Some? <==> Accepted(pixReply))
        && (proof.Some? ==> proof.value == ProofFor(debt.value, pixReply.value))
        && (succeeded <==> Accepted(pixReply) && proofReply.Some?)
        && flow.step == (if succeeded then Done else Processing)
        && flow.maxStepReached == HigherStep(HigherStep(old(flow.maxStepReached), Processing), flow.step)
        && flow.timeLeft == (if Boosts(old(flow.maxStepReached), Processing) then BoostedTime(old(flow.timeLeft))
                             else old(flow.timeLeft))
      ensures succeeded ==>
        paymentResult == Some(PaymentResult(pixReply.value.batchId.value, proofReply.value.proofUrl,
                                             proofReply.value.success))
      ensures !succeeded ==> paymentResult == old(paymentResult)
    {
      sent, proof, succeeded := None, None, false;
      if ValidatePixInput(pixKey, debt).Some? { return; }
      var request;
      request, proof, succeeded := Submit(flow, debt.value, email, password, otp, stepToken, enteredDay, now, offsetMs,
                                          pixReply, proofReply);
      sent := Some(request);
    }

    /** The valid path of handlePixKeySubmit: PROCESSING, the request, then
        the answers. */
    method Submit(flow: Flow, debt: DebtData, email: string, password: string,
                  otp: string, stepToken: string, enteredDay: int, now: int, offsetMs: int,
                  pixReply: Option<PixResult>, proofReply: Option<ProofResult>)
      returns (sent: (PaymentData, string), proof: Option<ProofRequest>, succeeded: bool)
      requires Valid() && flow.Valid()
      modifies this`paymentResult, flow`step, flow`maxStepReached, flow`timeLeft, flow`loading
      ensures Valid() && flow.Valid()
      ensures sent == (old(CreatePaymentData(debt, email, password, otp, pixKey, pixKeyType, paymentDate,
                                             enteredDay, now, offsetMs)), stepToken)
      ensures !flow.loading
      ensures proof.Some? <==> Accepted(pixReply)
      ensures proof.Some? ==> proof.value == ProofFor(debt, pixReply.value)
      ensures succeeded <==> Accepted(pixReply) && proofReply.Some?
      ensures flow.step == (if succeeded then Done else Processing)
      ensures flow.maxStepReached == HigherStep(HigherStep(old(flow.maxStepReached), Processing), flow.step)
      ensures flow.timeLeft == (if Boosts(old(flow.maxStepReached), Processing) then BoostedTime(old(flow.timeLeft))
                                else old(flow.timeLeft))
      ensures succeeded ==>
        paymentResult == Some(PaymentResult(pixReply.value.batchId.value, proofReply.value.proofUrl,
                                             proofReply.value.success))
      ensures !succeeded ==> paymentResult == old(paymentResult)
    {
      var data := CreatePaymentData(debt, email, password, otp, pixKey, pixKeyType, paymentDate, enteredDay, now, offsetMs);
      sent := (data, stepToken);
      flow.loading := true;
      flow.SafeSetStep(Processing);
      proof, succeeded := Settle(flow, debt, pixReply, proofReply);
      flow.loading := false;
    }
  }
}
