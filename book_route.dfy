/** `POST` of the booking route: rate limit, configuration, request and proof checks, the
    aggregate-sum payment policy, and the Cal.com booking request. */
module BookRoute {
  import opened Wrappers
  import opened Js
  import opened Evm
  import opened Erc20
  import opened Http
  import VerifyPayment

  /** The rate limiter's verdict; a denial may carry the limiter's own response. */
  datatype RateLimit = Allowed | Denied(response: Option<Response>)

  /** Server configuration. `price` is None when PRICE_USDC is unset or empty, else
      `Number(PRICE_USDC)`, a finite value given in base units (6 decimals) or NaN/Infinity. */
  datatype Env = Env(
    calcomApiKey: Option<string>, calcomApiUrl: Option<string>,
    rpcUrl: Option<string>, receiver: Option<string>, usdc: Option<string>, price: Option<Num>)

  /** `eventTypeId` as the client sent it: a JSON number, or a string `Number()` parses. */
  datatype IdValue = IdNumber(n: int) | IdText(text: string, number: Num) {
    predicate Truthy() {
      match this
      case IdNumber(n) => n != 0
      case IdText(t, _) => t != ""
    }
    function ToNumber(): (n: Num) {
      match this
      case IdNumber(n) => Finite(n)
      case IdText(_, p) => p
    }
  }

  datatype Attendee = Attendee(name: string, email: string, timeZone: string)
  datatype Metadata = Metadata(notes: Option<string>, referralSource: Option<string>)

  /** The fields of the JSON request body the route reads. */
  datatype BookingBody = BookingBody(
    eventTypeId: Option<IdValue>, start: Option<string>, attendee: Option<Attendee>,
    paymentTxHash: Option<string>, metadata: Option<Metadata>, guests: Option<seq<string>>)

  /** `request.json()`: a parsed body, or a parse error. */
  datatype RequestBody = Json(body: BookingBody) | MalformedJson

  /** Cal.com's answer to the booking request: an HTTP status with its body, or a failed fetch. */
  datatype CalcomReply = CalcomHttp(status: int, text: string) | CalcomUnreachable

  datatype CalcomAttendee = CalcomAttendee(name: string, email: string, timeZone: string, language: string)
  datatype BookingFields = BookingFields(name: string, email: string, notes: string, discoveryMethod: Option<string>)

  /** The `BookingRequestV2` payload sent to Cal.com. It has no field for the payment proof. */
  datatype CalcomBooking = CalcomBooking(
    start: string, attendee: CalcomAttendee, eventTypeId: int,
    bookingFieldsResponses: BookingFields, guests: Option<seq<string>>)

  /** The response; whether the receipt was fetched; and the payload sent to Cal.com, None
      when Cal.com was not called. */
  datatype BookOutcome = BookOutcome(response: Response, receiptFetched: bool, calcomRequest: Option<CalcomBooking>)

  const TooManyRequests: string := "Too many booking requests. Please try again later."
  const ApiKeyMissing: string := "Cal.com API key not configured"
  const ApiUrlMissing: string := "Cal.com API URL not configured"
  const PriceNotPositive: string := "PRICE_USDC must be a positive number"
  const InternalError: string := "Internal server error"
  const MissingData: string := "Missing required booking data"
  const PaymentRequiredError: string := "Payment required"
  const MissingTxHash: string := "Missing paymentTxHash"
  const TxFailed: string := "Payment transaction failed"
  const InvalidEventType: string := "Invalid eventTypeId: must be a valid positive number"
  const CalcomFailed: string := "Failed to create booking with Cal.com"
  const DefaultNotes: string := "No additional notes provided"
  const Language: string := "en"

  function MissingEnv(name: string): (m: string) {
    "Missing env: " + name
  }

  function Throttled(limit: RateLimit): (r: Response)
    requires limit.Denied?
    ensures limit.response.Some? ==> r == limit.response.value
    ensures limit.response.None? ==> r == Response(StatusTooManyRequests, ErrorMessage(TooManyRequests))
  {
    limit.response.GetOr(Response(StatusTooManyRequests, ErrorMessage(TooManyRequests)))
  }

  predicate PricePositive(p: Option<Num>) {
    p.Some? && p.value.Finite? && p.value.value > 0
  }

  /** The configuration checks in the route's order: Cal.com key, Cal.com URL, then
      `requireEnv` of BASE_RPC_URL, PAYMENT_RECEIVER, USDC_BASE, PRICE_USDC, then the price
      test. The first one that fails gives the message of the 500 response. */
  function ConfigFault(env: Env): (r: Option<string>)
    ensures r.None? <==>
      && Truthy(env.calcomApiKey) && Truthy(env.calcomApiUrl) && Truthy(env.rpcUrl)
      && Truthy(env.receiver) && Truthy(env.usdc) && PricePositive(env.price)
    ensures !Truthy(env.calcomApiKey) ==> r == Some(ApiKeyMissing)
    ensures r == Some(PriceNotPositive) <==>
      && Truthy(env.calcomApiKey) && Truthy(env.calcomApiUrl) && Truthy(env.rpcUrl)
      && Truthy(env.receiver) && Truthy(env.usdc) && env.price.Some? && !PricePositive(env.price)
  {
    if !Truthy(env.calcomApiKey) then Some(ApiKeyMissing)
    else if !Truthy(env.calcomApiUrl) then Some(ApiUrlMissing)
    else if !Truthy(env.rpcUrl) then Some(MissingEnv("BASE_RPC_URL"))
    else if !Truthy(env.receiver) then Some(MissingEnv("PAYMENT_RECEIVER"))
    else if !Truthy(env.usdc) then Some(MissingEnv("USDC_BASE"))
    else if env.price.None? then Some(MissingEnv("PRICE_USDC"))
    else if !PricePositive(env.price) then Some(PriceNotPositive)
    else None
  }

  /** `!bookingData.eventTypeId || !bookingData.start || !bookingData.attendee`. */
  predicate MissingBookingData(b: BookingBody) {
    (b.eventTypeId.None? || !b.eventTypeId.value.Truthy()) || !Truthy(b.start) || b.attendee.None?
  }

  /** Amount paid to `receiver` by a sequence of transfers: the sum of every transfer to
      it (case-insensitive), in base units. */
  function PaidTo(ts: seq<Transfer>, receiver: string): (p: nat) {
    if ts == [] then 0
    else (if SameAddress(AddressText(ts[0].to), receiver) then ts[0].value else 0) + PaidTo(ts[1..], receiver)
  }

  lemma {:induction false} PaidToAppend(a: seq<Transfer>, b: seq<Transfer>, receiver: string)
    ensures PaidTo(a + b, receiver) == PaidTo(a, receiver) + PaidTo(b, receiver)
  {
    if a != [] {
      assert (a + b)[0] == a[0] && (a + b)[1..] == a[1..] + b;
      PaidToAppend(a[1..], b, receiver);
    } else {
      assert a + b == b;
    }
  }

  /** The loop of the route: every log of the token contract that decodes as an EIP-20
      Transfer to the receiver adds its value; logs that do not decode are skipped. */
  method PaidToReceiver(usdcLogs: seq<Log>, receiver: string) returns (paid: nat)
    ensures paid == PaidTo(Transfers(StandardTransfer, usdcLogs), receiver)
  {
    paid := 0;
    for i := 0 to |usdcLogs|
      invariant paid == PaidTo(Transfers(StandardTransfer, usdcLogs[..i]), receiver)
    {
      var log := usdcLogs[i];
      match DecodeTransfer(StandardTransfer, log) {
        case None =>
          // the decoder threw: the log is ignored
        case Some(t) =>
          if SameAddress(AddressText(t.to), receiver) {
            paid := paid + t.value;
          }
      }
      assert usdcLogs[..i + 1] == usdcLogs[..i] + [log];
      TransfersAppend(StandardTransfer, usdcLogs[..i], [log]);
      PaidToAppend(Transfers(StandardTransfer, usdcLogs[..i]), Transfers(StandardTransfer, [log]), receiver);
    }
    assert usdcLogs[..|usdcLogs|] == usdcLogs;
  }

  /** What one receipt log contributes, read directly off the log. */
  function LogPayment(l: Log, token: string, receiver: string): (p: nat) {
    if !SameAddress(l.address, token) then 0
    else match DecodeTransfer(StandardTransfer, l)
      case None => 0
      case Some(t) => if SameAddress(AddressText(t.to), receiver) then t.value else 0
  }

  function SumOverLogs(logs: seq<Log>, token: string, receiver: string): (p: nat) {
    if logs == [] then 0 else LogPayment(logs[0], token, receiver) + SumOverLogs(logs[1..], token, receiver)
  }

  /** Filtering, decoding and summing is the per-log sum: the paid amount is the sum of
      `value` over every token-contract log that decodes as a Transfer to the receiver. */
  lemma {:induction false} PaidIsSumOverLogs(logs: seq<Log>, token: string, receiver: string)
    ensures PaidTo(Transfers(StandardTransfer, TokenLogs(logs, token)), receiver) == SumOverLogs(logs, token, receiver)
  {
    if logs != [] {
      PaidIsSumOverLogs(logs[1..], token, receiver);
      var head := if SameAddress(logs[0].address, token) then [logs[0]] else [];
      assert TokenLogs(logs, token) == head + TokenLogs(logs[1..], token);
      TransfersAppend(StandardTransfer, head, TokenLogs(logs[1..], token));
      PaidToAppend(Transfers(StandardTransfer, head), Transfers(StandardTransfer, TokenLogs(logs[1..], token)), receiver);
      if head != [] {
        assert head[1..] == [];
        match DecodeTransfer(StandardTransfer, logs[0])
        case None =>
        case Some(t) => assert Transfers(StandardTransfer, head)[1..] == [];
      }
    }
  }

  /** The total the route computes for a receipt, with the configuration lower-cased as the
      route stores it. */
  function Paid(logs: seq<Log>, usdc: string, receiver: string): (p: nat) {
    PaidTo(Transfers(StandardTransfer, TokenLogs(logs, Lower(usdc))), Lower(receiver))
  }

  /** The Cal.com payload: the proof is not forwarded, the language is "en", notes default
      when absent or empty, and `guests` is present only when non-empty. */
  function BuildCalcomBooking(b: BookingBody, eventTypeId: int): (c: CalcomBooking)
    requires b.start.Some? && b.attendee.Some?
    ensures c.start == b.start.value && c.eventTypeId == eventTypeId
    ensures c.attendee == CalcomAttendee(b.attendee.value.name, b.attendee.value.email, b.attendee.value.timeZone, "en")
    ensures c.bookingFieldsResponses.name == b.attendee.value.name
    ensures c.bookingFieldsResponses.email == b.attendee.value.email
    ensures b.metadata.Some? && Truthy(b.metadata.value.notes) ==> c.bookingFieldsResponses.notes == b.metadata.value.notes.value
    ensures (b.metadata.None? || !Truthy(b.metadata.value.notes)) ==> c.bookingFieldsResponses.notes == "No additional notes provided"
    ensures c.guests.Some? <==> b.guests.Some? && |b.guests.value| > 0
    ensures c.guests.Some? ==> c.guests == b.guests
    ensures c.bookingFieldsResponses.discoveryMethod == (if b.metadata.Some? then b.metadata.value.referralSource else None)
  {
    var a := b.attendee.value;
    var notes := if b.metadata.Some? && Truthy(b.metadata.value.notes) then b.metadata.value.notes.value else DefaultNotes;
    var referral := if b.metadata.Some? then b.metadata.value.referralSource else None;
    CalcomBooking(
      b.start.value,
      CalcomAttendee(a.name, a.email, a.timeZone, Language),
      eventTypeId,
      BookingFields(a.name, a.email, notes, referral),
      if b.guests.Some? && |b.guests.value| > 0 then b.guests else None)
  }

  /** Cal.com's status is passed through on failure; a failed fetch is an internal error. */
  function CalcomResponse(reply: CalcomReply): (r: Response)
    ensures reply.CalcomHttp? && !(200 <= reply.status < 300) ==>
              r == Response(reply.status, UpstreamFailure(CalcomFailed, reply.text, reply.status))
    ensures reply.CalcomHttp? && 200 <= reply.status < 300 ==> r == Response(StatusOk, Forwarded(reply.text))
    ensures reply.CalcomUnreachable? ==> r.status == StatusInternalError
  {
    match reply
    case CalcomUnreachable => Response(StatusInternalError, ErrorMessage(InternalError))
    case CalcomHttp(status, text) =>
      if 200 <= status < 300 then Response(StatusOk, Forwarded(text))
      else Response(status, UpstreamFailure(CalcomFailed, text, status))
  }

  function Stop(r: Response): (o: BookOutcome) {
    BookOutcome(r, false, None)
  }

  /** The route as a function of the rate limiter's verdict, the configuration, the request
      body, the outcome of `getTransactionReceipt` and Cal.com's reply. */
  function Book(limit: RateLimit, env: Env, request: RequestBody, lookup: Lookup, calcom: CalcomReply): (o: BookOutcome)
    ensures o.receiptFetched ==>
              && limit.Allowed? && ConfigFault(env).None? && request.Json?
              && !MissingBookingData(request.body) && Truthy(request.body.paymentTxHash)
    ensures o.calcomRequest.Some? ==>
              && o.receiptFetched && lookup.Found? && lookup.receipt.status == Success
              && Paid(lookup.receipt.logs, env.usdc.value, env.receiver.value) >= env.price.value.value
    ensures limit.Allowed? && o.calcomRequest.None? ==>
              o.response.status in {StatusBadRequest, StatusPaymentRequired, StatusInternalError}
  {
    if limit.Denied? then Stop(Throttled(limit))
    else if ConfigFault(env).Some? then Stop(Response(StatusInternalError, ErrorMessage(ConfigFault(env).value)))
    else if request.MalformedJson? then Stop(Response(StatusInternalError, ErrorMessage(InternalError)))
    else if MissingBookingData(request.body) then Stop(Response(StatusBadRequest, ErrorMessage(MissingData)))
    else if !Truthy(request.body.paymentTxHash) then
      Stop(Response(StatusPaymentRequired, ErrorDetails(PaymentRequiredError, MissingTxHash)))
    // getTransactionReceipt throws for an unknown hash; the outer catch answers 500
    else if lookup.NotFound? then BookOutcome(Response(StatusInternalError, ErrorMessage(InternalError)), true, None)
    else if lookup.receipt.status != Success then
      BookOutcome(Response(StatusPaymentRequired, ErrorDetails(PaymentRequiredError, TxFailed)), true, None)
    else
      var paid := Paid(lookup.receipt.logs, env.usdc.value, env.receiver.value);
      var price := env.price.value.value;
      if paid < price then
        BookOutcome(Response(StatusPaymentRequired, Underpaid(PaymentRequiredError, paid, price)), true, None)
      else
        if !ValidEventType(request.body) then
          BookOutcome(Response(StatusBadRequest, ErrorMessage(InvalidEventType)), true, None)
        else
          var booking := BuildCalcomBooking(request.body, request.body.eventTypeId.value.ToNumber().value);
          BookOutcome(CalcomResponse(calcom), true, Some(booking))
  }

  /** The route handler, step by step as the source runs it. */
  method Post(limit: RateLimit, env: Env, request: RequestBody, lookup: Lookup, calcom: CalcomReply)
    returns (out: BookOutcome)
    ensures out == Book(limit, env, request, lookup, calcom)
  {
    if limit.Denied? {
      return Stop(Throttled(limit));
    }
    if !Truthy(env.calcomApiKey) {
      return Stop(Response(StatusInternalError, ErrorMessage(ApiKeyMissing)));
    }
    if !Truthy(env.calcomApiUrl) {
      return Stop(Response(StatusInternalError, ErrorMessage(ApiUrlMissing)));
    }

    // payment configuration, read with requireEnv into `let` variables
    var rpcUrl, receiver, usdc, price := "", "", "", 0;
    if !Truthy(env.rpcUrl) {
      return Stop(Response(StatusInternalError, ErrorMessage(MissingEnv("BASE_RPC_URL"))));
    }
    rpcUrl := env.rpcUrl.value;
    if !Truthy(env.receiver) {
      return Stop(Response(StatusInternalError, ErrorMessage(MissingEnv("PAYMENT_RECEIVER"))));
    }
    receiver := Lower(env.receiver.value);
    if !Truthy(env.usdc) {
      return Stop(Response(StatusInternalError, ErrorMessage(MissingEnv("USDC_BASE"))));
    }
    usdc := Lower(env.usdc.value);
    if env.price.None? {
      return Stop(Response(StatusInternalError, ErrorMessage(MissingEnv("PRICE_USDC"))));
    }
    if env.price.value.NotFinite? || env.price.value.value <= 0 {
      return Stop(Response(StatusInternalError, ErrorMessage(PriceNotPositive)));
    }
    price := env.price.value.value;

    if request.MalformedJson? {
      return Stop(Response(StatusInternalError, ErrorMessage(InternalError)));
    }
    var bookingData := request.body;
    if MissingBookingData(bookingData) {
      return Stop(Response(StatusBadRequest, ErrorMessage(MissingData)));
    }
    if !Truthy(bookingData.paymentTxHash) {
      return Stop(Response(StatusPaymentRequired, ErrorDetails(PaymentRequiredError, MissingTxHash)));
    }

    if lookup.NotFound? {
      return BookOutcome(Response(StatusInternalError, ErrorMessage(InternalError)), true, None);
    }
    var receipt := lookup.receipt;
    if receipt.status != Success {
      return BookOutcome(Response(StatusPaymentRequired, ErrorDetails(PaymentRequiredError, TxFailed)), true, None);
    }

    var usdcLogs := TokenLogs(receipt.logs, usdc);
    var paid := PaidToReceiver(usdcLogs, receiver);
    if paid < price {
      return BookOutcome(Response(StatusPaymentRequired, Underpaid(PaymentRequiredError, paid, price)), true, None);
    }

    var eventTypeId := bookingData.eventTypeId.value.ToNumber();
    if eventTypeId.NotFinite? || eventTypeId.value <= 0 {
      return BookOutcome(Response(StatusBadRequest, ErrorMessage(InvalidEventType)), true, None);
    }
    var calcomBookingData := BuildCalcomBooking(bookingData, eventTypeId.value);
    out := BookOutcome(CalcomResponse(calcom), true, Some(calcomBookingData));
  }

  /** A rate-limit denial answers before any configuration, payment or Cal.com work. */
  lemma RateLimitFirst(limit: RateLimit, env: Env, request: RequestBody, lookup: Lookup, calcom: CalcomReply)
    requires limit.Denied?
    ensures Book(limit, env, request, lookup, calcom) == BookOutcome(Throttled(limit), false, None)
  {
  }

  /** Missing or invalid configuration is a 500, before the body, the chain or Cal.com. */
  lemma ConfigErrorsAreInternal(limit: RateLimit, env: Env, request: RequestBody, lookup: Lookup, calcom: CalcomReply)
    requires limit.Allowed? && ConfigFault(env).Some?
    ensures var out := Book(limit, env, request, lookup, calcom);
            out.response.status == StatusInternalError && !out.receiptFetched && out.calcomRequest.None?
  {
  }

  /** Missing booking data is a 400 whether or not a proof was sent, and nothing is fetched. */
  lemma MissingDataBeforeProof(limit: RateLimit, env: Env, b: BookingBody, lookup: Lookup, calcom: CalcomReply)
    requires limit.Allowed? && ConfigFault(env).None? && MissingBookingData(b)
    ensures Book(limit, env, Json(b), lookup, calcom) == Stop(Response(StatusBadRequest, ErrorMessage(MissingData)))
  {
  }

  /** Without a proof the answer is 402 and the chain is not consulted. */
  lemma MissingProofIsPaymentRequired(limit: RateLimit, env: Env, b: BookingBody, lookup: Lookup, calcom: CalcomReply)
    requires limit.Allowed? && ConfigFault(env).None? && !MissingBookingData(b) && !Truthy(b.paymentTxHash)
    ensures Book(limit, env, Json(b), lookup, calcom)
         == Stop(Response(StatusPaymentRequired, ErrorDetails(PaymentRequiredError, MissingTxHash)))
  {
  }

  /** Once a proof is sent, an unknown transaction is an internal error here (the verifier of
      the protected route answers "Transaction not found" instead), and a failed one is a 402. */
  lemma ReceiptFailures(limit: RateLimit, env: Env, b: BookingBody, lookup: Lookup, calcom: CalcomReply)
    requires limit.Allowed? && ConfigFault(env).None? && !MissingBookingData(b) && Truthy(b.paymentTxHash)
    ensures lookup.NotFound? ==>
      Book(limit, env, Json(b), lookup, calcom) == BookOutcome(Response(StatusInternalError, ErrorMessage(InternalError)), true, None)
    ensures lookup.Found? && lookup.receipt.status != Success ==>
      Book(limit, env, Json(b), lookup, calcom)
        == BookOutcome(Response(StatusPaymentRequired, ErrorDetails(PaymentRequiredError, TxFailed)), true, None)
  {
  }

  predicate ValidEventType(b: BookingBody)
    requires !MissingBookingData(b)
  {
    var id := b.eventTypeId.value.ToNumber();
    id.Finite? && id.value > 0
  }

  /** The gate: Cal.com is called exactly when every check passed, including a successful
      receipt whose matching transfers sum to at least the price; and then it receives the
      payload built from the body. */
  lemma CalcomOnlyAfterPayment(limit: RateLimit, env: Env, request: RequestBody, lookup: Lookup, calcom: CalcomReply)
    ensures var out := Book(limit, env, request, lookup, calcom);
      out.calcomRequest.Some? <==>
        && limit.Allowed? && ConfigFault(env).None? && request.Json? && !MissingBookingData(request.body)
        && Truthy(request.body.paymentTxHash) && lookup.Found? && lookup.receipt.status == Success
        && Paid(lookup.receipt.logs, env.usdc.value, env.receiver.value) >= env.price.value.value
        && ValidEventType(request.body)
    ensures var out := Book(limit, env, request, lookup, calcom);
      out.calcomRequest.Some? ==>
        && out.calcomRequest.value == BuildCalcomBooking(request.body, request.body.eventTypeId.value.ToNumber().value)
        && out.response == CalcomResponse(calcom)
  {
  }

  /** Paying less than the price is a 402 that reports both amounts; Cal.com is not called. */
  lemma InsufficientPayment(limit: RateLimit, env: Env, b: BookingBody, receipt: Receipt, calcom: CalcomReply)
    requires limit.Allowed? && ConfigFault(env).None? && !MissingBookingData(b) && Truthy(b.paymentTxHash)
    requires receipt.status == Success
    requires Paid(receipt.logs, env.usdc.value, env.receiver.value) < env.price.value.value
    ensures Book(limit, env, Json(b), Found(receipt), calcom)
         == BookOutcome(Response(StatusPaymentRequired,
              Underpaid(PaymentRequiredError, Paid(receipt.logs, env.usdc.value, env.receiver.value), env.price.value.value)), true, None)
  {
  }

  /** An unusable eventTypeId is only detected after the payment passed: a 400, no booking. */
  lemma InvalidEventTypeAfterPayment(limit: RateLimit, env: Env, b: BookingBody, receipt: Receipt, calcom: CalcomReply)
    requires limit.Allowed? && ConfigFault(env).None? && !MissingBookingData(b) && Truthy(b.paymentTxHash)
    requires receipt.status == Success
    requires Paid(receipt.logs, env.usdc.value, env.receiver.value) >= env.price.value.value
    requires !ValidEventType(b)
    ensures Book(limit, env, Json(b), Found(receipt), calcom)
         == BookOutcome(Response(StatusBadRequest, ErrorMessage(InvalidEventType)), true, None)
  {
  }

  /** A non-2xx answer of Cal.com is returned with Cal.com's own status. */
  lemma UpstreamStatusPropagated(limit: RateLimit, env: Env, request: RequestBody, lookup: Lookup, status: int, text: string)
    requires Book(limit, env, request, lookup, CalcomHttp(status, text)).calcomRequest.Some?
    requires !(200 <= status < 300)
    ensures Book(limit, env, request, lookup, CalcomHttp(status, text)).response
         == Response(status, UpstreamFailure(CalcomFailed, text, status))
  {
  }

  /** The payment proof never reaches Cal.com: two bodies that differ only in the proof produce
      the same booking request. */
  lemma ProofNotForwarded(limit: RateLimit, env: Env, b: BookingBody, otherTx: string, lookup: Lookup, calcom: CalcomReply)
    requires Truthy(b.paymentTxHash) && otherTx != ""
    ensures Book(limit, env, Json(b), lookup, calcom)
         == Book(limit, env, Json(b.(paymentTxHash := Some(otherTx))), lookup, calcom)
  {
  }

  /** The source compares human-unit floats, `paidUSDC + 1e-9 < PRICE_USDC`. In exact
      arithmetic, with both amounts whole numbers of base units, that is `paid < price`. */
  lemma EpsilonComparisonExact(paidUnits: nat, priceUnits: int)
    ensures (paidUnits as real / 1000000.0 + 0.000000001 < priceUnits as real / 1000000.0) <==> paidUnits < priceUnits
  {
    var p, q := paidUnits as real, priceUnits as real;
    assert (p / 1000000.0 + 0.000000001 < q / 1000000.0) <==> (p + 0.001 < q);
    if paidUnits < priceUnits {
      assert p + 1.0 <= q;
    }
  }

  lemma {:induction false} SumOverLogsAppend(a: seq<Log>, b: seq<Log>, token: string, receiver: string)
    ensures SumOverLogs(a + b, token, receiver) == SumOverLogs(a, token, receiver) + SumOverLogs(b, token, receiver)
  {
    if a != [] {
      assert (a + b)[0] == a[0] && (a + b)[1..] == a[1..] + b;
      SumOverLogsAppend(a[1..], b, token, receiver);
    } else {
      assert a + b == b;
    }
  }

  lemma {:induction false} NothingPaid(logs: seq<Log>, token: string, receiver: string)
    requires forall l :: l in logs ==> LogPayment(l, token, receiver) == 0
    ensures SumOverLogs(logs, token, receiver) == 0
  {
    if logs != [] {
      assert logs[0] in logs;
      NothingPaid(logs[1..], token, receiver);
    }
  }

  /** Logs that pay nothing to the receiver (other contracts, undecodable logs, transfers to
      someone else), wherever they sit, leave the paid amount unchanged: they are skipped,
      not fatal. */
  lemma NonPayingLogsIgnored(before: seq<Log>, extra: seq<Log>, after: seq<Log>, usdc: string, receiver: string)
    requires forall l :: l in extra ==> LogPayment(l, Lower(usdc), Lower(receiver)) == 0
    ensures Paid(before + extra + after, usdc, receiver) == Paid(before + after, usdc, receiver)
  {
    var token, to := Lower(usdc), Lower(receiver);
    PaidIsSumOverLogs(before + extra + after, token, to);
    PaidIsSumOverLogs(before + after, token, to);
    SumOverLogsAppend(before + extra, after, token, to);
    SumOverLogsAppend(before, extra, token, to);
    SumOverLogsAppend(before, after, token, to);
    NothingPaid(extra, token, to);
  }

  lemma {:induction false} PaidCoversEachTransfer(ts: seq<Transfer>, receiver: string, i: nat)
    requires i < |ts| && SameAddress(AddressText(ts[i].to), receiver)
    ensures PaidTo(ts, receiver) >= ts[i].value
  {
    if i > 0 {
      PaidCoversEachTransfer(ts[1..], receiver, i - 1);
    }
  }

  /** The two policies side by side: whatever the single-transfer verifier accepts (EIP-20
      fragment, any sender constraint), the aggregate sum of the booking route accepts too. */
  lemma SingleTransferImpliesAggregate(rpcUrl: Option<string>, receipt: Receipt, receiver: string, usdc: string,
                                       price: int, from: Option<string>)
    requires VerifyPayment.VerifyErc20TransferOnBase(StandardTransfer, rpcUrl, Found(receipt),
               VerifyPayment.VerifyArgs(receiver, usdc, price, from)).Verified?
    ensures Paid(receipt.logs, usdc, receiver) >= price
  {
    var args := VerifyPayment.VerifyArgs(receiver, usdc, price, from);
    var ts := Transfers(StandardTransfer, TokenLogs(receipt.logs, usdc));
    var m := VerifyPayment.FindMatch(ts, args);
    var i :| 0 <= i < |ts| && ts[i] == m.value && forall j :: 0 <= j < i ==> !VerifyPayment.Matches(ts[j], args);
    TokenLogsLowered(receipt.logs, usdc);
    LowerIdempotent(receiver);
    PaidCoversEachTransfer(ts, Lower(receiver), i);
  }

  /** ... but not conversely: two transfers that are each short of the price and together
      reach it pay for a booking, while the verifier rejects the same receipt. */
  lemma SplitPaymentOnlyAggregate(rpcUrl: Option<string>, usdc: string, receiver: string, t1: Transfer, t2: Transfer, price: int)
    requires Truthy(rpcUrl)
    requires SameAddress(AddressText(t1.to), receiver) && SameAddress(AddressText(t2.to), receiver)
    requires t1.value < price && t2.value < price && t1.value + t2.value >= price
    requires t1.value < Pow256(32) && t2.value < Pow256(32)
    ensures Paid([TransferLog(usdc, t1), TransferLog(usdc, t2)], usdc, receiver) >= price
    ensures VerifyPayment.VerifyErc20TransferOnBase(StandardTransfer, rpcUrl,
              Found(Receipt(Success, [TransferLog(usdc, t1), TransferLog(usdc, t2)])),
              VerifyPayment.VerifyArgs(receiver, usdc, price, None)) == VerifyPayment.Rejected(VerifyPayment.NoMatchingTransfer)
  {
    var logs := [TransferLog(usdc, t1), TransferLog(usdc, t2)];
    StandardDecodesTransferLog(usdc, t1);
    StandardDecodesTransferLog(usdc, t2);
    LowerIdempotent(usdc);
    LowerIdempotent(receiver);
    PaidIsSumOverLogs(logs, Lower(usdc), Lower(receiver));
    assert LogPayment(logs[0], Lower(usdc), Lower(receiver)) == t1.value;
    assert LogPayment(logs[1], Lower(usdc), Lower(receiver)) == t2.value;
    assert logs[1..][1..] == [];
    VerifyPayment.NoSumming(rpcUrl, usdc, t1, t2, VerifyPayment.VerifyArgs(receiver, usdc, price, None));
  }
}
