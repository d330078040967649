/**
 * `src/app/api/payments/initiate/route.ts`: the endpoint a signed-in
 * customer calls to start paying for a booking. A chain of early returns
 * validates the caller, the feature flag, the body and the booking, then
 * hands the order to `createPaymentRequestForOrder`.
 *
 * The signed-in user, the environment, the booking lookup and the
 * service's answer (`create`) are inputs.
 */
module InitiateRoute {
  import opened Wrappers
  import opened Strings
  import opened JsValues
  import opened Http
  import RequestBody
  import PaymentsService

  /** `isPositiveNumber(value)`. */
  predicate IsPositiveNumber(v: JsValue) {
    v.Num? && v.n.Finite? && v.n.v > 0.0
  }

  /** `normalizeChannelCode(value)`: strings trimmed and upper-cased, anything else `''`. */
  function NormalizeChannelCode(v: JsValue): (r: string)
    ensures !v.Str? ==> r == ""
    ensures v.Str? ==> |r| <= |v.s| && (r == "" <==> IsBlank(v.s))
    ensures forall i :: 0 <= i < |r| ==> !('a' <= r[i] <= 'z')
  {
    if v.Str? then ToUpper(Trim(v.s)) else ""
  }

  /** A normalised code is its own normal form, and case in the input does not matter. */
  lemma NormalizeChannelCodeIdempotent(s: string)
    ensures NormalizeChannelCode(Str(NormalizeChannelCode(Str(s)))) == NormalizeChannelCode(Str(s))
    ensures NormalizeChannelCode(Str(ToLower(s))) == NormalizeChannelCode(Str(s))
  {
    TrimToUpperCommute(Trim(s));
    TrimIdempotent(s);
    ToUpperIdempotent(Trim(s));
    TrimToLowerCommute(s);
    UpperOfLower(Trim(s));
  }

  const DefaultMaxBytes := 16 * 1024

  /** `MAX_PAYMENT_INITIATE_BODY_BYTES`: the variable if set, else 16 KiB. */
  function MaxBytes(setting: Option<string>): (r: Number)
    ensures !Present(setting) ==> r == Finite(16384.0)
    ensures Present(setting) ==> r == StringToNumber(setting.value)
  {
    if Present(setting) then StringToNumber(setting.value) else Finite(DefaultMaxBytes as real)
  }

  datatype RouteEnv = RouteEnv(maxBodyBytes: Option<string>, featureXenditV3: Option<string>)

  /** The `bookings` row the route selects. */
  datatype BookingRow = BookingRow(id: string, userId: string, totalPrice: JsValue,
                                   venueName: Option<string>, courtName: Option<string>)

  datatype Response =
    | Failure(status: int, error: string)
    | Success(paymentRequestId: string, referenceId: string, paymentStatus: string,
              actions: seq<PaymentsService.Action>, expiresAt: Option<string>)

  /** `body.orderId` trimmed when it is a string, else `''`. */
  function OrderIdOf(body: JsValue): string {
    var v := Get(body, "orderId");
    if v.Str? then Trim(v.s) else ""
  }

  /** The amount the order is charged: the body's if positive, else the booking's total. */
  function AmountOf(body: JsValue, booking: BookingRow): (r: Number)
    ensures IsPositiveNumber(Get(body, "amount")) ==> r == Get(body, "amount").n
    ensures !IsPositiveNumber(Get(body, "amount")) ==> r == ToNumber(booking.totalPrice)
  {
    if IsPositiveNumber(Get(body, "amount")) then Get(body, "amount").n else ToNumber(booking.totalPrice)
  }

  /** `typeof v === 'string' ? v.trim().toUpperCase() : undefined`. */
  function UpperOrUndefined(v: JsValue): (r: Option<string>)
    ensures r.Some? <==> v.Str?
    ensures r.Some? ==> r.value == ToUpper(Trim(v.s))
  {
    if v.Str? then Some(ToUpper(Trim(v.s))) else None
  }

  /** `typeof v === 'object' && v !== null ? v : undefined`, spread into the request. */
  function ChannelPropertiesOf(v: JsValue): (r: map<string, JsValue>)
    ensures v.Obj? ==> r == v.fields
    ensures !v.Obj? && !v.Arr? ==> r == map[]
  {
    if v.Obj? || v.Arr? then Spread(v) else map[]
  }

  /** What the route passes to `createPaymentRequestForOrder`. */
  function ServiceInput(body: JsValue, booking: BookingRow, userId: string, amount: real): (i: PaymentsService.InitiateInput)
    ensures i.orderId == OrderIdOf(body) && i.amount == amount
    ensures i.channelCode == NormalizeChannelCode(Get(body, "channelCode"))
    ensures i.metadata == map["initiated_by" := Str(userId)]
  {
    PaymentsService.InitiateInput(
      OrderIdOf(body), amount, NormalizeChannelCode(Get(body, "channelCode")),
      UpperOrUndefined(Get(body, "currency")), UpperOrUndefined(Get(body, "country")),
      Some("Booking " + OrElse(booking.venueName, "Venue") + " - " + OrElse(booking.courtName, "Court")),
      ChannelPropertiesOf(Get(body, "channelProperties")),
      map["initiated_by" := Str(userId)])
  }

  /**
   * `POST(request)`. `user` is the signed-in user's id (`None` when there is
   * none or `getUser` failed), `bookingLookup` the booking query and
   * `create` what `createPaymentRequestForOrder` returns or throws.
   */
  function Post(user: Option<string>, env: RouteEnv, req: RequestBody.BodyRequest, parse: string -> Option<JsValue>,
                bookingLookup: Result<Option<BookingRow>, string>,
                create: PaymentsService.InitiateInput -> Result<PaymentsService.InitiateResult, string>): (r: Response)
    ensures user.None? ==> r == Failure(401, "Not authenticated")
    ensures user.Some? && env.featureXenditV3 == Some("false") ==> r == Failure(503, "Xendit v3 payment feature is disabled")
  {
    if user.None? then Failure(401, "Not authenticated")
    else if env.featureXenditV3 == Some("false") then Failure(503, "Xendit v3 payment feature is disabled")
    else match RequestBody.ParseJsonBodyWithLimit(req, MaxBytes(env.maxBodyBytes), true, parse)
      case Rejected(status, error) => Failure(status, error)
      case Parsed(body) =>
        if body.Null? then Failure(500, "Internal Server Error")   // `null.orderId` throws
        else if OrderIdOf(body) == "" then Failure(400, "orderId is required")
        else if NormalizeChannelCode(Get(body, "channelCode")) == "" then Failure(400, "channelCode is required")
        else match bookingLookup
          case Err(message) => Failure(500, "Failed to fetch booking: " + message)
          case Ok(None) => Failure(404, "Order not found")
          case Ok(Some(booking)) =>
            if booking.userId != user.value then Failure(403, "Forbidden")
            else Charge(body, booking, user.value, create)
  }

  /** The route's last steps, for the owner's booking: the amount check, then the service. */
  function Charge(body: JsValue, booking: BookingRow, userId: string,
                  create: PaymentsService.InitiateInput -> Result<PaymentsService.InitiateResult, string>): (r: Response)
    ensures r.Success? ==> var amount := AmountOf(body, booking);
      amount.Finite? && amount.v > 0.0 && create(ServiceInput(body, booking, userId, amount.v)).Ok?
  {
    var amount := AmountOf(body, booking);
    if !amount.Finite? || amount.v <= 0.0 then Failure(400, "amount must be a positive number")
    else match create(ServiceInput(body, booking, userId, amount.v))
      case Err(message) => Failure(500, "Failed to initiate payment: " + message)
      case Ok(result) =>
        Success(result.paymentRequestId, result.referenceId, result.status, result.actions, result.expiresAt)
  }

  /**
   * The checks run in order and the first failing one decides: not signed
   * in (401), feature off (503), body rejected, `orderId` missing (400),
   * `channelCode` missing (400), lookup failed (500), no booking (404),
   * someone else's booking (403), no positive amount (400). The service is
   * asked only when all pass.
   */
  lemma GuardOrder(user: Option<string>, env: RouteEnv, req: RequestBody.BodyRequest, parse: string -> Option<JsValue>,
                   bookingLookup: Result<Option<BookingRow>, string>,
                   create: PaymentsService.InitiateInput -> Result<PaymentsService.InitiateResult, string>)
    ensures var r := Post(user, env, req, parse, bookingLookup, create);
      var parsed := RequestBody.ParseJsonBodyWithLimit(req, MaxBytes(env.maxBodyBytes), true, parse);
      var bodyOk := user.Some? && env.featureXenditV3 != Some("false") && parsed.Parsed? && !parsed.data.Null?;
      var orderOk := bodyOk && OrderIdOf(parsed.data) != "";
      var channelOk := orderOk && NormalizeChannelCode(Get(parsed.data, "channelCode")) != "";
      var found := channelOk && bookingLookup.Ok? && bookingLookup.value.Some?;
      var ownerOk := found && bookingLookup.value.value.userId == user.value;
      && (user.Some? && env.featureXenditV3 != Some("false") && parsed.Rejected? ==>
            r == Failure(parsed.status, parsed.error))
      && (bodyOk && !orderOk ==> r == Failure(400, "orderId is required"))
      && (orderOk && !channelOk ==> r == Failure(400, "channelCode is required"))
      && (channelOk && bookingLookup.Err? ==> r == Failure(500, "Failed to fetch booking: " + bookingLookup.error))
      && (channelOk && bookingLookup.Ok? && bookingLookup.value.None? ==> r == Failure(404, "Order not found"))
      && (found && !ownerOk ==> r == Failure(403, "Forbidden"))
      && (r.Success? ==> ownerOk)
  {
  }

  /**
   * A successful initiation asks the service for the signed-in owner's
   * order, with a positive finite amount: the body's `amount` when it is a
   * positive number, else `Number(total_price)`.
   */
  lemma AmountFallback(user: Option<string>, env: RouteEnv, req: RequestBody.BodyRequest, parse: string -> Option<JsValue>,
                       booking: BookingRow,
                       create: PaymentsService.InitiateInput -> Result<PaymentsService.InitiateResult, string>)
    requires Post(user, env, req, parse, Ok(Some(booking)), create).Success?
    ensures var body := RequestBody.ParseJsonBodyWithLimit(req, MaxBytes(env.maxBodyBytes), true, parse).data;
      var amount := AmountOf(body, booking);
      && amount.Finite? && amount.v > 0.0
      && (IsPositiveNumber(Get(body, "amount")) ==> amount == Get(body, "amount").n)
      && (!IsPositiveNumber(Get(body, "amount")) ==> amount == ToNumber(booking.totalPrice))
      && create(ServiceInput(body, booking, user.value, amount.v)).Ok?
      && booking.userId == user.value
  {
    var parsed := RequestBody.ParseJsonBodyWithLimit(req, MaxBytes(env.maxBodyBytes), true, parse);
    assert parsed.Parsed? && booking.userId == user.value;
    assert Post(user, env, req, parse, Ok(Some(booking)), create) == Charge(parsed.data, booking, user.value, create);
  }

  /**
   * Country and currency reach the service trimmed and upper-cased when the
   * body gives strings, and are left to the service's defaults otherwise.
   */
  lemma CountryAndCurrency(body: JsValue, booking: BookingRow, userId: string, amount: real)
    ensures var i := ServiceInput(body, booking, userId, amount);
      && (Get(body, "country").Str? ==> i.country == Some(ToUpper(Trim(Get(body, "country").s))))
      && (!Get(body, "country").Str? ==> i.country.None?)
      && (Get(body, "currency").Str? ==> i.currency == Some(ToUpper(Trim(Get(body, "currency").s))))
      && (!Get(body, "currency").Str? ==> i.currency.None?)
      && i.description == Some("Booking " + OrElse(booking.venueName, "Venue") + " - " + OrElse(booking.courtName, "Court"))
  {
  }
}
