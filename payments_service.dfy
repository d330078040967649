/**
 * `src/lib/payments/service.ts`: the payment state machine between bookings,
 * the `payments` table, the `webhook_events` table and Xendit.
 *
 * Every Supabase query becomes an input (the row it returns or the error it
 * reports) and every write becomes part of the result (the record that would
 * be written), so each operation is a function from what it reads to what it
 * writes.
 */
module PaymentsService {
  import opened Wrappers
  import opened Strings
  import opened JsValues
  import opened Http

  datatype InternalStatus = PendingUserAction | Paid | Failed | Expired

  /** The text stored in `payments.status` and `bookings.payment_state`. */
  function StatusText(s: InternalStatus): string {
    match s
    case PendingUserAction => "PENDING_USER_ACTION"
    case Paid => "PAID"
    case Failed => "FAILED"
    case Expired => "EXPIRED"
  }

  const TerminalStatuses: set<string> := {"PAID", "FAILED", "EXPIRED"}
  const RedirectActionType := "REDIRECT_CUSTOMER"
  const ReferencePrefix := "booking_"

  /**
   * The built-ins whose exact output the model does not compute:
   * `show` is `String(v)` for a number and `JSON.stringify(v)` for an array
   * or object; `toIso` is `new Date(text).toISOString()`, `None` for an
   * invalid date.
   */
  datatype Builtins = Builtins(show: JsValue -> string, toIso: string -> Option<string>)

  // ---------------------------------------------------------------------
  // Field readers

  /** `str(value)`: a trimmed, non-empty string or null. */
  function StrOrNull(v: JsValue): (r: Option<string>)
    ensures r.Some? <==> v.Str? && !IsBlank(v.s)
    ensures r.Some? ==> r.value == Trim(v.s) && r.value != ""
  {
    if v.Str? && Trim(v.s) != "" then Some(Trim(v.s)) else None
  }

  /** What `str` yields is a fixed point of `str`. */
  lemma StrOrNullIdempotent(v: JsValue)
    ensures var r := StrOrNull(v);
      r.Some? ==> StrOrNull(Str(r.value)) == r
  {
    if v.Str? {
      TrimIdempotent(v.s);
    }
  }

  /** `num(value)`: only finite numbers are accepted. */
  function NumOrNull(v: JsValue): (r: Option<real>)
    ensures r.Some? <==> IsFiniteNumber(v)
    ensures r.Some? ==> v == Num(Finite(r.value))
  {
    if v.Num? && v.n.Finite? then Some(v.n.v) else None
  }

  /** `num(a) || b`: a zero is falsy and falls through. */
  function NumOr(a: Option<real>, b: Option<real>): Option<real> {
    if a.Some? && a.value != 0.0 then a else b
  }

  /** `getRecord(value)`: a plain object, or null. */
  function GetRecord(v: JsValue): (r: Option<JsValue>)
    ensures r.Some? ==> r.value == v && v.Obj?
  {
    if v.Obj? then Some(v) else None
  }

  /** `record?.[key]` on an optional record. */
  function Field(r: Option<JsValue>, key: string): JsValue {
    if r.Some? then Get(r.value, key) else Undefined
  }

  /** `toIsoStringOrNull(value)`. */
  function IsoOrNull(v: JsValue, b: Builtins): Option<string> {
    match StrOrNull(v)
    case None => None
    case Some(text) => b.toIso(text)
  }

  // ---------------------------------------------------------------------
  // Payment actions

  datatype Action = Action(kind: string, descriptor: Option<string>, value: string)

  /** `actionValueToString(value)`. */
  function ActionValueToString(v: JsValue, b: Builtins): string {
    match v
    case Str(s) => s
    case Bool(x) => if x then "true" else "false"
    case Undefined => ""
    case Null => ""
    case _ => b.show(v)
  }

  /** The `map` step of `parseActions` for one element. */
  function ParseAction(item: JsValue, b: Builtins): (r: Option<Action>)
    ensures r.Some? ==> item.Obj?
    ensures r.Some? ==> r.value.value != "" && r.value.kind != ""
    ensures r.Some? ==> r.value.value == ActionValueToString(Get(item, "value"), b)
    ensures item.Obj? && ActionValueToString(Get(item, "value"), b) != "" ==> r.Some?
  {
    if !item.Obj? then None
    else
      var value := ActionValueToString(Get(item, "value"), b);
      if value == "" then None
      else Some(Action(StrOrNull(Get(item, "type")).GetOr("UNKNOWN"), StrOrNull(Get(item, "descriptor")), value))
  }

  /** `parseActions` on an array: map, then keep the actions with a value. */
  function ParseActionList(items: seq<JsValue>, b: Builtins): (r: seq<Action>)
    ensures |r| <= |items|
    ensures forall i :: 0 <= i < |r| ==> r[i].value != "" && r[i].kind != ""
    ensures forall i :: 0 <= i < |r| ==> exists j :: 0 <= j < |items| && ParseAction(items[j], b) == Some(r[i])
  {
    if items == [] then []
    else
      var rest := ParseActionList(items[1..], b);
      assert forall i :: 0 <= i < |rest| ==> exists j :: 0 <= j < |items| && ParseAction(items[j], b) == Some(rest[i]) by {
        forall i | 0 <= i < |rest|
          ensures exists j :: 0 <= j < |items| && ParseAction(items[j], b) == Some(rest[i])
        {
          var j :| 0 <= j < |items[1..]| && ParseAction(items[1..][j], b) == Some(rest[i]);
          assert ParseAction(items[j + 1], b) == Some(rest[i]);
        }
      }
      match ParseAction(items[0], b)
      case None => rest
      case Some(a) => [a] + rest
  }

  /** `parseActions(actions)`: anything but an array gives no action. */
  function ParseActions(v: JsValue, b: Builtins): (r: seq<Action>)
    ensures !v.Arr? ==> r == []
    ensures v.Arr? ==> r == ParseActionList(v.items, b)
  {
    if v.Arr? then ParseActionList(v.items, b) else []
  }

  /** Normalisation keeps the input order: it distributes over concatenation. */
  lemma {:induction false} ParseActionListAppend(xs: seq<JsValue>, ys: seq<JsValue>, b: Builtins)
    ensures ParseActionList(xs + ys, b) == ParseActionList(xs, b) + ParseActionList(ys, b)
    decreases |xs|
  {
    if xs == [] {
      assert xs + ys == ys;
    } else {
      assert (xs + ys)[1..] == xs[1..] + ys;
      assert (xs + ys)[0] == xs[0];
      ParseActionListAppend(xs[1..], ys, b);
    }
  }

  /** A record with a non-empty value is kept, with `type` defaulting to UNKNOWN. */
  lemma ParseActionDefaults(item: JsValue, b: Builtins)
    requires item.Obj? && ActionValueToString(Get(item, "value"), b) != ""
    ensures ParseActionList([item], b) == [ParseAction(item, b).value]
    ensures StrOrNull(Get(item, "type")).None? ==> ParseAction(item, b).value.kind == "UNKNOWN"
  {
  }

  /** Index of the first action of the given type. */
  function FindKind(actions: seq<Action>, kind: string): (r: Option<nat>)
    ensures r.Some? ==> r.value < |actions| && actions[r.value].kind == kind
    ensures r.Some? ==> forall j :: 0 <= j < r.value ==> actions[j].kind != kind
    ensures r.None? ==> forall j :: 0 <= j < |actions| ==> actions[j].kind != kind
  {
    if actions == [] then None
    else if actions[0].kind == kind then Some(0)
    else match FindKind(actions[1..], kind)
      case None => None
      case Some(i) => Some(i + 1)
  }

  /** Action `i` is the first one of type REDIRECT_CUSTOMER. */
  predicate IsFirstRedirect(actions: seq<Action>, i: nat)
    requires i < |actions|
  {
    actions[i].kind == RedirectActionType && forall j :: 0 <= j < i ==> actions[j].kind != RedirectActionType
  }

  /** `getRedirectUrl(actions)`: the value of the first redirect action, if non-empty. */
  function GetRedirectUrl(actions: seq<Action>): (r: Option<string>)
    ensures r.Some? ==> r.value != ""
    ensures r.Some? <==> exists i :: 0 <= i < |actions| && IsFirstRedirect(actions, i) && actions[i].value != ""
  {
    match FindKind(actions, RedirectActionType)
    case None => None
    case Some(i) => if actions[i].value != "" then Some(actions[i].value) else None
  }

  /** On normalised actions the redirect URL exists iff some action is a redirect. */
  lemma RedirectOfParsed(v: JsValue, b: Builtins)
    ensures var actions := ParseActions(v, b);
      GetRedirectUrl(actions).Some? <==> exists i :: 0 <= i < |actions| && actions[i].kind == RedirectActionType
  {
    var actions := ParseActions(v, b);
    match FindKind(actions, RedirectActionType)
    case None =>
    case Some(i) =>
      assert actions[i].value != "";
  }

  // ---------------------------------------------------------------------
  // References and statuses

  /** `buildReferenceId(orderId)`. */
  function BuildReferenceId(orderId: string): (r: string)
    ensures StartsWith(r, ReferencePrefix) && |r| == |ReferencePrefix| + |orderId|
  {
    ReferencePrefix + orderId
  }

  /** `parseOrderIdFromReference(referenceId)`: `replace` removes the first occurrence only. */
  function ParseOrderIdFromReference(referenceId: string): string {
    if StartsWith(referenceId, ReferencePrefix) then ReplaceFirst(referenceId, ReferencePrefix, "")
    else referenceId
  }

  /** For a prefixed reference the result is everything after the prefix. */
  lemma ParsePrefixed(referenceId: string)
    requires StartsWith(referenceId, ReferencePrefix)
    ensures ParseOrderIdFromReference(referenceId) == referenceId[|ReferencePrefix|..]
  {
    IndexOfPrefix(referenceId, ReferencePrefix);
  }

  /** The reference-id round trip, and the unprefixed case. */
  lemma ReferenceRoundTrip(orderId: string, referenceId: string)
    ensures ParseOrderIdFromReference(BuildReferenceId(orderId)) == orderId
    ensures StartsWith(referenceId, ReferencePrefix) ==> BuildReferenceId(ParseOrderIdFromReference(referenceId)) == referenceId
    ensures !StartsWith(referenceId, ReferencePrefix) ==> ParseOrderIdFromReference(referenceId) == referenceId
  {
    ParsePrefixed(BuildReferenceId(orderId));
    assert BuildReferenceId(orderId)[|ReferencePrefix|..] == orderId;
    if StartsWith(referenceId, ReferencePrefix) {
      ParsePrefixed(referenceId);
      assert referenceId == referenceId[..|ReferencePrefix|] + referenceId[|ReferencePrefix|..];
    }
  }

  /** `mapXenditStatusToInternal(status)`. */
  function MapXenditStatusToInternal(status: string): (r: InternalStatus)
    ensures r == Paid <==> ToUpper(status) in {"SUCCEEDED", "COMPLETED", "PAID", "SETTLED"}
    ensures r == Failed <==> ToUpper(status) in {"FAILED", "CANCELLED", "CANCELED"}
    ensures r == Expired <==> ToUpper(status) == "EXPIRED"
  {
    var normalized := ToUpper(status);
    if normalized == "REQUIRES_ACTION" || normalized == "PENDING" then PendingUserAction
    else if normalized == "SUCCEEDED" || normalized == "COMPLETED" || normalized == "PAID" || normalized == "SETTLED" then Paid
    else if normalized == "FAILED" || normalized == "CANCELLED" || normalized == "CANCELED" then Failed
    else if normalized == "EXPIRED" then Expired
    else PendingUserAction
  }

  const PaidStatuses: set<string> := {"SUCCEEDED", "COMPLETED", "PAID", "SETTLED"}
  const FailedStatuses: set<string> := {"FAILED", "CANCELLED", "CANCELED"}

  /** The status table, stated on the upper-cased text (so case never matters). */
  lemma StatusMapping(status: string)
    ensures MapXenditStatusToInternal(status) == Paid <==> ToUpper(status) in PaidStatuses
    ensures MapXenditStatusToInternal(status) == Failed <==> ToUpper(status) in FailedStatuses
    ensures MapXenditStatusToInternal(status) == Expired <==> ToUpper(status) == "EXPIRED"
    ensures MapXenditStatusToInternal(status) == PendingUserAction <==>
      ToUpper(status) !in PaidStatuses + FailedStatuses + {"EXPIRED"}
    ensures MapXenditStatusToInternal(status) == MapXenditStatusToInternal(ToUpper(status))
    ensures MapXenditStatusToInternal(status) == MapXenditStatusToInternal(ToLower(status))
  {
    ToUpperIdempotent(status);
    UpperOfLower(status);
  }

  // ---------------------------------------------------------------------
  // createPaymentRequestForOrder

  /** The environment variables the service reads. */
  datatype ServiceEnv = ServiceEnv(appUrl: Option<string>, defaultChannelCode: Option<string>,
                                   country: Option<string>, currency: Option<string>)

  function AppUrl(env: ServiceEnv): string {
    OrElse(env.appUrl, "http://localhost:3000")
  }

  function PaymentChannelCode(channelCode: Option<string>, env: ServiceEnv): string {
    OrElse(channelCode, OrElse(env.defaultChannelCode, "QRIS"))
  }

  function Country(country: Option<string>, env: ServiceEnv): string {
    OrElse(country, OrElse(env.country, "ID"))
  }

  function Currency(currency: Option<string>, env: ServiceEnv): string {
    OrElse(currency, OrElse(env.currency, "IDR"))
  }

  /** `buildDefaultChannelProperties(orderId)`. */
  function DefaultChannelProperties(orderId: string, env: ServiceEnv): map<string, JsValue> {
    map["success_return_url" := Str(AppUrl(env) + "/bookings/history?payment=success&booking_id=" + orderId),
        "failure_return_url" := Str(AppUrl(env) + "/bookings/history?payment=failed&booking_id=" + orderId)]
  }

  datatype InitiateInput = InitiateInput(
    orderId: string, amount: real, channelCode: string,
    currency: Option<string>, country: Option<string>, description: Option<string>,
    channelProperties: map<string, JsValue>, metadata: map<string, JsValue>)

  /** A row of `payments` as selected before a new request is made. */
  datatype PaymentRow = PaymentRow(
    paymentRequestId: Option<string>, referenceId: Option<string>, status: Option<string>,
    providerStatus: Option<string>, actionsJson: JsValue, expiresAt: JsValue)

  /** The payment request Xendit returns. */
  datatype ProviderPaymentRequest = ProviderPaymentRequest(id: string, status: JsValue, actions: JsValue, expiresAt: JsValue)

  /** The body of the `POST /v3/payment_requests` call. */
  datatype CreatePayload = CreatePayload(
    referenceId: string, kind: string, country: string, currency: string, requestAmount: real,
    channelCode: string, channelProperties: map<string, JsValue>, description: Option<string>,
    metadata: map<string, JsValue>)

  /**
   * A `payments` upsert keyed by `order_id`; `None` fields are left out of
   * the record (so the column keeps its value) and `expiresAt` is
   * `Some(None)` for an explicit null.
   */
  datatype PaymentRecord = PaymentRecord(
    orderId: string, referenceId: string, paymentRequestId: string, amount: real, currency: string,
    status: string, providerStatus: string, channelCode: Option<string>,
    actions: Option<seq<Action>>, expiresAt: Option<Option<string>>)

  /** A `bookings` update; `None` fields are not part of the update. */
  datatype BookingPaymentUpdate = BookingPaymentUpdate(
    paymentState: string, paymentMethod: Option<string>, paymentUrl: Option<string>, status: Option<string>)

  datatype InitiateResult = InitiateResult(
    orderId: string, paymentRequestId: string, referenceId: string, status: string,
    providerStatus: string, actions: seq<Action>, expiresAt: Option<string>)

  /** What one call returns or throws, and what it sends and writes on the way. */
  datatype CreateOutcome = CreateOutcome(
    result: Result<InitiateResult, string>,
    providerCall: Option<CreatePayload>,
    paymentWrite: Option<PaymentRecord>,
    bookingWrite: Option<BookingPaymentUpdate>)

  /** The reuse condition of lines 199-203. */
  predicate ReusesExisting(existing: Option<PaymentRow>) {
    existing.Some? && Present(existing.value.paymentRequestId) && Present(existing.value.status)
    && existing.value.status.value !in TerminalStatuses
  }

  function PaymentPayload(input: InitiateInput, env: ServiceEnv): CreatePayload {
    CreatePayload(BuildReferenceId(input.orderId), "PAY", Country(input.country, env), Currency(input.currency, env),
                  input.amount, PaymentChannelCode(Some(input.channelCode), env),
                  DefaultChannelProperties(input.orderId, env) + input.channelProperties,
                  input.description,
                  map["order_id" := Str(input.orderId)] + input.metadata)
  }

  /**
   * `createPaymentRequestForOrder(input)`. `existing` is the `payments` lookup,
   * `provider` what `createPaymentRequest` returns or throws, and the two
   * write errors what the upsert and the booking update report.
   */
  function CreatePaymentRequestForOrder(
    input: InitiateInput, env: ServiceEnv, b: Builtins,
    existing: Result<Option<PaymentRow>, string>, provider: Result<ProviderPaymentRequest, string>,
    paymentWriteError: Option<string>, bookingWriteError: Option<string>): (o: CreateOutcome)
    ensures o.providerCall.Some? <==> existing.Ok? && !ReusesExisting(existing.value)
    ensures o.paymentWrite.Some? <==> o.providerCall.Some? && provider.Ok?
    ensures o.bookingWrite.Some? <==> o.paymentWrite.Some? && paymentWriteError.None?
    ensures o.result.Ok? <==> (existing.Ok? &&
      (ReusesExisting(existing.value) || (provider.Ok? && paymentWriteError.None? && bookingWriteError.None?)))
  {
    var referenceId := BuildReferenceId(input.orderId);
    var channelCode := PaymentChannelCode(Some(input.channelCode), env);
    var currency := Currency(input.currency, env);
    if existing.Err? then
      CreateOutcome(Err("Failed checking existing payment: " + existing.error), None, None, None)
    else if ReusesExisting(existing.value) then
      var row := existing.value.value;
      CreateOutcome(Ok(InitiateResult(input.orderId, row.paymentRequestId.value, OrElse(row.referenceId, referenceId),
                                      row.status.value, OrElse(row.providerStatus, "REQUIRES_ACTION"),
                                      ParseActions(row.actionsJson, b), IsoOrNull(row.expiresAt, b))),
                    None, None, None)
    else
      var payload := PaymentPayload(input, env);
      match provider
      case Err(e) => CreateOutcome(Err(e), Some(payload), None, None)
      case Ok(request) =>
        var providerStatus := StrOrNull(request.status).GetOr("REQUIRES_ACTION");
        var status := StatusText(MapXenditStatusToInternal(providerStatus));
        var actions := ParseActions(request.actions, b);
        var expiresAt := IsoOrNull(request.expiresAt, b);
        var redirectUrl := GetRedirectUrl(actions);
        var record := PaymentRecord(input.orderId, referenceId, request.id, input.amount, currency, status,
                                    providerStatus, Some(channelCode), Some(actions), Some(expiresAt));
        if paymentWriteError.Some? then
          CreateOutcome(Err("Failed to save payment: " + paymentWriteError.value), Some(payload), Some(record), None)
        else
          var update := BookingPaymentUpdate(status, Some(channelCode), redirectUrl, None);
          if bookingWriteError.Some? then
            CreateOutcome(Err("Failed to update booking payment metadata: " + bookingWriteError.value),
                          Some(payload), Some(record), Some(update))
          else
            CreateOutcome(Ok(InitiateResult(input.orderId, request.id, referenceId, status, providerStatus, actions, expiresAt)),
                          Some(payload), Some(record), Some(update))
  }

  /** An open payment is handed back as stored, with no provider call and no write. */
  lemma CreateReusesOpenPayment(input: InitiateInput, env: ServiceEnv, b: Builtins, row: PaymentRow,
                                provider: Result<ProviderPaymentRequest, string>, pe: Option<string>, be: Option<string>)
    requires ReusesExisting(Some(row))
    ensures var o := CreatePaymentRequestForOrder(input, env, b, Ok(Some(row)), provider, pe, be);
      && o.result.Ok? && o.providerCall.None? && o.paymentWrite.None? && o.bookingWrite.None?
      && o.result.value.paymentRequestId == row.paymentRequestId.value
      && o.result.value.status == row.status.value
      && o.result.value.status !in TerminalStatuses
      && o.result.value.referenceId == OrElse(row.referenceId, BuildReferenceId(input.orderId))
  {
  }

  /**
   * Otherwise a new request is made for `booking_<orderId>` with the caller's
   * amount; on success the payment row, the booking's `payment_state` and
   * the result all carry the mapped provider status, and the booking's
   * `payment_url` is the redirect action's value.
   */
  lemma CreateRequestsNewPayment(input: InitiateInput, env: ServiceEnv, b: Builtins, existing: Option<PaymentRow>,
                                 request: ProviderPaymentRequest)
    requires !ReusesExisting(existing)
    ensures var o := CreatePaymentRequestForOrder(input, env, b, Ok(existing), Ok(request), None, None);
      var providerStatus := StrOrNull(request.status).GetOr("REQUIRES_ACTION");
      && o.providerCall.Some?
      && o.providerCall.value.referenceId == BuildReferenceId(input.orderId)
      && o.providerCall.value.requestAmount == input.amount
      && o.result.Ok?
      && o.result.value.paymentRequestId == request.id
      && o.result.value.status == StatusText(MapXenditStatusToInternal(providerStatus))
      && o.paymentWrite.value.status == o.result.value.status
      && o.bookingWrite.value.paymentState == o.result.value.status
      && o.bookingWrite.value.paymentUrl == GetRedirectUrl(o.result.value.actions)
      && o.bookingWrite.value.status.None?
  {
  }

  /**
   * The request body: the caller's channel properties and metadata override
   * the defaults key by key, so `order_id` is the order unless the caller
   * supplies one; an empty channel code falls back to the environment, then QRIS.
   */
  lemma PayloadDefaults(input: InitiateInput, env: ServiceEnv)
    ensures var p := PaymentPayload(input, env);
      && (forall k :: k in input.channelProperties ==> p.channelProperties[k] == input.channelProperties[k])
      && ("success_return_url" !in input.channelProperties ==>
            p.channelProperties["success_return_url"] == Str(AppUrl(env) + "/bookings/history?payment=success&booking_id=" + input.orderId))
      && ("order_id" !in input.metadata ==> p.metadata["order_id"] == Str(input.orderId))
      && (input.channelCode != "" ==> p.channelCode == input.channelCode)
      && (input.channelCode == "" && !Present(env.defaultChannelCode) ==> p.channelCode == "QRIS")
  {
  }

  // ---------------------------------------------------------------------
  // applyPaymentStateTransition

  datatype TransitionParams = TransitionParams(
    orderId: string, status: InternalStatus, providerStatus: string,
    paymentRequestId: Option<string>, referenceId: Option<string>, channelCode: Option<string>,
    actions: Option<seq<Action>>, amount: Option<real>, expiresAt: Option<Option<string>>)

  /** The booking joined with its customer, as `getBookingForPayment` selects it. */
  datatype BookingForPayment = BookingForPayment(
    id: string, status: string, userId: string, venueId: Option<string>,
    venueName: Option<string>, courtName: Option<string>, bookingDate: Option<string>, startTime: Option<string>,
    netVenuePrice: Option<real>, customerName: Option<string>, customerPhone: Option<string>)

  datatype BookingEvent = BookingConfirmed | BookingCancelled

  /** The `booking.paid` event posted to the partner system. */
  datatype PartnerSync = PartnerSync(
    bookingId: string, venueId: string, totalAmount: real, paidAmount: real,
    paymentMethod: string, customerName: string, customerPhone: Option<string>)

  datatype TransitionOutcome = TransitionOutcome(
    paymentWrite: Option<PaymentRecord>,
    bookingWrite: Option<BookingPaymentUpdate>,
    notifications: seq<BookingEvent>,
    partnerSync: Option<PartnerSync>)

  /** The booking status a payment status moves the booking to, if any. */
  function BookingStatusFor(s: InternalStatus): Option<string> {
    match s
    case Paid => Some("confirmed")
    case Failed => Some("cancelled")
    case Expired => Some("cancelled")
    case PendingUserAction => None
  }

  /**
   * `applyPaymentStateTransition(params)`: `booking` is what
   * `getBookingForPayment` returns (`None` also for a failed query) and
   * `bookingWriteFails` whether the booking update reports an error. A
   * failed payment upsert is only logged, so it does not appear here.
   */
  function ApplyPaymentStateTransition(p: TransitionParams, env: ServiceEnv, booking: Option<BookingForPayment>,
                                       bookingWriteFails: bool): (o: TransitionOutcome)
    ensures booking.None? ==> o == TransitionOutcome(None, None, [], None)
    ensures o.paymentWrite.Some? <==> booking.Some? && Present(p.paymentRequestId)
    ensures o.bookingWrite.Some? <==> booking.Some?
    ensures o.bookingWrite.Some? ==>
      o.bookingWrite.value.paymentState == StatusText(p.status) && o.bookingWrite.value.status == BookingStatusFor(p.status)
    ensures o.notifications == [BookingConfirmed] <==>
      booking.Some? && !bookingWriteFails && p.status == Paid && booking.value.status != "confirmed"
    ensures o.notifications == [BookingCancelled] <==>
      booking.Some? && !bookingWriteFails && p.status in {Failed, Expired} && booking.value.status != "cancelled"
    ensures |o.notifications| <= 1
    ensures o.partnerSync.Some? ==> o.notifications == [BookingConfirmed] && booking.value.venueId.Some?
  {
    if booking.None? then TransitionOutcome(None, None, [], None)
    else
      var bk := booking.value;
      var statusText := StatusText(p.status);
      var paymentWrite :=
        if Present(p.paymentRequestId) then
          Some(PaymentRecord(p.orderId, OrElse(p.referenceId, BuildReferenceId(p.orderId)), p.paymentRequestId.value,
                             p.amount.GetOr(0.0), Currency(None, env), statusText, p.providerStatus,
                             if Present(p.channelCode) then p.channelCode else None, p.actions, p.expiresAt))
        else None;
      var redirectUrl := if p.actions.Some? then GetRedirectUrl(p.actions.value) else None;
      var update := BookingPaymentUpdate(statusText, if Present(p.channelCode) then p.channelCode else None,
                                         redirectUrl, BookingStatusFor(p.status));
      if bookingWriteFails then TransitionOutcome(paymentWrite, Some(update), [], None)
      else if p.status == Paid && bk.status != "confirmed" then
        var total := p.amount.GetOr(0.0);
        var sync :=
          if bk.venueId.Some? then
            Some(PartnerSync(bk.id, bk.venueId.value, total, bk.netVenuePrice.GetOr(total),
                             OrElse(p.channelCode, "XENDIT"), OrElse(bk.customerName, "PWA User"),
                             if Present(bk.customerPhone) then bk.customerPhone else None))
          else None;
        TransitionOutcome(paymentWrite, Some(update), [BookingConfirmed], sync)
      else if p.status in {Failed, Expired} && bk.status != "cancelled" then
        TransitionOutcome(paymentWrite, Some(update), [BookingCancelled], None)
      else TransitionOutcome(paymentWrite, Some(update), [], None)
  }

  /** The booking as it is after an update was applied. */
  function Updated(bk: BookingForPayment, u: BookingPaymentUpdate): BookingForPayment {
    bk.(status := u.status.GetOr(bk.status))
  }

  /**
   * Replaying a transition on the booking it already updated notifies no
   * one: a confirmation or cancellation is announced once.
   */
  lemma TransitionReplayIsSilent(p: TransitionParams, env: ServiceEnv, bk: BookingForPayment)
    ensures var first := ApplyPaymentStateTransition(p, env, Some(bk), false);
      ApplyPaymentStateTransition(p, env, Some(Updated(bk, first.bookingWrite.value)), false).notifications == []
  {
  }

  /** A pending transition never changes the booking status and never notifies. */
  lemma PendingLeavesStatus(p: TransitionParams, env: ServiceEnv, bk: BookingForPayment, fails: bool)
    requires p.status == PendingUserAction
    ensures var o := ApplyPaymentStateTransition(p, env, Some(bk), fails);
      Updated(bk, o.bookingWrite.value) == bk && o.notifications == [] && o.partnerSync.None?
  {
  }

  // ---------------------------------------------------------------------
  // Webhooks

  datatype WebhookEvent = WebhookEvent(
    eventType: Option<string>, providerEventId: Option<string>, webhookId: Option<string>,
    paymentRequestId: Option<string>, referenceId: Option<string>, providerStatus: string,
    internalStatus: InternalStatus, amount: Option<real>, channelCode: Option<string>, dedupeKey: string)

  /** `str(headers.get(name))`. */
  function HeaderStr(h: Headers, name: string): Option<string> {
    match HeaderGet(h, name)
    case None => None
    case Some(v) => StrOrNull(Str(v))
  }

  /** The webhook id carried in the headers, by precedence. */
  function HeaderWebhookId(h: Headers): Option<string> {
    OrOpt(HeaderStr(h, "x-webhook-id"), OrOpt(HeaderStr(h, "webhook-id"),
      OrOpt(HeaderStr(h, "x-callback-id"), HeaderStr(h, "x-callback-idempotency-key"))))
  }

  /** The `dedupeKey` expression of line 574. */
  function DedupeKey(providerEventId: Option<string>, webhookId: Option<string>, paymentRequestId: Option<string>,
                     referenceId: Option<string>, providerStatus: string): string {
    OrElse(providerEventId, OrElse(webhookId, OrElse(OrOpt(paymentRequestId, referenceId), "unknown") + ":" + providerStatus))
  }

  /** The records a webhook payload is read from (lines 535-546). */
  datatype Envelope = Envelope(body: JsValue, capture: Option<JsValue>, authorization: Option<JsValue>,
                               failure: Option<JsValue>, nested: JsValue)

  /** `getRecord(getRecord(body[key])?.value)`. */
  function ValueRecord(body: JsValue, key: string): Option<JsValue> {
    match GetRecord(Get(body, key))
    case None => None
    case Some(r) => GetRecord(Get(r, "value"))
  }

  function EnvelopeOf(payload: JsValue): (env: Envelope)
    ensures env.body.Obj?
  {
    var body := if payload.Obj? then payload else Obj(map[]);
    var capture := ValueRecord(body, "paymentCapture");
    var authorization := ValueRecord(body, "paymentAuthorization");
    var failure := ValueRecord(body, "paymentFailure");
    var nested :=
      match GetRecord(Get(body, "data"))
      case Some(d) => d
      case None =>
        match GetRecord(Field(capture, "data"))
        case Some(d) => d
        case None =>
          match GetRecord(Field(authorization, "data"))
          case Some(d) => d
          case None => GetRecord(Field(failure, "data")).GetOr(body);
    Envelope(body, capture, authorization, failure, nested)
  }

  /** `providerStatus`: the first status found, else REQUIRES_ACTION. */
  function ProviderStatusOf(env: Envelope): (r: string)
    ensures r != ""
  {
    var fallback := OrElse(StrOrNull(Get(env.body, "status")), "REQUIRES_ACTION");
    var fromFailure := OrElse(StrOrNull(Field(env.failure, "status")), fallback);
    var fromAuthorization := OrElse(StrOrNull(Field(env.authorization, "status")), fromFailure);
    var fromCapture := OrElse(StrOrNull(Field(env.capture, "status")), fromAuthorization);
    OrElse(StrOrNull(Get(env.nested, "status")), fromCapture)
  }

  /** `webhookId`: a header id, else `body.id`. */
  function WebhookIdOf(env: Envelope, h: Headers): (r: Option<string>)
    ensures HeaderWebhookId(h).Some? ==> r == HeaderWebhookId(h)
    ensures HeaderWebhookId(h).None? ==> r == StrOrNull(Get(env.body, "id"))
  {
    OrOpt(HeaderWebhookId(h), StrOrNull(Get(env.body, "id")))
  }

  /** `normalizeWebhookEvent(payload, headers)`. */
  function NormalizeWebhookEvent(payload: JsValue, h: Headers): (e: WebhookEvent)
    ensures e.internalStatus == MapXenditStatusToInternal(e.providerStatus)
    ensures e.dedupeKey == DedupeKey(e.providerEventId, e.webhookId, e.paymentRequestId, e.referenceId, e.providerStatus)
    ensures e.providerStatus != ""
    ensures HeaderWebhookId(h).Some? ==> e.webhookId == HeaderWebhookId(h)
  {
    var env := EnvelopeOf(payload);
    var body, nested := env.body, env.nested;
    var providerStatus := ProviderStatusOf(env);
    var paymentRequestId := OrOpt(StrOrNull(Get(nested, "payment_request_id")), StrOrNull(Get(body, "payment_request_id")));
    var referenceId := OrOpt(StrOrNull(Get(nested, "reference_id")), OrOpt(StrOrNull(Get(nested, "external_id")),
      OrOpt(StrOrNull(Get(body, "reference_id")), StrOrNull(Get(body, "external_id")))));
    var webhookId := WebhookIdOf(env, h);
    var providerEventId := OrOpt(StrOrNull(Get(nested, "payment_id")), StrOrNull(Get(body, "event_id")));
    var eventType := OrOpt(StrOrNull(Get(body, "event")), OrOpt(StrOrNull(Field(env.capture, "event")),
      OrOpt(StrOrNull(Field(env.authorization, "event")), StrOrNull(Field(env.failure, "event")))));
    var amount := NumOr(NumOrNull(Get(nested, "request_amount")), NumOr(NumOrNull(Get(nested, "paid_amount")),
      NumOrNull(Get(nested, "amount"))));
    var channelCode := OrOpt(StrOrNull(Get(nested, "channel_code")), StrOrNull(Get(body, "channel_code")));
    WebhookEvent(eventType, providerEventId, webhookId, paymentRequestId, referenceId, providerStatus,
                 MapXenditStatusToInternal(providerStatus), amount, channelCode,
                 DedupeKey(providerEventId, webhookId, paymentRequestId, referenceId, providerStatus))
  }

  /**
   * The dedupe key is never empty: the provider event id, else the webhook id,
   * else `<request id|reference|unknown>:<status>`. (That a header id comes
   * before `body.id` in the webhook id is part of `NormalizeWebhookEvent`'s
   * contract.)
   */
  lemma DedupeKeyPrecedence(providerEventId: Option<string>, webhookId: Option<string>, paymentRequestId: Option<string>,
                            referenceId: Option<string>, providerStatus: string)
    requires providerStatus != ""
    ensures var key := DedupeKey(providerEventId, webhookId, paymentRequestId, referenceId, providerStatus);
      && key != ""
      && (Present(providerEventId) ==> key == providerEventId.value)
      && (!Present(providerEventId) && Present(webhookId) ==> key == webhookId.value)
      && (!Present(providerEventId) && !Present(webhookId) ==>
            key == OrElse(OrOpt(paymentRequestId, referenceId), "unknown") + ":" + providerStatus)
  {
  }

  /** One delivery's result: `duplicate` / `ignored` / processed. */
  datatype WebhookOutcome =
    | Duplicate(event: WebhookEvent)
    | OrderNotFound(event: WebhookEvent)
    | Processed(orderId: string, event: WebhookEvent)

  datatype HandleResult = HandleResult(
    outcome: Result<WebhookOutcome, string>,
    storedKeys: set<string>,
    transition: Option<TransitionParams>)

  /**
   * `resolveOrderIdFromWebhookEvent(event)`: `lookup` is the `payments` row's
   * `order_id` found by request id (an error and a missing row both give
   * `None`, as the source logs and returns null).
   */
  function ResolveOrderId(e: WebhookEvent, lookup: Option<JsValue>): Option<string> {
    if e.referenceId.Some? then Some(ParseOrderIdFromReference(e.referenceId.value))
    else if e.paymentRequestId.None? then None
    else if lookup.None? then None
    else StrOrNull(lookup.value)
  }

  /**
   * `handleXenditWebhook(payload, headers)` against the set of stored dedupe
   * keys: `insertError` is a failure of the insert other than the unique
   * violation 23505, which is what an already stored key produces.
   */
  function HandleXenditWebhook(payload: JsValue, h: Headers, storedKeys: set<string>, insertError: Option<string>,
                               lookup: Option<JsValue>): (r: HandleResult)
    ensures insertError.Some? ==> r.outcome.Err? && r.storedKeys == storedKeys && r.transition.None?
    ensures r.transition.Some? <==> r.outcome.Ok? && r.outcome.value.Processed?
    ensures r.outcome.Ok? ==> r.outcome.value.event == NormalizeWebhookEvent(payload, h)
    ensures r.outcome.Ok? && !r.outcome.value.Duplicate? ==>
      r.storedKeys == storedKeys + {NormalizeWebhookEvent(payload, h).dedupeKey}
  {
    HandleEvent(NormalizeWebhookEvent(payload, h), storedKeys, insertError, lookup)
  }

  /** The handler once the event is normalised. */
  function HandleEvent(e: WebhookEvent, storedKeys: set<string>, insertError: Option<string>,
                       lookup: Option<JsValue>): (r: HandleResult)
    ensures r.transition.Some? <==> r.outcome.Ok? && r.outcome.value.Processed?
    ensures r.outcome.Ok? && !r.outcome.value.Duplicate? ==> r.storedKeys == storedKeys + {e.dedupeKey}
    ensures !(r.outcome.Ok? && !r.outcome.value.Duplicate?) ==> r.storedKeys == storedKeys
    ensures r.outcome.Ok? ==> r.outcome.value.event == e
  {
    if insertError.Some? then HandleResult(Err("Failed to persist webhook event: " + insertError.value), storedKeys, None)
    else if e.dedupeKey in storedKeys then HandleResult(Ok(Duplicate(e)), storedKeys, None)
    else
      var keys := storedKeys + {e.dedupeKey};
      var orderId := ResolveOrderId(e, lookup);
      if !Present(orderId) then HandleResult(Ok(OrderNotFound(e)), keys, None)
      else
        HandleResult(Ok(Processed(orderId.value, e)), keys,
                     Some(TransitionParams(orderId.value, e.internalStatus, e.providerStatus, e.paymentRequestId,
                                           e.referenceId, e.channelCode, None, e.amount, None)))
  }

  /**
   * A delivery whose key is already stored is a duplicate and triggers no
   * transition; a second delivery of the same event after a stored first
   * one is therefore always a duplicate.
   */
  lemma WebhookReplayIsDuplicate(e: WebhookEvent, keys: set<string>, lookup1: Option<JsValue>, lookup2: Option<JsValue>)
    ensures var first := HandleEvent(e, keys, None, lookup1);
      var second := HandleEvent(e, first.storedKeys, None, lookup2);
      && second.outcome == Ok(Duplicate(e))
      && second.transition.None?
      && second.storedKeys == first.storedKeys
  {
  }

  /**
   * An event whose order cannot be resolved is ignored; a processed one
   * transitions the resolved order to the event's status, and a
   * `booking_<id>` reference resolves to `<id>`.
   */
  lemma WebhookTransition(e: WebhookEvent, keys: set<string>, lookup: Option<JsValue>)
    requires e.internalStatus == MapXenditStatusToInternal(e.providerStatus)
    ensures var r := HandleEvent(e, keys, None, lookup);
      && (e.dedupeKey !in keys && !Present(ResolveOrderId(e, lookup)) ==> r.outcome == Ok(OrderNotFound(e)))
      && (r.transition.Some? ==>
            && r.transition.value.orderId == ResolveOrderId(e, lookup).value
            && r.transition.value.orderId != ""
            && r.transition.value.status == MapXenditStatusToInternal(e.providerStatus))
      && (e.referenceId.Some? && e.dedupeKey !in keys && StartsWith(e.referenceId.value, ReferencePrefix)
            && |e.referenceId.value| > |ReferencePrefix| ==>
            r.transition.Some? && r.transition.value.orderId == e.referenceId.value[|ReferencePrefix|..])
  {
    if e.referenceId.Some? && StartsWith(e.referenceId.value, ReferencePrefix) {
      ParsePrefixed(e.referenceId.value);
    }
  }
}
