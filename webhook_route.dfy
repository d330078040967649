/**
 * `src/app/api/webhooks/xendit/route.ts`: the Xendit webhook endpoint. A
 * chain of guards (content type, configured token, rate limit, IP allow
 * list, callback token, JSON body) precedes the payment service's handler,
 * and every exit appends one row to `webhook_logs`.
 *
 * The environment variables, the rate limiter's answer for a key, the
 * result of `request.json()` and the state the service handler reads (the
 * stored dedupe keys, the insert error, the order lookup) are inputs.
 */
module WebhookRoute {
  import opened Wrappers
  import opened Strings
  import opened JsValues
  import opened Http
  import RequestBody
  import AbuseProtection
  import PaymentsService

  // ---------------------------------------------------------------------
  // Helpers

  /** `getClientIp(request)`: a present forwarded header decides on its own. */
  function GetClientIp(h: Headers): (r: string)
    ensures r != ""
    ensures !Present(HeaderGet(h, "x-forwarded-for")) ==> r == OrElse(HeaderGet(h, "x-real-ip"), "unknown")
    ensures Present(HeaderGet(h, "x-forwarded-for")) ==>
      r == OrElse(AbuseProtection.ParseForwardedIp(HeaderGet(h, "x-forwarded-for")), "unknown")
  {
    var forwardedFor := HeaderGet(h, "x-forwarded-for");
    if Present(forwardedFor) then OrElse(Some(Trim(Split(forwardedFor.value, ',')[0])), "unknown")
    else OrElse(HeaderGet(h, "x-real-ip"), "unknown")
  }

  /**
   * The route's IP agrees with `getRequestClientIp` except when the first
   * forwarded hop is blank: then it is `'unknown'` and `x-real-ip` is not
   * consulted.
   */
  lemma ClientIpAgreesUnlessBlankHop(h: Headers)
    ensures AbuseProtection.ParseForwardedIp(HeaderGet(h, "x-forwarded-for")).Some? || !Present(HeaderGet(h, "x-forwarded-for"))
      ==> GetClientIp(h) == AbuseProtection.ClientIp(h)
    ensures Present(HeaderGet(h, "x-forwarded-for")) && AbuseProtection.ParseForwardedIp(HeaderGet(h, "x-forwarded-for")).None?
      ==> GetClientIp(h) == "unknown"
  {
  }

  /** A blank first hop gives `'unknown'` even when `x-real-ip` is set. */
  lemma BlankHopIsUnknown(h: Headers, a: string, rest: string)
    requires ',' !in a && IsBlank(a)
    requires HeaderGet(h, "x-forwarded-for") == Some(a + "," + rest)
    ensures GetClientIp(h) == "unknown"
  {
    AbuseProtection.FirstHopOf(a, rest);
  }

  /**
   * `getCallbackToken(request)`. Header lookup ignores case, so the second
   * lookup (`X-CALLBACK-TOKEN`) finds exactly what the first one found.
   */
  function GetCallbackToken(h: Headers): (r: Option<string>)
    ensures r == HeaderGet(h, "x-callback-token")
  {
    assert ToLower("X-CALLBACK-TOKEN") == "x-callback-token" == ToLower("x-callback-token");
    assert HeaderGet(h, "X-CALLBACK-TOKEN") == HeaderGet(h, "x-callback-token");
    OrOpt(HeaderGet(h, "x-callback-token"), HeaderGet(h, "X-CALLBACK-TOKEN"))
  }

  /** The environment variables the route reads. */
  datatype RouteEnv = RouteEnv(webhookToken: Option<string>, callbackToken: Option<string>, ipAllowList: Option<string>)

  /** `getWebhookToken()`: `XENDIT_WEBHOOK_TOKEN`, else `XENDIT_CALLBACK_TOKEN`. */
  function GetWebhookToken(env: RouteEnv): (r: Option<string>)
    ensures Present(env.webhookToken) ==> r == env.webhookToken
    ensures !Present(env.webhookToken) ==> r == env.callbackToken
  {
    OrOpt(env.webhookToken, env.callbackToken)
  }

  /** `parts.map((ip) => ip.trim())`. */
  function TrimAll(parts: seq<string>): (r: seq<string>)
    ensures |r| == |parts| && forall i :: 0 <= i < |r| ==> r[i] == Trim(parts[i])
  {
    seq(|parts|, i requires 0 <= i < |parts| => Trim(parts[i]))
  }

  /** `.filter(Boolean)` on strings: the empty ones go, the rest keep their order. */
  function NonEmpty(xs: seq<string>): (r: seq<string>)
    ensures |r| <= |xs|
    ensures forall x :: x in r <==> x in xs && x != ""
  {
    if |xs| == 0 then []
    else
      var rest := NonEmpty(xs[1..]);
      assert forall x :: x in xs <==> x == xs[0] || x in xs[1..];
      if xs[0] == "" then rest else [xs[0]] + rest
  }

  /** `getIpAllowList()`: the comma-separated entries, trimmed, blanks dropped. */
  function GetIpAllowList(env: RouteEnv): (r: seq<string>)
    ensures forall x :: x in r ==> x != "" && ',' !in x && Trim(x) == x
    ensures forall x :: x in r <==> x != "" && x in TrimAll(Split(OrElse(env.ipAllowList, ""), ','))
  {
    AllowListClean(OrElse(env.ipAllowList, ""));
    NonEmpty(TrimAll(Split(OrElse(env.ipAllowList, ""), ',')))
  }

  /** Every entry of the list read from `raw` is non-empty, comma-free and trimmed. */
  lemma AllowListClean(raw: string)
    ensures forall x :: x in NonEmpty(TrimAll(Split(raw, ','))) ==> x != "" && ',' !in x && Trim(x) == x
  {
    var parts := Split(raw, ',');
    TrimmedEntriesClean(parts);
    var trimmed := TrimAll(parts);
    forall x | x in NonEmpty(trimmed) ensures x != "" && ',' !in x && Trim(x) == x {
      assert x in trimmed;
    }
  }

  /** Trimmed entries of a comma split hold no comma and no outer white space. */
  lemma TrimmedEntriesClean(parts: seq<string>)
    requires forall k :: 0 <= k < |parts| ==> ',' !in parts[k]
    ensures forall x :: x in TrimAll(parts) ==> ',' !in x && Trim(x) == x
  {
    var trimmed := TrimAll(parts);
    forall x | x in trimmed ensures ',' !in x && Trim(x) == x {
      var i :| 0 <= i < |trimmed| && trimmed[i] == x;
      TrimKeepsOut(parts[i], ',');
      TrimIdempotent(parts[i]);
    }
  }

  /** An unset or blank allow list has no entries. */
  lemma EmptyAllowList(env: RouteEnv)
    requires env.ipAllowList.None? || (AllSpace(env.ipAllowList.value) && ',' !in env.ipAllowList.value)
    ensures GetIpAllowList(env) == []
  {
    var raw := OrElse(env.ipAllowList, "");
    SplitFirst(raw, ',');
    assert Split(raw, ',') == [raw] by {
      JoinSplit(raw, ',');
      SplitNoSeparator(raw, ',');
    }
  }

  /** The allow-list guard: an empty list permits every address. */
  predicate IpAllowed(allowList: seq<string>, ip: string) {
    |allowList| == 0 || ip in allowList
  }

  // ---------------------------------------------------------------------
  // POST

  /** One `webhook_logs` row (`source` is always `'xendit'`). */
  datatype LogEntry = LogEntry(status: string, responseCode: int, payload: Option<JsValue>, errorMessage: Option<string>)

  /** The JSON response: its status and body fields. */
  datatype Reply = Reply(status: int, body: map<string, string>)

  /**
   * `handleXenditWebhook(payload, request.headers)` over the service's
   * current state: the stored dedupe keys, the insert error other than a
   * unique violation, and the order lookup by payment request id.
   */
  function ServiceHandler(h: Headers, storedKeys: set<string>, insertError: Option<string>,
                          lookup: Option<JsValue>): JsValue -> PaymentsService.HandleResult
  {
    payload => PaymentsService.HandleXenditWebhook(payload, h, storedKeys, insertError, lookup)
  }

  datatype WebhookRequest = WebhookRequest(headers: Headers, json: Option<JsValue>)

  /**
   * The outcome of one `POST`: the reply, the log row, the rate-limit key
   * asked about (if any) and the service handler's result (if it ran).
   */
  datatype PostResult = PostResult(reply: Reply, log: LogEntry, limiterKey: Option<string>,
                                   handled: Option<PaymentsService.HandleResult>)

  /** The guards that come before the handler, in order; `None` when all pass. */
  function FirstFailingGuard(req: WebhookRequest, env: RouteEnv, canRateLimit: bool, limiter: string -> bool): (r: Option<(Reply, LogEntry)>)
    ensures r.Some? ==> 400 <= r.value.0.status <= 500 && r.value.0.status == r.value.1.responseCode
    ensures r.Some? ==> r.value.1.payload.None?
    ensures r.None? ==> req.json.Some?
  {
    var h := req.headers;
    var token := GetWebhookToken(env);
    var ip := GetClientIp(h);
    if !RequestBody.HasJsonContentType(h) then
      Some((Reply(415, map["error" := "Unsupported Media Type"]),
            LogEntry("rejected", 415, None, Some("Unsupported content-type. JSON required"))))
    else if !Present(token) then
      Some((Reply(500, map["error" := "Webhook token not configured"]),
            LogEntry("failed", 500, None, Some("XENDIT_WEBHOOK_TOKEN is not configured"))))
    else if canRateLimit && !limiter("xendit-webhook:" + ip) then
      Some((Reply(429, map["error" := "Too many requests"]),
            LogEntry("rate_limited", 429, None, Some("Rate limited for IP " + ip))))
    else if !IpAllowed(GetIpAllowList(env), ip) then
      Some((Reply(403, map["error" := "Forbidden"]),
            LogEntry("forbidden", 403, None, Some("IP " + ip + " is not allowlisted"))))
    else if !Present(GetCallbackToken(h)) || GetCallbackToken(h) != token then
      Some((Reply(401, map["error" := "Unauthorized"]),
            LogEntry("unauthorized", 401, None, Some("Invalid callback token"))))
    else if req.json.None? then
      Some((Reply(400, map["error" := "Invalid JSON payload"]),
            LogEntry("rejected", 400, None, Some("Invalid JSON payload"))))
    else None
  }

  /** The reply and log row for what the handler returned or threw. */
  function HandledReply(payload: JsValue, r: PaymentsService.HandleResult): (p: (Reply, LogEntry))
    ensures p.0.status == p.1.responseCode && p.1.payload == Some(payload)
    ensures p.0.status == 200 <==> r.outcome.Ok?
    ensures r.outcome.Ok? ==>
      (p.1.status == "duplicate" <==> r.outcome.value.Duplicate?) &&
      (p.1.status == "ignored" <==> r.outcome.value.OrderNotFound?) &&
      (p.1.status == "processed" <==> r.outcome.value.Processed?)
    ensures r.outcome.Err? ==> p.1 == LogEntry("failed", 500, Some(payload), Some(r.outcome.error))
  {
    match r.outcome
    case Err(message) =>
      (Reply(500, map["error" := "Internal Server Error"]), LogEntry("failed", 500, Some(payload), Some(message)))
    case Ok(Duplicate(_)) =>
      (Reply(200, map["message" := "Duplicate webhook ignored"]), LogEntry("duplicate", 200, Some(payload), None))
    case Ok(OrderNotFound(_)) =>
      (Reply(200, map["message" := "Webhook ignored", "reason" := "order_not_found"]),
       LogEntry("ignored", 200, Some(payload), Some("order_not_found")))
    case Ok(Processed(_, _)) =>
      (Reply(200, map["message" := "Webhook processed"]), LogEntry("processed", 200, Some(payload), None))
  }

  /**
   * `POST(request)` as one function of its inputs; `handler` is the payment
   * service's handler for this request (`ServiceHandler`).
   */
  function PostOutcome(req: WebhookRequest, env: RouteEnv, canRateLimit: bool, limiter: string -> bool,
                       handler: JsValue -> PaymentsService.HandleResult): (r: PostResult)
    ensures r.reply.status == r.log.responseCode
    ensures r.handled.Some? <==> FirstFailingGuard(req, env, canRateLimit, limiter).None?
    ensures r.handled.Some? ==> req.json.Some? && r.handled.value == handler(req.json.value)
    ensures r.limiterKey.Some? <==>
      RequestBody.HasJsonContentType(req.headers) && Present(GetWebhookToken(env)) && canRateLimit
    ensures r.limiterKey.Some? ==> r.limiterKey.value == "xendit-webhook:" + GetClientIp(req.headers)
  {
    var asked :=
      if RequestBody.HasJsonContentType(req.headers) && Present(GetWebhookToken(env)) && canRateLimit
      then Some("xendit-webhook:" + GetClientIp(req.headers)) else None;
    match FirstFailingGuard(req, env, canRateLimit, limiter)
    case Some((reply, log)) => PostResult(reply, log, asked, None)
    case None =>
      var handled := handler(req.json.value);
      var (reply, log) := HandledReply(req.json.value, handled);
      PostResult(reply, log, asked, Some(handled))
  }

  /**
   * The guards decide in order, the first failing one alone deciding the
   * reply: 415, then 500, then 429, then 403, then 401, then 400; the
   * handler (and with it every change to the webhook events) runs only when
   * all pass, and then the reply is 200 unless the handler threw.
   */
  lemma GuardOrder(req: WebhookRequest, env: RouteEnv, canRateLimit: bool, limiter: string -> bool,
                   handler: JsValue -> PaymentsService.HandleResult)
    ensures var r := PostOutcome(req, env, canRateLimit, limiter, handler);
      var h := req.headers;
      var token := GetWebhookToken(env);
      var ip := GetClientIp(h);
      var contentOk := RequestBody.HasJsonContentType(h);
      var tokenOk := contentOk && Present(token);
      var rateOk := tokenOk && !(canRateLimit && !limiter("xendit-webhook:" + ip));
      var ipOk := rateOk && IpAllowed(GetIpAllowList(env), ip);
      var authOk := ipOk && Present(GetCallbackToken(h)) && GetCallbackToken(h) == token;
      && (!contentOk ==> r.reply.status == 415)
      && (contentOk && !tokenOk ==> r.reply.status == 500 && r.log.status == "failed")
      && (tokenOk && !rateOk ==> r.reply.status == 429)
      && (rateOk && !ipOk ==> r.reply.status == 403)
      && (ipOk && !authOk ==> r.reply.status == 401)
      && (authOk && req.json.None? ==> r.reply.status == 400)
      && (r.handled.Some? <==> authOk && req.json.Some?)
      && (r.handled.Some? ==> (r.reply.status == 200 <==> r.handled.value.outcome.Ok?))
      && (r.handled.None? ==> r.reply.status != 200)
  {
  }

  /**
   * The handler runs only for a request carrying exactly the configured
   * callback token, and the configured token is never empty then.
   */
  lemma TokenMustMatch(req: WebhookRequest, env: RouteEnv, canRateLimit: bool, limiter: string -> bool,
                       handler: JsValue -> PaymentsService.HandleResult)
    requires PostOutcome(req, env, canRateLimit, limiter, handler).handled.Some?
    ensures GetWebhookToken(env).Some? && GetWebhookToken(env).value != ""
    ensures HeaderGet(req.headers, "x-callback-token") == GetWebhookToken(env)
  {
  }

  /** A delivery the handler reports as a duplicate is logged as `duplicate`, with its payload, and answered 200. */
  lemma DuplicateIsLogged(req: WebhookRequest, env: RouteEnv, canRateLimit: bool, limiter: string -> bool,
                          handler: JsValue -> PaymentsService.HandleResult)
    requires FirstFailingGuard(req, env, canRateLimit, limiter).None?
    requires handler(req.json.value).outcome.Ok? && handler(req.json.value).outcome.value.Duplicate?
    ensures var r := PostOutcome(req, env, canRateLimit, limiter, handler);
      r.log == LogEntry("duplicate", 200, req.json, None) && r.reply == Reply(200, map["message" := "Duplicate webhook ignored"])
  {
  }

  /**
   * The service handler reports a delivery whose dedupe key is stored as a
   * duplicate; it stores no new key and triggers no transition.
   */
  lemma StoredKeyIsDuplicate(h: Headers, storedKeys: set<string>, lookup: Option<JsValue>, payload: JsValue)
    requires PaymentsService.NormalizeWebhookEvent(payload, h).dedupeKey in storedKeys
    ensures var r := ServiceHandler(h, storedKeys, None, lookup)(payload);
      r.outcome.Ok? && r.outcome.value.Duplicate? && r.storedKeys == storedKeys && r.transition.None?
  {
    var e := PaymentsService.NormalizeWebhookEvent(payload, h);
    assert ServiceHandler(h, storedKeys, None, lookup)(payload) == PaymentsService.HandleEvent(e, storedKeys, None, lookup);
  }

  /** The `webhook_logs` table, which every request appends to. */
  class WebhookLog {
    var entries: seq<LogEntry>

    constructor ()
      ensures entries == []
    {
      entries := [];
    }

    method AppendWebhookLog(entry: LogEntry)
      modifies this
      ensures entries == old(entries) + [entry]
    {
      entries := entries + [entry];
    }

    /** The part of `POST` after the handler returned or threw. */
    method LogHandled(payload: JsValue, result: PaymentsService.HandleResult) returns (reply: Reply)
      modifies this
      ensures reply == HandledReply(payload, result).0
      ensures entries == old(entries) + [HandledReply(payload, result).1]
    {
      if result.outcome.Err? {
        // catch (error): the handler threw
        AppendWebhookLog(LogEntry("failed", 500, Some(payload), Some(result.outcome.error)));
        return Reply(500, map["error" := "Internal Server Error"]);
      }
      match result.outcome.value {
        case Duplicate(_) =>
          AppendWebhookLog(LogEntry("duplicate", 200, Some(payload), None));
          reply := Reply(200, map["message" := "Duplicate webhook ignored"]);
        case OrderNotFound(_) =>
          AppendWebhookLog(LogEntry("ignored", 200, Some(payload), Some("order_not_found")));
          reply := Reply(200, map["message" := "Webhook ignored", "reason" := "order_not_found"]);
        case Processed(_, _) =>
          AppendWebhookLog(LogEntry("processed", 200, Some(payload), None));
          reply := Reply(200, map["message" := "Webhook processed"]);
      }
    }

    /**
     * `POST(request)`, guard by guard: exactly one log row is appended on
     * every path, and reply and row are those of `PostOutcome`.
     */
    method Post(req: WebhookRequest, env: RouteEnv, canRateLimit: bool, limiter: string -> bool,
                handler: JsValue -> PaymentsService.HandleResult)
      returns (reply: Reply, handled: Option<PaymentsService.HandleResult>)
      modifies this
      ensures var o := PostOutcome(req, env, canRateLimit, limiter, handler);
        reply == o.reply && handled == o.handled && entries == old(entries) + [o.log]
    {
      var payload: Option<JsValue> := None;
      var h := req.headers;
      if !RequestBody.HasJsonContentType(h) {
        AppendWebhookLog(LogEntry("rejected", 415, None, Some("Unsupported content-type. JSON required")));
        return Reply(415, map["error" := "Unsupported Media Type"]), None;
      }
      var webhookToken := GetWebhookToken(env);
      if !Present(webhookToken) {
        AppendWebhookLog(LogEntry("failed", 500, None, Some("XENDIT_WEBHOOK_TOKEN is not configured")));
        return Reply(500, map["error" := "Webhook token not configured"]), None;
      }
      if canRateLimit {
        var ip := GetClientIp(h);
        if !limiter("xendit-webhook:" + ip) {
          AppendWebhookLog(LogEntry("rate_limited", 429, None, Some("Rate limited for IP " + ip)));
          return Reply(429, map["error" := "Too many requests"]), None;
        }
      }
      var ip := GetClientIp(h);
      var allowList := GetIpAllowList(env);
      if |allowList| > 0 && ip !in allowList {
        AppendWebhookLog(LogEntry("forbidden", 403, None, Some("IP " + ip + " is not allowlisted")));
        return Reply(403, map["error" := "Forbidden"]), None;
      }
      var callbackToken := GetCallbackToken(h);
      if !Present(callbackToken) || callbackToken != webhookToken {
        AppendWebhookLog(LogEntry("unauthorized", 401, None, Some("Invalid callback token")));
        return Reply(401, map["error" := "Unauthorized"]), None;
      }
      if req.json.None? {
        AppendWebhookLog(LogEntry("rejected", 400, None, Some("Invalid JSON payload")));
        return Reply(400, map["error" := "Invalid JSON payload"]), None;
      }
      payload := req.json;
      var result := handler(payload.value);
      handled := Some(result);
      reply := LogHandled(payload.value, result);
    }
  }
}
