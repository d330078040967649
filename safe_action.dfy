/**
 * `src/lib/safe-action.ts`: the wrapper that logs one event per server
 * action. The request headers are an input (`None` when `headers()` throws
 * outside a request), the wrapped action is a function from its input to
 * its outcome, and the logger's line is returned as a value. Durations are
 * left out.
 */
module SafeAction {
  import opened Wrappers
  import opened JsValues
  import opened Http
  import AbuseProtection

  const SensitiveFields := ["password", "token", "secret", "apiKey", "api_key", "authorization"]
  const Redacted := Str("[REDACTED]")

  /** The copy with every present sensitive key redacted and nothing else changed. */
  function Redact(fields: map<string, JsValue>): (r: map<string, JsValue>)
    ensures r.Keys == fields.Keys
    ensures forall k :: k in r ==> r[k] == if k in SensitiveFields then Redacted else fields[k]
  {
    map k | k in fields :: if k in SensitiveFields then Redacted else fields[k]
  }

  /**
   * `sanitizeInputs(data)`: a value that is not an object (or is null)
   * comes back as it is; an object or array is shallow-copied with
   * `{ ...data }` and the sensitive keys it has are redacted in the copy.
   */
  method SanitizeInputs(data: JsValue) returns (r: JsValue)
    ensures !data.Obj? && !data.Arr? ==> r == data
    ensures data.Obj? || data.Arr? ==> r == Obj(Redact(Spread(data)))
  {
    if !data.Obj? && !data.Arr? {
      return data;
    }
    var sanitized := Spread(data);
    ghost var original := sanitized;
    for i := 0 to |SensitiveFields|
      invariant sanitized.Keys == original.Keys
      invariant forall k :: k in sanitized ==>
        sanitized[k] == if k in SensitiveFields[..i] then Redacted else original[k]
    {
      var field := SensitiveFields[i];
      if field in sanitized {
        sanitized := sanitized[field := Redacted];
      }
      assert SensitiveFields[..i + 1] == SensitiveFields[..i] + [field];
    }
    assert SensitiveFields[..|SensitiveFields|] == SensitiveFields;
    return Obj(sanitized);
  }

  /** Redacting twice is redacting once. */
  lemma RedactIdempotent(fields: map<string, JsValue>)
    ensures Redact(Redact(fields)) == Redact(fields)
  {
  }

  /** A clean object keeps every value; a password is hidden but still listed. */
  lemma RedactExamples(fields: map<string, JsValue>, v: JsValue)
    ensures "email" in fields ==> Redact(fields)["email"] == fields["email"]
    ensures Redact(fields["password" := v])["password"] == Redacted
    ensures "token" !in fields ==> "token" !in Redact(fields)
  {
  }

  /** The tracing fields of the event. */
  datatype Tracing = Tracing(userAgent: Option<string>, clientIp: Option<string>)

  /**
   * `getTracingHeaders()`: the user agent, and the client IP from the first
   * forwarded hop, else `x-real-ip`, else `cf-connecting-ip`; empty values
   * count as absent. Outside a request there are none.
   */
  function GetTracingHeaders(headers: Option<Headers>): (t: Tracing)
    ensures headers.None? ==> t == Tracing(None, None)
    ensures headers.Some? ==> var h := headers.value;
      var forwarded := AbuseProtection.ParseForwardedIp(HeaderGet(h, "x-forwarded-for"));
      && (forwarded.Some? ==> t.clientIp == forwarded)
      && (forwarded.None? && Present(HeaderGet(h, "x-real-ip")) ==> t.clientIp == HeaderGet(h, "x-real-ip"))
      && (forwarded.None? && !Present(HeaderGet(h, "x-real-ip")) && Present(HeaderGet(h, "cf-connecting-ip")) ==>
            t.clientIp == HeaderGet(h, "cf-connecting-ip"))
      && (t.clientIp.None? <==> forwarded.None? && !Present(HeaderGet(h, "x-real-ip"))
                                && !Present(HeaderGet(h, "cf-connecting-ip")))
      && (t.userAgent.Some? <==> Present(HeaderGet(h, "user-agent")))
  {
    if headers.None? then Tracing(None, None)
    else
      var h := headers.value;
      var userAgent := if Present(HeaderGet(h, "user-agent")) then HeaderGet(h, "user-agent") else None;
      var clientIp := OrOpt(AbuseProtection.ParseForwardedIp(HeaderGet(h, "x-forwarded-for")),
                            OrOpt(HeaderGet(h, "x-real-ip"),
                                  if Present(HeaderGet(h, "cf-connecting-ip")) then HeaderGet(h, "cf-connecting-ip") else None));
      Tracing(userAgent, clientIp)
  }

  /** What the wrapped action does: returns a value or throws with a message. */
  datatype Outcome = Returned(value: JsValue) | Threw(message: string)

  datatype Status = Success | Error

  /** The single log line: the context, the final status and the error's message. */
  datatype LogEvent = LogEvent(actionName: string, status: Status, inputs: JsValue, tracing: Tracing,
                               error: Option<string>)

  /**
   * `withLogging(actionName, fn)(data)`: the action's outcome unchanged —
   * its value returned, its error rethrown — and one event saying which.
   */
  method WithLogging(actionName: string, fn: JsValue -> Outcome, data: JsValue, headers: Option<Headers>)
    returns (outcome: Outcome, event: LogEvent)
    ensures outcome == fn(data)
    ensures event.actionName == actionName && event.tracing == GetTracingHeaders(headers)
    ensures data.Obj? || data.Arr? ==> event.inputs == Obj(Redact(Spread(data)))
    ensures !data.Obj? && !data.Arr? ==> event.inputs == data
    ensures event.status == Success <==> outcome.Returned?
    ensures outcome.Threw? ==> event.error == Some(outcome.message)
    ensures outcome.Returned? ==> event.error.None?
  {
    var tracing := GetTracingHeaders(headers);
    var inputs := SanitizeInputs(data);
    outcome := fn(data);
    if outcome.Returned? {
      event := LogEvent(actionName, Success, inputs, tracing, None);
    } else {
      event := LogEvent(actionName, Error, inputs, tracing, Some(outcome.message));
    }
  }
}
