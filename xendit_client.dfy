/**
 * `src/lib/xendit/xendit-client.ts`: the authenticated HTTP client for the
 * Xendit payment-request API with its bounded retry loop.
 *
 * `fetch` is replaced by `fetch(k)`, the outcome of attempt number `k`
 * (1-based), and `sleep(ms)` by appending `ms` to the list of delays.
 */
module XenditClient {
  import opened Wrappers
  import opened Strings
  import opened JsValues
  import opened Http
  import Utf8
  import Base64

  /** What one `fetch` does: it rejects, or answers with a status and a body. */
  datatype FetchOutcome =
    | NetworkFailure(message: string)
    | Response(status: int, text: string, json: Option<JsValue>)

  datatype XenditError =
    | MissingSecretKey
    | ApiError(status: int, text: string)
    | NetworkError(message: string)
    | InvalidJson

  /** The environment variables the client reads. */
  datatype ClientEnv = ClientEnv(baseUrl: Option<string>, secretKey: Option<string>, apiVersion: Option<string>)

  function BaseUrl(env: ClientEnv): string {
    OrElse(env.baseUrl, "https://api.xendit.co")
  }

  /** `buildXenditBasicAuthHeader(secretKey)`. */
  function BasicAuthHeader(secretKey: string): (r: string)
    ensures StartsWith(r, "Basic ")
    ensures |r[6..]| % 4 == 0 && Base64.Decode(r[6..]) == Utf8.Encode(secretKey) + [':' as int]
  {
    Utf8.EncodeAppend(secretKey, ":");
    "Basic " + Base64.EncodeText(secretKey + ":")
  }

  /** The request headers: the caller's headers override the defaults. */
  function RequestHeaders(secretKey: string, env: ClientEnv, extra: map<string, string>): (h: map<string, string>)
    ensures "Authorization" in h && ("Authorization" !in extra ==> h["Authorization"] == BasicAuthHeader(secretKey))
    ensures "api-version" in h <==> Present(env.apiVersion) || "api-version" in extra
  {
    map["Accept" := "application/json", "Content-Type" := "application/json",
        "Authorization" := BasicAuthHeader(secretKey)]
    + (if Present(env.apiVersion) then map["api-version" := env.apiVersion.value] else map[])
    + extra
  }

  predicate IsOk(status: int) {
    200 <= status <= 299
  }

  /** What a single attempt yields when it is not retried. */
  function AttemptResult(o: FetchOutcome): Result<JsValue, XenditError> {
    match o
    case NetworkFailure(m) => Err(NetworkError(m))
    case Response(status, text, json) =>
      if !IsOk(status) then Err(ApiError(status, text))
      else if json.None? then Err(InvalidJson)
      else Ok(json.value)
  }

  /**
   * The retry policy from attempt `attempt` on: every failure is retried
   * while `attempt <= maxRetries`. Returns the result and the number of the
   * last attempt made.
   */
  function Retry(fetch: nat -> FetchOutcome, maxRetries: nat, attempt: nat): (r: (Result<JsValue, XenditError>, nat))
    requires 1 <= attempt <= maxRetries + 1
    ensures attempt <= r.1 <= maxRetries + 1
    ensures r.0 == AttemptResult(fetch(r.1))
    ensures forall k :: attempt <= k < r.1 ==> AttemptResult(fetch(k)).Err?
    ensures r.0.Err? ==> r.1 == maxRetries + 1
    decreases maxRetries + 1 - attempt
  {
    var res := AttemptResult(fetch(attempt));
    if res.Ok? || attempt == maxRetries + 1 then (res, attempt)
    else Retry(fetch, maxRetries, attempt + 1)
  }

  /** The delays slept before retries 1 .. n: 250·k ms before retry k. */
  function Delays(n: nat): (r: seq<nat>)
    ensures |r| == n && forall k :: 0 <= k < n ==> r[k] == 250 * (k + 1)
  {
    seq(n, k requires 0 <= k < n => 250 * (k + 1))
  }

  /** What `requestXendit` returns or throws, and the attempts it makes. */
  function RequestOutcome(env: ClientEnv, maxRetries: nat, fetch: nat -> FetchOutcome): (Result<JsValue, XenditError>, nat) {
    if !Present(env.secretKey) then (Err(MissingSecretKey), 0) else Retry(fetch, maxRetries, 1)
  }

  /**
   * The outcome of `requestXendit`: without a key nothing is attempted; with
   * one, at most `maxRetries + 1` attempts, the result being the first OK
   * response's JSON, else the last attempt's error after exactly
   * `maxRetries + 1` attempts.
   */
  lemma RequestOutcomeSpec(env: ClientEnv, maxRetries: nat, fetch: nat -> FetchOutcome)
    ensures var (r, attempts) := RequestOutcome(env, maxRetries, fetch);
      && (!Present(env.secretKey) <==> attempts == 0)
      && (!Present(env.secretKey) ==> r == Err(MissingSecretKey))
      && attempts <= maxRetries + 1
      && (r.Ok? ==> fetch(attempts).Response? && IsOk(fetch(attempts).status)
                    && fetch(attempts).json == Some(r.value))
      && (forall k :: 1 <= k < attempts ==> AttemptResult(fetch(k)).Err?)
      && (r.Err? && Present(env.secretKey) ==> attempts == maxRetries + 1)
  {
  }

  /**
   * A client error is retried like a server error: the exception thrown for
   * a non-OK response is caught by the same `try` and retried while
   * `attempt <= maxRetries`.
   */
  lemma ClientErrorIsRetried(env: ClientEnv, maxRetries: nat, fetch: nat -> FetchOutcome)
    requires Present(env.secretKey) && maxRetries >= 1
    requires fetch(1).Response? && 400 <= fetch(1).status < 500
    ensures RequestOutcome(env, maxRetries, fetch).1 >= 2
  {
  }

  /** `requestXendit(path, init, { maxRetries })`, attempt by attempt. */
  method RequestXendit(env: ClientEnv, maxRetries: nat, fetch: nat -> FetchOutcome)
    returns (r: Result<JsValue, XenditError>, attempts: nat, delays: seq<nat>)
    ensures (r, attempts) == RequestOutcome(env, maxRetries, fetch)
    ensures delays == Delays(if attempts == 0 then 0 else attempts - 1)
  {
    if !Present(env.secretKey) {
      return Err(MissingSecretKey), 0, [];
    }
    var attempt: nat := 0;
    delays := [];
    while true
      invariant attempt <= maxRetries
      invariant Retry(fetch, maxRetries, attempt + 1) == Retry(fetch, maxRetries, 1)
      invariant delays == Delays(attempt)
      decreases maxRetries - attempt
    {
      attempt := attempt + 1;
      var failure: XenditError;
      match fetch(attempt) {
        case NetworkFailure(m) =>
          failure := NetworkError(m);
        case Response(status, text, json) =>
          if !IsOk(status) {
            var shouldRetry := status >= 500 && attempt <= maxRetries;
            if shouldRetry {
              delays := delays + [250 * attempt];
              continue;
            }
            failure := ApiError(status, text);
          } else if json.Some? {
            return Ok(json.value), attempt, delays;
          } else {
            failure := InvalidJson;
          }
      }
      // catch: every thrown error is retried while attempts remain
      if attempt > maxRetries {
        return Err(failure), attempt, delays;
      }
      delays := delays + [250 * attempt];
    }
  }

  /** `createPaymentRequest(payload)`: `POST /v3/payment_requests` with two retries. */
  method CreatePaymentRequest(env: ClientEnv, fetch: nat -> FetchOutcome)
    returns (r: Result<JsValue, XenditError>, attempts: nat, url: string, httpMethod: string)
    ensures attempts <= 3 && (r, attempts) == RequestOutcome(env, 2, fetch)
    ensures url == BaseUrl(env) + "/v3/payment_requests" && httpMethod == "POST"
  {
    var delays;
    r, attempts, delays := RequestXendit(env, 2, fetch);
    url, httpMethod := BaseUrl(env) + "/v3/payment_requests", "POST";
  }

  /** `getPaymentRequest(id)`: `GET /v3/payment_requests/<id>` with one retry. */
  method GetPaymentRequest(env: ClientEnv, paymentRequestId: string, fetch: nat -> FetchOutcome)
    returns (r: Result<JsValue, XenditError>, attempts: nat, url: string, httpMethod: string)
    ensures attempts <= 2 && (r, attempts) == RequestOutcome(env, 1, fetch)
    ensures url == BaseUrl(env) + "/v3/payment_requests/" + paymentRequestId && httpMethod == "GET"
  {
    var delays;
    r, attempts, delays := RequestXendit(env, 1, fetch);
    url, httpMethod := BaseUrl(env) + "/v3/payment_requests/" + paymentRequestId, "GET";
  }
}
