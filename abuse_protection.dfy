/**
 * `src/lib/security/abuse-protection.ts`: client-IP extraction, e-mail
 * normalisation and the rate-limit combinators used by the partner and
 * coach submission forms, the debug actions and the webhook log.
 *
 * `canRateLimit` (whether Upstash is configured) is a parameter; each
 * limiter is a function from the key it is asked about to its answer, and
 * the keys asked about are part of every result. `now` is `Date.now()`.
 */
module AbuseProtection {
  import opened Wrappers
  import opened Strings
  import opened Http
  import Arith

  /** `parseForwardedIp(forwardedFor)`: the first comma-separated hop, trimmed. */
  function ParseForwardedIp(forwardedFor: Option<string>): (r: Option<string>)
    ensures !Present(forwardedFor) ==> r.None?
    ensures r.Some? ==> r.value != "" && ',' !in r.value && Trim(r.value) == r.value
  {
    if !Present(forwardedFor) then None
    else
      var first := Split(forwardedFor.value, ',')[0];
      TrimKeepsOut(first, ',');
      TrimIdempotent(first);
      if Trim(first) == "" then None else Some(Trim(first))
  }

  /** The first element of splitting `a + "," + rest` on commas is `a`. */
  lemma FirstHopOf(a: string, rest: string)
    requires ',' !in a
    ensures Split(a + "," + rest, ',')[0] == a
  {
    var s := a + "," + rest;
    SplitFirst(s, ',');
    assert s[|a|] == ',' && s[..|a|] == a;
    FirstIndexAt(s, ',', |a|);
  }

  /** An index holding `c` with no `c` before it is the first index of `c`. */
  lemma FirstIndexAt(s: string, c: char, k: nat)
    requires k < |s| && s[k] == c && c !in s[..k]
    ensures FirstIndex(s, c) == k
  {
    var i := FirstIndex(s, c);
    assert forall j :: 0 <= j < i ==> s[j] == s[..i][j];
    assert forall j :: 0 <= j < k ==> s[j] == s[..k][j];
  }

  /**
   * The header `a, rest` yields `a` trimmed, or nothing when `a` is blank
   * (the later hops are not consulted); a header with no comma is one hop.
   */
  lemma ForwardedIpIsFirstHop(a: string, rest: string)
    requires ',' !in a
    ensures ParseForwardedIp(Some(a + "," + rest)) == if IsBlank(a) then None else Some(Trim(a))
    ensures a != "" ==> ParseForwardedIp(Some(a)) == if IsBlank(a) then None else Some(Trim(a))
  {
    FirstHopOf(a, rest);
    SplitFirst(a, ',');
  }

  /**
   * `toRetryAfterSeconds(result)`: the whole seconds, rounded up, until
   * the limiter's reset time; nothing without a (non-zero) reset or when
   * the reset is not in the future.
   */
  function RetryAfterSeconds(reset: Option<int>, now: int): (r: Option<int>)
    ensures r.Some? <==> reset.Some? && reset.value != 0 && reset.value > now
    ensures r.Some? ==> r.value >= 1 && (r.value - 1) * 1000 < reset.value - now <= r.value * 1000
  {
    if reset.None? || reset.value == 0 then None
    else
      var delta := Arith.CeilDiv(reset.value - now, 1000);
      Arith.CeilDivPositive(reset.value - now, 1000);
      if delta > 0 then Some(delta) else None
  }

  /** `normalizeEmail(email)`. */
  function NormalizeEmail(email: string): (r: string)
    ensures |r| <= |email|
    ensures r == [] || (!IsSpace(r[0]) && !IsSpace(r[|r| - 1]))
    ensures forall i :: 0 <= i < |r| ==> !('A' <= r[i] <= 'Z')
  {
    ToLower(Trim(email))
  }

  /** Normalising twice is normalising once. */
  lemma NormalizeEmailIdempotent(email: string)
    ensures NormalizeEmail(NormalizeEmail(email)) == NormalizeEmail(email)
  {
    var t := Trim(email);
    TrimToLowerCommute(t);
    TrimIdempotent(email);
    ToLowerIdempotent(t);
  }

  /** Addresses that differ only in case or surrounding blanks normalise alike. */
  lemma NormalizeEmailIgnoresCase(email: string)
    ensures NormalizeEmail(ToUpper(email)) == NormalizeEmail(email)
    ensures NormalizeEmail(" " + email + " ") == NormalizeEmail(email)
  {
    TrimToUpperCommute(email);
    LowerOfUpper(Trim(email));
    TrimPadded(email);
  }

  lemma TrimPadded(s: string)
    ensures Trim(" " + s + " ") == Trim(s)
  {
    var p := " " + s + " ";
    assert TrimStart(p) == TrimStart(s + " ") by {
      assert p[1..] == s + " ";
    }
    TrimStartAppendSpace(s);
    TrimEndAppendSpace(TrimStart(s));
  }

  lemma TrimStartAppendSpace(s: string)
    ensures TrimStart(s + " ") == TrimStart(s) + " " || (AllSpace(s) && TrimStart(s + " ") == [])
    decreases |s|
  {
    if |s| > 0 && IsSpace(s[0]) {
      assert (s + " ")[1..] == s[1..] + " ";
      TrimStartAppendSpace(s[1..]);
    }
  }

  lemma TrimEndAppendSpace(t: string)
    ensures TrimEnd(t + " ") == TrimEnd(t)
  {
    assert (t + " ")[..|t|] == t;
  }

  /**
   * `getRequestClientIp(request)` and `getServerActionClientIp()`: the first
   * forwarded hop, else `x-real-ip`, else `'unknown'`.
   */
  function ClientIp(h: Headers): (r: string)
    ensures r != ""
    ensures ParseForwardedIp(HeaderGet(h, "x-forwarded-for")).Some? ==> r == ParseForwardedIp(HeaderGet(h, "x-forwarded-for")).value
    ensures ParseForwardedIp(HeaderGet(h, "x-forwarded-for")).None? && Present(HeaderGet(h, "x-real-ip")) ==> r == HeaderGet(h, "x-real-ip").value
    ensures ParseForwardedIp(HeaderGet(h, "x-forwarded-for")).None? && !Present(HeaderGet(h, "x-real-ip")) ==> r == "unknown"
  {
    OrElse(OrOpt(ParseForwardedIp(HeaderGet(h, "x-forwarded-for")), HeaderGet(h, "x-real-ip")), "unknown")
  }

  /** A blank first forwarded hop falls through to `x-real-ip`, then `'unknown'`. */
  lemma BlankHopFallsBack(h: Headers, a: string, rest: string)
    requires ',' !in a && IsBlank(a)
    requires HeaderGet(h, "x-forwarded-for") == Some(a + "," + rest)
    ensures ClientIp(h) == OrElse(HeaderGet(h, "x-real-ip"), "unknown")
  {
    FirstHopOf(a, rest);
    assert ParseForwardedIp(Some(a + "," + rest)).None?;
  }

  /** What one limiter call answered. */
  datatype RateLimitResult = RateLimitResult(success: bool, reset: Option<int>)

  datatype Check = Allowed | Denied(retryAfterSeconds: Option<int>)

  /** `checkRateLimit(promise)`. */
  function CheckRateLimit(canRateLimit: bool, result: RateLimitResult, now: int): (r: Check)
    ensures r.Denied? <==> canRateLimit && !result.success
    ensures r.Denied? ==> r.retryAfterSeconds == RetryAfterSeconds(result.reset, now)
  {
    if !canRateLimit || result.success then Allowed else Denied(RetryAfterSeconds(result.reset, now))
  }

  datatype Decision = Allow | Block(error: string, retryAfterSeconds: Option<int>)

  /** A decision together with the keys the limiters were asked about, in order. */
  datatype Limited = Limited(decision: Decision, keys: seq<string>)

  const NetworkLimitMessage := "Too many submissions from this network. Please try again later."
  const EmailLimitMessage := "This email has reached the submission limit. Please try again later."
  const CooldownMessage := "Action is on cooldown. Please wait before trying again."

  /**
   * The shared body of `enforcePartnerSubmissionRateLimit` and
   * `enforceCoachSubmissionRateLimit`: both limiters are asked (in
   * parallel), and an IP failure is reported before an e-mail failure.
   */
  function SubmissionRateLimit(prefix: string, canRateLimit: bool, h: Headers, email: string,
                               ipLimiter: string -> RateLimitResult, emailLimiter: string -> RateLimitResult,
                               now: int): (r: Limited)
    ensures !canRateLimit ==> r == Limited(Allow, [])
    ensures canRateLimit ==> r.keys == [prefix + ":" + ClientIp(h), prefix + ":" + NormalizeEmail(email)]
    ensures canRateLimit ==>
      var ipResult := ipLimiter(prefix + ":" + ClientIp(h));
      var emailResult := emailLimiter(prefix + ":" + NormalizeEmail(email));
      && (r.decision.Allow? <==> ipResult.success && emailResult.success)
      && (!ipResult.success ==> r.decision == Block(NetworkLimitMessage, RetryAfterSeconds(ipResult.reset, now)))
      && (ipResult.success && !emailResult.success ==>
            r.decision == Block(EmailLimitMessage, RetryAfterSeconds(emailResult.reset, now)))
  {
    if !canRateLimit then Limited(Allow, [])
    else
      var ipKey := prefix + ":" + ClientIp(h);
      var emailKey := prefix + ":" + NormalizeEmail(email);
      var ipCheck := CheckRateLimit(canRateLimit, ipLimiter(ipKey), now);
      var emailCheck := CheckRateLimit(canRateLimit, emailLimiter(emailKey), now);
      var decision :=
        if ipCheck.Denied? then Block(NetworkLimitMessage, ipCheck.retryAfterSeconds)
        else if emailCheck.Denied? then Block(EmailLimitMessage, emailCheck.retryAfterSeconds)
        else Allow;
      Limited(decision, [ipKey, emailKey])
  }

  /** `enforcePartnerSubmissionRateLimit(email)`: keys `partner:<ip>` and `partner:<email>`. */
  function PartnerSubmissionRateLimit(canRateLimit: bool, h: Headers, email: string,
                                      ipLimiter: string -> RateLimitResult, emailLimiter: string -> RateLimitResult,
                                      now: int): (r: Limited)
    ensures canRateLimit ==> |r.keys| == 2 && StartsWith(r.keys[0], "partner:") && StartsWith(r.keys[1], "partner:")
    ensures r.decision.Block? ==> canRateLimit
  {
    SubmissionRateLimit("partner", canRateLimit, h, email, ipLimiter, emailLimiter, now)
  }

  /** `enforceCoachSubmissionRateLimit(email)`: keys `coach:<ip>` and `coach:<email>`. */
  function CoachSubmissionRateLimit(canRateLimit: bool, h: Headers, email: string,
                                    ipLimiter: string -> RateLimitResult, emailLimiter: string -> RateLimitResult,
                                    now: int): (r: Limited)
    ensures canRateLimit ==> |r.keys| == 2 && StartsWith(r.keys[0], "coach:") && StartsWith(r.keys[1], "coach:")
    ensures r.decision.Block? ==> canRateLimit
  {
    SubmissionRateLimit("coach", canRateLimit, h, email, ipLimiter, emailLimiter, now)
  }

  /** The e-mail limit counts an address however it is capitalised or padded. */
  lemma SubmissionKeyIgnoresEmailCase(prefix: string, canRateLimit: bool, h: Headers, email: string,
                                      ipLimiter: string -> RateLimitResult, emailLimiter: string -> RateLimitResult,
                                      now: int)
    ensures SubmissionRateLimit(prefix, canRateLimit, h, ToUpper(email), ipLimiter, emailLimiter, now)
         == SubmissionRateLimit(prefix, canRateLimit, h, email, ipLimiter, emailLimiter, now)
  {
    NormalizeEmailIgnoresCase(email);
  }

  /** `enforceDebugActionCooldown(actionKey)`: one key, `debug:<action>:<ip>`. */
  function DebugActionCooldown(canRateLimit: bool, h: Headers, actionKey: string,
                               limiter: string -> RateLimitResult, now: int): (r: Limited)
    ensures !canRateLimit ==> r == Limited(Allow, [])
    ensures canRateLimit ==> r.keys == ["debug:" + actionKey + ":" + ClientIp(h)]
    ensures canRateLimit ==> (r.decision.Block? <==> !limiter(r.keys[0]).success)
    ensures r.decision.Block? ==>
      r.decision.error == CooldownMessage && r.decision.retryAfterSeconds == RetryAfterSeconds(limiter(r.keys[0]).reset, now)
  {
    if !canRateLimit then Limited(Allow, [])
    else
      var key := "debug:" + actionKey + ":" + ClientIp(h);
      match CheckRateLimit(canRateLimit, limiter(key), now)
      case Denied(retry) => Limited(Block(CooldownMessage, retry), [key])
      case Allowed => Limited(Allow, [key])
  }

  /** `shouldLogInvalidWebhookAttempt(ip, status)`: at most as often as the limiter allows. */
  function ShouldLogInvalidWebhookAttempt(canRateLimit: bool, ip: string, status: string,
                                          limiter: string -> bool): (r: bool)
    ensures !canRateLimit ==> r
    ensures canRateLimit ==> (r <==> limiter("invalid:" + status + ":" + ip))
  {
    if !canRateLimit then true else limiter("invalid:" + status + ":" + ip)
  }
}
