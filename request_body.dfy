/**
 * `src/lib/security/request-body.ts`: reading a JSON request body under a
 * byte limit. The request is its headers plus what `request.text()` yields
 * (`None` when reading fails); `JSON.parse` is a parameter.
 */
module RequestBody {
  import opened Wrappers
  import opened Strings
  import opened JsValues
  import opened Http
  import Utf8

  const JsonContentType := "application/json"

  datatype BodyRequest = BodyRequest(headers: Headers, text: Option<string>)

  datatype ParsedBody =
    | Parsed(data: JsValue)
    | Rejected(status: int, error: string)

  /** The content-type guard: `content-type` contains `application/json`, ignoring case. */
  predicate HasJsonContentType(h: Headers) {
    Contains(ToLower(OrElse(HeaderGet(h, "content-type"), "")), JsonContentType)
  }

  /** The declared-length guard: a finite `Number(content-length)` above the limit. */
  predicate DeclaredTooLarge(h: Headers, maxBytes: Number) {
    var declared := HeaderGet(h, "content-length");
    Present(declared) && StringToNumber(declared.value).Finite? && Greater(StringToNumber(declared.value), maxBytes)
  }

  /** `Buffer.byteLength(rawBody, 'utf8') > maxBytes`. */
  predicate BodyTooLarge(text: string, maxBytes: Number) {
    Greater(Finite(|Utf8.Encode(text)| as real), maxBytes)
  }

  /** `parseJsonBodyWithLimit(request, { maxBytes, requireJsonContentType })`. */
  function ParseJsonBodyWithLimit(req: BodyRequest, maxBytes: Number, requireJsonContentType: bool,
                                  parse: string -> Option<JsValue>): (r: ParsedBody)
    ensures r.Rejected? ==> r.status in {400, 413, 415}
  {
    if requireJsonContentType && !HasJsonContentType(req.headers) then Rejected(415, "Unsupported Media Type")
    else if DeclaredTooLarge(req.headers, maxBytes) then Rejected(413, "Payload too large")
    else if req.text.None? then Rejected(400, "Invalid request body")
    else if BodyTooLarge(req.text.value, maxBytes) then Rejected(413, "Payload too large")
    else match parse(req.text.value)
      case None => Rejected(400, "Invalid JSON body")
      case Some(data) => Parsed(data)
  }

  /**
   * A body is parsed only when every check passed: the content type (when
   * required), the declared length, a readable body of at most `maxBytes`
   * UTF-8 bytes, and valid JSON; and the data is what `JSON.parse` returned.
   */
  lemma ParsedMeansChecked(req: BodyRequest, maxBytes: Number, requireJson: bool, parse: string -> Option<JsValue>)
    ensures var r := ParseJsonBodyWithLimit(req, maxBytes, requireJson, parse);
      r.Parsed? <==>
        && (requireJson ==> HasJsonContentType(req.headers))
        && !DeclaredTooLarge(req.headers, maxBytes)
        && req.text.Some?
        && !BodyTooLarge(req.text.value, maxBytes)
        && parse(req.text.value).Some?
    ensures var r := ParseJsonBodyWithLimit(req, maxBytes, requireJson, parse);
      r.Parsed? && maxBytes.Finite? ==> (|Utf8.Encode(req.text.value)| as real) <= maxBytes.v
    ensures var r := ParseJsonBodyWithLimit(req, maxBytes, requireJson, parse);
      r.Parsed? ==> r.data == parse(req.text.value).value
  {
  }

  /**
   * The guards run in order: a wrong content type is 415 whatever the body;
   * a declared length above the limit is 413 without the body being read
   * (the answer is the same for every body).
   */
  lemma GuardOrder(h: Headers, text1: Option<string>, text2: Option<string>, maxBytes: Number,
                   requireJson: bool, parse: string -> Option<JsValue>)
    ensures requireJson && !HasJsonContentType(h) ==>
      ParseJsonBodyWithLimit(BodyRequest(h, text1), maxBytes, requireJson, parse) == Rejected(415, "Unsupported Media Type")
    ensures (requireJson ==> HasJsonContentType(h)) && DeclaredTooLarge(h, maxBytes) ==>
      ParseJsonBodyWithLimit(BodyRequest(h, text1), maxBytes, requireJson, parse) == Rejected(413, "Payload too large")
    ensures (requireJson ==> HasJsonContentType(h)) && DeclaredTooLarge(h, maxBytes) ==>
      ParseJsonBodyWithLimit(BodyRequest(h, text1), maxBytes, requireJson, parse) ==
      ParseJsonBodyWithLimit(BodyRequest(h, text2), maxBytes, requireJson, parse)
  {
  }

  /** A content length that is not a finite number is ignored. */
  lemma NonFiniteLengthIgnored(h: Headers, maxBytes: Number)
    requires HeaderGet(h, "content-length").Some?
    requires !StringToNumber(HeaderGet(h, "content-length").value).Finite?
    ensures !DeclaredTooLarge(h, maxBytes)
  {
  }
}
