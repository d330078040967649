/**
 * `src/app/api/play-together/route.ts`: a community member announces a
 * "play together" session. The body's fields are checked in a fixed order,
 * normalised, defaulted and passed to the `create_play_together_activity`
 * procedure.
 *
 * Inputs: the signed-in user; `request.json()` (`None` when it throws);
 * `dateIsValid`, whether `new Date(text)` is a valid date; `show`, what
 * `String(v)` gives for a value that is not a string; and the procedure's
 * answer.
 */
module PlayTogetherRoute {
  import opened Wrappers
  import opened Strings
  import opened JsValues

  predicate IsHex(c: char) {
    '0' <= c <= '9' || 'a' <= c <= 'f' || 'A' <= c <= 'F'
  }

  /** `/^[0-9a-f]{8}-[0-9a-f]{4}-[0-9a-f]{4}-[0-9a-f]{4}-[0-9a-f]{12}$/i`. */
  predicate IsUuid(s: string) {
    |s| == 36 && forall i :: 0 <= i < |s| ==> if i == 8 || i == 13 || i == 18 || i == 23 then s[i] == '-' else IsHex(s[i])
  }

  /** Case does not matter to `isUuid`. */
  lemma UuidIgnoresCase(s: string)
    ensures IsUuid(ToLower(s)) <==> IsUuid(s)
    ensures IsUuid(ToUpper(s)) <==> IsUuid(s)
  {
    forall i | 0 <= i < |s|
      ensures (IsHex(ToLower(s)[i]) <==> IsHex(s[i])) && (ToLower(s)[i] == '-' <==> s[i] == '-')
      ensures (IsHex(ToUpper(s)[i]) <==> IsHex(s[i])) && (ToUpper(s)[i] == '-' <==> s[i] == '-')
    {
      assert ToLower(s)[i] == LowerChar(s[i]) && ToUpper(s)[i] == UpperChar(s[i]);
    }
  }

  lemma UuidExample()
    ensures IsUuid("123e4567-e89b-12d3-A456-426614174000")
    ensures !IsUuid("123e4567e89b12d3a456426614174000")
  {
  }

  /** `/^\d{4}-\d{2}-\d{2}$/`. */
  predicate IsDateShape(s: string) {
    |s| == 10 && forall i :: 0 <= i < |s| ==> if i == 4 || i == 7 then s[i] == '-' else IsDigit(s[i])
  }

  /** `isValidDate(value)`: the `DDDD-DD-DD` shape, and a valid `Date` at midnight UTC. */
  predicate IsValidDate(s: string, dateIsValid: string -> bool) {
    IsDateShape(s) && dateIsValid(s + "T00:00:00Z")
  }

  /**
   * A date must have the `YYYY-MM-DD` shape before the `Date` check is
   * consulted, and with that shape the `Date` check alone decides.
   */
  lemma DateShapeFirst(dateIsValid: string -> bool)
    ensures !IsValidDate("2024-1-05", dateIsValid)
    ensures IsValidDate("2024-01-05", dateIsValid) <==> dateIsValid("2024-01-05T00:00:00Z")
  {
    assert |"2024-1-05"| != 10;
    assert IsDateShape("2024-01-05");
    assert "2024-01-05" + "T00:00:00Z" == "2024-01-05T00:00:00Z";
  }

  /** `/^\d{2}:\d{2}(:\d{2})?$/`. */
  predicate IsValidTime(s: string) {
    (|s| == 5 || |s| == 8) && forall i :: 0 <= i < |s| ==> if i == 2 || i == 5 then s[i] == ':' else IsDigit(s[i])
  }

  /** The time check has no range: "99:99" passes, and so does "23:59:59"; "9:00" does not. */
  lemma TimeShapeOnly()
    ensures IsValidTime("99:99") && IsValidTime("23:59:59")
    ensures !IsValidTime("9:00") && !IsValidTime("09:00:0") && !IsValidTime("09-00")
  {
    assert "9:00"[2] != ':';
    assert "09-00"[2] != ':';
  }

  /**
   * `normalizeUpper(value)`: `(value || '').trim().toUpperCase()`. A truthy
   * value that is not a string has no `trim` and throws (`None`).
   */
  function NormalizeUpper(v: JsValue): (r: Option<string>)
    ensures !Truthy(v) ==> r == Some("")
    ensures v.Str? ==> r == Some(ToUpper(Trim(v.s)))
  {
    if !Truthy(v) then Some("")
    else if v.Str? then Some(ToUpper(Trim(v.s)))
    else None
  }

  /** Normalising twice changes nothing more. */
  lemma NormalizeUpperIdempotent(s: string)
    ensures NormalizeUpper(Str(s)).Some?
    ensures NormalizeUpper(Str(NormalizeUpper(Str(s)).value)) == NormalizeUpper(Str(s))
  {
    TrimToUpperCommute(Trim(s));
    TrimIdempotent(s);
    ToUpperIdempotent(Trim(s));
  }

  /**
   * `toNumber(value)`: numbers as they are, non-blank strings when they
   * parse to a finite number, `null` (`None`) otherwise.
   */
  function ToNumberOrNull(v: JsValue): (r: Option<Number>)
    ensures v.Num? ==> r == Some(v.n)
    ensures !v.Num? && !v.Str? ==> r.None?
    ensures v.Str? ==> (r.Some? <==> !IsBlank(v.s) && StringToNumber(v.s).Finite?)
  {
    if v.Num? then Some(v.n)
    else if v.Str? && |Trim(v.s)| > 0 then
      var parsed := StringToNumber(v.s);
      if parsed.Finite? then Some(parsed) else None
    else None
  }

  /** `value?.trim()`: `None` is a throw, `Some(None)` is `undefined`. */
  function OptionalTrim(v: JsValue): Option<Option<string>> {
    if v.Undefined? || v.Null? then Some(None)
    else if v.Str? then Some(Some(Trim(v.s)))
    else None
  }

  /** `a || b`. */
  function JsOr(a: JsValue, b: JsValue): JsValue {
    if Truthy(a) then a else b
  }

  /** `a ?? b`. */
  function Nullish(a: JsValue, b: JsValue): JsValue {
    if IsNullish(a) then b else a
  }

  /** The text a regular expression tests: `String(value)`. */
  function TestText(v: JsValue, show: JsValue -> string): string {
    if v.Str? then v.s else show(v)
  }

  const AllowedModes := {"CASUAL", "RANKED", "DRILLING"}
  const AllowedGameFormats := {"SINGLE", "DOUBLE", "MIXED"}
  const AllowedLevels := {"ALL", "BEGINNER", "INTERMEDIATE", "ADVANCED", "PRO"}
  const AllowedGenders := {"ANY", "MALE", "FEMALE"}

  /** The arguments of `create_play_together_activity`. */
  datatype ActivityArgs = ActivityArgs(
    communityId: string, title: string, description: JsValue, matchDate: JsValue, startTime: JsValue,
    endTime: JsValue, courtName: string, venueAddress: JsValue, pricePerPerson: Number, city: JsValue,
    mode: string, levelRequirement: string, gameFormat: string, maxParticipants: Number,
    hostCounts: JsValue, isPublic: JsValue, coachingSession: JsValue, genderPreference: string,
    hostApprovalRequired: JsValue)

  datatype Response =
    | Failure(status: int, error: string)
    | Created(roomId: JsValue)

  /** `payload.maxParticipants` as a number, checked positive and finite. */
  predicate PositiveCount(n: Number) {
    n.Finite? && n.v > 0.0
  }

  /** `pricePerPerson !== null && pricePerPerson < 0`. */
  predicate NegativePrice(p: Option<Number>) {
    p.Some? && (p.value == NegInf || (p.value.Finite? && p.value.v < 0.0))
  }

  /**
   * The validation chain over the body: the procedure's arguments, or the
   * first failing check's response.
   */
  function Validate(payload: JsValue, dateIsValid: string -> bool, show: JsValue -> string): (r: Result<ActivityArgs, Response>)
    ensures r.Err? ==> r.error.Failure?
  {
    if payload.Null? then Err(Failure(500, "Internal Server Error"))          // `null.communityId` throws
    else
      var communityId := OptionalTrim(Get(payload, "communityId"));
      if communityId.None? then Err(Failure(500, "Internal Server Error"))    // no `trim` on a non-string
      else if communityId.value.None? || communityId.value.value == "" || !IsUuid(communityId.value.value) then
        Err(Failure(400, "communityId is required and must be a UUID"))
      else ValidateTitle(payload, communityId.value.value, dateIsValid, show)
  }

  /** The checks from `title` on, after a good communityId. */
  function ValidateTitle(payload: JsValue, communityId: string, dateIsValid: string -> bool,
                         show: JsValue -> string): (r: Result<ActivityArgs, Response>)
    ensures r.Err? ==> r.error.Failure?
  {
    var title := OptionalTrim(Get(payload, "title"));
    if title.None? then Err(Failure(500, "Internal Server Error"))
    else if title.value.None? || title.value.value == "" then Err(Failure(400, "title is required"))
    else ValidateSchedule(payload, communityId, title.value.value, dateIsValid, show)
  }

  /** The checks from `matchDate` on. */
  function ValidateSchedule(payload: JsValue, communityId: string, title: string, dateIsValid: string -> bool,
                            show: JsValue -> string): (r: Result<ActivityArgs, Response>)
    ensures r.Err? ==> r.error.Failure?
  {
    var matchDate, startTime, endTime := Get(payload, "matchDate"), Get(payload, "startTime"), Get(payload, "endTime");
    if !Truthy(matchDate) || !IsValidDate(TestText(matchDate, show), dateIsValid) then
      Err(Failure(400, "matchDate must be in YYYY-MM-DD format"))
    else if !Truthy(startTime) || !IsValidTime(TestText(startTime, show)) then
      Err(Failure(400, "startTime must be in HH:MM format"))
    else if !Truthy(endTime) || !IsValidTime(TestText(endTime, show)) then
      Err(Failure(400, "endTime must be in HH:MM format"))
    else
      var venueName := OptionalTrim(Get(payload, "venueName"));
      if venueName.None? then Err(Failure(500, "Internal Server Error"))
      else if venueName.value.None? || venueName.value.value == "" then Err(Failure(400, "venueName is required"))
      else ValidateOptions(payload, communityId, title, venueName.value.value)
  }

  /** The normalised enumerations: mode, game format, level and gender. */
  datatype Choices = Choices(mode: string, gameFormat: string, level: string, gender: string)

  /** The enumeration checks, each value normalised and defaulted first. */
  function ValidateChoices(payload: JsValue): (r: Result<Choices, Response>)
    ensures r.Err? ==> r.error.Failure? && r.error.status in {400, 500}
    ensures r.Ok? ==> && r.value.mode in AllowedModes && r.value.gameFormat in AllowedGameFormats
                      && r.value.level in AllowedLevels && r.value.gender in AllowedGenders
  {
    var mode0 := NormalizeUpper(Get(payload, "mode"));
    if mode0.None? then Err(Failure(500, "Internal Server Error"))
    else
      var mode := if mode0.value == "" then "CASUAL" else mode0.value;
      if mode !in AllowedModes then Err(Failure(400, "mode is invalid"))
      else
        var gameFormat := NormalizeUpper(Get(payload, "gameFormat"));
        if gameFormat.None? then Err(Failure(500, "Internal Server Error"))
        else if gameFormat.value !in AllowedGameFormats then Err(Failure(400, "gameFormat is invalid"))
        else
          var level := NormalizeUpper(JsOr(Get(payload, "levelRequirement"), JsOr(Get(payload, "skillPreference"), Str("ALL"))));
          if level.None? then Err(Failure(500, "Internal Server Error"))
          else if level.value !in AllowedLevels then Err(Failure(400, "skillPreference/levelRequirement is invalid"))
          else
            var gender := NormalizeUpper(JsOr(Get(payload, "genderPreference"), Str("ANY")));
            if gender.None? then Err(Failure(500, "Internal Server Error"))
            else if gender.value !in AllowedGenders then Err(Failure(400, "genderPreference is invalid"))
            else Ok(Choices(mode, gameFormat.value, level.value, gender.value))
  }

  /** The checks from `maxParticipants` on. */
  function ValidateOptions(payload: JsValue, communityId: string, title: string, venueName: string)
    : (r: Result<ActivityArgs, Response>)
    ensures r.Err? ==> r.error.Failure? && r.error.status in {400, 500}
    ensures r.Ok? ==> PositiveCount(r.value.maxParticipants) && !NegativePrice(Some(r.value.pricePerPerson))
  {
    var maxParticipants := ToNumber(Get(payload, "maxParticipants"));
    if !PositiveCount(maxParticipants) then Err(Failure(400, "maxParticipants must be a positive number"))
    else match ValidateChoices(payload)
      case Err(failure) => Err(failure)
      case Ok(choices) =>
        var price := ToNumberOrNull(Get(payload, "pricePerPerson"));
        if NegativePrice(price) then Err(Failure(400, "pricePerPerson must be >= 0"))
        else Ok(Args(payload, communityId, title, venueName, maxParticipants, choices,
                     if price.Some? then price.value else Finite(0.0)))
  }

  /** The procedure's arguments, with the optional fields defaulted. */
  function Args(payload: JsValue, communityId: string, title: string, venueName: string, maxParticipants: Number,
                choices: Choices, price: Number): (args: ActivityArgs)
    ensures args.mode == choices.mode && args.levelRequirement == choices.level
    ensures args.gameFormat == choices.gameFormat && args.genderPreference == choices.gender
    ensures args.maxParticipants == maxParticipants && args.pricePerPerson == price
    ensures args.communityId == communityId && args.title == title && args.courtName == venueName
  {
    ActivityArgs(
      communityId, title, JsOr(Get(payload, "description"), Null), Get(payload, "matchDate"),
      Get(payload, "startTime"), Get(payload, "endTime"), venueName,
      JsOr(Get(payload, "venueAddress"), Null), price, JsOr(Get(payload, "city"), Null),
      choices.mode, choices.level, choices.gameFormat, maxParticipants,
      Nullish(Get(payload, "hostCounts"), Bool(true)), Nullish(Get(payload, "isPublic"), Bool(true)),
      Nullish(Get(payload, "coachingSession"), Bool(false)), choices.gender,
      Nullish(Get(payload, "hostApprovalRequired"), Bool(false)))
  }

  /** Every accepted activity carries allowed enumeration values. */
  lemma AcceptedValuesAllowed(payload: JsValue, communityId: string, title: string, venueName: string)
    requires ValidateOptions(payload, communityId, title, venueName).Ok?
    ensures var args := ValidateOptions(payload, communityId, title, venueName).value;
      && args.mode in AllowedModes && args.gameFormat in AllowedGameFormats
      && args.levelRequirement in AllowedLevels && args.genderPreference in AllowedGenders
  {
  }

  /**
   * `Number([4])` is 4, so a one-element array passes the participant
   * check and reaches the procedure as that number, while `[]` would be 0
   * and refused.
   */
  lemma SingletonArrayCount(payload: JsValue, communityId: string, title: string, venueName: string, n: real)
    requires n > 0.0 && Get(payload, "maxParticipants") == Arr([Num(Finite(n))])
    requires ValidateChoices(payload).Ok? && !NegativePrice(ToNumberOrNull(Get(payload, "pricePerPerson")))
    ensures ValidateOptions(payload, communityId, title, venueName).Ok?
    ensures ValidateOptions(payload, communityId, title, venueName).value.maxParticipants == Finite(n)
  {
  }

  /** An empty array reads as 0 and is refused as a participant count. */
  lemma EmptyArrayCountRefused(payload: JsValue, communityId: string, title: string, venueName: string)
    requires Get(payload, "maxParticipants") == Arr([])
    ensures ValidateOptions(payload, communityId, title, venueName)
         == Err(Failure(400, "maxParticipants must be a positive number"))
  {
  }

  /** The trimmed text of a string field that is present and not blank. */
  predicate Given(payload: JsValue, key: string) {
    Get(payload, key).Str? && Trim(Get(payload, key).s) != ""
  }

  /**
   * The first guard: a communityId that is not a UUID once trimmed is
   * refused; a good one is passed on trimmed to the title check.
   */
  lemma IdentityGuards(payload: JsValue, dateIsValid: string -> bool, show: JsValue -> string)
    requires payload.Obj?
    ensures var r := Validate(payload, dateIsValid, show);
      var idOk := Given(payload, "communityId") && IsUuid(Trim(Get(payload, "communityId").s));
      && (Get(payload, "communityId").Str? && !idOk ==> r == Err(Failure(400, "communityId is required and must be a UUID")))
      && (Get(payload, "communityId").Undefined? ==> r == Err(Failure(400, "communityId is required and must be a UUID")))
      && (idOk ==> r == ValidateTitle(payload, Trim(Get(payload, "communityId").s), dateIsValid, show))
      && (r.Ok? ==> idOk)
  {
    var v := Get(payload, "communityId");
    if v.Str? {
      var cid := Trim(v.s);
      assert OptionalTrim(v) == Some(Some(cid));
      if cid != "" && IsUuid(cid) {
        assert Validate(payload, dateIsValid, show) == ValidateTitle(payload, cid, dateIsValid, show);
      } else {
        assert Validate(payload, dateIsValid, show) == Err(Failure(400, "communityId is required and must be a UUID"));
      }
    } else {
      assert OptionalTrim(v).None? || OptionalTrim(v) == Some(None);
      assert Validate(payload, dateIsValid, show).Err?;
    }
  }

  /**
   * The second guard: a missing or blank title is refused; otherwise the
   * schedule checks decide, and the title reaches the procedure trimmed.
   */
  lemma TitleGuards(payload: JsValue, communityId: string, dateIsValid: string -> bool, show: JsValue -> string)
    requires payload.Obj?
    ensures var r := ValidateTitle(payload, communityId, dateIsValid, show);
      && (Get(payload, "title").Str? && !Given(payload, "title") ==> r == Err(Failure(400, "title is required")))
      && (Get(payload, "title").Undefined? ==> r == Err(Failure(400, "title is required")))
      && (Given(payload, "title") ==> r == ValidateSchedule(payload, communityId, Trim(Get(payload, "title").s),
                                                           dateIsValid, show))
      && (r.Ok? ==> Given(payload, "title"))
  {
  }

  /**
   * The schedule guards, in order: matchDate, startTime, endTime, then
   * venueName, which reaches the procedure trimmed.
   */
  lemma ScheduleGuards(payload: JsValue, communityId: string, title: string, dateIsValid: string -> bool,
                       show: JsValue -> string)
    requires payload.Obj?
    ensures var r := ValidateSchedule(payload, communityId, title, dateIsValid, show);
      var dateOk := Truthy(Get(payload, "matchDate")) && IsValidDate(TestText(Get(payload, "matchDate"), show), dateIsValid);
      var startOk := dateOk && Truthy(Get(payload, "startTime")) && IsValidTime(TestText(Get(payload, "startTime"), show));
      var endOk := startOk && Truthy(Get(payload, "endTime")) && IsValidTime(TestText(Get(payload, "endTime"), show));
      && (!dateOk ==> r == Err(Failure(400, "matchDate must be in YYYY-MM-DD format")))
      && (dateOk && !startOk ==> r == Err(Failure(400, "startTime must be in HH:MM format")))
      && (startOk && !endOk ==> r == Err(Failure(400, "endTime must be in HH:MM format")))
      && (endOk && Get(payload, "venueName").Str? && !Given(payload, "venueName") ==>
            r == Err(Failure(400, "venueName is required")))
      && (endOk && Given(payload, "venueName") ==>
            r == ValidateOptions(payload, communityId, title, Trim(Get(payload, "venueName").s)))
      && (r.Ok? ==> endOk)
  {
    var venueName := OptionalTrim(Get(payload, "venueName"));
    if Given(payload, "venueName") {
      assert venueName == Some(Some(Trim(Get(payload, "venueName").s)));
    }
  }

  /** The status an error of the procedure maps to. */
  function RpcErrorStatus(message: string): (status: int)
    ensures status in {400, 403, 409}
    ensures Contains(ToLower(message), "conflict") ==> status == 409
  {
    if Contains(ToLower(message), "conflict") then 409
    else if Contains(ToLower(message), "not allowed") then 403
    else 400
  }

  /** `POST(request)`. `rpc` is the procedure's answer: the room id, or its error message. */
  function Post(user: Option<string>, body: Option<JsValue>, dateIsValid: string -> bool, show: JsValue -> string,
                rpc: ActivityArgs -> Result<JsValue, string>): (r: Response)
    ensures user.None? ==> r == Failure(401, "Not authenticated")
    ensures user.Some? && body.None? ==> r == Failure(400, "Invalid JSON body")
  {
    if user.None? then Failure(401, "Not authenticated")
    else if body.None? then Failure(400, "Invalid JSON body")
    else match Validate(body.value, dateIsValid, show)
      case Err(failure) => failure
      case Ok(args) =>
        match rpc(args)
        case Ok(roomId) => Created(roomId)
        case Err(error) =>
          var message := if error == "" then "Failed to create activity" else error;
          Failure(RpcErrorStatus(message), message)
  }

  /**
   * An answer of the procedure reaches the caller as 409 when it mentions a
   * conflict (in any case), as 403 when it says "not allowed" and nothing
   * about a conflict, and as 400 otherwise; an empty message is replaced.
   */
  lemma RpcErrorMapping(user: string, body: JsValue, dateIsValid: string -> bool, show: JsValue -> string,
                        rpc: ActivityArgs -> Result<JsValue, string>)
    requires Validate(body, dateIsValid, show).Ok?
    requires rpc(Validate(body, dateIsValid, show).value).Err?
    ensures var message := rpc(Validate(body, dateIsValid, show).value).error;
      var r := Post(Some(user), Some(body), dateIsValid, show, rpc);
      && (message == "" ==> r == Failure(400, "Failed to create activity"))
      && (message != "" && Contains(ToLower(message), "conflict") ==> r == Failure(409, message))
      && ((message != "" && !Contains(ToLower(message), "conflict") && Contains(ToLower(message), "not allowed")) ==>
            r == Failure(403, message))
      && ((message != "" && !Contains(ToLower(message), "conflict") && !Contains(ToLower(message), "not allowed")) ==>
            r == Failure(400, message))
  {
    var message := rpc(Validate(body, dateIsValid, show).value).error;
    if message == "" {
      NoKeywordInDefault();
    }
  }

  lemma NoKeywordInDefault()
    ensures !Contains(ToLower("Failed to create activity"), "conflict")
    ensures !Contains(ToLower("Failed to create activity"), "not allowed")
  {
    var m := "Failed to create activity";
    assert 'n' !in m && 'N' !in m;
    LowerOmits(m, 'n');
    MissingCharNotContained(ToLower(m), "conflict", 2);
    MissingCharNotContained(ToLower(m), "not allowed", 0);
  }

  /**
   * The defaults: mode CASUAL, level ALL, gender ANY when the body names
   * none of them.
   */
  lemma ChoiceDefaults(payload: JsValue)
    requires payload.Obj? && Get(payload, "gameFormat") == Str("DOUBLE")
    requires payload.fields.Keys !! {"mode", "levelRequirement", "skillPreference", "genderPreference"}
    ensures ValidateChoices(payload) == Ok(Choices("CASUAL", "DOUBLE", "ALL", "ANY"))
  {
    assert Get(payload, "mode") == Undefined;
    assert Get(payload, "levelRequirement") == Undefined && Get(payload, "skillPreference") == Undefined;
    assert Get(payload, "genderPreference") == Undefined;
    UpperValues();
  }

  /**
   * The other defaults: price 0, the host counted, the session public, no
   * coaching, no approval step, and null description, address and city.
   */
  lemma ArgDefaults(payload: JsValue, communityId: string, title: string, venueName: string)
    requires payload.Obj? && PositiveCount(ToNumber(Get(payload, "maxParticipants")))
    requires ValidateChoices(payload).Ok?
    requires payload.fields.Keys !! {"pricePerPerson", "hostCounts", "isPublic", "coachingSession",
                                     "hostApprovalRequired", "description", "venueAddress", "city"}
    ensures var r := ValidateOptions(payload, communityId, title, venueName);
      && r.Ok? && r.value.pricePerPerson == Finite(0.0) && r.value.hostCounts == Bool(true) && r.value.isPublic == Bool(true)
      && r.value.coachingSession == Bool(false) && r.value.hostApprovalRequired == Bool(false)
      && r.value.description == Null && r.value.venueAddress == Null && r.value.city == Null
  {
    assert Get(payload, "pricePerPerson") == Undefined;
    assert Get(payload, "hostCounts") == Undefined && Get(payload, "isPublic") == Undefined;
    assert Get(payload, "coachingSession") == Undefined && Get(payload, "hostApprovalRequired") == Undefined;
    assert Get(payload, "description") == Undefined && Get(payload, "city") == Undefined;
    assert Get(payload, "venueAddress") == Undefined;
  }

  lemma UpperValues()
    ensures ToUpper(Trim("ALL")) == "ALL" && ToUpper(Trim("ANY")) == "ANY" && ToUpper(Trim("DOUBLE")) == "DOUBLE"
  {
    UpperWord("ALL");
    UpperWord("ANY");
    UpperWord("DOUBLE");
  }

  /** A word of capital letters is its own normal form. */
  lemma UpperWord(s: string)
    requires |s| > 0 && forall i :: 0 <= i < |s| ==> 'A' <= s[i] <= 'Z'
    ensures ToUpper(Trim(s)) == s
  {
    TrimOfTrimmed(s);
  }

  /** `skillPreference` stands in for a missing `levelRequirement`, and the first one given wins. */
  lemma LevelPrecedence(payload: JsValue, s: string, t: string)
    requires payload.Obj? && s != "" && t != ""
    requires Get(payload, "levelRequirement") == Str(s) && Get(payload, "skillPreference") == Str(t)
    ensures NormalizeUpper(JsOr(Get(payload, "levelRequirement"), JsOr(Get(payload, "skillPreference"), Str("ALL"))))
      == Some(ToUpper(Trim(s)))
  {
  }
}
