/**
 * `src/lib/challenges/actions.ts`: the admin switch for challenge mode,
 * kept in the settings table under `challenge_mode_enabled`. The settings
 * table is a map, the signed-in user and their `users.role` are inputs, and
 * so is the error an upsert would meet.
 */
module Challenges {
  import opened Wrappers
  import opened Settings

  const ChallengeKey := "challenge_mode_enabled"

  /** `{ success, enabled?, error? }`. */
  datatype ChallengeResult = ChallengeResult(success: bool, enabled: Option<bool>, error: Option<string>)

  /** How the action's promise settles: with a result, or rejected by a throw. */
  datatype Answer = Resolved(result: ChallengeResult) | Rejected(message: string)

  /** The answer and the settings table afterwards. */
  datatype Step = Step(answer: Answer, settings: map<string, string>)

  /** `String(b)`. */
  function BoolText(b: bool): string {
    if b then "true" else "false"
  }

  /** `getChallengeModeStatus()`: the stored flag, false when unset. */
  function GetChallengeModeStatus(settings: map<string, string>): (enabled: bool)
    ensures ChallengeKey !in settings ==> !enabled
    ensures ChallengeKey in settings ==> (enabled <==> settings[ChallengeKey] == "true")
  {
    GetSetting(settings, ChallengeKey, Flag(false)).b
  }

  /** The login and admin checks both actions run first; `None` lets the caller through. */
  function Guard(user: Option<string>, role: Option<string>): (r: Option<ChallengeResult>)
    ensures r.None? <==> user.Some? && role == Some("admin")
    ensures r.Some? ==> !r.value.success
  {
    if user.None? then Some(ChallengeResult(false, None, Some("Unauthorized: Please login")))
    else if role != Some("admin") then Some(ChallengeResult(false, None, Some("Unauthorized: Admin access required")))
    else None
  }

  /** The answer after a failed update, as the action means it: an error result. */
  const UpdateFailed := ChallengeResult(false, None, Some("Failed to update challenge mode setting"))

  /**
   * Storing `value` through `updateSetting` as the code is written: the
   * upsert error is thrown, so the `!result.success` branch is never taken
   * and the action rejects.
   */
  function StoreAsWritten(settings: map<string, string>, value: string, upsertError: Option<string>, ok: ChallengeResult): (s: Step)
  {
    match UpdateSetting(settings, ChallengeKey, value, upsertError)
    case Threw(message) => Step(Rejected(message), settings)
    case Stored(next) => Step(Resolved(ok), next)
  }

  /** Storing `value` with the failure turned into the error result the action declares. */
  function Store(settings: map<string, string>, value: string, upsertError: Option<string>, ok: ChallengeResult): (s: Step)
  {
    match UpdateSetting(settings, ChallengeKey, value, upsertError)
    case Threw(_) => Step(Resolved(UpdateFailed), settings)
    case Stored(next) => Step(Resolved(ok), next)
  }

  /** `toggleChallengeMode()` as written. */
  function ToggleChallengeModeAsWritten(settings: map<string, string>, user: Option<string>, role: Option<string>,
                                        upsertError: Option<string>): (s: Step)
    ensures Guard(user, role).Some? ==> s == Step(Resolved(Guard(user, role).value), settings)
  {
    if Guard(user, role).Some? then Step(Resolved(Guard(user, role).value), settings)
    else
      var newValue := !GetChallengeModeStatus(settings);
      StoreAsWritten(settings, BoolText(newValue), upsertError, ChallengeResult(true, Some(newValue), None))
  }

  /** `toggleChallengeMode()`, with a failed update reported as its error result. */
  function ToggleChallengeMode(settings: map<string, string>, user: Option<string>, role: Option<string>,
                               upsertError: Option<string>): (s: Step)
    ensures Guard(user, role).Some? ==> s == Step(Resolved(Guard(user, role).value), settings)
    ensures s.answer.Resolved?
  {
    if Guard(user, role).Some? then Step(Resolved(Guard(user, role).value), settings)
    else
      var newValue := !GetChallengeModeStatus(settings);
      Store(settings, BoolText(newValue), upsertError, ChallengeResult(true, Some(newValue), None))
  }

  /** `setChallengeModeStatus(enabled)`, with a failed update reported as its error result. */
  function SetChallengeModeStatus(settings: map<string, string>, user: Option<string>, role: Option<string>,
                                  enabled: bool, upsertError: Option<string>): (s: Step)
    ensures Guard(user, role).Some? ==> s == Step(Resolved(Guard(user, role).value), settings)
    ensures s.answer.Resolved?
  {
    if Guard(user, role).Some? then Step(Resolved(Guard(user, role).value), settings)
    else Store(settings, BoolText(enabled), upsertError, ChallengeResult(true, None, None))
  }

  /** `setChallengeModeStatus(enabled)` as written: a failed update rejects. */
  function SetChallengeModeStatusAsWritten(settings: map<string, string>, user: Option<string>, role: Option<string>,
                                           enabled: bool, upsertError: Option<string>): (s: Step)
    ensures Guard(user, role).Some? ==> s == Step(Resolved(Guard(user, role).value), settings)
  {
    if Guard(user, role).Some? then Step(Resolved(Guard(user, role).value), settings)
    else StoreAsWritten(settings, BoolText(enabled), upsertError, ChallengeResult(true, None, None))
  }

  /**
   * As written, an admin whose update fails never gets the declared error
   * result: the promise rejects with the upsert's message, e.g. for the
   * upsert error "timeout".
   */
  lemma FailedUpdateRejects(settings: map<string, string>, user: string, enabled: bool, message: string)
    ensures ToggleChallengeModeAsWritten(settings, Some(user), Some("admin"), Some(message)).answer
         == Rejected("Failed to update setting " + ChallengeKey + ": " + message)
    ensures SetChallengeModeStatusAsWritten(settings, Some(user), Some("admin"), enabled, Some(message)).answer
         == Rejected("Failed to update setting " + ChallengeKey + ": " + message)
    ensures ToggleChallengeModeAsWritten(settings, Some(user), Some("admin"), Some(message)).answer != Resolved(UpdateFailed)
  {
  }

  /** Without the failure the two readings agree. */
  lemma AsWrittenAgreesOnSuccess(settings: map<string, string>, user: Option<string>, role: Option<string>, enabled: bool)
    ensures ToggleChallengeModeAsWritten(settings, user, role, None) == ToggleChallengeMode(settings, user, role, None)
    ensures SetChallengeModeStatusAsWritten(settings, user, role, enabled, None)
         == SetChallengeModeStatus(settings, user, role, enabled, None)
  {
  }

  /**
   * The toggle: only a signed-in admin changes the table; then the flag
   * reads as the negation of what it read before and the result says so; a
   * failed update leaves the table as it was and reports the failure.
   */
  lemma ToggleRule(settings: map<string, string>, user: Option<string>, role: Option<string>, upsertError: Option<string>)
    ensures var s := ToggleChallengeMode(settings, user, role, upsertError);
      && (s.settings != settings ==> user.Some? && role == Some("admin"))
      && (user.Some? && role == Some("admin") && upsertError.Some? ==>
            s == Step(Resolved(UpdateFailed), settings))
      && (user.Some? && role == Some("admin") && upsertError.None? ==>
            && GetChallengeModeStatus(s.settings) == !GetChallengeModeStatus(settings)
            && s.answer == Resolved(ChallengeResult(true, Some(!GetChallengeModeStatus(settings)), None))
            && forall k :: k in settings && k != ChallengeKey ==> k in s.settings && s.settings[k] == settings[k])
  {
  }

  /** Two successful toggles restore the flag, whatever was stored before. */
  lemma ToggleTwiceRestores(settings: map<string, string>, user: string)
    ensures var once := ToggleChallengeMode(settings, Some(user), Some("admin"), None).settings;
      var twice := ToggleChallengeMode(once, Some(user), Some("admin"), None).settings;
      GetChallengeModeStatus(twice) == GetChallengeModeStatus(settings)
  {
    ToggleRule(settings, Some(user), Some("admin"), None);
    var once := ToggleChallengeMode(settings, Some(user), Some("admin"), None).settings;
    ToggleRule(once, Some(user), Some("admin"), None);
  }

  /** Setting the flag makes it read back as set; rejected callers change nothing. */
  lemma SetRule(settings: map<string, string>, user: Option<string>, role: Option<string>, enabled: bool,
                upsertError: Option<string>)
    ensures var s := SetChallengeModeStatus(settings, user, role, enabled, upsertError);
      && (s.settings != settings ==> user.Some? && role == Some("admin"))
      && (user.Some? && role == Some("admin") && upsertError.None? ==>
            GetChallengeModeStatus(s.settings) == enabled && s.answer == Resolved(ChallengeResult(true, None, None)))
      && (user.Some? && role == Some("admin") && upsertError.Some? ==> s == Step(Resolved(UpdateFailed), settings))
  {
  }
}
