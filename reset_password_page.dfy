/**
 * `src/app/reset-password/page.tsx`: the page a reset link opens. The
 * page's state is the fields of a `ResetPasswordPage`; what
 * `verifyResetToken` and `resetPassword` answer are inputs, and the calls
 * it makes and the toasts it shows are recorded.
 */
module ResetPasswordPage {
  import opened Wrappers
  import opened Strings
  import opened PasswordTokens
  import ForgotPasswordActions

  /** `getPasswordStrength()`'s label. */
  datatype Strength = TooShort | Good | Strong

  /** `getPasswordStrength()`: nothing for an empty password, then by its length in UTF-16 code units. */
  function GetPasswordStrength(password: string): (s: Option<Strength>)
    ensures s.None? <==> password == ""
    ensures s == Some(TooShort) <==> 0 < JsLength(password) < 8
    ensures s == Some(Good) <==> 8 <= JsLength(password) < 12
    ensures s == Some(Strong) <==> JsLength(password) >= 12
  {
    if JsLength(password) == 0 then None
    else if JsLength(password) < 8 then Some(TooShort)
    else if JsLength(password) < 12 then Some(Good)
    else Some(Strong)
  }

  /** A longer password never rates lower. */
  lemma StrengthMonotone(p: string, q: string)
    requires 0 < JsLength(p) <= JsLength(q)
    ensures Rank(GetPasswordStrength(p)) <= Rank(GetPasswordStrength(q))
  {
  }

  function Rank(s: Option<Strength>): int {
    match s
    case None => 0
    case Some(TooShort) => 1
    case Some(Good) => 2
    case Some(Strong) => 3
  }

  /** A toast: an error or a success message. */
  datatype Toast = ErrorToast(text: string) | SuccessToast(text: string)

  /** What the `resetPassword` call resolves to, or that it throws. */
  datatype ResetAnswer = Answered(result: ActionResult) | Threw

  /** The submit button is disabled while loading, with a mismatch or a short password. */
  predicate SubmitDisabled(isLoading: bool, password: string, confirmPassword: string) {
    isLoading || password != confirmPassword || JsLength(password) < 8
  }

  class ResetPasswordPageState {
    const token: Option<string>
    var isVerifying: bool
    var isValidToken: bool
    var email: string
    var tokenError: string
    var password: string
    var confirmPassword: string
    var isLoading: bool
    var verifyCalls: seq<string>
    var resetCalls: seq<(string, string)>
    var toasts: seq<Toast>

    /** The page as first rendered; `token` is the `token` query parameter, `None` when absent or empty. */
    constructor (token: Option<string>)
      ensures this.token == token && isVerifying && !isValidToken && email == "" && tokenError == ""
      ensures password == "" && confirmPassword == "" && !isLoading
      ensures verifyCalls == [] && resetCalls == [] && toasts == []
    {
      this.token := token;
      isVerifying := true;
      isValidToken := false;
      email := "";
      tokenError := "";
      password := "";
      confirmPassword := "";
      isLoading := false;
      verifyCalls := [];
      resetCalls := [];
      toasts := [];
    }

    /**
     * The mount effect: without a token the invalid state is shown and
     * nothing is verified; otherwise `check` is what verification answers,
     * and the token counts as valid only with an email.
     */
    method VerifyOnMount(check: ForgotPasswordActions.TokenCheck)
      modifies this
      ensures !isVerifying
      ensures token.None? ==> && verifyCalls == old(verifyCalls)
                              && tokenError == "No reset token provided" && email == old(email)
      ensures token.Some? ==> verifyCalls == old(verifyCalls) + [token.value]
      ensures token.Some? ==>
        (isValidToken <==> old(isValidToken) || (check.valid && check.email.Some? && check.email.value != ""))
      ensures token.Some? && check.valid && check.email.Some? && check.email.value != "" ==>
        isValidToken && email == check.email.value && tokenError == old(tokenError)
      ensures token.Some? && !(check.valid && check.email.Some? && check.email.value != "") ==>
        tokenError == (if check.error.Some? && check.error.value != "" then check.error.value else "Invalid token")
        && email == old(email)
      ensures password == old(password) && confirmPassword == old(confirmPassword) && isLoading == old(isLoading)
      ensures resetCalls == old(resetCalls) && toasts == old(toasts)
      ensures token.None? ==> isValidToken == old(isValidToken)
    {
      if token.None? {
        tokenError := "No reset token provided";
        isVerifying := false;
        return;
      }
      verifyCalls := verifyCalls + [token.value];
      if check.valid && check.email.Some? && check.email.value != "" {
        isValidToken := true;
        email := check.email.value;
      } else {
        tokenError := if check.error.Some? && check.error.value != "" then check.error.value else "Invalid token";
      }
      isVerifying := false;
    }

    /** Typing in the two password fields. */
    method SetPasswords(newPassword: string, newConfirm: string)
      modifies this
      ensures password == newPassword && confirmPassword == newConfirm
      ensures isVerifying == old(isVerifying) && isValidToken == old(isValidToken) && email == old(email)
      ensures tokenError == old(tokenError) && isLoading == old(isLoading)
      ensures verifyCalls == old(verifyCalls) && resetCalls == old(resetCalls) && toasts == old(toasts)
    {
      password := newPassword;
      confirmPassword := newConfirm;
    }

    /**
     * `handleSubmit`: a short password is refused first, then a mismatch,
     * then a missing token; only then is `resetPassword` called.
     */
    method HandleSubmit(answer: ResetAnswer)
      modifies this
      ensures JsLength(password) < 8 ==>
        toasts == old(toasts) + [ErrorToast("Password must be at least 8 characters")] && resetCalls == old(resetCalls)
      ensures JsLength(password) >= 8 && password != confirmPassword ==>
        toasts == old(toasts) + [ErrorToast("Passwords do not match")] && resetCalls == old(resetCalls)
      ensures JsLength(password) >= 8 && password == confirmPassword && token.None? ==>
        toasts == old(toasts) && resetCalls == old(resetCalls)
      ensures JsLength(password) >= 8 && password == confirmPassword && token.Some? ==>
        && resetCalls == old(resetCalls) + [(token.value, password)]
        && toasts == old(toasts) + [match answer
                                    case Threw => ErrorToast("An error occurred")
                                    case Answered(Succeeded(_)) => SuccessToast("Password updated successfully!")
                                    case Answered(Failed(e)) =>
                                      ErrorToast(if e != "" then e else "Failed to reset password")]
      ensures resetCalls == old(resetCalls) ==> isLoading == old(isLoading)
      ensures resetCalls != old(resetCalls) ==> !isLoading
      ensures password == old(password) && confirmPassword == old(confirmPassword)
      ensures isVerifying == old(isVerifying) && isValidToken == old(isValidToken) && email == old(email)
      ensures tokenError == old(tokenError) && verifyCalls == old(verifyCalls)
    {
      if JsLength(password) < 8 {
        toasts := toasts + [ErrorToast("Password must be at least 8 characters")];
        return;
      }
      if password != confirmPassword {
        toasts := toasts + [ErrorToast("Passwords do not match")];
        return;
      }
      if token.None? {
        return;
      }
      isLoading := true;
      resetCalls := resetCalls + [(token.value, password)];
      match answer {
        case Threw =>
          toasts := toasts + [ErrorToast("An error occurred")];
        case Answered(Succeeded(_)) =>
          toasts := toasts + [SuccessToast("Password updated successfully!")];
        case Answered(Failed(e)) =>
          toasts := toasts + [ErrorToast(if e != "" then e else "Failed to reset password")];
      }
      isLoading := false;   // `finally`
    }
  }

  /**
   * The button is enabled, when nothing is loading, exactly for the
   * passwords `handleSubmit` lets through, and those rate Good or Strong.
   */
  lemma SubmitReachesResetOnlyWhenEnabled(password: string, confirmPassword: string)
    ensures !SubmitDisabled(false, password, confirmPassword) <==> JsLength(password) >= 8 && password == confirmPassword
    ensures !SubmitDisabled(false, password, confirmPassword) ==> GetPasswordStrength(password) in {Some(Good), Some(Strong)}
  {
  }

  /**
   * Lengths count UTF-16 code units, so four emoji make a password of
   * length 8: it rates Good and passes the length check.
   */
  lemma FourAstralCharactersAreLongEnough(password: string)
    requires |password| == 4 && forall i :: 0 <= i < 4 ==> IsAstral(password[i])
    ensures GetPasswordStrength(password) == Some(Good)
    ensures !SubmitDisabled(false, password, password)
  {
  }
}
