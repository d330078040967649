/**
 * `src/lib/auth/forgot-password-actions.ts`: password reset by an emailed
 * link carrying a random token that is good for one hour. The `users`
 * lookup, the clock, `crypto.randomBytes(32)` and the answers of the
 * insert, the mailer and the Auth admin API are inputs; the state is a
 * `PasswordTokens.ResetStore`.
 */
module ForgotPasswordActions {
  import opened Wrappers
  import opened Strings
  import opened Utf8
  import opened PasswordTokens
  import AuthActions

  const LinkLifetime := 60 * 60 * 1000
  const GenericMessage := "If that email exists, we sent you a reset link."
  const GenericError := "An error occurred. Please try again."

  /**
   * `requestPasswordReset(email)`. `userId` is the id of the `users` row
   * for the lower-cased email, if there is one; `mailThrows` says whether
   * sending the email throws, which like a failed insert is caught.
   */
  method RequestPasswordReset(store: ResetStore, email: string, userId: Option<string>, now: int,
                              randomBytes: seq<Byte>, newTokenId: string, insertFails: bool, mailThrows: bool)
    returns (r: ActionResult)
    modifies store
    ensures var key := ToLower(email);
      var token := AuthActions.Hex(randomBytes);
      && (userId.None? ==> r == Succeeded(GenericMessage) && store.tokens == old(store.tokens)
                           && store.emails == old(store.emails))
      && (userId.Some? && insertFails ==>
            r == Failed(GenericError) && store.tokens == WithoutEmail(old(store.tokens), key)
            && store.emails == old(store.emails))
      && (userId.Some? && !insertFails ==>
            && store.tokens == WithoutEmail(old(store.tokens), key)
                               + [ResetToken(newTokenId, userId.value, key, token, now, now + LinkLifetime)]
            && store.emails == old(store.emails) + [ResetEmail(email, token)]
            && r == (if mailThrows then Failed(GenericError) else Succeeded(GenericMessage)))
    ensures store.passwordUpdates == old(store.passwordUpdates)
  {
    if userId.None? {
      return Succeeded(GenericMessage);
    }
    var token := AuthActions.Hex(randomBytes);
    var expiresAt := now + LinkLifetime;
    var key := ToLower(email);
    store.tokens := WithoutEmail(store.tokens, key);
    if insertFails {
      return Failed(GenericError);
    }
    store.tokens := store.tokens + [ResetToken(newTokenId, userId.value, key, token, now, expiresAt)];
    store.emails := store.emails + [ResetEmail(email, token)];
    if mailThrows {
      return Failed(GenericError);
    }
    return Succeeded(GenericMessage);
  }

  /** A request that finds the user leaves exactly one token for the email, that link's. */
  lemma RequestLeavesOneToken(tokens: seq<ResetToken>, row: ResetToken)
    requires OnePerEmail(tokens)
    ensures var table := WithoutEmail(tokens, row.email) + [row];
      OnePerEmail(table) && row in table && forall t :: t in table && t.email == row.email ==> t == row
  {
    ReplaceKeepsOnePerEmail(tokens, row);
  }

  /** What `verifyResetToken` answers. */
  datatype TokenCheck = TokenCheck(valid: bool, error: Option<string>, email: Option<string>, userId: Option<string>)

  /**
   * `verifyResetToken(token)`: the one row carrying the token
   * (`.single()`), valid until it expires; `expires_at < now` is expired.
   */
  function VerifyResetToken(tokens: seq<ResetToken>, token: string, now: int): (c: TokenCheck)
    ensures c.valid <==> |MatchingToken(tokens, token)| == 1 && now <= MatchingToken(tokens, token)[0].expiresAt
    ensures c.valid ==> var row := MatchingToken(tokens, token)[0];
      c == TokenCheck(true, None, Some(row.email), Some(row.userId)) && row in tokens && row.token == token
    ensures |MatchingToken(tokens, token)| != 1 ==> c == TokenCheck(false, Some("Invalid reset token"), None, None)
    ensures |MatchingToken(tokens, token)| == 1 && !c.valid ==>
      c == TokenCheck(false, Some("Reset token has expired"), None, None)
  {
    var matches := MatchingToken(tokens, token);
    if |matches| != 1 then TokenCheck(false, Some("Invalid reset token"), None, None)
    else
      assert matches[0] in matches;
      if matches[0].expiresAt < now then TokenCheck(false, Some("Reset token has expired"), None, None)
      else TokenCheck(true, None, Some(matches[0].email), Some(matches[0].userId))
  }

  /** The link works up to its expiry instant, inclusive, and not a millisecond later. */
  lemma ExpiryBoundary(tokens: seq<ResetToken>, row: ResetToken)
    requires MatchingToken(tokens, row.token) == [row]
    ensures VerifyResetToken(tokens, row.token, row.expiresAt).valid
    ensures !VerifyResetToken(tokens, row.token, row.expiresAt + 1).valid
  {
  }

  /**
   * `resetPassword(token, newPassword)`: the password is changed for the
   * token's user only after the token verifies, and the token is deleted
   * only after the change succeeds.
   */
  method ResetPassword(store: ResetStore, token: string, newPassword: string, now: int, updateFails: bool)
    returns (r: ActionResult)
    modifies store
    ensures var check := VerifyResetToken(old(store.tokens), token, now);
      && (!check.valid || check.userId.value == "" ==>
            && r == Failed(if check.error.Some? && check.error.value != "" then check.error.value else "Invalid token")
            && store.tokens == old(store.tokens) && store.passwordUpdates == old(store.passwordUpdates))
      && (check.valid && check.userId.value != "" ==>
            && store.passwordUpdates == old(store.passwordUpdates) + [PasswordUpdate(check.userId, newPassword)]
            && (updateFails ==> r == Failed("Failed to update password") && store.tokens == old(store.tokens))
            && (!updateFails ==> r == Succeeded("Password updated successfully")
                                 && store.tokens == WithoutToken(old(store.tokens), token)))
    ensures store.emails == old(store.emails)
  {
    var verification := VerifyResetToken(store.tokens, token, now);
    if !verification.valid || verification.userId.value == "" {
      var message := if verification.error.Some? && verification.error.value != "" then verification.error.value
                     else "Invalid token";
      return Failed(message);
    }
    store.passwordUpdates := store.passwordUpdates + [PasswordUpdate(verification.userId, newPassword)];
    if updateFails {
      return Failed("Failed to update password");
    }
    store.tokens := WithoutToken(store.tokens, token);
    return Succeeded("Password updated successfully");
  }

  /** A link is good once: after a successful reset the same token no longer verifies. */
  lemma LinkUsedOnce(tokens: seq<ResetToken>, token: string, later: int)
    ensures !VerifyResetToken(WithoutToken(tokens, token), token, later).valid
  {
    var m := MatchingToken(WithoutToken(tokens, token), token);
    assert forall t :: t !in m;
    assert |m| == 0 || m[0] in m;
  }
}
