/**
 * `src/lib/auth/password-reset-actions.ts`: password reset by a six-digit
 * code sent by email. The `users` lookup, the clock, `Math.random()` and
 * the answers of the insert, the mailer and the password update are
 * inputs; the token table, the password changes and the emails sent are
 * the fields of a `PasswordTokens.ResetStore`.
 */
module PasswordResetActions {
  import opened Wrappers
  import opened Strings
  import opened PasswordTokens
  import Arith

  /** The `users` row found for an email. */
  datatype UserRow = UserRow(id: string, fullName: string)

  const RateLimit := 60 * 1000
  const CodeLifetime := 10 * 60 * 1000
  const GenericMessage := "Jika email terdaftar, kode verifikasi akan dikirim"

  /** `n` has `k + 1` decimal digits. */
  lemma {:induction false} NatToStringLength(n: nat, k: nat, p: nat)
    requires p == Power10(k) && p <= n < 10 * p
    ensures |NatToString(n)| == k + 1
    decreases k
  {
    if k > 0 {
      assert n >= 10 by { assert p >= 1; }
      assert Power10(k - 1) <= n / 10 < 10 * Power10(k - 1);
      NatToStringLength(n / 10, k - 1, Power10(k - 1));
    }
  }

  function Power10(k: nat): (r: nat)
    ensures r >= 1
  {
    if k == 0 then 1 else 10 * Power10(k - 1)
  }

  /**
   * `generateOTP()`: `Math.floor(100000 + random * 900000)` printed, for a
   * `random` in [0, 1) — six digits, from 100000 to 999999.
   */
  function GenerateOtp(random: real): (code: string)
    requires 0.0 <= random < 1.0
    ensures |code| == 6 && forall i :: 0 <= i < |code| ==> IsDigit(code[i])
    ensures 100000 <= DigitsValue(code) <= 999999
  {
    var n := (100000.0 + random * 900000.0).Floor;
    assert 100000 <= n <= 999999;
    NatToStringLength(n, 5, 100000);
    NatToStringRoundTrip(n);
    NatToString(n)
  }

  /**
   * `sendPasswordResetCode(email)`. `user` is the `users` row for the
   * lower-cased email (`None` when the lookup fails or finds nothing).
   */
  method SendPasswordResetCode(store: ResetStore, email: string, user: Option<UserRow>, now: int, random: real,
                               newTokenId: string, insertFails: bool, emailError: Option<string>)
    returns (r: ActionResult)
    requires 0.0 <= random < 1.0
    modifies store
    ensures var key := ToLower(email);
      var latest := LatestCreatedAt(old(store.tokens), key);
      var row := ResetToken(newTokenId, if user.Some? then user.value.id else "", key, GenerateOtp(random), now,
                            now + CodeLifetime);
      && (user.None? ==> r == Succeeded(GenericMessage) && store.tokens == old(store.tokens)
                         && store.emails == old(store.emails))
      && (user.Some? && latest.Some? && now - latest.value < RateLimit ==>
            && r == Failed("Tunggu " + NatToString(Arith.CeilDiv(RateLimit - (now - latest.value), 1000))
                           + " detik sebelum meminta kode baru")
            && store.tokens == old(store.tokens) && store.emails == old(store.emails))
      && (user.Some? && (latest.None? || now - latest.value >= RateLimit) ==>
            && (insertFails ==> && r == Failed("Gagal membuat kode verifikasi")
                                && store.tokens == WithoutEmail(old(store.tokens), key)
                                && store.emails == old(store.emails))
            && (!insertFails ==> && store.tokens == WithoutEmail(old(store.tokens), key) + [row]
                                 && store.emails == old(store.emails) + [ResetEmail(email, row.token)]
                                 && r == (if emailError.Some? then Failed(emailError.value)
                                          else Succeeded("Kode verifikasi telah dikirim ke email Anda"))))
    ensures store.passwordUpdates == old(store.passwordUpdates)
  {
    var key := ToLower(email);
    if user.None? {
      return Succeeded(GenericMessage);
    }
    var latest := LatestCreatedAt(store.tokens, key);
    if latest.Some? {
      var timeDiff := now - latest.value;
      if timeDiff < RateLimit {
        Arith.CeilDivPositive(RateLimit - timeDiff, 1000);
        var remainingSeconds := Arith.CeilDiv(RateLimit - timeDiff, 1000);
        return Failed("Tunggu " + NatToString(remainingSeconds) + " detik sebelum meminta kode baru");
      }
    }
    var otpCode := GenerateOtp(random);
    var expiresAt := now + CodeLifetime;
    store.tokens := WithoutEmail(store.tokens, key);
    if insertFails {
      return Failed("Gagal membuat kode verifikasi");
    }
    store.tokens := store.tokens + [ResetToken(newTokenId, user.value.id, key, otpCode, now, expiresAt)];
    store.emails := store.emails + [ResetEmail(email, otpCode)];
    if emailError.Some? {
      return Failed(emailError.value);
    }
    return Succeeded("Kode verifikasi telah dikirim ke email Anda");
  }

  /** What `verifyPasswordResetCode` answers. */
  datatype Verification = Verified(userId: string) | Rejected(error: string)

  /**
   * `verifyPasswordResetCode(email, code)`: the one token for the
   * lower-cased email and the code (`.single()`); an expired one
   * (`now > expires_at`) is deleted.
   */
  method VerifyPasswordResetCode(store: ResetStore, email: string, code: string, now: int)
    returns (v: Verification)
    modifies store
    ensures var matches := MatchingCode(old(store.tokens), ToLower(email), code);
      && (|matches| != 1 ==> v == Rejected("Kode verifikasi tidak valid") && store.tokens == old(store.tokens))
      && (|matches| == 1 && now > matches[0].expiresAt ==>
            v == Rejected("Kode verifikasi sudah kadaluarsa") && store.tokens == WithoutId(old(store.tokens), matches[0].id))
      && (|matches| == 1 && now <= matches[0].expiresAt ==>
            v == Verified(matches[0].userId) && store.tokens == old(store.tokens))
    ensures store.passwordUpdates == old(store.passwordUpdates) && store.emails == old(store.emails)
  {
    var matches := MatchingCode(store.tokens, ToLower(email), code);
    if |matches| != 1 {
      return Rejected("Kode verifikasi tidak valid");
    }
    var tokenData := matches[0];
    if now > tokenData.expiresAt {
      store.tokens := WithoutId(store.tokens, tokenData.id);
      return Rejected("Kode verifikasi sudah kadaluarsa");
    }
    return Verified(tokenData.userId);
  }

  /**
   * `updatePasswordWithOTP(email, code, newPassword)`: the code is checked
   * first, the length second; the tokens of the email go only after the
   * password change succeeds. The change is made for the session's user.
   */
  method UpdatePasswordWithOtp(store: ResetStore, email: string, code: string, newPassword: string, now: int,
                               updateFails: bool)
    returns (r: ActionResult)
    modifies store
    ensures var matches := MatchingCode(old(store.tokens), ToLower(email), code);
      var verified := |matches| == 1 && now <= matches[0].expiresAt;
      && (!verified ==> r.Failed? && store.passwordUpdates == old(store.passwordUpdates))
      && (!verified && |matches| != 1 ==> r == Failed("Kode verifikasi tidak valid") && store.tokens == old(store.tokens))
      && (|matches| == 1 && now > matches[0].expiresAt ==>
            r == Failed("Kode verifikasi sudah kadaluarsa") && store.tokens == WithoutId(old(store.tokens), matches[0].id))
      && (verified && JsLength(newPassword) < 8 ==>
            r == Failed("Password harus minimal 8 karakter") && store.tokens == old(store.tokens)
            && store.passwordUpdates == old(store.passwordUpdates))
      && (verified && JsLength(newPassword) >= 8 ==>
            && store.passwordUpdates == old(store.passwordUpdates) + [PasswordUpdate(None, newPassword)]
            && (updateFails ==> r == Failed("Gagal memperbarui password") && store.tokens == old(store.tokens))
            && (!updateFails ==> r == Succeeded("Password berhasil diubah")
                                 && store.tokens == WithoutEmail(old(store.tokens), ToLower(email))))
    ensures store.emails == old(store.emails)
  {
    var verifyResult := VerifyPasswordResetCode(store, email, code, now);
    if verifyResult.Rejected? {
      return Failed(verifyResult.error);
    }
    if JsLength(newPassword) < 8 {
      return Failed("Password harus minimal 8 karakter");
    }
    store.passwordUpdates := store.passwordUpdates + [PasswordUpdate(None, newPassword)];
    if updateFails {
      return Failed("Gagal memperbarui password");
    }
    store.tokens := WithoutEmail(store.tokens, ToLower(email));
    return Succeeded("Password berhasil diubah");
  }

  /**
   * A code is good up to and including its expiry instant: a token just
   * issued is accepted within ten minutes, and at `expires_at` itself.
   */
  lemma FreshCodeAccepted(tokens: seq<ResetToken>, row: ResetToken, now: int)
    requires OnePerEmail(tokens)
    requires row.createdAt <= now <= row.createdAt + CodeLifetime && row.expiresAt == row.createdAt + CodeLifetime
    ensures var table := WithoutEmail(tokens, row.email) + [row];
      var matches := MatchingCode(table, row.email, row.token);
      |matches| == 1 && matches[0] == row && now <= matches[0].expiresAt
  {
    var table := WithoutEmail(tokens, row.email) + [row];
    ReplaceKeepsOnePerEmail(tokens, row);
    var matches := MatchingCode(table, row.email, row.token);
    MatchingCodeAtMostOne(table, row.email, row.token);
    assert row in table;
    assert row in matches;
    assert matches[0] in matches;
  }

  /** After a new code is issued, an older code of the same email no longer verifies. */
  lemma OldCodeRevoked(tokens: seq<ResetToken>, row: ResetToken, oldCode: string)
    requires OnePerEmail(tokens) && oldCode != row.token
    ensures forall t :: t !in MatchingCode(WithoutEmail(tokens, row.email) + [row], row.email, oldCode)
  {
    ReplaceKeepsOnePerEmail(tokens, row);

  }
}
