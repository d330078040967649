/**
 * The `password_reset_tokens` table that both password-reset flows use
 * (`src/lib/auth/password-reset-actions.ts` and
 * `src/lib/auth/forgot-password-actions.ts`), with the invariant both keep:
 * at most one token per email. Times are milliseconds since the epoch.
 */
module PasswordTokens {
  import opened Wrappers

  /** A `password_reset_tokens` row. */
  datatype ResetToken = ResetToken(id: string, userId: string, email: string, token: string, createdAt: int,
                                   expiresAt: int)

  /** A password change sent to Supabase Auth; `None` names the session's own user. */
  datatype PasswordUpdate = PasswordUpdate(userId: Option<string>, password: string)

  /** An email sent with a reset code or link. */
  datatype ResetEmail = ResetEmail(to: string, token: string)

  /** What the actions answer. */
  datatype ActionResult = Succeeded(message: string) | Failed(error: string)

  /** No two rows share an email. */
  predicate OnePerEmail(tokens: seq<ResetToken>) {
    forall i, j :: 0 <= i < j < |tokens| ==> tokens[i].email != tokens[j].email
  }

  /** `.delete().eq('email', email)`: the other emails' rows, in order. */
  function WithoutEmail(tokens: seq<ResetToken>, email: string): (r: seq<ResetToken>)
    ensures forall t :: t in r <==> t in tokens && t.email != email
    ensures |r| <= |tokens|
    ensures OnePerEmail(tokens) ==> OnePerEmail(r)
  {
    if tokens == [] then []
    else
      var rest := WithoutEmail(tokens[1..], email);
      assert forall t :: t in tokens <==> t == tokens[0] || t in tokens[1..];
      assert forall k :: 1 <= k < |tokens| ==> tokens[k] == tokens[1..][k - 1];
      if tokens[0].email != email then
        assert forall k :: 0 <= k < |rest| ==> rest[k] in tokens[1..];
        [tokens[0]] + rest
      else rest
  }

  /** `.delete().eq(field, value)` on the `id` column. */
  function WithoutId(tokens: seq<ResetToken>, id: string): (r: seq<ResetToken>)
    ensures forall t :: t in r <==> t in tokens && t.id != id
    ensures |r| <= |tokens|
    ensures OnePerEmail(tokens) ==> OnePerEmail(r)
  {
    if tokens == [] then []
    else
      var rest := WithoutId(tokens[1..], id);
      assert forall t :: t in tokens <==> t == tokens[0] || t in tokens[1..];
      assert forall k :: 1 <= k < |tokens| ==> tokens[k] == tokens[1..][k - 1];
      if tokens[0].id != id then
        assert forall k :: 0 <= k < |rest| ==> rest[k] in tokens[1..];
        [tokens[0]] + rest
      else rest
  }

  /** `.delete().eq('token', token)`. */
  function WithoutToken(tokens: seq<ResetToken>, token: string): (r: seq<ResetToken>)
    ensures forall t :: t in r <==> t in tokens && t.token != token
    ensures |r| <= |tokens|
    ensures OnePerEmail(tokens) ==> OnePerEmail(r)
  {
    if tokens == [] then []
    else
      var rest := WithoutToken(tokens[1..], token);
      assert forall t :: t in tokens <==> t == tokens[0] || t in tokens[1..];
      assert forall k :: 1 <= k < |tokens| ==> tokens[k] == tokens[1..][k - 1];
      if tokens[0].token != token then
        assert forall k :: 0 <= k < |rest| ==> rest[k] in tokens[1..];
        [tokens[0]] + rest
      else rest
  }

  /** Deleting an email's rows and then inserting one for it keeps one row per email. */
  lemma ReplaceKeepsOnePerEmail(tokens: seq<ResetToken>, row: ResetToken)
    requires OnePerEmail(tokens)
    ensures OnePerEmail(WithoutEmail(tokens, row.email) + [row])
    ensures forall t :: t in WithoutEmail(tokens, row.email) + [row] && t.email == row.email ==> t == row
  {
    var kept := WithoutEmail(tokens, row.email);
    assert forall k :: 0 <= k < |kept| ==> kept[k] in kept;
  }

  /** The rows `.single()` would choose among: those matching the filter. */
  function MatchingCode(tokens: seq<ResetToken>, email: string, code: string): (r: seq<ResetToken>)
    ensures forall t :: t in r <==> t in tokens && t.email == email && t.token == code
  {
    if tokens == [] then []
    else
      var rest := MatchingCode(tokens[1..], email, code);
      assert forall t :: t in tokens <==> t == tokens[0] || t in tokens[1..];
      if tokens[0].email == email && tokens[0].token == code then [tokens[0]] + rest else rest
  }

  /** No row of the email, no match. */
  lemma {:induction false} NoRowNoMatch(tokens: seq<ResetToken>, email: string, code: string)
    requires forall k :: 0 <= k < |tokens| ==> tokens[k].email != email
    ensures MatchingCode(tokens, email, code) == []
  {
    if tokens != [] {
      assert forall k :: 1 <= k < |tokens| ==> tokens[1..][k - 1] == tokens[k];
      NoRowNoMatch(tokens[1..], email, code);
    }
  }

  /** With one row per email, at most one row matches: `.single()` never sees two. */
  lemma {:induction false} MatchingCodeAtMostOne(tokens: seq<ResetToken>, email: string, code: string)
    requires OnePerEmail(tokens)
    ensures |MatchingCode(tokens, email, code)| <= 1
  {
    if tokens != [] {
      var tail := tokens[1..];
      assert forall k :: 0 <= k < |tail| ==> tail[k] == tokens[k + 1];
      if tokens[0].email == email {
        NoRowNoMatch(tail, email, code);
      } else {
        assert OnePerEmail(tail);
        MatchingCodeAtMostOne(tail, email, code);
      }
    }
  }

  /** The rows carrying `token`. */
  function MatchingToken(tokens: seq<ResetToken>, token: string): (r: seq<ResetToken>)
    ensures forall t :: t in r <==> t in tokens && t.token == token
    ensures |r| <= |tokens|
  {
    if tokens == [] then []
    else
      var rest := MatchingToken(tokens[1..], token);
      assert forall t :: t in tokens <==> t == tokens[0] || t in tokens[1..];
      if tokens[0].token == token then [tokens[0]] + rest else rest
  }

  /** The latest `created_at` among an email's rows, if it has any. */
  function LatestCreatedAt(tokens: seq<ResetToken>, email: string): (r: Option<int>)
    ensures r.None? <==> forall t :: t in tokens ==> t.email != email
    ensures r.Some? ==> (exists t :: t in tokens && t.email == email && t.createdAt == r.value)
                        && forall t :: t in tokens && t.email == email ==> t.createdAt <= r.value
  {
    if tokens == [] then None
    else
      var rest := LatestCreatedAt(tokens[1..], email);
      assert forall t :: t in tokens <==> t == tokens[0] || t in tokens[1..];
      if tokens[0].email != email then rest
      else if rest.Some? && rest.value > tokens[0].createdAt then rest
      else Some(tokens[0].createdAt)
  }

  /** The token table, the password changes and the emails sent. */
  class ResetStore {
    var tokens: seq<ResetToken>
    var passwordUpdates: seq<PasswordUpdate>
    var emails: seq<ResetEmail>

    constructor (tokens: seq<ResetToken>)
      ensures this.tokens == tokens && passwordUpdates == [] && emails == []
    {
      this.tokens := tokens;
      passwordUpdates := [];
      emails := [];
    }
  }
}
