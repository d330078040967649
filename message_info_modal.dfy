/**
 * `src/components/community/MessageInfoModal.tsx`: the preview of a
 * message, which shows a reply's quoted part apart from the reply. The
 * read receipts it also loads are left out.
 */
module MessageInfoModal {
  import opened Wrappers
  import opened Strings
  import MessageInput

  /** The characters the regular-expression `.` does not match. */
  predicate LineBreak(c: char) {
    c == '\n' || c == '\r' || c == '\U{2028}' || c == '\U{2029}'
  }

  /**
   * The lazy `(.*?)` followed by `stop`, starting at `from`: the least
   * length `n >= k` such that `stop` occurs at `from + n` and no line break
   * lies in between. The characters before `from + k` have been checked.
   */
  function LazyUntil(s: string, from: nat, stop: string, k: nat): (n: Option<nat>)
    requires from <= |s|
    ensures n.Some? ==> k <= n.value && from + n.value <= |s| && OccursAt(s, stop, from + n.value)
    ensures n.Some? ==> forall m :: from + k <= m < from + n.value ==> !LineBreak(s[m])
    ensures n.Some? ==> forall m :: from + k <= m < from + n.value ==> !OccursAt(s, stop, m)
    decreases |s| - (from + k)
  {
    if from + k > |s| then None
    else if OccursAt(s, stop, from + k) then Some(k)
    else if from + k == |s| || LineBreak(s[from + k]) then None
    else LazyUntil(s, from, stop, k + 1)
  }

  /** `LazyUntil` finds the first stop when nothing before it is a line break or starts a stop. */
  lemma {:induction false} LazyUntilFinds(s: string, from: nat, stop: string, k: nat, target: nat)
    requires from + target <= |s| && k <= target && |stop| > 0
    requires OccursAt(s, stop, from + target)
    requires forall m :: from + k <= m < from + target ==> !LineBreak(s[m]) && s[m] != stop[0]
    ensures LazyUntil(s, from, stop, k) == Some(target)
    decreases target - k
  {
    if k < target {
      assert LazyUntil(s, from, stop, k + 1) == Some(target) by {
        LazyUntilFinds(s, from, stop, k + 1, target);
      }
      LazyUntilAdvance(s, from, stop, k, Some(target));
    } else {
      LazyUntilHit(s, from, stop, k);
    }
  }

  /** Past a character that neither starts a stop nor breaks the line, the search goes on to the same result. */
  lemma LazyUntilAdvance(s: string, from: nat, stop: string, k: nat, r: Option<nat>)
    requires from + k < |s| && |stop| > 0 && s[from + k] != stop[0] && !LineBreak(s[from + k])
    requires LazyUntil(s, from, stop, k + 1) == r
    ensures LazyUntil(s, from, stop, k) == r
  {
    FirstCharDiffers(s, stop, from + k);
    LazyUntilStep(s, from, stop, k);
  }

  /** A word does not occur where its first character is missing. */
  lemma FirstCharDiffers(s: string, p: string, i: nat)
    requires i < |s| && |p| > 0 && s[i] != p[0]
    ensures !OccursAt(s, p, i)
  {
    if i + |p| <= |s| {
      assert s[i..i + |p|][0] == s[i];
    }
  }

  /** A stop at the current position ends the search there. */
  lemma LazyUntilHit(s: string, from: nat, stop: string, k: nat)
    requires from + k <= |s| && OccursAt(s, stop, from + k)
    ensures LazyUntil(s, from, stop, k) == Some(k)
  {
  }

  /** Past a character that neither starts a stop nor breaks the line, the search goes on. */
  lemma LazyUntilStep(s: string, from: nat, stop: string, k: nat)
    requires from + k < |s| && !OccursAt(s, stop, from + k) && !LineBreak(s[from + k])
    ensures LazyUntil(s, from, stop, k) == LazyUntil(s, from, stop, k + 1)
  {
  }

  /**
   * `fullQuote.match(/^\[(.*?)\] \[id:(.*?)\] ([\s\S]*)/)`: the sender and
   * the text after the id, trying each candidate sender in turn.
   */
  function IdMatchFrom(q: string, k: nat): (r: Option<(string, string)>)
    requires |q| >= 1
    decreases |q| - k
  {
    match LazyUntil(q, 1, "] [id:", k)
    case None => None
    case Some(n) =>
      match LazyUntil(q, 7 + n, "] ", 0)
      case Some(j) => Some((q[1..1 + n], q[7 + n + j + 2..]))
      case None => if 1 + n + 1 <= |q| then IdMatchFrom(q, n + 1) else None
  }

  function IdMatch(q: string): (r: Option<(string, string)>) {
    if |q| >= 1 && q[0] == '[' then IdMatchFrom(q, 0) else None
  }

  /** `fullQuote.match(/^\[(.*?)\] ([\s\S]*)/)`. */
  function NameMatch(q: string): (r: Option<(string, string)>) {
    if |q| >= 1 && q[0] == '[' then
      match LazyUntil(q, 1, "] ", 0)
      case None => None
      case Some(n) => Some((q[1..1 + n], q[1 + n + 2..]))
    else None
  }

  /** What the preview shows. */
  datatype Preview =
    | Plain(text: string)
    | Reply(sender: string, quote: string, reply: Option<string>)

  /** The preview of a reply once its quote and reply parts are cut out. */
  function QuotePreview(fullQuote: string, replyPart: string): (p: Preview)
    ensures p.Reply? && (p.reply.Some? <==> !IsBlank(replyPart)) && (p.reply.Some? ==> p.reply.value == replyPart)
    ensures IdMatch(fullQuote).Some? ==> p.sender == IdMatch(fullQuote).value.0 && p.quote == IdMatch(fullQuote).value.1
    ensures IdMatch(fullQuote).None? && NameMatch(fullQuote).None? ==> p.sender == "" && p.quote == fullQuote
  {
    var parsed := if IdMatch(fullQuote).Some? then IdMatch(fullQuote) else NameMatch(fullQuote);
    var sender := if parsed.Some? then parsed.value.0 else "";
    var quote := if parsed.Some? then parsed.value.1 else fullQuote;
    Reply(sender, quote, if IsBlank(replyPart) then None else Some(replyPart))
  }

  /**
   * `renderMessagePreview(content)`: a reply starts with `> ` and has a
   * blank line; the quote is what lies between, the reply what follows.
   */
  function RenderMessagePreview(content: string): (p: Preview)
    ensures !StartsWith(content, "> ") || !Contains(content, "\n\n") ==> p == Plain(content)
  {
    if !StartsWith(content, "> ") then Plain(content)
    else
      match IndexOf(content, "\n\n")
      case None => Plain(content)
      case Some(i) =>
        if i < 2 then Plain(content)
        else QuotePreview(content[2..i], content[i + 2..])
  }

  /** One line: no line break anywhere. */
  predicate OneLine(s: string) {
    forall m :: 0 <= m < |s| ==> !LineBreak(s[m])
  }

  lemma OneLineConcat(a: string, b: string)
    requires OneLine(a) && OneLine(b)
    ensures OneLine(a + b)
  {
    forall m | 0 <= m < |a + b| ensures !LineBreak((a + b)[m]) {
      if m >= |a| { assert (a + b)[m] == b[m - |a|]; }
    }
  }

  /** A single-line quote between `> ` and a blank line is cut out as such. */
  lemma ReplySplit(quote: string, reply: string)
    requires OneLine(quote)
    ensures RenderMessagePreview("> " + quote + "\n\n" + reply) == QuotePreview(quote, reply)
  {
    var head := "> " + quote;
    var s := "> " + quote + "\n\n" + reply;
    assert IndexOf(s, "\n\n") == Some(|head|) by {
      assert OneLine("> ");
      OneLineConcat("> ", quote);
      SeparatorFound(head, reply);
      assert s == head + "\n\n" + reply;
    }
    assert StartsWith(s, "> ") && s[2..|head|] == quote && s[|head| + 2..] == reply;
    RenderSplitAt(s, |head|);
  }

  /** A text opening with `> ` whose first blank line is at `i` is cut there. */
  lemma RenderSplitAt(s: string, i: nat)
    requires StartsWith(s, "> ") && IndexOf(s, "\n\n") == Some(i) && i >= 2
    ensures RenderMessagePreview(s) == QuotePreview(s[2..i], s[i + 2..])
  {
  }

  /** A field the composer puts between brackets: one line without `]`. */
  predicate Bracketable(s: string) {
    forall m :: 0 <= m < |s| ==> s[m] != ']' && !LineBreak(s[m])
  }

  /** The id form gives the sender and keeps what follows the id. */
  lemma IdFormParsed(name: string, id: string, rest: string)
    requires Bracketable(name) && Bracketable(id)
    ensures IdMatch("[" + name + "] [id:" + id + "] " + rest) == Some((name, rest))
  {
    var q := "[" + name + "] [id:" + id + "] " + rest;
    var n := |name|;
    assert q[1..1 + n] == name;
    assert q[1 + n..1 + n + 6] == "] [id:";
    forall m | 1 <= m < 1 + n ensures !LineBreak(q[m]) && q[m] != ']' {
      assert q[m] == name[m - 1];
    }
    LazyUntilFinds(q, 1, "] [id:", 0, n);
    assert q[7 + n..7 + n + |id|] == id;
    assert q[7 + n + |id|..7 + n + |id| + 2] == "] ";
    forall m | 7 + n <= m < 7 + n + |id| ensures !LineBreak(q[m]) && q[m] != ']' {
      assert q[m] == id[m - 7 - n];
    }
    LazyUntilFinds(q, 7 + n, "] ", 0, |id|);
    assert q[7 + n + |id| + 2..] == rest;
  }

  /** The text `MessageInput` sends for a reply, with its parts named. */
  function ReplyText(sender: string, id: string, uid: string, quoted: string, content: string): string {
    "> " + ("[" + sender + "] [id:" + id + "] " + ("[uid:" + uid + "] " + quoted)) + "\n\n" + content
  }

  lemma ReplyTextIsQuote(r: MessageInput.ReplyTarget, content: string)
    ensures var sender := if r.senderName.Some? && r.senderName.value != "" then r.senderName.value else "Unknown";
      MessageInput.FinalContent(content, Some(r)) == ReplyText(sender, r.id, r.userId, r.content, content)
  {
    var sender := if r.senderName.Some? && r.senderName.value != "" then r.senderName.value else "Unknown";
    QuoteRegrouped(sender, r.id, r.userId, r.content, content);
  }

  /** The composer's quote and `ReplyText` are the same characters, grouped differently. */
  lemma QuoteRegrouped(sender: string, id: string, uid: string, quoted: string, content: string)
    ensures "> [" + sender + "] [id:" + id + "] [uid:" + uid + "] " + quoted + "\n\n" + content
         == ReplyText(sender, id, uid, quoted, content)
  {
    assert "> [" == "> " + "[";
    assert "] [uid:" == "] " + "[uid:";
  }

  /** The first blank line of a reply is the one the composer put after the quote. */
  lemma SeparatorFound(head: string, content: string)
    requires OneLine(head)
    ensures IndexOf(head + "\n\n" + content, "\n\n") == Some(|head|)
  {
    var s := head + "\n\n" + content;
    assert s[|head|..|head| + 2] == "\n\n";
    forall j: nat | j < |head| ensures !OccursAt(s, "\n\n", j) {
      assert s[j] == head[j];
      if j + 2 <= |s| { assert s[j..j + 2][0] == s[j]; }
    }
    assert OccursAt(s, "\n\n", |head|);
    var r := IndexOf(s, "\n\n");
    assert r.Some?;
    assert r.value >= |head|;
  }

  /**
   * The preview undoes the composer: a reply whose sender, ids and quoted
   * text hold no line break (and whose sender and id hold no `]`) shows
   * that sender, the quote with its `[uid:..] ` prefix, and the typed
   * content when it is not blank.
   */
  lemma ReplyRoundTrip(r: MessageInput.ReplyTarget, content: string)
    requires Bracketable(r.id) && OneLine(r.userId) && OneLine(r.content)
    requires r.senderName.Some? ==> Bracketable(r.senderName.value)
    ensures var sender := if r.senderName.Some? && r.senderName.value != "" then r.senderName.value else "Unknown";
      RenderMessagePreview(MessageInput.FinalContent(content, Some(r)))
        == Reply(sender, "[uid:" + r.userId + "] " + r.content, if IsBlank(content) then None else Some(content))
  {
    var sender := if r.senderName.Some? && r.senderName.value != "" then r.senderName.value else "Unknown";
    assert Bracketable("Unknown");
    var rest := "[uid:" + r.userId + "] " + r.content;
    var quote := "[" + sender + "] [id:" + r.id + "] " + rest;
    QuoteOneLine(sender, r.id, r.userId, r.content);
    ReplyTextIsQuote(r, content);
    assert ReplyText(sender, r.id, r.userId, r.content, content) == "> " + quote + "\n\n" + content;
    ReplySplit(quote, content);
    IdFormParsed(sender, r.id, rest);
  }

  lemma QuoteOneLine(sender: string, id: string, uid: string, quoted: string)
    requires Bracketable(sender) && Bracketable(id) && OneLine(uid) && OneLine(quoted)
    ensures OneLine("[" + sender + "] [id:" + id + "] " + ("[uid:" + uid + "] " + quoted))
  {
    assert OneLine("[") && OneLine("] [id:") && OneLine("] ") && OneLine("[uid:");
    assert OneLine(sender) && OneLine(id);
    OneLineConcat("[", sender);
    OneLineConcat("[" + sender, "] [id:");
    OneLineConcat("[" + sender + "] [id:", id);
    OneLineConcat("[" + sender + "] [id:" + id, "] ");
    OneLineConcat("[uid:", uid);
    OneLineConcat("[uid:" + uid, "] ");
    OneLineConcat("[uid:" + uid + "] ", quoted);
    OneLineConcat("[" + sender + "] [id:" + id + "] ", "[uid:" + uid + "] " + quoted);
  }

  /** Without a bracket the whole quote is the text and no sender is shown. */
  lemma QuoteWithoutSender(quote: string, reply: string)
    requires quote == [] || quote[0] != '['
    requires OneLine(quote)
    ensures RenderMessagePreview("> " + quote + "\n\n" + reply)
         == Reply("", quote, if IsBlank(reply) then None else Some(reply))
  {
    ReplySplit(quote, reply);
  }
}
