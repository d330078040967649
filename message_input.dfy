/**
 * `src/components/community/MessageInput.tsx`: the composer of the
 * community chat, with an optional attachment and an optional reply. The
 * component's state is the fields of a `Composer`; the browser's object
 * URL, the signed-in user, the time-and-random file stem, the upload's
 * failure and what `sendCommunityMessage` answers are inputs of the
 * handlers. Uploads and sends are recorded in order.
 */
module MessageInput {
  import opened Wrappers
  import opened Strings

  /** A chosen `File`: its name, MIME type and size in bytes. */
  datatype File = File(name: string, mimeType: string, size: nat)

  /** The message being replied to. */
  datatype ReplyTarget = ReplyTarget(id: string, userId: string, senderName: Option<string>, content: string)

  /** A `sendCommunityMessage` call. */
  datatype Sent = Sent(communityId: string, content: string, attachment: Option<string>)

  const MaxFileSize := 5 * 1024 * 1024
  const UnsupportedFormat := "Format file tidak didukung. Hanya gambar dan PDF."
  const TooLarge := "File terlalu besar. Maksimal 5MB."
  const SendFailed := "Failed to send message"

  /** `isSupportedFile(file)`. */
  predicate IsSupportedFile(f: File) {
    StartsWith(f.mimeType, "image/") || f.mimeType == "application/pdf" || EndsWith(ToLower(f.name), ".pdf")
  }

  /** `nextIsPdf`. */
  predicate IsPdf(f: File) {
    f.mimeType == "application/pdf" || EndsWith(ToLower(f.name), ".pdf")
  }

  /** Every PDF is supported; a supported file that is not a PDF is an image type. */
  lemma PdfSupported(f: File)
    ensures IsPdf(f) ==> IsSupportedFile(f)
    ensures IsSupportedFile(f) && !IsPdf(f) ==> StartsWith(f.mimeType, "image/")
  {
  }

  /** The last element of a split. */
  function LastPart(parts: seq<string>): string
    requires |parts| >= 1
  {
    parts[|parts| - 1]
  }

  /** `file.name.split(".").pop()?.toLowerCase() || "bin"`. */
  function Extension(name: string): (e: string)
    ensures e != ""
  {
    var last := ToLower(LastPart(Split(name, '.')));
    if last == "" then "bin" else last
  }

  /** A name without a dot is its own extension, lower-cased. */
  lemma ExtensionWithoutDot(name: string)
    requires '.' !in name
    ensures Extension(name) == if name == "" then "bin" else ToLower(name)
  {
    SplitNoSeparator(name, '.');
  }

  /** Splitting `p.e` with `e` free of dots ends with `e`. */
  lemma {:induction false} SplitLastAfter(p: string, e: string)
    requires '.' !in e
    ensures |Split(p + "." + e, '.')| >= 2 && LastPart(Split(p + "." + e, '.')) == e
    decreases |p|
  {
    var s := p + "." + e;
    if p == [] {
      assert s == "." + e && s[0] == '.' && s[1..] == e;
      SplitNoSeparator(e, '.');
    } else {
      assert s[1..] == p[1..] + "." + e;
      SplitLastAfter(p[1..], e);
    }
  }

  /** The extension is the lower-cased text after the last dot, `bin` when that is empty. */
  lemma ExtensionAfterLastDot(p: string, e: string)
    requires '.' !in e
    ensures Extension(p + "." + e) == if e == "" then "bin" else ToLower(e)
  {
    SplitLastAfter(p, e);
  }

  /** The text a reply puts in front of the message. */
  function Quote(r: ReplyTarget): (q: string)
    ensures StartsWith(q, "> [")
  {
    var senderName := if r.senderName.Some? && r.senderName.value != "" then r.senderName.value else "Unknown";
    "> [" + senderName + "] [id:" + r.id + "] [uid:" + r.userId + "] " + r.content + "\n\n"
  }

  /** The text the composer sends: the quote, when replying, then the typed content. */
  function FinalContent(content: string, replyingTo: Option<ReplyTarget>): (s: string)
    ensures replyingTo.None? ==> s == content
    ensures replyingTo.Some? ==> s == Quote(replyingTo.value) + content
  {
    if replyingTo.Some? then Quote(replyingTo.value) + content else content
  }

  /** A reply to a message whose sender has no name is attributed to `Unknown`. */
  lemma UnnamedSenderQuote(id: string, uid: string, text: string)
    ensures Quote(ReplyTarget(id, uid, None, text)) == "> [Unknown] [id:" + id + "] [uid:" + uid + "] " + text + "\n\n"
  {
  }

  /**
   * `uploadAttachment(file)`'s path `<community>/<user>/<stem>.<ext>`, with
   * the user `currentUserId || user?.id`; `None` when there is no user.
   */
  function AttachmentPath(communityId: string, currentUserId: Option<string>, authUserId: Option<string>, stem: string,
                          f: File): (path: Option<string>)
    ensures path.None? <==> (currentUserId.None? || currentUserId.value == "") && authUserId.None?
    ensures currentUserId.Some? && currentUserId.value != "" ==>
      path == Some(communityId + "/" + currentUserId.value + "/" + stem + "." + Extension(f.name))
  {
    var userId := if currentUserId.Some? && currentUserId.value != "" then currentUserId else authUserId;
    if userId.None? then None else Some(communityId + "/" + userId.value + "/" + stem + "." + Extension(f.name))
  }

  class Composer {
    const communityId: string
    var content: string
    var selectedFile: Option<File>
    var previewUrl: Option<string>
    var isPdf: bool
    var isLoading: bool
    var isUploading: bool
    var replyingTo: Option<ReplyTarget>
    var toasts: seq<string>
    var uploads: seq<string>
    var sent: seq<Sent>

    constructor (communityId: string, replyingTo: Option<ReplyTarget>)
      ensures this.communityId == communityId && this.replyingTo == replyingTo
      ensures content == "" && selectedFile.None? && previewUrl.None? && !isPdf && !isLoading && !isUploading
      ensures toasts == [] && uploads == [] && sent == []
    {
      this.communityId := communityId;
      this.replyingTo := replyingTo;
      content := "";
      selectedFile := None;
      previewUrl := None;
      isPdf := false;
      isLoading := false;
      isUploading := false;
      toasts := [];
      uploads := [];
      sent := [];
    }

    /**
     * `handleFileChange(event)`: an unsupported or oversized file is
     * refused with a toast; otherwise it is attached, a PDF without a
     * preview and an image with `objectUrl`.
     */
    method HandleFileChange(file: Option<File>, objectUrl: string)
      modifies this
      ensures content == old(content) && replyingTo == old(replyingTo) && uploads == old(uploads) && sent == old(sent)
      ensures isLoading == old(isLoading) && isUploading == old(isUploading)
      ensures file.None? ==> selectedFile == old(selectedFile) && previewUrl == old(previewUrl) && isPdf == old(isPdf)
                             && toasts == old(toasts)
      ensures file.Some? && !IsSupportedFile(file.value) ==>
        toasts == old(toasts) + [UnsupportedFormat] && selectedFile == old(selectedFile)
        && previewUrl == old(previewUrl) && isPdf == old(isPdf)
      ensures file.Some? && IsSupportedFile(file.value) && file.value.size > MaxFileSize ==>
        toasts == old(toasts) + [TooLarge] && selectedFile == old(selectedFile)
        && previewUrl == old(previewUrl) && isPdf == old(isPdf)
      ensures file.Some? && IsSupportedFile(file.value) && file.value.size <= MaxFileSize ==>
        && toasts == old(toasts) && selectedFile == file && isPdf == IsPdf(file.value)
        && previewUrl == (if IsPdf(file.value) then None else Some(objectUrl))
    {
      if file.None? {
        return;
      }
      var f := file.value;
      if !IsSupportedFile(f) {
        toasts := toasts + [UnsupportedFormat];
        return;
      }
      if f.size > MaxFileSize {
        toasts := toasts + [TooLarge];
        return;
      }
      selectedFile := Some(f);
      var nextIsPdf := f.mimeType == "application/pdf" || EndsWith(ToLower(f.name), ".pdf");
      isPdf := nextIsPdf;
      previewUrl := if nextIsPdf then None else Some(objectUrl);
    }

    /** `clearSelectedFile()`. */
    method ClearSelectedFile()
      modifies this
      ensures selectedFile.None? && previewUrl.None? && !isPdf
      ensures content == old(content) && replyingTo == old(replyingTo) && toasts == old(toasts)
      ensures uploads == old(uploads) && sent == old(sent) && isLoading == old(isLoading) && isUploading == old(isUploading)
    {
      selectedFile := None;
      previewUrl := None;
      isPdf := false;
    }

    /**
     * The send itself: `sendCommunityMessage` with the final content, then
     * either the error toast or the cleared composer.
     */
    method Deliver(uploadedPath: Option<string>, answerError: Option<string>)
      modifies this
      ensures sent == old(sent) + [Sent(communityId, FinalContent(old(content), old(replyingTo)), uploadedPath)]
      ensures answerError.None? || answerError.value == "" ==>
        content == "" && selectedFile.None? && previewUrl.None? && !isPdf && replyingTo.None? && toasts == old(toasts)
      ensures answerError.Some? && answerError.value != "" ==>
        && content == old(content) && selectedFile == old(selectedFile) && previewUrl == old(previewUrl)
        && isPdf == old(isPdf) && replyingTo == old(replyingTo) && toasts == old(toasts) + [answerError.value]
      ensures uploads == old(uploads) && isLoading == old(isLoading) && isUploading == old(isUploading)
    {
      sent := sent + [Sent(communityId, FinalContent(content, replyingTo), uploadedPath)];
      if answerError.Some? && answerError.value != "" {
        toasts := toasts + [answerError.value];
      } else {
        content := "";
        selectedFile := None;
        previewUrl := None;
        isPdf := false;
        replyingTo := None;
      }
    }

    /** `uploadAttachment(file)`: the stored path, or the error it throws. */
    method UploadAttachment(f: File, currentUserId: Option<string>, authUserId: Option<string>, stem: string,
                            uploadFails: bool)
      returns (path: Result<string, string>)
      modifies this
      ensures var p := AttachmentPath(communityId, currentUserId, authUserId, stem, f);
        && (p.None? ==> path == Err("Not authenticated"))
        && (p.Some? && uploadFails ==> path.Err?)
        && (p.Some? && !uploadFails ==> path == Ok(p.value))
      ensures path.Ok? ==> uploads == old(uploads) + [path.value]
      ensures path.Err? ==> uploads == old(uploads)
      ensures content == old(content) && selectedFile == old(selectedFile) && previewUrl == old(previewUrl)
      ensures isPdf == old(isPdf) && replyingTo == old(replyingTo) && toasts == old(toasts) && sent == old(sent)
      ensures isLoading == old(isLoading) && isUploading == old(isUploading)
    {
      var p := AttachmentPath(communityId, currentUserId, authUserId, stem, f);
      if p.None? {
        return Err("Not authenticated");
      }
      if uploadFails {
        return Err("upload failed");
      }
      uploads := uploads + [p.value];
      path := Ok(p.value);
    }

    /**
     * `handleSendMessage()`. Nothing happens for blank text without a file.
     * An attachment is uploaded first (see `AttachmentPath`); a missing user
     * or a failed upload ends in the `Failed to send message` toast. After a
     * send without error the text, the attachment and the reply are cleared.
     */
    method HandleSendMessage(currentUserId: Option<string>, authUserId: Option<string>, stem: string,
                             uploadFails: bool, answerError: Option<string>)
      modifies this
      ensures IsBlank(old(content)) && old(selectedFile).None? ==>
        && content == old(content) && selectedFile == old(selectedFile) && replyingTo == old(replyingTo)
        && toasts == old(toasts) && uploads == old(uploads) && sent == old(sent)
        && isLoading == old(isLoading) && isUploading == old(isUploading)
      ensures !(IsBlank(old(content)) && old(selectedFile).None?) ==> !isLoading && !isUploading
      ensures old(selectedFile).Some? &&
              (AttachmentPath(communityId, currentUserId, authUserId, stem, old(selectedFile).value).None? || uploadFails) ==>
        && toasts == old(toasts) + [SendFailed] && uploads == old(uploads) && sent == old(sent)
        && content == old(content) && selectedFile == old(selectedFile) && replyingTo == old(replyingTo)
      ensures old(selectedFile).Some? && !uploadFails ==>
        var path := AttachmentPath(communityId, currentUserId, authUserId, stem, old(selectedFile).value);
        path.Some? ==> uploads == old(uploads) + [path.value]
                       && sent == old(sent) + [Sent(communityId, FinalContent(old(content), old(replyingTo)), path)]
      ensures !IsBlank(old(content)) && old(selectedFile).None? ==>
        uploads == old(uploads) && sent == old(sent) + [Sent(communityId, FinalContent(old(content), old(replyingTo)), None)]
      ensures |sent| > |old(sent)| && (answerError.None? || answerError.value == "") ==>
        content == "" && selectedFile.None? && previewUrl.None? && !isPdf && replyingTo.None? && toasts == old(toasts)
      ensures |sent| > |old(sent)| && answerError.Some? && answerError.value != "" ==>
        content == old(content) && selectedFile == old(selectedFile) && replyingTo == old(replyingTo)
        && toasts == old(toasts) + [answerError.value]
    {
      if IsBlank(content) && selectedFile.None? {
        return;
      }
      isLoading := true;
      var uploadedPath: Option<string> := None;
      if selectedFile.Some? {
        isUploading := true;
        var path := UploadAttachment(selectedFile.value, currentUserId, authUserId, stem, uploadFails);
        if path.Err? {
          toasts := toasts + [SendFailed];
          isUploading := false;
          isLoading := false;
          return;
        }
        uploadedPath := Some(path.value);
      }
      Deliver(uploadedPath, answerError);
      isUploading := false;
      isLoading := false;
    }
  }
}
