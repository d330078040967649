/**
 * `src/components/community/DMChat.tsx`: a direct-message conversation.
 * The component's state is the fields of a `DMChatState`; the answers of
 * `getDMMessages`, `sendDMMessage` and `editDMMessage`, and the realtime
 * rows, are inputs of the handlers. Every server call is recorded.
 */
module DMChat {
  import opened Wrappers
  import opened Strings

  /** A `dm_messages` row as the channel delivers it. */
  datatype DMRow = DMRow(id: string, conversationId: string, senderId: string, content: string,
                         imageUrl: Option<string>, createdAt: string, updatedAt: string, deletedAt: Option<string>)

  /** `DMMessage`: the row and the deleted flag. */
  datatype DMMessage = DMMessage(row: DMRow, isDeleted: bool)

  /** The answer of `getDMMessages`. */
  datatype Page = Page(error: Option<string>, data: Option<seq<DMMessage>>, nextCursor: Option<string>, hasMore: Option<bool>)

  /** A server call the handlers make. */
  datatype Call =
    | Send(recipientId: string, communityId: string, content: string, imageUrl: Option<string>)
    | Edit(conversationId: string, messageId: string, content: string)

  /** `{ ...m, ...updated, is_deleted: !!updated.deleted_at }`. */
  function Merge(m: DMMessage, updated: DMRow): (r: DMMessage)
    ensures r.row == updated && (r.isDeleted <==> updated.deletedAt.Some?)
  {
    DMMessage(updated, updated.deletedAt.Some?)
  }

  function ApplyUpdate(messages: seq<DMMessage>, updated: DMRow): (r: seq<DMMessage>)
    ensures |r| == |messages|
    ensures forall k :: 0 <= k < |r| ==>
      r[k] == if messages[k].row.id == updated.id then Merge(messages[k], updated) else messages[k]
  {
    seq(|messages|, k requires 0 <= k < |messages| =>
      if messages[k].row.id == updated.id then Merge(messages[k], updated) else messages[k])
  }

  /** `displayMessages`: `[...messages].reverse()`, oldest first. */
  function Reversed(messages: seq<DMMessage>): (r: seq<DMMessage>)
    ensures |r| == |messages|
    ensures forall k :: 0 <= k < |r| ==> r[k] == messages[|messages| - 1 - k]
  {
    seq(|messages|, k requires 0 <= k < |messages| => messages[|messages| - 1 - k])
  }

  /** Reversing the display order gives back the stored order. */
  lemma ReversedTwice(messages: seq<DMMessage>)
    ensures Reversed(Reversed(messages)) == messages
  {
  }

  /** A message just received is shown last. */
  lemma NewestShownLast(messages: seq<DMMessage>, m: DMMessage)
    ensures var shown := Reversed([m] + messages); shown[|shown| - 1] == m
  {
  }

  /** `conversationId.split("_")[0]`: the conversation id up to its first `_`. */
  function CommunityIdOf(conversationId: string): (c: string)
    ensures '_' !in c
    ensures '_' !in conversationId ==> c == conversationId
    ensures '_' in conversationId ==> c == conversationId[..FirstIndex(conversationId, '_')]
  {
    SplitFirst(conversationId, '_');
    Split(conversationId, '_')[0]
  }

  /** A conversation id made of a community id, `_` and the rest names that community. */
  lemma CommunityIdOfComposite(community: string, rest: string)
    requires '_' !in community
    ensures CommunityIdOf(community + "_" + rest) == community
  {
    SplitHead(community, '_', rest);
  }

  /** The `sendDMMessage` call: to the other user (`""` without one), in the conversation's community. */
  function SendCall(otherUserId: Option<string>, conversationId: string, text: string, image: Option<string>): (c: Call)
    ensures c.Send? && c.communityId == CommunityIdOf(conversationId) && c.content == text && c.imageUrl == image
    ensures c.recipientId == if otherUserId.Some? then otherUserId.value else ""
  {
    Send(if otherUserId.Some? then otherUserId.value else "", CommunityIdOf(conversationId), text, image)
  }

  class DMChatState {
    const conversationId: string
    const otherUserId: Option<string>
    var messages: seq<DMMessage>
    var isLoading: bool
    var hasMore: bool
    var cursor: Option<string>
    var newMessage: string
    var isSending: bool
    var previewImage: Option<string>
    var editingMessageId: Option<string>
    var editContent: string
    var calls: seq<Call>
    var toasts: seq<string>

    constructor (conversationId: string, otherUserId: Option<string>)
      ensures this.conversationId == conversationId && this.otherUserId == otherUserId
      ensures messages == [] && isLoading && hasMore && cursor.None? && newMessage == "" && !isSending
      ensures previewImage.None? && editingMessageId.None? && editContent == "" && calls == [] && toasts == []
    {
      this.conversationId := conversationId;
      this.otherUserId := otherUserId;
      messages := [];
      isLoading := true;
      hasMore := true;
      cursor := None;
      newMessage := "";
      isSending := false;
      previewImage := None;
      editingMessageId := None;
      editContent := "";
      calls := [];
      toasts := [];
    }

    /** `loadMessages()`: a good answer replaces the list. */
    method LoadMessages(result: Page)
      modifies this
      ensures !isLoading
      ensures result.error.None? ==> && messages == (if result.data.Some? then result.data.value else [])
                                     && cursor == result.nextCursor && hasMore == (result.hasMore == Some(true))
      ensures result.error.Some? ==> messages == old(messages) && cursor == old(cursor) && hasMore == old(hasMore)
      ensures newMessage == old(newMessage) && previewImage == old(previewImage) && calls == old(calls)
      ensures editingMessageId == old(editingMessageId) && editContent == old(editContent) && toasts == old(toasts)
      ensures isSending == old(isSending)
    {
      isLoading := true;
      if result.error.None? {
        messages := if result.data.Some? then result.data.value else [];
        cursor := result.nextCursor;
        hasMore := result.hasMore == Some(true);
      }
      isLoading := false;
    }

    /** The insert event: the message goes first, without checking for its id. */
    method OnInsert(row: DMRow)
      modifies this
      ensures messages == [DMMessage(row, false)] + old(messages)
      ensures newMessage == old(newMessage) && previewImage == old(previewImage) && calls == old(calls)
      ensures editingMessageId == old(editingMessageId) && editContent == old(editContent) && toasts == old(toasts)
      ensures isLoading == old(isLoading) && isSending == old(isSending) && cursor == old(cursor) && hasMore == old(hasMore)
    {
      messages := [DMMessage(row, false)] + messages;
    }

    /** The update event: the message with that id is merged, the others stay. */
    method OnUpdate(row: DMRow)
      modifies this
      ensures messages == ApplyUpdate(old(messages), row)
      ensures newMessage == old(newMessage) && previewImage == old(previewImage) && calls == old(calls)
      ensures editingMessageId == old(editingMessageId) && editContent == old(editContent) && toasts == old(toasts)
      ensures isLoading == old(isLoading) && isSending == old(isSending) && cursor == old(cursor) && hasMore == old(hasMore)
    {
      messages := ApplyUpdate(messages, row);
    }

    /**
     * `handleSendMessage()`: refused without text or image; otherwise sent
     * to the other user (`""` without one) in the conversation's community,
     * and the input cleared when `answerError` is `None`.
     */
    method HandleSendMessage(answerError: Option<string>)
      modifies this
      ensures messages == old(messages) && editingMessageId == old(editingMessageId) && editContent == old(editContent)
      ensures IsBlank(old(newMessage)) && old(previewImage).None? ==>
        isSending == old(isSending) && calls == old(calls) && toasts == old(toasts) + ["Message or image is required"]
        && newMessage == old(newMessage) && previewImage == old(previewImage)
      ensures !(IsBlank(old(newMessage)) && old(previewImage).None?) ==>
        && !isSending
        && calls == old(calls) + [SendCall(otherUserId, conversationId, old(newMessage), old(previewImage))]
        && (answerError.None? ==> newMessage == "" && previewImage.None? && toasts == old(toasts))
        && (answerError.Some? ==> newMessage == old(newMessage) && previewImage == old(previewImage)
                                  && toasts == old(toasts) + [answerError.value])
    {
      if IsBlank(newMessage) && previewImage.None? {
        toasts := toasts + ["Message or image is required"];
        return;
      }
      isSending := true;
      calls := calls + [SendCall(otherUserId, conversationId, newMessage, previewImage)];
      if answerError.None? {
        newMessage := "";
        previewImage := None;
      } else {
        toasts := toasts + [answerError.value];
      }
      isSending := false;
    }

    /** `handleEditMessage(messageId)`: blank content only leaves edit mode. */
    method HandleEditMessage(messageId: string, answerError: Option<string>)
      modifies this
      ensures messages == old(messages) && newMessage == old(newMessage) && previewImage == old(previewImage)
      ensures toasts == old(toasts)
      ensures IsBlank(old(editContent)) ==> calls == old(calls) && editingMessageId.None? && editContent == old(editContent)
      ensures !IsBlank(old(editContent)) ==> calls == old(calls) + [Edit(conversationId, messageId, old(editContent))]
      ensures !IsBlank(old(editContent)) && answerError.None? ==> editingMessageId.None? && editContent == ""
      ensures !IsBlank(old(editContent)) && answerError.Some? ==>
        editingMessageId == old(editingMessageId) && editContent == old(editContent)
    {
      if IsBlank(editContent) {
        editingMessageId := None;
        return;
      }
      calls := calls + [Edit(conversationId, messageId, editContent)];
      if answerError.None? {
        editingMessageId := None;
        editContent := "";
      }
    }
  }

  /** Unlike the community chat, the same insert twice is listed twice. */
  lemma RepeatedInsertDuplicates(messages: seq<DMMessage>, row: DMRow)
    ensures var twice := [DMMessage(row, false)] + ([DMMessage(row, false)] + messages);
      twice[0].row.id == twice[1].row.id && |twice| == |messages| + 2
  {
  }
}
