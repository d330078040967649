/**
 * `src/components/community/ChatRoom.tsx`: a community's chat. The
 * component's state (`messages`, `isLoading`, `hasMore`, `cursor`) is the
 * fields of a `ChatRoomState`; what `getCommunityMessages` answers, the
 * realtime rows and the sender profile fetched for an insert are inputs
 * of the handlers.
 */
module ChatRoom {
  import opened Wrappers

  /** The sender profile joined onto a message. */
  datatype Sender = Sender(id: string, fullName: Option<string>, avatarUrl: Option<string>)

  /** A reaction on a message. */
  datatype Reaction = Reaction(userId: string, emoji: string)

  /** A `community_messages` row as the realtime channel delivers it. */
  datatype MessageRow = MessageRow(id: string, communityId: string, userId: string, content: string,
                                   imageUrl: Option<string>, createdAt: string, updatedAt: string, deletedAt: Option<string>)

  /** `CommunityMessage`: a row with its sender, its reactions and the deleted flag. */
  datatype Message = Message(row: MessageRow, user: Option<Sender>, reactions: seq<Reaction>, isDeleted: bool)

  /** The answer of `getCommunityMessages`. */
  datatype Page = Page(error: Option<string>, data: Option<seq<Message>>, nextCursor: Option<string>, hasMore: Option<bool>)

  predicate HasId(messages: seq<Message>, id: string) {
    exists k :: 0 <= k < |messages| && messages[k].row.id == id
  }

  /** No two messages of the list share an id. */
  predicate UniqueIds(messages: seq<Message>) {
    forall i, j :: 0 <= i < j < |messages| ==> messages[i].row.id != messages[j].row.id
  }

  /** `{ ...m, ...updated, is_deleted: !!updated.deleted_at }`: the row replaced, sender and reactions kept. */
  function Merge(m: Message, updated: MessageRow): (r: Message)
    ensures r.row == updated && r.user == m.user && r.reactions == m.reactions
    ensures r.isDeleted <==> updated.deletedAt.Some?
  {
    Message(updated, m.user, m.reactions, updated.deletedAt.Some?)
  }

  /** `prev.map(m => m.id === updated.id ? merge : m)`. */
  function ApplyUpdate(messages: seq<Message>, updated: MessageRow): (r: seq<Message>)
    ensures |r| == |messages|
    ensures forall k :: 0 <= k < |r| ==>
      r[k] == if messages[k].row.id == updated.id then Merge(messages[k], updated) else messages[k]
  {
    seq(|messages|, k requires 0 <= k < |messages| =>
      if messages[k].row.id == updated.id then Merge(messages[k], updated) else messages[k])
  }

  /** An update keeps every id where it was, so a list without duplicates stays without. */
  lemma UpdateKeepsIds(messages: seq<Message>, updated: MessageRow)
    ensures forall k :: 0 <= k < |messages| ==> ApplyUpdate(messages, updated)[k].row.id == messages[k].row.id
    ensures UniqueIds(messages) ==> UniqueIds(ApplyUpdate(messages, updated))
  {
  }

  /** The message an insert event becomes: no reactions yet, not deleted. */
  function Inserted(row: MessageRow, userData: Option<Sender>): (m: Message)
    ensures m.row == row && m.user == userData && m.reactions == [] && !m.isDeleted
  {
    Message(row, userData, [], false)
  }

  class ChatRoomState {
    const communityId: string
    var messages: seq<Message>
    var isLoading: bool
    var hasMore: bool
    var cursor: Option<string>

    /** The component's first render. */
    constructor (communityId: string)
      ensures this.communityId == communityId
      ensures messages == [] && isLoading && hasMore && cursor.None?
    {
      this.communityId := communityId;
      messages := [];
      isLoading := true;
      hasMore := true;
      cursor := None;
    }

    /** `loadMessages()`: a good answer replaces the list; an error keeps it. */
    method LoadMessages(result: Page)
      modifies this
      ensures !isLoading
      ensures result.error.None? ==> && messages == (if result.data.Some? then result.data.value else [])
                                     && cursor == result.nextCursor && hasMore == (result.hasMore == Some(true))
      ensures result.error.Some? ==> messages == old(messages) && cursor == old(cursor) && hasMore == old(hasMore)
    {
      isLoading := true;
      if result.error.None? {
        messages := if result.data.Some? then result.data.value else [];
        cursor := result.nextCursor;
        hasMore := result.hasMore == Some(true);
      }
      isLoading := false;
    }

    /**
     * `handleLoadMore()`: only with more to load and a cursor; `requested`
     * tells whether `getCommunityMessages` was called, with `old(cursor)`.
     * Older messages go after the ones shown.
     */
    method HandleLoadMore(result: Page) returns (requested: bool)
      modifies this
      ensures requested <==> old(hasMore) && old(cursor).Some? && old(cursor).value != ""
      ensures !requested ==> messages == old(messages) && cursor == old(cursor) && hasMore == old(hasMore)
                             && isLoading == old(isLoading)
      ensures requested ==> !isLoading
      ensures requested && result.error.None? ==>
        && messages == old(messages) + (if result.data.Some? then result.data.value else [])
        && cursor == result.nextCursor && hasMore == (result.hasMore == Some(true))
      ensures requested && result.error.Some? ==> messages == old(messages) && cursor == old(cursor) && hasMore == old(hasMore)
    {
      if !hasMore || cursor.None? || cursor.value == "" {
        return false;
      }
      isLoading := true;
      if result.error.None? {
        messages := messages + (if result.data.Some? then result.data.value else []);
        cursor := result.nextCursor;
        hasMore := result.hasMore == Some(true);
      }
      isLoading := false;
      requested := true;
    }

    /** `handleNewMessage(row)`: the message goes first unless its id is already listed. */
    method HandleNewMessage(row: MessageRow, userData: Option<Sender>)
      modifies this
      ensures HasId(old(messages), row.id) ==> messages == old(messages)
      ensures !HasId(old(messages), row.id) ==> messages == [Inserted(row, userData)] + old(messages)
      ensures HasId(messages, row.id)
      ensures UniqueIds(old(messages)) ==> UniqueIds(messages)
      ensures isLoading == old(isLoading) && hasMore == old(hasMore) && cursor == old(cursor)
    {
      var fullMessage := Inserted(row, userData);
      if HasId(messages, row.id) {
        return;
      }
      var prev := messages;
      messages := [fullMessage] + prev;
      assert messages[0].row.id == row.id;
      assert forall j :: 1 <= j < |messages| ==> messages[j] == prev[j - 1];
    }

    /** `handleUpdateMessage(row)`: only the message with that id changes. */
    method HandleUpdateMessage(row: MessageRow)
      modifies this
      ensures messages == ApplyUpdate(old(messages), row)
      ensures UniqueIds(old(messages)) ==> UniqueIds(messages)
      ensures isLoading == old(isLoading) && hasMore == old(hasMore) && cursor == old(cursor)
    {
      messages := ApplyUpdate(messages, row);
    }
  }

  /** After an insert the id is listed, so the same event delivered again is ignored. */
  lemma InsertMakesIdKnown(messages: seq<Message>, row: MessageRow, userData: Option<Sender>)
    requires !HasId(messages, row.id)
    ensures HasId([Inserted(row, userData)] + messages, row.id)
  {
    assert ([Inserted(row, userData)] + messages)[0].row.id == row.id;
  }

  /** An update for an id not listed changes nothing. */
  lemma UpdateOfUnknownId(messages: seq<Message>, updated: MessageRow)
    requires !HasId(messages, updated.id)
    ensures ApplyUpdate(messages, updated) == messages
  {
  }
}
