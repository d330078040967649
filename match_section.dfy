/**
 * `src/components/MatchSection.tsx`: the match lobby (room search and city
 * filter) and the review panel of a finished room.
 *
 * The review state (`reviewDrafts`, `reviewStatus`, `reviewedUserIds`, the
 * selected room) is the fields of a `ReviewPanel`; what `createPlayerReview`
 * answers is an input of a submit, and every request the panel sends is
 * recorded in `submitted`.
 */
module MatchSection {
  import opened Wrappers
  import opened Strings
  import opened JsValues

  /** A review draft: `{ rating, comment }`. */
  datatype Draft = Draft(rating: Number, comment: string)

  const DefaultDraft := Draft(Finite(5.0), "")

  /** `{ submitting?, error?, success? }`. */
  datatype ReviewStatus = Submitting | Failed(error: string) | Succeeded

  datatype Field = Rating | Comment

  /** The arguments of a `createPlayerReview` call. */
  datatype ReviewRequest = ReviewRequest(roomId: string, revieweeUserId: string, rating: Number, comment: string)

  class ReviewPanel {
    var selectedRoomId: Option<string>
    var reviewDrafts: map<string, Draft>
    var reviewStatus: map<string, ReviewStatus>
    var reviewedUserIds: set<string>
    var submitted: seq<ReviewRequest>

    constructor (selectedRoomId: Option<string>)
      ensures this.selectedRoomId == selectedRoomId
      ensures reviewDrafts == map[] && reviewStatus == map[] && reviewedUserIds == {} && submitted == []
    {
      this.selectedRoomId := selectedRoomId;
      reviewDrafts := map[];
      reviewStatus := map[];
      reviewedUserIds := {};
      submitted := [];
    }

    /**
     * The effect on `roomParticipants`: every participant without a draft
     * gets the default `{ rating: 5, comment: '' }`; existing drafts stay.
     */
    method AddDefaultDrafts(participantIds: seq<string>)
      modifies this
      ensures reviewDrafts.Keys == old(reviewDrafts).Keys + set u | u in participantIds
      ensures forall u :: u in old(reviewDrafts) ==> reviewDrafts[u] == old(reviewDrafts)[u]
      ensures forall u :: u in reviewDrafts && u !in old(reviewDrafts) ==> reviewDrafts[u] == DefaultDraft
      ensures selectedRoomId == old(selectedRoomId) && reviewStatus == old(reviewStatus)
      ensures reviewedUserIds == old(reviewedUserIds) && submitted == old(submitted)
    {
      if |participantIds| == 0 {
        return;
      }
      var next := reviewDrafts;
      var i := 0;
      while i < |participantIds|
        invariant 0 <= i <= |participantIds|
        invariant next.Keys == old(reviewDrafts).Keys + set u | u in participantIds[..i]
        invariant forall u :: u in old(reviewDrafts) ==> next[u] == old(reviewDrafts)[u]
        invariant forall u :: u in next && u !in old(reviewDrafts) ==> next[u] == DefaultDraft
      {
        if participantIds[i] !in next {
          next := next[participantIds[i] := DefaultDraft];
        }
        assert participantIds[..i + 1] == participantIds[..i] + [participantIds[i]];
        i := i + 1;
      }
      assert participantIds[..i] == participantIds;
      reviewDrafts := next;
    }

    /**
     * `handleReviewFieldChange(userId, field, value)`: the named field takes
     * the new value, the other keeps the draft's (5 and '' without one).
     * `show` is `String(value)` for a value that is not a string.
     */
    method HandleReviewFieldChange(userId: string, field: Field, value: JsValue, show: JsValue -> string)
      modifies this
      ensures reviewDrafts.Keys == old(reviewDrafts).Keys + {userId}
      ensures forall u :: u in old(reviewDrafts) && u != userId ==> reviewDrafts[u] == old(reviewDrafts)[u]
      ensures var before := if userId in old(reviewDrafts) then old(reviewDrafts)[userId] else DefaultDraft;
        && (field == Rating ==> reviewDrafts[userId] == Draft(ToNumber(value), before.comment))
        && (field == Comment ==> value.Str? ==> reviewDrafts[userId] == Draft(before.rating, value.s))
      ensures selectedRoomId == old(selectedRoomId) && reviewStatus == old(reviewStatus)
      ensures reviewedUserIds == old(reviewedUserIds) && submitted == old(submitted)
    {
      var prev := if userId in reviewDrafts then reviewDrafts[userId] else DefaultDraft;
      var rating := if field == Rating then ToNumber(value) else prev.rating;
      var comment := if field == Comment then (if value.Str? then value.s else show(value)) else prev.comment;
      reviewDrafts := reviewDrafts[userId := Draft(rating, comment)];
    }

    /**
     * `handleSubmitReview(revieweeUserId)`. `answerError` is the `error`
     * of `createPlayerReview`'s answer; an empty one is falsy and counts
     * as success.
     */
    method HandleSubmitReview(revieweeUserId: string, answerError: Option<string>)
      modifies this
      ensures selectedRoomId == old(selectedRoomId) && reviewDrafts == old(reviewDrafts)
      ensures old(selectedRoomId).None? ==>
        reviewStatus == old(reviewStatus) && reviewedUserIds == old(reviewedUserIds) && submitted == old(submitted)
      ensures old(selectedRoomId).Some? ==>
        var draft := if revieweeUserId in old(reviewDrafts) then old(reviewDrafts)[revieweeUserId] else DefaultDraft;
        && submitted == old(submitted) + [ReviewRequest(old(selectedRoomId).value, revieweeUserId, draft.rating, draft.comment)]
        && (answerError.Some? && answerError.value != "" ==>
              reviewStatus == old(reviewStatus)[revieweeUserId := Failed(answerError.value)]
              && reviewedUserIds == old(reviewedUserIds))
        && (answerError.None? || answerError.value == "" ==>
              reviewStatus == old(reviewStatus)[revieweeUserId := Succeeded]
              && reviewedUserIds == old(reviewedUserIds) + {revieweeUserId})
    {
      if selectedRoomId.None? {
        return;
      }
      reviewStatus := reviewStatus[revieweeUserId := Submitting];
      var draft := if revieweeUserId in reviewDrafts then reviewDrafts[revieweeUserId] else DefaultDraft;
      submitted := submitted + [ReviewRequest(selectedRoomId.value, revieweeUserId, draft.rating, draft.comment)];
      if answerError.Some? && answerError.value != "" {
        reviewStatus := reviewStatus[revieweeUserId := Failed(answerError.value)];
        return;
      }
      reviewedUserIds := reviewedUserIds + {revieweeUserId};
      reviewStatus := reviewStatus[revieweeUserId := Succeeded];
    }
  }

  /** A room of the lobby, as far as the filters read it. */
  datatype LobbyRoom = LobbyRoom(id: string, title: string, courtName: string, city: Option<string>)

  /** The filter of `filteredRooms`. */
  predicate RoomMatches(room: LobbyRoom, searchQuery: string, cityFilter: string) {
    var q := ToLower(searchQuery);
    (Contains(ToLower(room.title), q) || Contains(ToLower(room.courtName), q))
    && (cityFilter != "" ==> room.city == Some(cityFilter))
  }

  /** `filteredRooms`: the rooms the search and the city filter keep, in order. */
  function FilteredRooms(rooms: seq<LobbyRoom>, searchQuery: string, cityFilter: string): (r: seq<LobbyRoom>)
    ensures forall x :: x in r <==> x in rooms && RoomMatches(x, searchQuery, cityFilter)
    ensures |r| <= |rooms|
  {
    if rooms == [] then []
    else
      var rest := FilteredRooms(rooms[1..], searchQuery, cityFilter);
      assert forall x :: x in rooms <==> x == rooms[0] || x in rooms[1..];
      if RoomMatches(rooms[0], searchQuery, cityFilter) then [rooms[0]] + rest else rest
  }

  /** The filter keeps the order and the repetitions of its input: it distributes over concatenation, and keeps a single row iff it matches. */
  lemma {:induction false} FilteredRoomsAppend(a: seq<LobbyRoom>, b: seq<LobbyRoom>, searchQuery: string, cityFilter: string)
    ensures FilteredRooms(a + b, searchQuery, cityFilter) == FilteredRooms(a, searchQuery, cityFilter) + FilteredRooms(b, searchQuery, cityFilter)
    ensures |a| == 1 ==> FilteredRooms(a, searchQuery, cityFilter) == if RoomMatches(a[0], searchQuery, cityFilter) then a else []
  {
    if a == [] {
      assert a + b == b;
    } else {
      assert (a + b)[1..] == a[1..] + b;
      FilteredRoomsAppend(a[1..], b, searchQuery, cityFilter);
    }
  }

  /** An empty search and no city keep every room. */
  lemma {:induction false} EmptyFiltersKeepAll(rooms: seq<LobbyRoom>)
    ensures FilteredRooms(rooms, "", "") == rooms
  {
    if rooms != [] {
      assert OccursAt(ToLower(rooms[0].title), ToLower(""), 0);
      EmptyFiltersKeepAll(rooms[1..]);
    }
  }

  /** The search ignores case in the query. */
  lemma SearchIgnoresQueryCase(room: LobbyRoom, searchQuery: string, cityFilter: string)
    ensures RoomMatches(room, ToUpper(searchQuery), cityFilter) == RoomMatches(room, searchQuery, cityFilter)
  {
    LowerOfUpper(searchQuery);
  }

  /** `r.city || 'Jakarta'`. */
  function CityOf(room: LobbyRoom): string {
    if room.city.Some? && room.city.value != "" then room.city.value else "Jakarta"
  }

  /** `Array.from(new Set(rooms.map(r => r.city || 'Jakarta')))`: first occurrences, in order. */
  function Cities(rooms: seq<LobbyRoom>): (cities: seq<string>)
    ensures forall c :: c in cities <==> exists k :: 0 <= k < |rooms| && CityOf(rooms[k]) == c
    ensures forall i, j :: 0 <= i < j < |cities| ==> cities[i] != cities[j]
    decreases |rooms|
  {
    if rooms == [] then []
    else
      var prefix := Cities(rooms[..|rooms| - 1]);
      var last := CityOf(rooms[|rooms| - 1]);
      assert forall k :: 0 <= k < |rooms| - 1 ==> rooms[k] == rooms[..|rooms| - 1][k];
      if last in prefix then prefix else prefix + [last]
  }

  /** `reviewTargets`: the participants other than the viewer. */
  function ReviewTargets(participantIds: seq<string>, currentUser: Option<string>): (r: seq<string>)
    ensures forall u :: u in r <==> u in participantIds && Some(u) != currentUser
  {
    if participantIds == [] then []
    else
      var rest := ReviewTargets(participantIds[1..], currentUser);
      assert forall u :: u in participantIds <==> u == participantIds[0] || u in participantIds[1..];
      if Some(participantIds[0]) != currentUser then [participantIds[0]] + rest else rest
  }

  /** Without a signed-in viewer every participant is a target. */
  lemma {:induction false} AnonymousReviewsEveryone(participantIds: seq<string>)
    ensures ReviewTargets(participantIds, None) == participantIds
  {
    if participantIds != [] {
      AnonymousReviewsEveryone(participantIds[1..]);
    }
  }
}
