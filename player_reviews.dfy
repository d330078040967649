/**
 * `src/lib/api/player-reviews.ts`: players rating each other after a match.
 * The signed-in user, the insert's failure and the `player_reviews` table
 * are inputs.
 */
module PlayerReviews {
  import opened Wrappers
  import opened JsValues

  /** `CreatePlayerReviewInput`; an omitted comment is `None`. */
  datatype ReviewInput = ReviewInput(roomId: string, revieweeUserId: string, rating: Number, comment: Option<string>)

  /** A `player_reviews` row. */
  datatype ReviewRow = ReviewRow(roomId: string, reviewerUserId: string, revieweeUserId: string, rating: real,
                                 comment: Option<string>)

  /** `Number.isFinite(rating) && !(rating < 1 || rating > 5)`. */
  predicate RatingInRange(rating: Number) {
    rating.Finite? && 1.0 <= rating.v <= 5.0
  }

  /** `createPlayerReview(input)`: the row it inserts, or the error it returns. */
  function CreatePlayerReview(user: Option<string>, input: ReviewInput, insertFails: bool): (r: Result<ReviewRow, string>)
    ensures user.None? ==> r == Err("Unauthorized")
  {
    if user.None? then Err("Unauthorized")
    else if input.revieweeUserId == user.value then Err("Tidak bisa mereview diri sendiri")
    else if !RatingInRange(input.rating) then Err("Rating harus di antara 1 sampai 5")
    else if insertFails then Err("Gagal menyimpan review")
    else Ok(ReviewRow(input.roomId, user.value, input.revieweeUserId, input.rating.v,
                      if input.comment.Some? && input.comment.value != "" then input.comment else None))
  }

  /**
   * A review is stored iff the caller is signed in, reviews someone else,
   * rates finitely within [1, 5] and the insert succeeds. The row names the
   * caller as reviewer and an empty comment becomes null.
   */
  lemma ReviewRule(user: Option<string>, input: ReviewInput, insertFails: bool)
    ensures var r := CreatePlayerReview(user, input, insertFails);
      && (r.Ok? <==> user.Some? && input.revieweeUserId != user.value && RatingInRange(input.rating) && !insertFails)
      && (user.Some? && input.revieweeUserId == user.value ==> r == Err("Tidak bisa mereview diri sendiri"))
      && (user.Some? && input.revieweeUserId != user.value && !RatingInRange(input.rating) ==>
            r == Err("Rating harus di antara 1 sampai 5"))
      && (r.Ok? ==> && r.value.reviewerUserId == user.value && r.value.revieweeUserId == input.revieweeUserId
                    && r.value.roomId == input.roomId && 1.0 <= r.value.rating <= 5.0
                    && (r.value.comment.None? <==> input.comment.None? || input.comment.value == ""))
  {
  }

  /** Ratings need not be whole: 3.5 is accepted, and NaN or infinity is not. */
  lemma FractionalRatingAccepted()
    ensures RatingInRange(Finite(3.5)) && RatingInRange(Finite(1.0)) && RatingInRange(Finite(5.0))
    ensures !RatingInRange(NaN) && !RatingInRange(PosInf) && !RatingInRange(Finite(0.5)) && !RatingInRange(Finite(5.5))
  {
  }

  /** The reviewee ids of `reviewer`'s rows in `roomId`, in table order. */
  function RevieweesOf(rows: seq<ReviewRow>, roomId: string, reviewer: string): (ids: seq<string>)
    ensures |ids| <= |rows|
    ensures forall id :: id in ids <==>
      exists k :: 0 <= k < |rows| && rows[k].roomId == roomId && rows[k].reviewerUserId == reviewer
                                    && rows[k].revieweeUserId == id
  {
    if rows == [] then []
    else
      var rest := RevieweesOf(rows[1..], roomId, reviewer);
      assert forall k :: 1 <= k < |rows| ==> rows[k] == rows[1..][k - 1];
      if rows[0].roomId == roomId && rows[0].reviewerUserId == reviewer
      then [rows[0].revieweeUserId] + rest else rest
  }

  /** `{ error?, data }` as `getMyRoomReviews` returns it. */
  datatype RoomReviews = RoomReviews(error: Option<string>, data: seq<string>)

  /** `getMyRoomReviews(roomId)`. */
  function GetMyRoomReviews(user: Option<string>, roomId: string, table: Result<seq<ReviewRow>, string>): (r: RoomReviews)
    ensures user.None? ==> r == RoomReviews(Some("Unauthorized"), [])
    ensures user.Some? && table.Err? ==> r == RoomReviews(Some("Gagal memuat review"), [])
    ensures user.Some? && table.Ok? ==> r.error.None? && forall id :: id in r.data <==>
      exists k :: 0 <= k < |table.value| && table.value[k].roomId == roomId
                  && table.value[k].reviewerUserId == user.value && table.value[k].revieweeUserId == id
  {
    if user.None? then RoomReviews(Some("Unauthorized"), [])
    else if table.Err? then RoomReviews(Some("Gagal memuat review"), [])
    else RoomReviews(None, RevieweesOf(table.value, roomId, user.value))
  }

  /** A review just stored shows up among the caller's reviewees of that room. */
  lemma StoredReviewListed(user: string, input: ReviewInput, rows: seq<ReviewRow>)
    requires CreatePlayerReview(Some(user), input, false).Ok?
    ensures input.revieweeUserId in
      GetMyRoomReviews(Some(user), input.roomId, Ok(rows + [CreatePlayerReview(Some(user), input, false).value])).data
  {
    var row := CreatePlayerReview(Some(user), input, false).value;
    var all := rows + [row];
    assert all[|rows|] == row;
  }
}
