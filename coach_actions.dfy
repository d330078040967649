/**
 * `src/lib/coaches/actions.ts`: booking a coaching session. The
 * availability check walks the coach's bookings of the day and stops at the
 * first one whose times overlap; the other actions are guard chains.
 *
 * Every Supabase query is an input: `coach_bookings` is a sequence of rows
 * (or the query's error), a `.single()` lookup is an `Option`, and a failing
 * insert or update is a flag. Times are the `HH:MM:SS` strings the table
 * stores, compared as JavaScript compares strings.
 */
module CoachActions {
  import opened Wrappers
  import opened Strings

  /** A `coach_bookings` row, as far as the availability check reads it. */
  datatype SlotRow = SlotRow(id: string, coachId: string, bookingDate: string,
                             startTime: string, endTime: string, status: string)

  /** The test of `.eq('coach_id').eq('booking_date').neq('status', 'cancelled')`. */
  predicate Selected(b: SlotRow, coachId: string, date: string) {
    b.coachId == coachId && b.bookingDate == date && b.status != "cancelled"
  }

  /** The rows that query selects, in table order. */
  function Existing(rows: seq<SlotRow>, coachId: string, date: string): (r: seq<SlotRow>)
    ensures forall b :: b in r <==> b in rows && Selected(b, coachId, date)
  {
    if rows == [] then []
    else
      var rest := Existing(rows[1..], coachId, date);
      assert forall b :: b in rows <==> b == rows[0] || b in rows[1..];
      if Selected(rows[0], coachId, date) then [rows[0]] + rest else rest
  }

  /** The filter keeps the order and the repetitions of its input: it distributes over concatenation, and keeps a single row iff it matches. */
  lemma {:induction false} ExistingAppend(a: seq<SlotRow>, b: seq<SlotRow>, coachId: string, date: string)
    ensures Existing(a + b, coachId, date) == Existing(a, coachId, date) + Existing(b, coachId, date)
    ensures |a| == 1 ==> Existing(a, coachId, date) == if Selected(a[0], coachId, date) then a else []
  {
    if a == [] {
      assert a + b == b;
    } else {
      assert (a + b)[0] == a[0] && (a + b)[1..] == a[1..] + b;
      ExistingAppend(a[1..], b, coachId, date);
      if |a| == 1 {
        assert a[1..] == [];
      }
    }
  }

  /** The three-clause overlap test of the loop body. */
  predicate Overlaps(start: string, end: string, existingStart: string, existingEnd: string) {
    || (LexLe(existingStart, start) && LexLess(start, existingEnd))
    || (LexLess(existingStart, end) && LexLe(end, existingEnd))
    || (LexLe(start, existingStart) && LexLe(existingEnd, end))
  }

  /** The first existing booking the requested times overlap. */
  function FirstConflict(rows: seq<SlotRow>, start: string, end: string): (r: Option<SlotRow>)
    ensures r.None? <==> forall k :: 0 <= k < |rows| ==> !Overlaps(start, end, rows[k].startTime, rows[k].endTime)
    ensures r.Some? ==> exists k :: 0 <= k < |rows| && rows[k] == r.value
                                   && Overlaps(start, end, rows[k].startTime, rows[k].endTime)
                                   && forall j :: 0 <= j < k ==> !Overlaps(start, end, rows[j].startTime, rows[j].endTime)
  {
    if rows == [] then None
    else if Overlaps(start, end, rows[0].startTime, rows[0].endTime) then Some(rows[0])
    else
      var rest := FirstConflict(rows[1..], start, end);
      assert forall k :: 1 <= k < |rows| ==> rows[k] == rows[1..][k - 1];
      rest
  }

  function ConflictMessage(b: SlotRow): string {
    "Time slot conflicts with existing booking from " + b.startTime + " to " + b.endTime
  }

  /** `{ available, conflict? }` as `checkCoachAvailability` returns it. */
  datatype Availability = Availability(available: bool, conflict: Option<string>)

  const ErrorChecking := "Error checking availability"

  /** What the check answers: a query error, the first conflicting booking, or free. */
  function ExpectedAvailability(table: Result<seq<SlotRow>, string>, coachId: string, date: string,
                                start: string, end: string): Availability
  {
    match table
    case Err(_) => Availability(false, Some(ErrorChecking))
    case Ok(rows) =>
      match FirstConflict(Existing(rows, coachId, date), start, end)
      case None => Availability(true, None)
      case Some(b) => Availability(false, Some(ConflictMessage(b)))
  }

  /** `checkCoachAvailability(coachId, bookingDate, startTime, endTime)`. */
  method CheckCoachAvailability(table: Result<seq<SlotRow>, string>, coachId: string, date: string,
                                start: string, end: string) returns (answer: Availability)
    ensures answer == ExpectedAvailability(table, coachId, date, start, end)
  {
    if table.Err? {
      return Availability(false, Some(ErrorChecking));
    }
    var existing := Existing(table.value, coachId, date);
    var i := 0;
    while i < |existing|
      invariant 0 <= i <= |existing|
      invariant FirstConflict(existing[i..], start, end) == FirstConflict(existing, start, end)
    {
      var booking := existing[i];
      if Overlaps(start, end, booking.startTime, booking.endTime) {
        return Availability(false, Some(ConflictMessage(booking)));
      }
      assert existing[i..][1..] == existing[i + 1..];
      i := i + 1;
    }
    return Availability(true, None);
  }

  /**
   * A refusal always carries its reason: a query error, or the overlapping
   * booking's times. The route's fallback text is never needed.
   */
  lemma AvailabilitySpec(table: Result<seq<SlotRow>, string>, coachId: string, date: string, start: string, end: string)
    ensures var a := ExpectedAvailability(table, coachId, date, start, end);
      && (table.Err? ==> a == Availability(false, Some(ErrorChecking)))
      && (table.Ok? ==> (a.available <==> forall b :: (b in table.value && b.coachId == coachId && b.bookingDate == date
                                                      && b.status != "cancelled") ==> !Overlaps(start, end, b.startTime, b.endTime)))
      && (!a.available ==> a.conflict.Some? && a.conflict.value != "")
      && (a.available ==> a.conflict.None?)
  {
    if table.Ok? {
      var existing := Existing(table.value, coachId, date);
      var c := FirstConflict(existing, start, end);
      if c.None? {
        forall b | b in table.value && b.coachId == coachId && b.bookingDate == date && b.status != "cancelled"
          ensures !Overlaps(start, end, b.startTime, b.endTime)
        {
          var k :| 0 <= k < |existing| && existing[k] == b;
        }
      } else {
        var k :| 0 <= k < |existing| && existing[k] == c.value && Overlaps(start, end, existing[k].startTime, existing[k].endTime);
        assert existing[k] in existing;
      }
    }
  }

  /**
   * For non-empty intervals the three clauses together say exactly that the
   * intervals intersect: each starts before the other ends.
   */
  lemma OverlapMeansIntersect(start: string, end: string, es: string, ee: string)
    requires LexLess(start, end) && LexLess(es, ee)
    ensures Overlaps(start, end, es, ee) <==> LexLess(start, ee) && LexLess(es, end)
  {
    if Overlaps(start, end, es, ee) {
      if LexLe(es, start) && LexLess(start, ee) {
        LeLessTransitive(es, start, end);
      } else if LexLess(es, end) && LexLe(end, ee) {
        LessLeTransitive(start, end, ee);
      } else {
        LeLessTransitive(start, es, ee);
        LessLeTransitive(es, ee, end);
      }
    }
    if LexLess(start, ee) && LexLess(es, end) {
      LexLessTrichotomy(es, start);
      LexLessTrichotomy(ee, end);
      assert LexLe(es, start) || LexLe(start, es);
      assert LexLe(ee, end) || LexLe(end, ee);
    }
  }

  lemma LeLessTransitive(a: string, b: string, c: string)
    requires LexLe(a, b) && LexLess(b, c)
    ensures LexLess(a, c)
  {
    if a != b {
      LexLessTransitive(a, b, c);
    }
  }

  lemma LessLeTransitive(a: string, b: string, c: string)
    requires LexLess(a, b) && LexLe(b, c)
    ensures LexLess(a, c)
  {
    if b != c {
      LexLessTransitive(a, b, c);
    }
  }

  /** A session starting as another ends, or ending as another starts, is no conflict. */
  lemma BackToBackNoConflict(start: string, end: string, es: string, ee: string)
    requires LexLess(start, end) && LexLess(es, ee)
    requires end == es || start == ee
    ensures !Overlaps(start, end, es, ee)
  {
    OverlapMeansIntersect(start, end, es, ee);
    LexLessTrichotomy(es, end);
    LexLessTrichotomy(start, ee);
  }

  /** A cancelled booking, or one of another coach or day, never changes the answer. */
  lemma IgnoredRowsDoNotConflict(b: SlotRow, rows: seq<SlotRow>, coachId: string, date: string, start: string, end: string)
    requires b.status == "cancelled" || b.coachId != coachId || b.bookingDate != date
    ensures ExpectedAvailability(Ok([b] + rows), coachId, date, start, end) == ExpectedAvailability(Ok(rows), coachId, date, start, end)
  {
    assert ([b] + rows)[1..] == rows;
  }

  /** Of two overlapping bookings, the one earlier in the table is reported. */
  lemma FirstConflictReported(b1: SlotRow, b2: SlotRow, rows: seq<SlotRow>, start: string, end: string)
    requires Overlaps(start, end, b1.startTime, b1.endTime)
    ensures ExpectedAvailability(Ok([b1, b2] + rows), b1.coachId, b1.bookingDate, start, end) ==
      if b1.status == "cancelled" then ExpectedAvailability(Ok([b2] + rows), b1.coachId, b1.bookingDate, start, end)
      else Availability(false, Some(ConflictMessage(b1)))
  {
    assert ([b1, b2] + rows)[1..] == [b2] + rows;
  }

  /** The coach row `createCoachBooking` selects. */
  datatype Coach = Coach(pricePerHour: real, currency: string, isActive: bool, acceptsOnlineBooking: bool)

  /** The action's `data` argument; an omitted optional field is `None`. */
  datatype BookingRequest = BookingRequest(coachId: string, bookingDate: string, startTime: string, endTime: string,
                                           durationHours: real, notes: Option<string>, sessionType: Option<string>,
                                           attendeesCount: Option<int>)

  /** The row inserted into `coach_bookings`. */
  datatype BookingInsert = BookingInsert(coachId: string, userId: string, bookingDate: string, startTime: string,
                                         endTime: string, durationHours: real, pricePerHour: real, totalPrice: real,
                                         currency: string, status: string, notes: Option<string>,
                                         sessionType: string, attendeesCount: int)

  /** `v || fallback` for an optional string: the empty string is falsy. */
  function StringOr(v: Option<string>, fallback: string): (r: string)
    ensures v.Some? && v.value != "" ==> r == v.value
    ensures v.None? || v.value == "" ==> r == fallback
  {
    if v.Some? && v.value != "" then v.value else fallback
  }

  /**
   * `createCoachBooking(data)`. `user` is the signed-in user's id, `coach`
   * the coach lookup (`None` on an error or no row), `table` what the
   * availability query returns and `insertFails` whether the insert errs.
   */
  method CreateCoachBooking(user: Option<string>, data: BookingRequest, coach: Option<Coach>,
                            table: Result<seq<SlotRow>, string>, insertFails: bool) returns (r: Result<BookingInsert, string>)
    ensures user.None? ==> r == Err("Unauthorized: Please login to book a session.")
    ensures user.Some? && coach.None? ==> r == Err("Coach not found")
    ensures user.Some? && coach.Some? && !(coach.value.isActive && coach.value.acceptsOnlineBooking) ==>
      r == Err("Coach is not accepting bookings at this time")
    ensures var a := ExpectedAvailability(table, data.coachId, data.bookingDate, data.startTime, data.endTime);
      user.Some? && coach.Some? && coach.value.isActive && coach.value.acceptsOnlineBooking && !a.available ==>
        r == Err(StringOr(a.conflict, "Time slot not available"))
    ensures r.Ok? <==> user.Some? && coach.Some? && coach.value.isActive && coach.value.acceptsOnlineBooking
                       && ExpectedAvailability(table, data.coachId, data.bookingDate, data.startTime, data.endTime).available
                       && !insertFails
    ensures r.Ok? ==> && r.value.userId == user.value && r.value.coachId == data.coachId
                      && r.value.totalPrice == coach.value.pricePerHour * data.durationHours
                      && r.value.pricePerHour == coach.value.pricePerHour
                      && r.value.status == "pending"
                      && (data.sessionType.None? || data.sessionType == Some("") ==> r.value.sessionType == "private")
                      && (data.attendeesCount.None? || data.attendeesCount == Some(0) ==> r.value.attendeesCount == 1)
                      && (r.value.notes.Some? <==> data.notes.Some? && data.notes.value != "")
    ensures !insertFails && r.Err? ==> r.error != "Failed to create booking. Please try again."
  {
    if user.None? {
      return Err("Unauthorized: Please login to book a session.");
    }
    if coach.None? {
      return Err("Coach not found");
    }
    if !coach.value.isActive || !coach.value.acceptsOnlineBooking {
      return Err("Coach is not accepting bookings at this time");
    }
    var conflictCheck := CheckCoachAvailability(table, data.coachId, data.bookingDate, data.startTime, data.endTime);
    if !conflictCheck.available {
      AvailabilitySpec(table, data.coachId, data.bookingDate, data.startTime, data.endTime);
      return Err(StringOr(conflictCheck.conflict, "Time slot not available"));
    }
    var totalPrice := coach.value.pricePerHour * data.durationHours;
    if insertFails {
      return Err("Failed to create booking. Please try again.");
    }
    var attendees := if data.attendeesCount.None? || data.attendeesCount.value == 0 then 1 else data.attendeesCount.value;
    return Ok(BookingInsert(data.coachId, user.value, data.bookingDate, data.startTime, data.endTime,
                            data.durationHours, coach.value.pricePerHour, totalPrice, coach.value.currency, "pending",
                            if data.notes.Some? && data.notes.value != "" then data.notes else None,
                            StringOr(data.sessionType, "private"), attendees));
  }

  /** The `user_id, status` the cancel action selects. */
  datatype BookingOwner = BookingOwner(userId: string, status: string)

  /** The fields `cancelCoachBooking` writes. */
  datatype CancelUpdate = CancelUpdate(status: string, cancelledAt: string, cancellationReason: Option<string>,
                                       cancelledBy: string)

  /** `cancelCoachBooking(bookingId, reason)`; `nowIso` is `new Date().toISOString()`. */
  function CancelCoachBooking(user: Option<string>, booking: Option<BookingOwner>, reason: Option<string>,
                              nowIso: string, updateFails: bool): (r: Result<CancelUpdate, string>)
    ensures user.None? ==> r == Err("Unauthorized")
    ensures user.Some? && booking.None? ==> r == Err("Booking not found")
  {
    if user.None? then Err("Unauthorized")
    else if booking.None? then Err("Booking not found")
    else if booking.value.userId != user.value then Err("Unauthorized to cancel this booking")
    else if booking.value.status != "pending" then Err("Only pending bookings can be cancelled")
    else if updateFails then Err("Failed to cancel booking")
    else Ok(CancelUpdate("cancelled", nowIso, if reason.Some? && reason.value != "" then reason else None, user.value))
  }

  /**
   * Only the owner may cancel, only a pending booking, and the update
   * records who cancelled, when, and the reason (an empty one as null).
   */
  lemma CancelRule(user: Option<string>, booking: Option<BookingOwner>, reason: Option<string>, nowIso: string, updateFails: bool)
    ensures var r := CancelCoachBooking(user, booking, reason, nowIso, updateFails);
      && (r.Ok? <==> user.Some? && booking.Some? && booking.value.userId == user.value
                     && booking.value.status == "pending" && !updateFails)
      && (user.Some? && booking.Some? && booking.value.userId != user.value ==> r == Err("Unauthorized to cancel this booking"))
      && (user.Some? && booking.Some? && booking.value.userId == user.value && booking.value.status != "pending" ==>
            r == Err("Only pending bookings can be cancelled"))
      && (r.Ok? ==> r.value.status == "cancelled" && r.value.cancelledBy == user.value && r.value.cancelledAt == nowIso
                    && (r.value.cancellationReason.Some? <==> reason.Some? && reason.value != "")
                    && (r.value.cancellationReason.Some? ==> r.value.cancellationReason == reason))
  {
  }

  /** `updateData`: the new status, and the payment stamp when it is 'confirmed'. */
  method StatusUpdateData(status: string, nowIso: string) returns (updateData: map<string, string>)
    ensures "status" in updateData && updateData["status"] == status
    ensures "payment_confirmed_at" in updateData <==> status == "confirmed"
    ensures "payment_confirmed_at" in updateData ==> updateData["payment_confirmed_at"] == nowIso
    ensures updateData.Keys <= {"status", "payment_confirmed_at"}
  {
    updateData := map["status" := status];
    if status == "confirmed" {
      updateData := updateData["payment_confirmed_at" := nowIso];
    }
  }

  /**
   * `updateCoachBookingStatus(bookingId, status)`. `booking` is the lookup
   * (`None` on an error or no row) holding the coach's `user_id` when the
   * relation has one, `role` the caller's `users.role` when readable.
   */
  method UpdateCoachBookingStatus(user: Option<string>, booking: Option<Option<string>>, role: Option<string>,
                                  status: string, nowIso: string, updateFails: bool)
    returns (r: Result<map<string, string>, string>)
    ensures user.None? ==> r == Err("Unauthorized")
    ensures user.Some? && booking.None? ==> r == Err("Booking not found")
    ensures user.Some? && booking.Some? && role != Some("admin") && booking.value != Some(user.value) ==>
      r == Err("Unauthorized to update this booking")
    ensures r.Ok? <==> user.Some? && booking.Some? && (role == Some("admin") || booking.value == Some(user.value))
                       && !updateFails
    ensures r.Ok? ==> && r.value.Keys <= {"status", "payment_confirmed_at"}
                      && "status" in r.value && r.value["status"] == status
                      && ("payment_confirmed_at" in r.value <==> status == "confirmed")
                      && ("payment_confirmed_at" in r.value ==> r.value["payment_confirmed_at"] == nowIso)
  {
    if user.None? {
      return Err("Unauthorized");
    }
    if booking.None? {
      return Err("Booking not found");
    }
    var isAdmin := role == Some("admin");
    var isCoach := booking.value == Some(user.value);
    if !isAdmin && !isCoach {
      return Err("Unauthorized to update this booking");
    }
    var updateData := StatusUpdateData(status, nowIso);
    if updateFails {
      return Err("Failed to update booking status");
    }
    return Ok(updateData);
  }
}
