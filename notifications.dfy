/**
 * `src/lib/notifications/service.ts`: in-app notifications, and the
 * booking-event notifications that are created at most once per user,
 * event type and booking.
 *
 * The `notifications` table is a sequence of rows passed in and returned;
 * whether the existence query or the insert fails is an input.
 */
module Notifications {
  import opened Wrappers
  import opened Strings

  /** `NotificationEventType`. */
  datatype NotificationType = BookingConfirmed | BookingCancelled | PaymentReminder | PointsEarned | System | Promo

  /** The booking fields a message reads; `None` is null or absent. */
  datatype BookingPayload = BookingPayload(id: string, userId: string, bookingDate: Option<string>,
                                           startTime: Option<string>, venueName: Option<string>,
                                           courtName: Option<string>)

  /** A `notifications` row; a metadata key whose value is undefined is absent. */
  datatype NotificationRow = NotificationRow(userId: string, kind: NotificationType, title: string, message: string,
                                             metadata: map<string, string>)

  /** A present, non-empty text (a truthy one). */
  predicate Truthy(s: Option<string>) {
    s.Some? && s.value != ""
  }

  /** `s || fallback`. */
  function OrElse(s: Option<string>, fallback: string): (r: string)
    ensures Truthy(s) ==> r == s.value
    ensures !Truthy(s) ==> r == fallback
  {
    if Truthy(s) then s.value else fallback
  }

  /** `startTime.slice(0, 5)`. */
  function Slice5(s: string): (r: string)
    ensures |r| == if |s| < 5 then |s| else 5
    ensures StartsWith(s, r)
  {
    if |s| < 5 then s else s[..5]
  }

  /**
   * `formatScheduleLabel`: none without a date, the date alone without a
   * time, else the date, a space and the time cut to `HH:MM`.
   */
  function FormatScheduleLabel(bookingDate: Option<string>, startTime: Option<string>): (r: Option<string>)
    ensures r.None? <==> !Truthy(bookingDate)
    ensures r.Some? ==> StartsWith(r.value, bookingDate.value)
    ensures r.Some? && !Truthy(startTime) ==> r.value == bookingDate.value
    ensures r.Some? && Truthy(startTime) ==> |r.value| <= |bookingDate.value| + 6
  {
    if !Truthy(bookingDate) then None
    else if !Truthy(startTime) then Some(bookingDate.value)
    else Some(bookingDate.value + " " + Slice5(startTime.value))
  }

  /** A database time `HH:MM:SS` shows as `HH:MM`, seconds dropped. */
  lemma ScheduleOfStoredTime(date: string, time: string)
    requires date != "" && |time| == 8
    ensures FormatScheduleLabel(Some(date), Some(time)) == Some(date + " " + time[..5])
  {
  }

  /** The title and message of a booking notification. */
  datatype Message = Message(title: string, message: string)

  /** The title of each event; `payment_reminder` is also the default. */
  function TitleOf(t: NotificationType): string {
    match t
    case BookingConfirmed => "Booking Dikonfirmasi"
    case BookingCancelled => "Booking Dibatalkan"
    case _ => "Pengingat Pembayaran"
  }

  /** The text up to where the schedule clause goes. */
  function MessageHead(t: NotificationType, courtLabel: string, venueLabel: string): string {
    match t
    case BookingConfirmed => "Booking " + courtLabel + " di " + venueLabel
    case BookingCancelled => "Booking " + courtLabel + " di " + venueLabel
    case _ => "Segera selesaikan pembayaran booking " + courtLabel + " di " + venueLabel
  }

  /** The schedule clause: ` untuk <label>`, or ` (<label>)` in a reminder. */
  function ScheduleClause(t: NotificationType, schedule: string): string {
    match t
    case BookingConfirmed => " untuk " + schedule
    case BookingCancelled => " untuk " + schedule
    case _ => " (" + schedule + ")"
  }

  /** The text after the schedule clause. */
  function MessageTail(t: NotificationType): string {
    match t
    case BookingConfirmed => " sudah dikonfirmasi."
    case BookingCancelled => " dibatalkan."
    case _ => " agar tidak dibatalkan otomatis."
  }

  /**
   * `buildBookingNotificationMessage`: the event's title, and a message
   * naming the court (`lapangan pilihanmu` by default) and the venue
   * (`venue pilihanmu`), with a schedule clause iff the booking has a date.
   */
  function BuildBookingNotificationMessage(t: NotificationType, booking: BookingPayload): (m: Message)
    ensures t == BookingConfirmed ==> m.title == "Booking Dikonfirmasi"
    ensures t == BookingCancelled ==> m.title == "Booking Dibatalkan"
    ensures t != BookingConfirmed && t != BookingCancelled ==> m.title == "Pengingat Pembayaran"
  {
    var venueLabel := OrElse(booking.venueName, "venue pilihanmu");
    var courtLabel := OrElse(booking.courtName, "lapangan pilihanmu");
    var scheduleLabel := FormatScheduleLabel(booking.bookingDate, booking.startTime);
    var clause := if scheduleLabel.Some? then ScheduleClause(t, scheduleLabel.value) else "";
    Message(TitleOf(t), MessageHead(t, courtLabel, venueLabel) + clause + MessageTail(t))
  }

  /** Text after an occurrence keeps it. */
  lemma ContainsBefore(x: string, y: string, p: string)
    requires Contains(x, p)
    ensures Contains(x + y, p)
  {
    var i: nat :| i <= |x| && OccursAt(x, p, i);
    assert (x + y)[i..i + |p|] == x[i..i + |p|];
    assert OccursAt(x + y, p, i);
  }

  /** Text before an occurrence keeps it. */
  lemma ContainsAfter(x: string, y: string, p: string)
    requires Contains(y, p)
    ensures Contains(x + y, p)
  {
    var i: nat :| i <= |y| && OccursAt(y, p, i);
    assert (x + y)[|x| + i..|x| + i + |p|] == y[i..i + |p|];
    assert OccursAt(x + y, p, |x| + i);
  }

  /** The head names the court and the venue. */
  lemma HeadNamesCourtAndVenue(t: NotificationType, court: string, venue: string)
    ensures Contains(MessageHead(t, court, venue), court) && Contains(MessageHead(t, court, venue), venue)
  {
    var lead := if t.BookingConfirmed? || t.BookingCancelled? then "Booking " else "Segera selesaikan pembayaran booking ";
    var head := MessageHead(t, court, venue);
    assert head == lead + court + " di " + venue;
    assert OccursAt(head, court, |lead|);
    assert OccursAt(head, venue, |lead| + |court| + 4);
  }

  /** The clause names the schedule. */
  lemma ClauseNamesSchedule(t: NotificationType, schedule: string)
    ensures Contains(ScheduleClause(t, schedule), schedule)
  {
    var opening := if t.BookingConfirmed? || t.BookingCancelled? then " untuk " else " (";
    assert OccursAt(ScheduleClause(t, schedule), schedule, |opening|);
  }

  /** Every message names the court and the venue, and the schedule when there is one. */
  lemma MessageNamesBooking(t: NotificationType, booking: BookingPayload)
    ensures var m := BuildBookingNotificationMessage(t, booking).message;
      var schedule := FormatScheduleLabel(booking.bookingDate, booking.startTime);
      && Contains(m, OrElse(booking.courtName, "lapangan pilihanmu"))
      && Contains(m, OrElse(booking.venueName, "venue pilihanmu"))
      && (schedule.Some? ==> Contains(m, schedule.value))
  {
    var court := OrElse(booking.courtName, "lapangan pilihanmu");
    var venue := OrElse(booking.venueName, "venue pilihanmu");
    var schedule := FormatScheduleLabel(booking.bookingDate, booking.startTime);
    var clause := if schedule.Some? then ScheduleClause(t, schedule.value) else "";
    var head := MessageHead(t, court, venue);
    HeadNamesCourtAndVenue(t, court, venue);
    ContainsBefore(head, clause, court);
    ContainsBefore(head + clause, MessageTail(t), court);
    ContainsBefore(head, clause, venue);
    ContainsBefore(head + clause, MessageTail(t), venue);
    if schedule.Some? {
      ClauseNamesSchedule(t, schedule.value);
      ContainsAfter(head, clause, schedule.value);
      ContainsBefore(head + clause, MessageTail(t), schedule.value);
    }
  }

  /** The message without a date is the same text with the schedule clause left out. */
  lemma ScheduleClauseOnlyDifference(t: NotificationType, booking: BookingPayload)
    requires Truthy(booking.bookingDate)
    ensures var undated := booking.(bookingDate := None);
      var schedule := FormatScheduleLabel(booking.bookingDate, booking.startTime).value;
      var head := MessageHead(t, OrElse(booking.courtName, "lapangan pilihanmu"), OrElse(booking.venueName, "venue pilihanmu"));
      && BuildBookingNotificationMessage(t, undated).message == head + MessageTail(t)
      && BuildBookingNotificationMessage(t, booking).message == head + ScheduleClause(t, schedule) + MessageTail(t)
  {
    var head := MessageHead(t, OrElse(booking.courtName, "lapangan pilihanmu"), OrElse(booking.venueName, "venue pilihanmu"));
    assert head + "" == head;
  }

  /** What `createNotification` and `createBookingEventNotification` answer. */
  datatype Outcome = Outcome(success: bool, skipped: bool, error: Option<string>)

  /**
   * `createNotification`: one row is inserted, with metadata `{}` when none
   * is given; `insertError` is the insert's error message, if it fails.
   */
  function CreateNotification(table: seq<NotificationRow>, userId: string, t: NotificationType, title: string,
                              message: string, metadata: Option<map<string, string>>,
                              insertError: Option<string>): (r: (Outcome, seq<NotificationRow>))
    ensures insertError.Some? ==> r.0 == Outcome(false, false, insertError) && r.1 == table
    ensures insertError.None? ==> && r.0 == Outcome(true, false, None)
                                  && |r.1| == |table| + 1 && r.1[..|table|] == table
                                  && r.1[|table|].userId == userId && r.1[|table|].kind == t
                                  && r.1[|table|].title == title && r.1[|table|].message == message
                                  && r.1[|table|].metadata == (if metadata.Some? then metadata.value else map[])
  {
    if insertError.Some? then (Outcome(false, false, insertError), table)
    else
      var row := NotificationRow(userId, t, title, message, if metadata.Some? then metadata.value else map[]);
      assert (table + [row])[..|table|] == table;
      (Outcome(true, false, None), table + [row])
  }

  /** The (user, type, booking) key a row counts for, if it names a booking. */
  predicate HasKey(row: NotificationRow, userId: string, t: NotificationType, bookingId: string) {
    row.userId == userId && row.kind == t && "booking_id" in row.metadata && row.metadata["booking_id"] == bookingId
  }

  /** The set of (user, type, booking) keys in the table. */
  function Keys(table: seq<NotificationRow>): (keys: set<(string, NotificationType, string)>)
    ensures forall u, t, b :: (u, t, b) in keys <==> exists k :: 0 <= k < |table| && HasKey(table[k], u, t, b)
  {
    if table == [] then {}
    else
      var row := table[|table| - 1];
      var prefix := Keys(table[..|table| - 1]);
      assert forall k :: 0 <= k < |table| - 1 ==> table[k] == table[..|table| - 1][k];
      if "booking_id" in row.metadata then prefix + {(row.userId, row.kind, row.metadata["booking_id"])} else prefix
  }

  /**
   * `bookingNotificationExists`: a matching row exists; a failed query
   * counts as no row.
   */
  predicate NotificationExists(table: seq<NotificationRow>, userId: string, t: NotificationType, bookingId: string,
                               queryFails: bool) {
    !queryFails && (userId, t, bookingId) in Keys(table)
  }

  /** The metadata of a booking notification: undefined fields are left out. */
  function BookingMetadata(booking: BookingPayload): (m: map<string, string>)
    ensures "booking_id" in m && m["booking_id"] == booking.id
    ensures "notification_source" in m && m["notification_source"] == "booking_event"
    ensures "booking_date" in m <==> booking.bookingDate.Some?
    ensures "court_name" in m <==> booking.courtName.Some?
    ensures "venue_name" in m <==> booking.venueName.Some?
  {
    var m0 := map["booking_id" := booking.id, "notification_source" := "booking_event"];
    var m1 := if booking.bookingDate.Some? then m0["booking_date" := booking.bookingDate.value] else m0;
    var m2 := if booking.courtName.Some? then m1["court_name" := booking.courtName.value] else m1;
    if booking.venueName.Some? then m2["venue_name" := booking.venueName.value] else m2
  }

  /**
   * `createBookingEventNotification`: skipped when a notification for the
   * same user, type and booking exists, else created with the booking's
   * message and metadata.
   */
  function CreateBookingEventNotification(table: seq<NotificationRow>, t: NotificationType, booking: BookingPayload,
                                          queryFails: bool, insertError: Option<string>)
    : (r: (Outcome, seq<NotificationRow>))
    ensures NotificationExists(table, booking.userId, t, booking.id, queryFails) ==>
      r.0 == Outcome(true, true, None) && r.1 == table
    ensures !NotificationExists(table, booking.userId, t, booking.id, queryFails) && insertError.None? ==>
      && r.0 == Outcome(true, false, None) && |r.1| == |table| + 1 && r.1[..|table|] == table
      && r.1[|table|] == NotificationRow(booking.userId, t, BuildBookingNotificationMessage(t, booking).title,
                                         BuildBookingNotificationMessage(t, booking).message, BookingMetadata(booking))
    ensures !NotificationExists(table, booking.userId, t, booking.id, queryFails) && insertError.Some? ==>
      r.0 == Outcome(false, false, insertError) && r.1 == table
  {
    if NotificationExists(table, booking.userId, t, booking.id, queryFails) then (Outcome(true, true, None), table)
    else
      var m := BuildBookingNotificationMessage(t, booking);
      CreateNotification(table, booking.userId, t, m.title, m.message, Some(BookingMetadata(booking)), insertError)
  }

  /**
   * Idempotence: once the notification is in the table, the same event
   * again (with the query working) is skipped and changes nothing.
   */
  lemma EventNotifiedOnce(table: seq<NotificationRow>, t: NotificationType, booking: BookingPayload, queryFails: bool)
    ensures var first := CreateBookingEventNotification(table, t, booking, queryFails, None);
      var second := CreateBookingEventNotification(first.1, t, booking, false, None);
      && (booking.userId, t, booking.id) in Keys(first.1)
      && second == (Outcome(true, true, None), first.1)
  {
    var first := CreateBookingEventNotification(table, t, booking, queryFails, None);
    if !NotificationExists(table, booking.userId, t, booking.id, queryFails) {
      assert HasKey(first.1[|table|], booking.userId, t, booking.id);
    }
  }

  /** A failed existence query lets a duplicate through: the row is inserted again. */
  lemma FailedQueryInserts(table: seq<NotificationRow>, t: NotificationType, booking: BookingPayload)
    requires (booking.userId, t, booking.id) in Keys(table)
    ensures var r := CreateBookingEventNotification(table, t, booking, true, None);
      !r.0.skipped && |r.1| == |table| + 1
  {
  }

  /** Notifications for another type or booking do not stop this one. */
  lemma OtherEventsDoNotBlock(table: seq<NotificationRow>, t: NotificationType, booking: BookingPayload)
    requires forall k :: 0 <= k < |table| ==> table[k].kind != t
    ensures !CreateBookingEventNotification(table, t, booking, false, None).0.skipped
  {
  }
}
