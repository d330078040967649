/**
 * `src/lib/api/bookings.ts`: the court-booking rules. Three things are
 * modelled. First, the availability check that guards every new booking.
 * Second, the create and cancel guard chains. Third, the hourly slot grid
 * shown for a court on one day.
 *
 * Each Supabase query is replaced by what it yields: the `bookings` rows it
 * scans (`Err` when the query fails), the court's price, the signed-in user.
 */
module Bookings {
  import opened Wrappers
  import opened Strings
  import opened JsValues
  import opened Arith

  /** A row of the `bookings` table, with the columns these rules read. */
  datatype BookingRow = BookingRow(id: string, courtId: string, userId: string,
                                   bookingDate: string, startTime: string, status: string)

  /** Pending and confirmed bookings hold their slot (`.in('status', ['pending', 'confirmed'])`). */
  predicate HoldsSlot(b: BookingRow) {
    b.status == "pending" || b.status == "confirmed"
  }

  predicate Blocks(b: BookingRow, courtId: string, date: string, startTime: string) {
    b.courtId == courtId && b.bookingDate == date && b.startTime == startTime && HoldsSlot(b)
  }

  /** The rows the availability query selects. */
  function Blocking(rows: seq<BookingRow>, courtId: string, date: string, startTime: string): (r: seq<BookingRow>)
    ensures forall b :: b in r ==> b in rows && Blocks(b, courtId, date, startTime)
    ensures forall b :: b in rows && Blocks(b, courtId, date, startTime) ==> b in r
  {
    if rows == [] then []
    else
      var rest := Blocking(rows[1..], courtId, date, startTime);
      assert forall b :: b in rows ==> b == rows[0] || b in rows[1..];
      if Blocks(rows[0], courtId, date, startTime) then [rows[0]] + rest else rest
  }

  /**
   * `checkAvailability(courtId, date, startTime)`: the slot is free iff the
   * query succeeds and no pending or confirmed booking has that court, date
   * and start time. A query error counts as taken.
   */
  function CheckAvailability(table: Result<seq<BookingRow>, string>, courtId: string, date: string, startTime: string): (r: bool)
    ensures r <==> table.Ok? && forall b :: b in table.value ==> !Blocks(b, courtId, date, startTime)
  {
    match table
    case Err(_) => false
    case Ok(rows) =>
      var found := Blocking(rows, courtId, date, startTime);
      assert found != [] ==> found[0] in found;
      |found| == 0
  }

  /** `CreateBookingData`. */
  datatype CreateBookingData = CreateBookingData(courtId: string, bookingDate: string, startTime: string,
                                                 endTime: string, durationHours: real, notes: Option<string>)

  /** The record `createBooking` inserts. */
  datatype BookingInsert = BookingInsert(courtId: string, userId: string, bookingDate: string, startTime: string,
                                         endTime: string, durationHours: real, totalPrice: real,
                                         notes: Option<string>, status: string)

  /**
   * `createBooking(bookingData)`. `firstCheck` and `secondCheck` are the
   * table as the two availability queries see it, `pricePerHour` the court
   * lookup (`None` on an error or a missing court), `insertError` the insert's
   * error message.
   */
  function CreateBooking(user: Option<string>, data: CreateBookingData, firstCheck: Result<seq<BookingRow>, string>,
                         pricePerHour: Option<real>, secondCheck: Result<seq<BookingRow>, string>,
                         insertError: Option<string>): (r: Result<BookingInsert, string>)
    ensures user.None? ==> r == Err("Not authenticated")
    ensures r.Ok? ==> pricePerHour.Some? && r.value.status == "pending"
    ensures r.Ok? && pricePerHour.Some? ==> r.value.totalPrice == pricePerHour.value * data.durationHours
  {
    if user.None? then Err("Not authenticated")
    else if !CheckAvailability(firstCheck, data.courtId, data.bookingDate, data.startTime) then Err("Time slot is not available")
    else if pricePerHour.None? then Err("Court not found")
    else if !CheckAvailability(secondCheck, data.courtId, data.bookingDate, data.startTime) then
      Err("Time slot was just taken. Please try another time.")
    else if insertError.Some? then Err(insertError.value)
    else
      Ok(BookingInsert(data.courtId, user.value, data.bookingDate, data.startTime, data.endTime,
                       data.durationHours, pricePerHour.value * data.durationHours, data.notes, "pending"))
  }

  /**
   * A booking is inserted only for a signed-in user, after both availability
   * checks found the slot free and the court was found; it belongs to that
   * user and is for the requested court, date and times.
   */
  lemma CreateBookingChecks(user: Option<string>, data: CreateBookingData, firstCheck: Result<seq<BookingRow>, string>,
                            pricePerHour: Option<real>, secondCheck: Result<seq<BookingRow>, string>, insertError: Option<string>)
    ensures var r := CreateBooking(user, data, firstCheck, pricePerHour, secondCheck, insertError);
      r.Ok? <==>
        && user.Some?
        && CheckAvailability(firstCheck, data.courtId, data.bookingDate, data.startTime)
        && pricePerHour.Some?
        && CheckAvailability(secondCheck, data.courtId, data.bookingDate, data.startTime)
        && insertError.None?
    ensures var r := CreateBooking(user, data, firstCheck, pricePerHour, secondCheck, insertError);
      r.Ok? ==> r.value.userId == user.value && r.value.courtId == data.courtId
                && r.value.bookingDate == data.bookingDate && r.value.startTime == data.startTime
                && r.value.endTime == data.endTime && r.value.notes == data.notes
    ensures var r := CreateBooking(user, data, firstCheck, pricePerHour, secondCheck, insertError);
      user.Some? && CheckAvailability(firstCheck, data.courtId, data.bookingDate, data.startTime) && pricePerHour.Some?
      && !CheckAvailability(secondCheck, data.courtId, data.bookingDate, data.startTime) ==>
        r == Err("Time slot was just taken. Please try another time.")
  {
  }

  /** The row an inserted booking becomes. */
  function RowOf(id: string, b: BookingInsert): BookingRow {
    BookingRow(id, b.courtId, b.userId, b.bookingDate, b.startTime, b.status)
  }

  /**
   * Once a booking is stored, the same slot cannot be booked again: a second
   * request for it, by anyone, is refused at the first availability check.
   */
  lemma SlotCannotBeBookedTwice(user: Option<string>, data: CreateBookingData, rows: seq<BookingRow>,
                                pricePerHour: Option<real>, secondCheck: Result<seq<BookingRow>, string>,
                                insertError: Option<string>, id: string,
                                other: Option<string>, data2: CreateBookingData,
                                price2: Option<real>, check2: Result<seq<BookingRow>, string>, error2: Option<string>)
    requires CreateBooking(user, data, Ok(rows), pricePerHour, secondCheck, insertError).Ok?
    requires other.Some?
    requires data2.courtId == data.courtId && data2.bookingDate == data.bookingDate && data2.startTime == data.startTime
    ensures var stored := RowOf(id, CreateBooking(user, data, Ok(rows), pricePerHour, secondCheck, insertError).value);
      CreateBooking(other, data2, Ok(rows + [stored]), price2, check2, error2) == Err("Time slot is not available")
  {
    var stored := RowOf(id, CreateBooking(user, data, Ok(rows), pricePerHour, secondCheck, insertError).value);
    assert stored in rows + [stored];
    assert Blocks(stored, data2.courtId, data2.bookingDate, data2.startTime);
  }

  // ---------------------------------------------------------------- cancel

  /** Two hours in milliseconds. */
  const TwoHoursMs := 2 * 60 * 60 * 1000

  datatype CancelResult =
    | Cancelled(bookingId: string)
    | Refused(error: string)

  /**
   * `cancelBooking(id)`. `booking` is what `getBookingById` returns, `role`
   * the caller's `users.role` (looked up only for a non-owner), `startAt` the
   * booking's start instant in milliseconds (`None` when
   * `new Date(date + 'T' + time)` is invalid), `now` the current instant, and
   * `updateError` the outcome of `updateBookingStatus(id, 'cancelled')`.
   */
  function CancelBooking(user: Option<string>, id: string, booking: Option<BookingRow>, role: Option<string>,
                         startAt: Option<int>, now: int, updateError: Option<string>): (r: CancelResult)
    ensures user.None? ==> r == Refused("Not authenticated")
    ensures user.Some? && booking.None? ==> r == Refused("Booking not found")
    ensures r.Cancelled? ==> r.bookingId == id
  {
    if user.None? then Refused("Not authenticated")
    else if booking.None? then Refused("Booking not found")
    else if booking.value.userId != user.value && role != Some("admin") then
      Refused("Not authorized to cancel this booking")
    else if startAt.Some? && ((startAt.value - now) as real) / (60.0 * 60.0 * 1000.0) < 2.0
            && booking.value.userId == user.value then
      Refused("Cannot cancel booking less than 2 hours before start time")
    else if updateError.Some? then Refused(updateError.value)
    else Cancelled(id)
  }

  /**
   * A cancellation goes through iff the caller is signed in, the booking
   * exists, the caller owns it or is an admin, and the owner is at least two
   * hours before the start. An unparsable start skips the time rule, because
   * a NaN difference is never below 2.
   */
  lemma CancelRule(user: Option<string>, id: string, booking: Option<BookingRow>, role: Option<string>,
                   startAt: Option<int>, now: int, updateError: Option<string>)
    ensures var r := CancelBooking(user, id, booking, role, startAt, now, updateError);
      r.Cancelled? <==>
        && user.Some? && booking.Some?
        && (booking.value.userId == user.value || role == Some("admin"))
        && (booking.value.userId == user.value && startAt.Some? ==> startAt.value - now >= TwoHoursMs)
        && updateError.None?
  {
    if startAt.Some? {
      var d := (startAt.value - now) as real;
      assert d / 3600000.0 < 2.0 <==> d < 7200000.0;
    }
  }

  /**
   * An admin cancelling someone else's booking is not bound by the two-hour
   * rule: it goes through however close the start is.
   */
  lemma AdminIgnoresTwoHourRule(admin: string, id: string, booking: BookingRow, startAt: Option<int>, now: int)
    requires booking.userId != admin
    ensures CancelBooking(Some(admin), id, Some(booking), Some("admin"), startAt, now, None) == Cancelled(id)
  {
  }

  // ---------------------------------------------------------------- slots

  /** The active `operational_hours` row for the date's day of the week. */
  datatype OperationalHours = OperationalHours(openTime: string, closeTime: string)

  datatype Slot = Slot(time: string, available: bool)

  /** `parseInt(t.split(':')[0])`. */
  function HourOf(t: string): Option<int> {
    ParseInt(Split(t, ':')[0])
  }

  /** `` `${hour.toString().padStart(2, '0')}:00` `` for an integer hour. */
  function SlotLabel(hour: int): (r: string)
    ensures |r| >= 5 && r[|r| - 3..] == ":00"
    ensures 0 <= hour < 100 ==> |r| == 5
  {
    (if hour >= 0 then Pad2(hour) else "-" + NatToString(-hour)) + ":00"
  }

  /** `bookings?.some(b => b.start_time === label)`: false when the query yielded nothing. */
  predicate Booked(bookings: Option<seq<string>>, time: string) {
    bookings.Some? && time in bookings.value
  }

  /** The slots for the hours `hour`, `hour + 1`, ..., `close - 1`. */
  function SlotsFrom(hour: int, close: int, bookings: Option<seq<string>>): (r: seq<Slot>)
    ensures |r| == Max(0, close - hour)
    decreases close - hour
  {
    if hour >= close then []
    else [Slot(SlotLabel(hour), !Booked(bookings, SlotLabel(hour)))] + SlotsFrom(hour + 1, close, bookings)
  }

  /** What `getAvailableSlots` returns, given the two queries' results. */
  function AvailableSlots(bookings: Option<seq<string>>, hours: Option<OperationalHours>): seq<Slot> {
    if hours.None? then []
    else
      var open, close := HourOf(hours.value.openTime), HourOf(hours.value.closeTime);
      // `NaN < x` is false: with an unparsable hour the loop does not run
      if open.None? || close.None? then [] else SlotsFrom(open.value, close.value, bookings)
  }

  lemma {:induction false} SlotsFromSnoc(hour: int, close: int, bookings: Option<seq<string>>)
    requires hour < close
    ensures SlotsFrom(hour, close, bookings) ==
      SlotsFrom(hour, close - 1, bookings) + [Slot(SlotLabel(close - 1), !Booked(bookings, SlotLabel(close - 1)))]
    decreases close - hour
  {
    if hour < close - 1 {
      SlotsFromSnoc(hour + 1, close, bookings);
    }
  }

  /** The `k`-th slot from `hour` is the one for hour `hour + k`. */
  lemma {:induction false} SlotsFromAt(hour: int, close: int, bookings: Option<seq<string>>, k: nat)
    requires k < close - hour
    ensures SlotsFrom(hour, close, bookings)[k] == Slot(SlotLabel(hour + k), !Booked(bookings, SlotLabel(hour + k)))
    decreases k
  {
    if k > 0 {
      SlotsFromAt(hour + 1, close, bookings, k - 1);
    }
  }

  /** `getAvailableSlots(courtId, date)`: one slot per opening hour, pushed in order. */
  method GetAvailableSlots(bookings: Option<seq<string>>, hours: Option<OperationalHours>) returns (slots: seq<Slot>)
    ensures slots == AvailableSlots(bookings, hours)
  {
    if hours.None? {
      return [];
    }
    var openHour := HourOf(hours.value.openTime);
    var closeHour := HourOf(hours.value.closeTime);
    if openHour.None? || closeHour.None? {
      return [];
    }
    slots := HourlySlots(openHour.value, closeHour.value, bookings);
  }

  /** The `for (let hour = openHour; hour < closeHour; hour++)` loop. */
  method HourlySlots(open: int, close: int, bookings: Option<seq<string>>) returns (slots: seq<Slot>)
    ensures slots == SlotsFrom(open, close, bookings)
  {
    slots := [];
    var hour := open;
    while hour < close
      invariant open <= hour && (hour <= close || hour == open)
      invariant slots == SlotsFrom(open, hour, bookings)
      decreases close - hour
    {
      var timeSlot := SlotLabel(hour);
      var isBooked := bookings.Some? && timeSlot in bookings.value;
      SlotsFromSnoc(open, hour + 1, bookings);
      slots := slots + [Slot(timeSlot, !isBooked)];
      hour := hour + 1;
    }
  }

  /**
   * There is one slot per hour `h` with `open <= h < close`, in ascending
   * order: slot `k` is hour `open + k`, labelled `HH:00`. A slot is available
   * iff no pending or confirmed booking starts exactly at its label. Without
   * operational hours there are no slots.
   */
  lemma SlotGrid(bookings: Option<seq<string>>, open: nat, close: nat, openTime: string, closeTime: string)
    requires HourOf(openTime) == Some(open as int) && HourOf(closeTime) == Some(close as int)
    ensures var slots := AvailableSlots(bookings, Some(OperationalHours(openTime, closeTime)));
      && |slots| == Max(0, close - open)
      && forall k :: 0 <= k < |slots| ==> SlotIsHour(slots[k], open + k, bookings)
    ensures AvailableSlots(bookings, None) == []
  {
    var slots := SlotsFrom(open, close, bookings);
    assert AvailableSlots(bookings, Some(OperationalHours(openTime, closeTime))) == slots;
    forall k | 0 <= k < |slots|
      ensures SlotIsHour(slots[k], open + k, bookings)
    {
      SlotAt(open, close, bookings, k);
    }
  }

  lemma SlotAt(open: nat, close: nat, bookings: Option<seq<string>>, k: nat)
    requires k < close - open
    ensures SlotIsHour(SlotsFrom(open, close, bookings)[k], open + k, bookings)
  {
    SlotsFromAt(open, close, bookings, k);
    SlotLabelReadsBack(open + k);
  }

  /**
   * The slot for hour `h`: labelled `HH:00` where `HH` reads back as `h`,
   * and available iff no booking starts exactly at that label.
   */
  predicate SlotIsHour(slot: Slot, h: nat, bookings: Option<seq<string>>) {
    && slot.time == Pad2(h) + ":00"
    && DigitsValue(slot.time[..|slot.time| - 3]) == h
    && (slot.available <==> bookings.None? || forall s :: s in bookings.value ==> s != slot.time)
  }

  lemma SlotLabelReadsBack(h: nat)
    ensures DigitsValue(SlotLabel(h)[..|SlotLabel(h)| - 3]) == h
  {
    var text := SlotLabel(h);
    assert text[..|text| - 3] == Pad2(h);
    Pad2RoundTrip(h);
  }

  /** Hours stored as `HH:MM:SS` (or any `HH:` prefix) are read as the hour `HH`. */
  lemma StoredHourParses(n: nat, rest: string)
    ensures HourOf(Pad2(n) + ":" + rest) == Some(n as int)
  {
    var p := Pad2(n);
    assert ':' !in p;
    SplitHead(p, ':', rest);
    ParseIntOfDigits(n, "");
    assert p + "" == p;
  }
}
