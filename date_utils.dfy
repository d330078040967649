/**
 * `src/lib/date-utils.ts`: whether a booking date and start time lie in the
 * future, as seen from the venue's time zone.
 *
 * The time-zone library is an input: `toZoned(tz)` is what
 * `toZonedTime(new Date(), tz)` yields. It is `None` when the call throws.
 * The resulting clock carries what `format(..., 'yyyy-MM-dd')`, `getHours`
 * and `getMinutes` read from it.
 */
module DateUtils {
  import opened Wrappers
  import opened Strings
  import opened JsValues

  const DefaultTimeZone := "Asia/Jakarta"

  /**
   * The venue's wall clock: the calendar date as `format` renders it (`None`
   * when formatting throws, as it does for an invalid date), the hour and
   * the minute.
   */
  datatype VenueClock = VenueClock(date: Option<string>, hour: nat, minute: nat)

  /** `getVenueCurrentTime(timezone)`: the zone's clock, else Asia/Jakarta's. */
  function GetVenueCurrentTime(timezone: string, toZoned: string -> Option<VenueClock>): (r: Option<VenueClock>)
    ensures toZoned(timezone).Some? ==> r == toZoned(timezone)
    ensures toZoned(timezone).None? ==> r == toZoned(DefaultTimeZone)
  {
    match toZoned(timezone)
    case Some(clock) => Some(clock)
    case None => toZoned(DefaultTimeZone)
  }

  datatype Validation = Valid | Invalid(error: string)

  const SystemError := "System error validating time. Please contact support."

  /** `startTimeStr.split(':').map(Number)`, first two elements (`undefined` is NaN). */
  function StartParts(startTime: string): (Number, Number) {
    var parts := Split(startTime, ':');
    (StringToNumber(parts[0]), if |parts| > 1 then StringToNumber(parts[1]) else NaN)
  }

  /** The time test on today's date: the start is earlier than the current minute. */
  predicate StartsBefore(startTime: string, hour: nat, minute: nat) {
    var (bookingHour, bookingMinute) := StartParts(startTime);
    Greater(Finite(hour as real), bookingHour)
    || (bookingHour == Finite(hour as real) && Greater(Finite(minute as real), bookingMinute))
  }

  /** `validateBookingTime(bookingDateStr, startTimeStr, timezone)`. */
  function ValidateBookingTime(bookingDate: string, startTime: string, timezone: string,
                               toZoned: string -> Option<VenueClock>): (r: Validation)
    ensures GetVenueCurrentTime(timezone, toZoned).None? ==> r == Invalid(SystemError)
    ensures r.Valid? ==> var clock := GetVenueCurrentTime(timezone, toZoned).value;
      clock.date.Some? && !LexLess(bookingDate, clock.date.value)
  {
    match GetVenueCurrentTime(timezone, toZoned)
    case None => Invalid(SystemError)     // the exception is caught
    case Some(clock) =>
      match clock.date
      case None => Invalid(SystemError)
      case Some(today) =>
        if LexLess(bookingDate, today) then
          Invalid("Cannot book for a past date (" + bookingDate + "). Today is " + today + " in venue timezone.")
        else if bookingDate == today && StartsBefore(startTime, clock.hour, clock.minute) then
          Invalid("Cannot book for a past time (" + startTime + "). Current time at venue is "
                  + Pad2(clock.hour) + ":" + Pad2(clock.minute) + ".")
        else Valid
  }

  /** A date before the venue's today (as strings) is refused whatever the time. */
  lemma PastDateInvalid(bookingDate: string, startTime: string, timezone: string,
                        toZoned: string -> Option<VenueClock>, clock: VenueClock)
    requires GetVenueCurrentTime(timezone, toZoned) == Some(clock) && clock.date.Some?
    requires LexLess(bookingDate, clock.date.value)
    ensures ValidateBookingTime(bookingDate, startTime, timezone, toZoned) ==
      Invalid("Cannot book for a past date (" + bookingDate + "). Today is " + clock.date.value + " in venue timezone.")
  {
  }

  /**
   * A date after the venue's today is accepted whatever the start time:
   * the time is checked only when the dates are equal.
   */
  lemma FutureDateValid(bookingDate: string, startTime: string, timezone: string,
                        toZoned: string -> Option<VenueClock>, clock: VenueClock)
    requires GetVenueCurrentTime(timezone, toZoned) == Some(clock) && clock.date.Some?
    requires LexLess(clock.date.value, bookingDate)
    ensures ValidateBookingTime(bookingDate, startTime, timezone, toZoned) == Valid
  {
    LexLessTrichotomy(clock.date.value, bookingDate);
  }

  /**
   * On today's date a start given as `HH:MM` is refused iff it is earlier
   * than the current hour and minute; the current minute itself is accepted.
   */
  lemma TodayTimeRule(h: nat, m: nat, rest: string, timezone: string,
                      toZoned: string -> Option<VenueClock>, clock: VenueClock)
    requires GetVenueCurrentTime(timezone, toZoned) == Some(clock) && clock.date.Some?
    requires rest == [] || rest[0] == ':'
    ensures var r := ValidateBookingTime(clock.date.value, Pad2(h) + ":" + Pad2(m) + rest, timezone, toZoned);
      r.Valid? <==> (h > clock.hour || (h == clock.hour && m >= clock.minute))
  {
    var start := Pad2(h) + ":" + Pad2(m) + rest;
    SameDayRule(start, timezone, toZoned, clock);
    StartPartsOf(h, m, rest);
    assert StartsBefore(start, clock.hour, clock.minute) <==> !(h > clock.hour || (h == clock.hour && m >= clock.minute));
  }

  /** On the venue's today, the result depends on the start time alone. */
  lemma SameDayRule(startTime: string, timezone: string, toZoned: string -> Option<VenueClock>, clock: VenueClock)
    requires GetVenueCurrentTime(timezone, toZoned) == Some(clock) && clock.date.Some?
    ensures ValidateBookingTime(clock.date.value, startTime, timezone, toZoned).Valid? <==>
      !StartsBefore(startTime, clock.hour, clock.minute)
  {
    LexLessTrichotomy(clock.date.value, clock.date.value);
  }

  /** `Number` reads the hour and minute of an `HH:MM[:...]` start back. */
  lemma StartPartsOf(h: nat, m: nat, rest: string)
    requires rest == [] || rest[0] == ':'
    ensures StartParts(Pad2(h) + ":" + Pad2(m) + rest) == (Finite(h as real), Finite(m as real))
  {
    var s := Pad2(h) + ":" + Pad2(m) + rest;
    var tail := Pad2(m) + rest;
    assert s == Pad2(h) + [':'] + tail;
    assert ':' !in Pad2(h) && ':' !in Pad2(m);
    SplitCons(Pad2(h), ':', tail);
    var parts := Split(s, ':');
    assert parts == [Pad2(h)] + Split(tail, ':');
    TailHead(m, rest);
    assert parts[0] == Pad2(h) && parts[1] == Pad2(m) && |parts| > 1;
    NumberOfPad2(h);
    NumberOfPad2(m);
  }

  lemma TailHead(m: nat, rest: string)
    requires rest == [] || rest[0] == ':'
    ensures Split(Pad2(m) + rest, ':')[0] == Pad2(m)
  {
    assert ':' !in Pad2(m);
    if rest == [] {
      assert Pad2(m) + rest == Pad2(m);
      SplitNoSeparator(Pad2(m), ':');
    } else {
      assert Pad2(m) + rest == Pad2(m) + [':'] + rest[1..];
      SplitHead(Pad2(m), ':', rest[1..]);
    }
  }

  /**
   * An invalid time zone falls back to Asia/Jakarta's clock; when no clock
   * can be had at all the check fails closed.
   */
  lemma InvalidZoneFallsBack(bookingDate: string, startTime: string, timezone: string,
                             toZoned: string -> Option<VenueClock>)
    requires toZoned(timezone).None?
    ensures ValidateBookingTime(bookingDate, startTime, timezone, toZoned) ==
      ValidateBookingTime(bookingDate, startTime, DefaultTimeZone, toZoned)
    ensures toZoned(DefaultTimeZone).None? ==>
      ValidateBookingTime(bookingDate, startTime, timezone, toZoned) == Invalid(SystemError)
  {
  }
}
