/**
 * `src/app/api/external/v1/bookings/route.ts`: the partner API that books a
 * court for a walk-in customer. The API-key check, `request.json()`, the
 * first `users` row and the insert's error are inputs. `show` renders the
 * values whose JavaScript string form the model does not fix (objects,
 * arrays, fractional and negative numbers).
 */
module ExternalBookingsRoute {
  import opened Wrappers
  import opened Strings
  import opened JsValues

  /** The record inserted into `bookings`. */
  datatype BookingPayload = BookingPayload(courtId: JsValue, bookingDate: JsValue, startTime: string,
                                           endTime: string, duration: JsValue, totalPrice: JsValue,
                                           status: string, notes: string, userId: Option<string>)

  datatype Response =
    | Failure(status: int, error: string)
    | Created(payload: BookingPayload)

  /** A value interpolated into a template literal. */
  function TemplateText(v: JsValue, show: JsValue -> string): (r: string)
    ensures v.Str? ==> r == v.s
    ensures v.Undefined? ==> r == "undefined"
  {
    match v
    case Undefined => "undefined"
    case Null => "null"
    case Bool(b) => if b then "true" else "false"
    case Num(n) => NumberText(n, show)
    case Str(s) => s
    case _ => show(v)
  }

  /**
   * `String(hours + duration)`: a numeric sum, or string concatenation when
   * `duration` is a string (or an object, rendered by `show`).
   */
  function EndHoursText(hours: Number, duration: JsValue, show: JsValue -> string): string {
    match duration
    case Num(d) => NumberText(Add(hours, d), show)
    case Bool(b) => NumberText(Add(hours, Finite(if b then 1.0 else 0.0)), show)
    case Str(d) => NumberText(hours, show) + d
    case Undefined => "NaN"
    case Null => NumberText(hours, show)
    case _ => NumberText(hours, show) + show(duration)
  }

  /**
   * `` `${pad(String(hours + duration))}:${pad(String(minutes))}:00` `` with
   * `[hours, minutes] = startTime.split(':').map(Number)`. Without a colon
   * `minutes` is `undefined`, which `String` spells out.
   */
  function EndTime(startTime: string, duration: JsValue, show: JsValue -> string): (r: string)
    ensures EndsWith(r, ":00")
    ensures |Split(startTime, ':')| == 1 ==> EndsWith(r, ":undefined:00")
  {
    var parts := Split(startTime, ':');
    var hours := StringToNumber(parts[0]);
    var minutesText := if |parts| > 1 then NumberText(StringToNumber(parts[1]), show) else "undefined";
    ClockText(PadStart2(EndHoursText(hours, duration, show)), minutesText)
  }

  /** `hh:mm:00` from the padded hours and the minutes, padded here. */
  function ClockText(hoursText: string, minutesText: string): (r: string)
    ensures EndsWith(r, ":00")
    ensures minutesText == "undefined" ==> EndsWith(r, ":undefined:00")
  {
    ClockTail(hoursText, minutesText);
    hoursText + (":" + PadStart2(minutesText) + ":00")
  }

  lemma ClockTail(hoursText: string, minutesText: string)
    ensures EndsWith(hoursText + (":" + PadStart2(minutesText) + ":00"), ":00")
    ensures minutesText == "undefined" ==> EndsWith(hoursText + (":" + PadStart2(minutesText) + ":00"), ":undefined:00")
  {
    var tail := ":" + PadStart2(minutesText) + ":00";
    EndsWithAppended(":" + PadStart2(minutesText), ":00", ":00");
    EndsWithAppended(hoursText, tail, ":00");
    if minutesText == "undefined" {
      assert PadStart2(minutesText) == "undefined";
      EndsWithAppended(hoursText, tail, ":undefined:00");
    }
  }

  const RequiredFields := ["courtId", "bookingDate", "startTime", "duration", "customerName"]

  /** `!courtId || !bookingDate || !startTime || !duration || !customerName` is false. */
  predicate HasRequiredFields(body: JsValue) {
    forall k :: 0 <= k < |RequiredFields| ==> Truthy(Get(body, RequiredFields[k]))
  }

  /** `POST(request)`. */
  function Post(apiKeyValid: bool, body: Option<JsValue>, users: Option<seq<string>>, insertError: Option<string>,
                show: JsValue -> string): (r: Response)
    ensures !apiKeyValid ==> r == Failure(401, "Unauthorized")
    ensures r.Created? ==> body.Some? && HasRequiredFields(body.value)
  {
    if !apiKeyValid then Failure(401, "Unauthorized")
    else if body.None? || body.value.Null? then Failure(500, "Internal Server Error")   // JSON error, or destructuring null
    else
      var b := body.value;
      if !HasRequiredFields(b) then Failure(400, "Missing required fields")
      else if !Get(b, "startTime").Str? then Failure(500, "Internal Server Error")      // `startTime.split` throws
      else if insertError.Some? then Failure(500, insertError.value)
      else
        Created(Payload(b, users, show))
  }

  /** The `bookingPayload`, with `user_id` assigned from the first user row. */
  function Payload(b: JsValue, users: Option<seq<string>>, show: JsValue -> string): (p: BookingPayload)
    requires Get(b, "startTime").Str?
    ensures p.courtId == Get(b, "courtId") && p.bookingDate == Get(b, "bookingDate") && p.duration == Get(b, "duration")
    ensures p.totalPrice == Get(b, "price") && p.status == "pending"
    ensures p.startTime == Get(b, "startTime").s && p.endTime == EndTime(p.startTime, p.duration, show)
    ensures p.userId.Some? <==> users.Some? && |users.value| > 0
  {
    var startTime := Get(b, "startTime").s;
    BookingPayload(
      Get(b, "courtId"), Get(b, "bookingDate"), startTime,
      EndTime(startTime, Get(b, "duration"), show), Get(b, "duration"), Get(b, "price"), "pending",
      "External Booking: " + TemplateText(Get(b, "customerName"), show) + " ("
        + TemplateText(Get(b, "phone"), show) + ")",
      if users.Some? && |users.value| > 0 then Some(users.value[0]) else None)
  }

  /** An invalid API key is refused before the body is looked at. */
  lemma UnauthorizedFirst(body1: Option<JsValue>, body2: Option<JsValue>, users: Option<seq<string>>,
                          insertError: Option<string>, show: JsValue -> string)
    ensures Post(false, body1, users, insertError, show) == Post(false, body2, users, None, show)
  {
  }

  /**
   * Every required field must be truthy, so a zero (or NaN) duration, an
   * empty court id or a missing customer name is a 400.
   */
  lemma RequiredFieldsChecked(body: JsValue, users: Option<seq<string>>, insertError: Option<string>,
                              show: JsValue -> string)
    requires !body.Null?
    ensures !HasRequiredFields(body) ==> Post(true, Some(body), users, insertError, show) == Failure(400, "Missing required fields")
    ensures Get(body, "duration") == Num(Finite(0.0)) ==>
      Post(true, Some(body), users, insertError, show) == Failure(400, "Missing required fields")
  {
    if Get(body, "duration") == Num(Finite(0.0)) {
      assert !Truthy(Get(body, RequiredFields[3]));
    }
  }

  /**
   * The booking is stored as pending, with the customer's name and phone in
   * the notes, attached to the first user row when there is one.
   */
  lemma PayloadShape(body: JsValue, users: Option<seq<string>>, show: JsValue -> string)
    requires Post(true, Some(body), users, None, show).Created?
    ensures var p := Post(true, Some(body), users, None, show).payload;
      && p.status == "pending"
      && (Get(body, "customerName").Str? && Get(body, "phone").Str? ==>
            p.notes == "External Booking: " + Get(body, "customerName").s + " (" + Get(body, "phone").s + ")")
      && (Get(body, "phone").Undefined? && Get(body, "customerName").Str? ==>
            p.notes == "External Booking: " + Get(body, "customerName").s + " (" + "undefined" + ")")
      && (users.Some? && |users.value| > 0 <==> p.userId.Some?)
      && (p.userId.Some? ==> p.userId.value == users.value[0])
      && p.startTime == Get(body, "startTime").s
  {
    assert body.Obj? && Get(body, "startTime").Str?;
    assert Post(true, Some(body), users, None, show) == Created(Payload(body, users, show));
    var name, phone := Get(body, "customerName"), Get(body, "phone");
    assert Payload(body, users, show).notes ==
      "External Booking: " + TemplateText(name, show) + " (" + TemplateText(phone, show) + ")";
  }

  /**
   * For a start `HH:MM` and a natural-number duration the end is
   * `pad2(HH + duration):MM:00`, with no wrap at midnight.
   */
  lemma EndTimeNoWrap(h: nat, m: nat, d: nat, show: JsValue -> string)
    ensures EndTime(Pad2(h) + ":" + Pad2(m), Num(Finite(d as real)), show) == Pad2(h + d) + ":" + Pad2(m) + ":00"
  {
    var s := Pad2(h) + ":" + Pad2(m);
    StartParts(h, m);
    EndTimeOfParts(s, Num(Finite(d as real)), show, Finite(h as real), Finite(m as real));
    PaddedEndHours(h, d, show);
    NatText(m, show);
    PadStart2OfNat(m);
    ClockOfPadded(Pad2(h + d), NatToString(m), Pad2(m));
  }

  lemma ClockOfPadded(hoursText: string, minutesText: string, padded: string)
    requires PadStart2(minutesText) == padded
    ensures ClockText(hoursText, minutesText) == hoursText + ":" + padded + ":00"
  {
    assert hoursText + (":" + padded + ":00") == hoursText + ":" + padded + ":00";
  }

  /** `EndTime` of a start with a colon, from the numbers its two parts read as. */
  lemma EndTimeOfParts(startTime: string, duration: JsValue, show: JsValue -> string, hours: Number, minutes: Number)
    requires |Split(startTime, ':')| > 1
    requires StringToNumber(Split(startTime, ':')[0]) == hours && StringToNumber(Split(startTime, ':')[1]) == minutes
    ensures EndTime(startTime, duration, show) == ClockText(PadStart2(EndHoursText(hours, duration, show)),
                                                            NumberText(minutes, show))
  {
  }

  /**
   * A start without a colon has `undefined` minutes, which the end time
   * spells out, as in `09:undefined:00` for a start of `8` and one hour.
   */
  lemma EndTimeWithoutColon(h: nat, d: nat, show: JsValue -> string)
    ensures EndTime(NatToString(h), Num(Finite(d as real)), show) == Pad2(h + d) + ":undefined:00"
  {
    HoursOnly(h);
    NumberOfNatString(h);
    EndTimeOfHours(NatToString(h), Num(Finite(d as real)), show, Finite(h as real));
    PaddedEndHours(h, d, show);
    ClockOfPadded(Pad2(h + d), "undefined", "undefined");
  }

  /** The rendering of a natural holds no colon, so it splits into itself. */
  lemma HoursOnly(h: nat)
    ensures Split(NatToString(h), ':') == [NatToString(h)]
  {
    var s := NatToString(h);
    assert ':' !in s by {
      assert forall i :: 0 <= i < |s| ==> IsDigit(s[i]);
    }
    SplitNoSeparator(s, ':');
  }

  /** The end hour of a whole start and duration, padded, is their padded sum. */
  lemma PaddedEndHours(h: nat, d: nat, show: JsValue -> string)
    ensures PadStart2(EndHoursText(Finite(h as real), Num(Finite(d as real)), show)) == Pad2(h + d)
  {
    SumText(h, d, show);
    PadStart2OfNat(h + d);
  }

  /** `EndTime` of a start without a colon, from the number it reads as. */
  lemma EndTimeOfHours(startTime: string, duration: JsValue, show: JsValue -> string, hours: Number)
    requires |Split(startTime, ':')| == 1 && StringToNumber(Split(startTime, ':')[0]) == hours
    ensures EndTime(startTime, duration, show) == ClockText(PadStart2(EndHoursText(hours, duration, show)), "undefined")
  {
  }

  lemma StartParts(h: nat, m: nat)
    ensures var parts := Split(Pad2(h) + ":" + Pad2(m), ':');
      |parts| == 2 && StringToNumber(parts[0]) == Finite(h as real) && StringToNumber(parts[1]) == Finite(m as real)
  {
    var s := Pad2(h) + ":" + Pad2(m);
    assert s == Pad2(h) + [':'] + Pad2(m);
    assert ':' !in Pad2(h) && ':' !in Pad2(m);
    SplitCons(Pad2(h), ':', Pad2(m));
    SplitNoSeparator(Pad2(m), ':');
    assert Split(s, ':') == [Pad2(h), Pad2(m)];
    NumberOfPad2(h);
    NumberOfPad2(m);
  }

  lemma SumText(h: nat, d: nat, show: JsValue -> string)
    ensures EndHoursText(Finite(h as real), Num(Finite(d as real)), show) == NatToString(h + d)
  {
    var sum := Add(Finite(h as real), Finite(d as real));
    assert sum == Finite((h + d) as real);
    NatText(h + d, show);
  }

  lemma NatText(n: nat, show: JsValue -> string)
    ensures NumberText(Finite(n as real), show) == NatToString(n)
  {
    assert (n as real).Floor == n;
    assert IsNatNumber(Finite(n as real));
  }

  /** A booking from 23:00 lasting two hours ends at "25:00:00". */
  lemma LateBookingEndsAfterMidnight(show: JsValue -> string)
    ensures EndTime("23:00", Num(Finite(2.0)), show) == "25:00:00"
  {
    LateValues();
    EndTimeNoWrap(23, 0, 2, show);
  }

  lemma LateValues()
    ensures Pad2(23) + ":" + Pad2(0) == "23:00" && Pad2(25) + ":" + Pad2(0) + ":00" == "25:00:00"
  {
    assert DigitChar(0) == '0' && DigitChar(2) == '2' && DigitChar(3) == '3' && DigitChar(5) == '5';
    assert NatToString(23) == NatToString(2) + [DigitChar(3)];
    assert NatToString(25) == NatToString(2) + [DigitChar(5)];
  }
}
