/**
 * `src/app/bookings/history/page.tsx`: the customer's booking history,
 * split into tabs by status, with a status badge and an action per
 * booking, and the payment confirmation the page runs when it is reached
 * from a payment redirect. The loading effect's server calls are left to
 * their own modules; here the page's decisions are functions of its
 * inputs.
 */
module BookingHistory {
  import opened Wrappers
  import opened Strings

  /** A booking as the history list reads it. */
  datatype Booking = Booking(id: string, status: string, paymentUrl: Option<string>)

  /** The three tabs; the page opens on `Pending`. */
  datatype Tab = Completed | Cancelled | Pending

  const InitialTab := Pending

  /** The test of `filteredBookings`. */
  predicate InTab(tab: Tab, status: string) {
    match tab
    case Completed => status == "completed" || status == "confirmed"
    case Cancelled => status == "cancelled"
    case Pending => status == "pending"
  }

  /** `filteredBookings`: the bookings of the active tab, in order. */
  function FilteredBookings(bookings: seq<Booking>, tab: Tab): (r: seq<Booking>)
    ensures |r| <= |bookings|
    ensures forall b :: b in r <==> b in bookings && InTab(tab, b.status)
  {
    if bookings == [] then []
    else
      var rest := FilteredBookings(bookings[1..], tab);
      assert forall b :: b in bookings <==> b == bookings[0] || b in bookings[1..];
      if InTab(tab, bookings[0].status) then [bookings[0]] + rest else rest
  }

  /** The filter keeps the order and the repetitions of its input: it distributes over concatenation, and keeps a single row iff it matches. */
  lemma {:induction false} FilteredBookingsAppend(a: seq<Booking>, b: seq<Booking>, tab: Tab)
    ensures FilteredBookings(a + b, tab) == FilteredBookings(a, tab) + FilteredBookings(b, tab)
    ensures |a| == 1 ==> FilteredBookings(a, tab) == if InTab(tab, a[0].status) then a else []
  {
    if a == [] {
      assert a + b == b;
    } else {
      assert (a + b)[1..] == a[1..] + b;
      FilteredBookingsAppend(a[1..], b, tab);
    }
  }

  /**
   * Each of the four statuses falls in exactly one tab (confirmed ones
   * under Completed); any other status is in none.
   */
  lemma OneTabPerStatus(status: string)
    ensures status in {"completed", "confirmed", "cancelled", "pending"} <==>
      InTab(Completed, status) || InTab(Cancelled, status) || InTab(Pending, status)
    ensures !(InTab(Completed, status) && InTab(Cancelled, status))
    ensures !(InTab(Completed, status) && InTab(Pending, status))
    ensures !(InTab(Cancelled, status) && InTab(Pending, status))
  {
  }

  /** The tabs partition the bookings of the four statuses: sizes add up. */
  lemma {:induction false} TabsPartition(bookings: seq<Booking>)
    requires forall k :: 0 <= k < |bookings| ==> bookings[k].status in {"completed", "confirmed", "cancelled", "pending"}
    ensures |FilteredBookings(bookings, Completed)| + |FilteredBookings(bookings, Cancelled)|
          + |FilteredBookings(bookings, Pending)| == |bookings|
  {
    if bookings != [] {
      assert forall k :: 1 <= k < |bookings| ==> bookings[1..][k - 1] == bookings[k];
      TabsPartition(bookings[1..]);
      OneTabPerStatus(bookings[0].status);
    }
  }

  /** The badge of a booking. */
  function StatusLabel(status: string): (text: string)
    ensures text == "SELESAI" <==> status == "completed"
    ensures text == "LUNAS" <==> status == "confirmed"
    ensures text == "BELUM BAYAR" <==> status == "pending"
    ensures text == "DIBATALKAN" <==> status !in {"completed", "confirmed", "pending"}
  {
    if status == "completed" then "SELESAI"
    else if status == "confirmed" then "LUNAS"
    else if status == "pending" then "BELUM BAYAR"
    else "DIBATALKAN"
  }

  /** The button of a booking card. */
  datatype CardAction = BookAgain | PayNow(href: string) | Refunded

  /** Where the fallback pay link leads: back here, as after a successful payment. */
  function ConfirmationLink(bookingId: string): string {
    "/bookings/history?payment=success&booking_id=" + bookingId
  }

  /** The card's action: book again when done, pay when pending, refunded otherwise. */
  function ActionFor(b: Booking): (a: CardAction)
    ensures a.BookAgain? <==> b.status == "completed" || b.status == "confirmed"
    ensures a.PayNow? <==> b.status == "pending"
    ensures a.PayNow? && b.paymentUrl.Some? && b.paymentUrl.value != "" ==> a.href == b.paymentUrl.value
    ensures a.PayNow? && (b.paymentUrl.None? || b.paymentUrl.value == "") ==> a.href == ConfirmationLink(b.id)
  {
    if b.status == "completed" || b.status == "confirmed" then BookAgain
    else if b.status == "pending" then
      PayNow(if b.paymentUrl.Some? && b.paymentUrl.value != "" then b.paymentUrl.value else ConfirmationLink(b.id))
    else Refunded
  }

  /** The name of a `name=value` pair; a pair without `=` is all name. */
  function PairName(pair: string): string {
    if '=' in pair then pair[..FirstIndex(pair, '=')] else pair
  }

  /** The value of a `name=value` pair; a pair without `=` has the empty value. */
  function PairValue(pair: string): string {
    if '=' in pair then pair[FirstIndex(pair, '=') + 1..] else ""
  }

  /** The value of the first pair called `name`. */
  function FirstValue(pairs: seq<string>, name: string): (v: Option<string>)
    ensures v.Some? ==> exists k :: 0 <= k < |pairs| && PairName(pairs[k]) == name && PairValue(pairs[k]) == v.value
    ensures v.None? <==> forall k :: 0 <= k < |pairs| ==> PairName(pairs[k]) != name
  {
    if pairs == [] then None
    else if PairName(pairs[0]) == name then Some(PairValue(pairs[0]))
    else
      var v := FirstValue(pairs[1..], name);
      assert forall k :: 1 <= k < |pairs| ==> pairs[1..][k - 1] == pairs[k];
      v
  }

  /**
   * `new URLSearchParams(search).get(name)`: a leading `?` is dropped, the
   * rest split on `&`, and the first pair with that name gives its value.
   */
  function SearchParam(search: string, name: string): Option<string> {
    var query := if |search| > 0 && search[0] == '?' then search[1..] else search;
    FirstValue(Split(query, '&'), name)
  }

  /** The booking the load confirms: `payment=success` and a non-empty `booking_id`. */
  function ConfirmationTarget(search: string): (id: Option<string>)
    ensures id.Some? ==> SearchParam(search, "payment") == Some("success") && id.value != ""
    ensures id.Some? ==> SearchParam(search, "booking_id") == id
  {
    var paymentStatus := SearchParam(search, "payment");
    var bookingId := SearchParam(search, "booking_id");
    if paymentStatus == Some("success") && bookingId.Some? && bookingId.value != "" then bookingId else None
  }

  /** The first `c` of `p`, `c`, `rest` is the one after `p` when `p` has none. */
  lemma {:induction false} FirstIndexAfter(p: string, c: char, rest: string)
    requires c !in p
    ensures c in p + [c] + rest && FirstIndex(p + [c] + rest, c) == |p|
  {
    var s := p + [c] + rest;
    assert s[|p|] == c;
    if |p| > 0 {
      assert s[1..] == p[1..] + [c] + rest;
      assert p == [p[0]] + p[1..];
      FirstIndexAfter(p[1..], c, rest);
    }
  }

  lemma PairOf(name: string, value: string)
    requires '=' !in name
    ensures PairName(name + "=" + value) == name && PairValue(name + "=" + value) == value
  {
    assert name + "=" + value == name + ['='] + value;
    FirstIndexAfter(name, '=', value);
  }

  /** Two `&`-joined pairs with different names read back as their values. */
  lemma TwoParams(n1: string, v1: string, n2: string, v2: string)
    requires '=' !in n1 && '=' !in n2 && '&' !in n1 && '&' !in v1 && '&' !in n2 && '&' !in v2 && n1 != n2
    ensures SearchParam("?" + n1 + "=" + v1 + "&" + n2 + "=" + v2, n1) == Some(v1)
    ensures SearchParam("?" + n1 + "=" + v1 + "&" + n2 + "=" + v2, n2) == Some(v2)
  {
    var first := n1 + "=" + v1;
    var second := n2 + "=" + v2;
    var search := "?" + n1 + "=" + v1 + "&" + n2 + "=" + v2;
    assert search[1..] == first + ['&'] + second;
    NoCharInConcat(n1, "=", v1, '&');
    NoCharInConcat(n2, "=", v2, '&');
    SplitCons(first, '&', second);
    SplitNoSeparator(second, '&');
    assert Split(search[1..], '&') == [first, second];
    PairOf(n1, v1);
    PairOf(n2, v2);
    assert [first, second][1..] == [second];
    assert FirstValue([second], n2) == Some(v2);
    assert FirstValue([first, second], n2) == FirstValue([second], n2);
  }

  lemma NoCharInConcat(a: string, b: string, d: string, c: char)
    requires c !in a && c !in b && c !in d
    ensures c !in a + b + d
  {
  }

  /**
   * The fallback pay link brings the customer back to a page that
   * confirms exactly that booking, for any non-empty id without `&`.
   */
  lemma FallbackLinkConfirms(bookingId: string)
    requires bookingId != "" && '&' !in bookingId
    ensures ConfirmationTarget(ConfirmationLink(bookingId)[|"/bookings/history"|..]) == Some(bookingId)
  {
    var search := ConfirmationLink(bookingId)[|"/bookings/history"|..];
    assert search == "?" + "payment" + "=" + "success" + "&" + "booking_id" + "=" + bookingId;
    TwoParams("payment", "success", "booking_id", bookingId);
  }
}
