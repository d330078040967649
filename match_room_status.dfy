/**
 * `src/lib/match-rooms/status.ts`: closing match rooms whose end has passed.
 *
 * Instants are milliseconds. The two `Date` facts the code relies on are
 * inputs:
 * - `parseDate(match_date)` is `new Date(match_date).getTime()`, with `None`
 *   for an invalid date;
 * - `dayStart(t)` is the local midnight of the day holding `t`, which is what
 *   `setHours` keeps.
 * The `match_rooms` table is a sequence of rows.
 */
module MatchRoomStatus {
  import opened Wrappers
  import opened Strings
  import opened JsValues

  datatype RoomRow = RoomRow(id: string, matchDate: string, endTime: Option<string>, status: string,
                             communityId: Option<string>, updatedAt: string)

  /** `parseInt` of the parts of `end_time`, the seconds defaulting to `'0'`. */
  function EndClock(endTime: string): (r: Option<(int, int, int)>)
  {
    var nums := ParseAll(Split(endTime, ':'));
    var hour := nums[0];
    var minute := if |nums| > 1 then nums[1] else None;   // parseInt(undefined) is NaN
    var second := if |nums| > 2 then nums[2] else Some(0);
    if hour.None? || minute.None? || second.None? then None   // setHours(NaN, ...) gives an invalid date
    else Some((hour.value, minute.value, second.value))
  }

  /** `parts.map(p => Number.parseInt(p, 10))`. */
  function ParseAll(parts: seq<string>): (r: seq<Option<int>>)
    ensures |r| == |parts|
  {
    if parts == [] then [] else [ParseInt(parts[0])] + ParseAll(parts[1..])
  }

  /**
   * `getRoomEndDate(room).getTime()`: the match date at `end_time`'s
   * h:m:s, or the bare match date without an end time; `None` is NaN.
   */
  function RoomEnd(room: RoomRow, parseDate: string -> Option<int>, dayStart: int -> int): (r: Option<int>)
    ensures parseDate(room.matchDate).None? ==> r.None?
    ensures parseDate(room.matchDate).Some? && (room.endTime.None? || room.endTime == Some("")) ==>
      r == parseDate(room.matchDate)
  {
    match parseDate(room.matchDate)
    case None => None
    case Some(matchDate) =>
      if room.endTime.None? || room.endTime.value == "" then Some(matchDate)
      else
        var clock := EndClock(room.endTime.value);
        if clock.None? then None
        else Some(dayStart(matchDate) + ClockMillis(clock.value))
  }

  /** `setHours(h, m, s)` on a midnight adds this many milliseconds. */
  function ClockMillis(c: (int, int, int)): int {
    c.0 * 3_600_000 + c.1 * 60_000 + c.2 * 1000
  }

  /** An `HH:MM` end time lands on that minute of the match day, the seconds being 0. */
  lemma EndTimeWithoutSeconds(room: RoomRow, parseDate: string -> Option<int>, dayStart: int -> int,
                              matchDate: int, h: nat, m: nat)
    requires parseDate(room.matchDate) == Some(matchDate)
    requires room.endTime == Some(Pad2(h) + ":" + Pad2(m))
    ensures RoomEnd(room, parseDate, dayStart) == Some(dayStart(matchDate) + h * 3_600_000 + m * 60_000)
  {
    var a, b := Pad2(h), Pad2(m);
    assert ':' !in a && ':' !in b;
    ParseIntOfPad2(h);
    ParseIntOfPad2(m);
    EndOfTwoParts(room, parseDate, dayStart, matchDate, a, b, h, m);
  }

  /** An end time `a:b` lands at the numbers `a` and `b` read as, the seconds being 0. */
  lemma EndOfTwoParts(room: RoomRow, parseDate: string -> Option<int>, dayStart: int -> int,
                      matchDate: int, a: string, b: string, x: int, y: int)
    requires parseDate(room.matchDate) == Some(matchDate)
    requires room.endTime == Some(a + ":" + b) && ':' !in a && ':' !in b
    requires ParseInt(a) == Some(x) && ParseInt(b) == Some(y)
    ensures RoomEnd(room, parseDate, dayStart) == Some(dayStart(matchDate) + x * 3_600_000 + y * 60_000)
  {
    var t := a + ":" + b;
    assert t == a + [':'] + b;
    SplitCons(a, ':', b);
    SplitNoSeparator(b, ':');
    EndClockOfParts(t, a, b, x, y);
    EndAtClock(room, parseDate, dayStart, matchDate, (x, y, 0));
  }

  lemma EndAtClock(room: RoomRow, parseDate: string -> Option<int>, dayStart: int -> int,
                   matchDate: int, c: (int, int, int))
    requires parseDate(room.matchDate) == Some(matchDate)
    requires room.endTime.Some? && room.endTime.value != "" && EndClock(room.endTime.value) == Some(c)
    ensures RoomEnd(room, parseDate, dayStart) == Some(dayStart(matchDate) + ClockMillis(c))
  {
  }

  /** An end time of two parts reads as their numbers, at second 0. */
  lemma EndClockOfParts(t: string, a: string, b: string, x: int, y: int)
    requires Split(t, ':') == [a, b] && ParseInt(a) == Some(x) && ParseInt(b) == Some(y)
    ensures EndClock(t) == Some((x, y, 0))
  {
    assert [a, b][1..] == [b];
    assert ParseAll([b]) == [Some(y)] + ParseAll([]);
    assert ParseAll([a, b]) == [Some(x), Some(y)];
  }

  /** The optional narrowing of the candidate query. */
  datatype Options = Options(roomIds: Option<seq<string>>, communityId: Option<string>)

  /** The rows the query selects: OPEN or PLAYING, in the given ids and community when set. */
  predicate IsCandidate(room: RoomRow, opts: Options) {
    && (room.status == "OPEN" || room.status == "PLAYING")
    && (opts.roomIds.Some? && |opts.roomIds.value| > 0 ==> room.id in opts.roomIds.value)
    && (opts.communityId.Some? && opts.communityId.value != "" ==> room.communityId == opts.communityId)
  }

  /** The ids of the candidates whose end is at or before `now`, in table order. */
  function CompletedIds(rooms: seq<RoomRow>, opts: Options, now: int,
                        parseDate: string -> Option<int>, dayStart: int -> int): (ids: seq<string>)
    ensures |ids| <= |rooms|
    ensures forall id :: id in ids <==>
      exists i :: 0 <= i < |rooms| && rooms[i].id == id && IsCandidate(rooms[i], opts) && Ended(rooms[i], now, parseDate, dayStart)
  {
    if rooms == [] then []
    else
      var rest := CompletedIds(rooms[1..], opts, now, parseDate, dayStart);
      assert forall i :: 1 <= i < |rooms| ==> rooms[i] == rooms[1..][i - 1];
      if IsCandidate(rooms[0], opts) && Ended(rooms[0], now, parseDate, dayStart)
      then [rooms[0].id] + rest else rest
  }

  /** The ids keep table order, one per selected row: the selection distributes over concatenation, and a single row gives its id iff it is a candidate that has ended. */
  lemma {:induction false} CompletedIdsAppend(a: seq<RoomRow>, b: seq<RoomRow>, opts: Options, now: int,
                                              parseDate: string -> Option<int>, dayStart: int -> int)
    ensures CompletedIds(a + b, opts, now, parseDate, dayStart)
         == CompletedIds(a, opts, now, parseDate, dayStart) + CompletedIds(b, opts, now, parseDate, dayStart)
    ensures |a| == 1 ==>
      CompletedIds(a, opts, now, parseDate, dayStart)
        == if IsCandidate(a[0], opts) && Ended(a[0], now, parseDate, dayStart) then [a[0].id] else []
  {
    if a == [] {
      assert a + b == b;
    } else {
      assert (a + b)[1..] == a[1..] + b;
      CompletedIdsAppend(a[1..], b, opts, now, parseDate, dayStart);
    }
  }

  /** `getRoomEndDate(room).getTime() <= now.getTime()`: false for an invalid date. */
  predicate Ended(room: RoomRow, now: int, parseDate: string -> Option<int>, dayStart: int -> int) {
    var end := RoomEnd(room, parseDate, dayStart);
    end.Some? && end.value <= now
  }

  /** The table after `update({ status: 'COMPLETED', updated_at }).in('id', ids)`. */
  function MarkCompleted(rooms: seq<RoomRow>, ids: seq<string>, updatedAt: string): (r: seq<RoomRow>)
    ensures |r| == |rooms|
    ensures forall i :: 0 <= i < |rooms| ==>
      r[i] == if rooms[i].id in ids then rooms[i].(status := "COMPLETED", updatedAt := updatedAt) else rooms[i]
  {
    seq(|rooms|, i requires 0 <= i < |rooms| =>
      if rooms[i].id in ids then rooms[i].(status := "COMPLETED", updatedAt := updatedAt) else rooms[i])
  }

  /** What `updateCompletedMatchRooms` reports and the table it leaves. */
  datatype UpdateOutcome = UpdateOutcome(updatedIds: seq<string>, rooms: seq<RoomRow>, updateIssued: bool)

  /**
   * `updateCompletedMatchRooms(options)`. `fetchError` and `updateError` say
   * whether the select and the update fail; `nowIso` is the `updated_at`
   * stamp.
   */
  function UpdateCompletedMatchRooms(rooms: seq<RoomRow>, opts: Options, fetchError: bool, updateError: bool,
                                     now: int, nowIso: string,
                                     parseDate: string -> Option<int>, dayStart: int -> int): (r: UpdateOutcome)
    ensures fetchError ==> r == UpdateOutcome([], rooms, false)
  {
    if fetchError then UpdateOutcome([], rooms, false)
    else
      var completed := CompletedIds(rooms, opts, now, parseDate, dayStart);
      if |completed| == 0 then UpdateOutcome([], rooms, false)
      else if updateError then UpdateOutcome([], rooms, true)
      else UpdateOutcome(completed, MarkCompleted(rooms, completed, nowIso), true)
  }

  /**
   * The reported ids are exactly the OPEN or PLAYING candidates whose end is
   * at or before now (inclusive), or none at all when the fetch or the
   * update fails. A room is changed iff its id was reported, and it becomes
   * COMPLETED; nothing else changes. Without completions no update is issued.
   */
  lemma CompletionSpec(rooms: seq<RoomRow>, opts: Options, fetchError: bool, updateError: bool,
                       now: int, nowIso: string, parseDate: string -> Option<int>, dayStart: int -> int)
    ensures var r := UpdateCompletedMatchRooms(rooms, opts, fetchError, updateError, now, nowIso, parseDate, dayStart);
      && (!fetchError && !updateError ==> forall id :: id in r.updatedIds <==>
            exists i :: 0 <= i < |rooms| && rooms[i].id == id && IsCandidate(rooms[i], opts)
                        && Ended(rooms[i], now, parseDate, dayStart))
      && (updateError ==> r.updatedIds == [] && r.rooms == rooms)
      && |r.rooms| == |rooms|
      && (forall i :: 0 <= i < |rooms| && rooms[i].id !in r.updatedIds ==> r.rooms[i] == rooms[i])
      && (forall i :: 0 <= i < |rooms| && rooms[i].id in r.updatedIds ==>
            r.rooms[i].status == "COMPLETED" && r.rooms[i].id == rooms[i].id)
      && (r.updateIssued <==> !fetchError && |CompletedIds(rooms, opts, now, parseDate, dayStart)| > 0)
  {
  }

  /** A room ending exactly now is completed. */
  lemma EndingNowCompletes(room: RoomRow, now: int, parseDate: string -> Option<int>, dayStart: int -> int, opts: Options)
    requires IsCandidate(room, opts) && RoomEnd(room, parseDate, dayStart) == Some(now)
    ensures CompletedIds([room], opts, now, parseDate, dayStart) == [room.id]
  {
  }
}
