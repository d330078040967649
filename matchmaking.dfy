/**
 * `src/lib/api/matchmaking.ts`: creating, joining and listing match rooms.
 *
 * The `match_rooms` and `room_participants` tables are the fields of a
 * `MatchStore`; the signed-in user, the ids the database assigns and the
 * errors its inserts return are inputs.
 */
module Matchmaking {
  import opened Wrappers
  import opened Strings
  import MatchRoomStatus

  /** `slot.startsWith('A') ? 'A' : 'B'`. */
  function TeamSide(slot: string): (side: string)
    ensures side == "A" <==> StartsWith(slot, "A")
    ensures side == "A" || side == "B"
  {
    if StartsWith(slot, "A") then "A" else "B"
  }

  lemma CourtSlotSides()
    ensures TeamSide("A_FRONT") == "A" && TeamSide("A_BACK") == "A"
    ensures TeamSide("B_FRONT") == "B" && TeamSide("B_BACK") == "B"
  {
    assert "A_FRONT"[..1] == "A" && "A_BACK"[..1] == "A";
    assert "B_FRONT"[..1] == "B" && "B_BACK"[..1] == "B";
  }

  const Levels := ["BEGINNER", "INTERMEDIATE", "ADVANCED", "PRO"]

  /** `levels.indexOf(level)`: the position in the ordering, or -1. */
  function LevelIndex(level: string): (i: int)
    ensures -1 <= i < |Levels|
    ensures i >= 0 ==> Levels[i] == level
    ensures i == -1 <==> level !in Levels
  {
    if level == "BEGINNER" then 0
    else if level == "INTERMEDIATE" then 1
    else if level == "ADVANCED" then 2
    else if level == "PRO" then 3
    else -1
  }

  /**
   * The skill check of `joinMatchRoom`: `skillLevel` is the profile's
   * `skill_level` when the profile was read. It is skipped without one;
   * otherwise the join is refused iff the user's level (upper-cased) sits
   * below the room's requirement.
   */
  function SkillCheck(skillLevel: Option<string>, roomLevel: string): (error: Option<string>)
    ensures error.Some? ==> error.value == "Skill level too low. Required: " + roomLevel
  {
    if skillLevel.Some? && skillLevel.value != "" && LevelIndex(ToUpper(skillLevel.value)) < LevelIndex(roomLevel)
    then Some("Skill level too low. Required: " + roomLevel)
    else None
  }

  /**
   * The ordering BEGINNER < INTERMEDIATE < ADVANCED < PRO: a listed level
   * meets a requirement iff it is not lower. An unknown user level fails
   * every listed requirement, and an unknown requirement refuses no one.
   */
  lemma SkillRule(skillLevel: string, roomLevel: string)
    requires skillLevel != ""
    ensures SkillCheck(Some(skillLevel), roomLevel).Some? <==> LevelIndex(ToUpper(skillLevel)) < LevelIndex(roomLevel)
    ensures ToUpper(skillLevel) !in Levels && roomLevel in Levels ==> SkillCheck(Some(skillLevel), roomLevel).Some?
    ensures roomLevel !in Levels ==> SkillCheck(Some(skillLevel), roomLevel).None?
    ensures SkillCheck(None, roomLevel).None? && SkillCheck(Some(""), roomLevel).None?
  {
  }

  /** Case in the profile's level does not matter. */
  lemma SkillCaseInsensitive(skillLevel: string, roomLevel: string)
    ensures SkillCheck(Some(ToLower(skillLevel)), roomLevel) == SkillCheck(Some(skillLevel), roomLevel)
  {
    UpperOfLower(skillLevel);
  }

  /** `CreateRoomParams`. */
  datatype RoomParams = RoomParams(title: string, courtName: string, matchDate: string, startTime: string,
                                   endTime: string, price: real, city: string, mode: string,
                                   levelRequirement: string, gameFormat: string, mySlot: string)

  /** A `match_rooms` row as `createMatchRoom` inserts it. */
  datatype Room = Room(id: string, hostUserId: string, title: string, courtName: string, matchDate: string,
                       startTime: string, endTime: string, pricePerPerson: real, city: string, mode: string,
                       levelRequirement: string, gameFormat: string, status: string)

  /** A `room_participants` row. */
  datatype Participant = Participant(roomId: string, userId: string, status: string, teamSide: string, courtSlot: string)

  /** The rows left by `.delete().eq('id', id)`. */
  function WithoutRoom(rooms: seq<Room>, id: string): (r: seq<Room>)
    ensures forall x :: x in r <==> x in rooms && x.id != id
    ensures (forall k :: 0 <= k < |rooms| ==> rooms[k].id != id) ==> r == rooms
  {
    if rooms == [] then []
    else
      var rest := WithoutRoom(rooms[1..], id);
      assert forall x :: x in rooms <==> x == rooms[0] || x in rooms[1..];
      assert forall k :: 1 <= k < |rooms| ==> rooms[k] == rooms[1..][k - 1];
      if rooms[0].id == id then rest else [rooms[0]] + rest
  }

  /** Deleting a fresh room right after appending it restores the table. */
  lemma {:induction false} RollbackRestores(rooms: seq<Room>, room: Room)
    requires forall k :: 0 <= k < |rooms| ==> rooms[k].id != room.id
    ensures WithoutRoom(rooms + [room], room.id) == rooms
  {
    if rooms == [] {
      assert rooms + [room] == [room];
      assert [room][1..] == [];
    } else {
      assert (rooms + [room])[1..] == rooms[1..] + [room];
      RollbackRestores(rooms[1..], room);
    }
  }

  /** `joinError`: the insert's error code and message. */
  datatype DbError = DbError(code: string, message: string)

  class MatchStore {
    var rooms: seq<Room>
    var participants: seq<Participant>

    constructor (rooms: seq<Room>, participants: seq<Participant>)
      ensures this.rooms == rooms && this.participants == participants
    {
      this.rooms := rooms;
      this.participants := participants;
    }

    /**
     * `createMatchRoom(params)`. `user` is the signed-in user (`None` when
     * `getUser` fails), `newId` the id the database gives the room, and the
     * two errors what the inserts return. When the host's participant row
     * cannot be inserted the room is deleted again.
     */
    method CreateMatchRoom(user: Option<string>, params: RoomParams, newId: string,
                           roomError: Option<string>, participantError: Option<string>) returns (r: Result<string, string>)
      modifies this
      ensures user.None? ==> r == Err("Unauthorized") && rooms == old(rooms) && participants == old(participants)
      ensures user.Some? && roomError.Some? ==>
        r == Err("Failed to create room: " + roomError.value) && rooms == old(rooms) && participants == old(participants)
      ensures user.Some? && roomError.None? && participantError.Some? ==>
        && r == Err("Failed to join room: " + participantError.value)
        && participants == old(participants)
        && rooms == WithoutRoom(old(rooms) + [NewRoom(newId, user.value, params)], newId)
        && ((forall k :: 0 <= k < |old(rooms)| ==> old(rooms)[k].id != newId) ==> rooms == old(rooms))
      ensures r.Ok? <==> user.Some? && roomError.None? && participantError.None?
      ensures r.Ok? ==> && r.value == newId
                        && rooms == old(rooms) + [NewRoom(newId, user.value, params)]
                        && participants == old(participants) + [Participant(newId, user.value, "APPROVED",
                                                                            TeamSide(params.mySlot), params.mySlot)]
    {
      if user.None? {
        return Err("Unauthorized");
      }
      if roomError.Some? {
        return Err("Failed to create room: " + roomError.value);
      }
      var room := NewRoom(newId, user.value, params);
      rooms := rooms + [room];
      if participantError.Some? {
        rooms := WithoutRoom(rooms, room.id);
        if forall k :: 0 <= k < |old(rooms)| ==> old(rooms)[k].id != newId {
          RollbackRestores(old(rooms), room);
        }
        return Err("Failed to join room: " + participantError.value);
      }
      participants := participants + [Participant(room.id, user.value, "APPROVED", TeamSide(params.mySlot), params.mySlot)];
      return Ok(room.id);
    }
  }

  /** The row `createMatchRoom` inserts: the host's room, OPEN. */
  function NewRoom(id: string, host: string, p: RoomParams): (room: Room)
    ensures room.id == id && room.hostUserId == host && room.status == "OPEN"
    ensures room.levelRequirement == p.levelRequirement && room.gameFormat == p.gameFormat
  {
    Room(id, host, p.title, p.courtName, p.matchDate, p.startTime, p.endTime, p.price, p.city, p.mode,
         p.levelRequirement, p.gameFormat, "OPEN")
  }

  /**
   * `joinMatchRoom(params)`: `roomLevel` is the room's `level_requirement`
   * (`None` when there is no such room), `skillLevel` the profile's level
   * and `joinError` the insert's error, which the unique index on a room's
   * slots raises as code 23505.
   */
  function JoinMatchRoom(user: Option<string>, roomId: string, slot: string, roomLevel: Option<string>,
                         skillLevel: Option<string>, joinError: Option<DbError>): (r: Result<Participant, string>)
    ensures user.None? ==> r == Err("Unauthorized")
    ensures user.Some? && roomLevel.None? ==> r == Err("Room not found")
  {
    if user.None? then Err("Unauthorized")
    else if roomLevel.None? then Err("Room not found")
    else if SkillCheck(skillLevel, roomLevel.value).Some? then Err(SkillCheck(skillLevel, roomLevel.value).value)
    else if joinError.Some? then
      if joinError.value.code == "23505" then Err("Slot already taken")
      else Err("Failed to join: " + joinError.value.message)
    else Ok(Participant(roomId, user.value, "APPROVED", TeamSide(slot), slot))
  }

  /**
   * A join succeeds iff the user is signed in, the room exists, the skill
   * check passes and the insert succeeds; the participant is approved on the
   * side its slot names. A taken slot reads 'Slot already taken'.
   */
  lemma JoinRule(user: Option<string>, roomId: string, slot: string, roomLevel: Option<string>,
                 skillLevel: Option<string>, joinError: Option<DbError>)
    ensures var r := JoinMatchRoom(user, roomId, slot, roomLevel, skillLevel, joinError);
      && (r.Ok? <==> user.Some? && roomLevel.Some? && SkillCheck(skillLevel, roomLevel.value).None? && joinError.None?)
      && (r.Ok? ==> r.value == Participant(roomId, user.value, "APPROVED", if StartsWith(slot, "A") then "A" else "B", slot))
      && ((user.Some? && roomLevel.Some? && SkillCheck(skillLevel, roomLevel.value).None? && joinError.Some?
             && joinError.value.code == "23505") ==> r == Err("Slot already taken"))
      && (user.Some? && roomLevel.Some? && SkillCheck(skillLevel, roomLevel.value).Some? ==>
            r == Err("Skill level too low. Required: " + roomLevel.value))
  {
  }

  /** The rows `.eq('status', 'OPEN')` selects. */
  function OpenRooms(rooms: seq<MatchRoomStatus.RoomRow>): (r: seq<MatchRoomStatus.RoomRow>)
    ensures forall x :: x in r <==> x in rooms && x.status == "OPEN"
  {
    if rooms == [] then []
    else
      var rest := OpenRooms(rooms[1..]);
      assert forall x :: x in rooms <==> x == rooms[0] || x in rooms[1..];
      if rooms[0].status == "OPEN" then [rooms[0]] + rest else rest
  }

  /**
   * `getMatchRooms()`: the completion update runs first on every room, then
   * the OPEN rooms of the resulting table are listed; a failing select
   * gives `[]`.
   */
  function GetMatchRooms(rooms: seq<MatchRoomStatus.RoomRow>, fetchError: bool, updateError: bool, selectError: bool,
                         now: int, nowIso: string, parseDate: string -> Option<int>, dayStart: int -> int)
    : (r: seq<MatchRoomStatus.RoomRow>)
    ensures selectError ==> r == []
    ensures forall x :: x in r ==> x.status == "OPEN"
  {
    var table := MatchRoomStatus.UpdateCompletedMatchRooms(rooms, MatchRoomStatus.Options(None, None), fetchError,
                                                          updateError, now, nowIso, parseDate, dayStart).rooms;
    if selectError then [] else OpenRooms(table)
  }

  /** When the update goes through, no listed room has already ended. */
  lemma ListedRoomsNotEnded(rooms: seq<MatchRoomStatus.RoomRow>, now: int, nowIso: string,
                            parseDate: string -> Option<int>, dayStart: int -> int)
    ensures forall x :: x in GetMatchRooms(rooms, false, false, false, now, nowIso, parseDate, dayStart) ==>
      !MatchRoomStatus.Ended(x, now, parseDate, dayStart)
  {
    var opts := MatchRoomStatus.Options(None, None);
    var out := MatchRoomStatus.UpdateCompletedMatchRooms(rooms, opts, false, false, now, nowIso, parseDate, dayStart);
    MatchRoomStatus.CompletionSpec(rooms, opts, false, false, now, nowIso, parseDate, dayStart);
    forall x | x in GetMatchRooms(rooms, false, false, false, now, nowIso, parseDate, dayStart)
      ensures !MatchRoomStatus.Ended(x, now, parseDate, dayStart)
    {
      assert x in out.rooms && x.status == "OPEN";
      var i :| 0 <= i < |out.rooms| && out.rooms[i] == x;
      assert rooms[i].id !in out.updatedIds;
      assert out.rooms[i] == rooms[i];
      assert MatchRoomStatus.IsCandidate(rooms[i], opts);
    }
  }
}
