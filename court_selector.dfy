/**
 * `src/components/matchmaking/VisualCourtSelector.tsx`: the court picture
 * of a match room, where a player taps a slot to take it.
 *
 * The component's state (`participants`, `loading`) is the fields of a
 * `SlotSelector`. The server actions it calls are recorded in `calls`, in
 * order, and the browser alerts in `alerts`; how `leaveMatchRoom` and
 * `joinMatchRoom` end is an input of the click.
 */
module CourtSelector {
  import opened Wrappers

  /** A `room_participants` row as the component holds it. */
  datatype Seat = Seat(id: string, userId: string, courtSlot: string, fullName: Option<string>)

  /** A server action the click handler awaits. */
  datatype Call = Leave(roomId: string) | Join(roomId: string, slot: string)

  /**
   * How an awaited server action ends: it resolves (`Err(message)` for
   * `{ success: false, error }`) or it throws, which the handler's `catch`
   * only logs.
   */
  datatype Answer = Resolved(result: Result<(), string>) | Threw

  /** `participants.find(p => p.court_slot === slot)`. */
  function SeatAt(participants: seq<Seat>, slot: string): (r: Option<Seat>)
    ensures r.None? <==> forall k :: 0 <= k < |participants| ==> participants[k].courtSlot != slot
    ensures r.Some? ==> r.value in participants && r.value.courtSlot == slot
  {
    if participants == [] then None
    else if participants[0].courtSlot == slot then Some(participants[0])
    else
      assert forall k :: 1 <= k < |participants| ==> participants[k] == participants[1..][k - 1];
      SeatAt(participants[1..], slot)
  }

  /** `participants.find(p => p.user_id === userId)`. */
  function SeatOf(participants: seq<Seat>, userId: string): (r: Option<Seat>)
    ensures r.None? <==> forall k :: 0 <= k < |participants| ==> participants[k].userId != userId
    ensures r.Some? ==> r.value in participants && r.value.userId == userId
  {
    if participants == [] then None
    else if participants[0].userId == userId then Some(participants[0])
    else
      assert forall k :: 1 <= k < |participants| ==> participants[k] == participants[1..][k - 1];
      SeatOf(participants[1..], userId)
  }

  /** The branch `handleSlotClick` takes. */
  datatype Click = AskLogin | Ignore | LeaveOwn | Move | JoinNew

  function ClickBranch(participants: seq<Seat>, loading: bool, user: Option<string>, slot: string): Click {
    if user.None? then AskLogin
    else if loading then Ignore
    else if SeatAt(participants, slot).Some? then Ignore
    else
      var existing := SeatOf(participants, user.value);
      if existing.None? then JoinNew
      else if existing.value.courtSlot == slot then LeaveOwn
      else Move
  }

  /**
   * A taken slot, the user's own included, is ignored, so the branch that
   * would leave one's own slot can never run.
   */
  lemma LeaveOwnUnreachable(participants: seq<Seat>, loading: bool, user: Option<string>, slot: string)
    ensures ClickBranch(participants, loading, user, slot) != LeaveOwn
    ensures user.Some? && SeatOf(participants, user.value).Some? && SeatOf(participants, user.value).value.courtSlot == slot ==>
      ClickBranch(participants, loading, user, slot) == Ignore
  {
    if user.Some? && !loading && SeatAt(participants, slot).None? {
      var existing := SeatOf(participants, user.value);
      if existing.Some? {
        assert existing.value in participants;
      }
    }
  }

  /** A slot as `renderSlot` draws it. */
  datatype SlotView = Empty | Mine(name: string) | Taken(name: string)

  /** `renderSlot(slot)`: the occupant's name (`'Player'` without one), marked when it is the viewer. */
  function RenderSlot(participants: seq<Seat>, user: Option<string>, slot: string): (v: SlotView)
    ensures v.Empty? <==> SeatAt(participants, slot).None?
    ensures v.Mine? <==> SeatAt(participants, slot).Some? && user == Some(SeatAt(participants, slot).value.userId)
  {
    match SeatAt(participants, slot)
    case None => Empty
    case Some(p) =>
      var name := if p.fullName.Some? && p.fullName.value != "" then p.fullName.value else "Player";
      if user == Some(p.userId) then Mine(name) else Taken(name)
  }

  /** The slots of the court grid, from the top: B's side, the net, A's side. */
  function RenderedSlots(gameFormat: string): (slots: seq<string>)
    ensures gameFormat == "SINGLE" <==> "A_FRONT" !in slots
    ensures gameFormat == "SINGLE" <==> "B_FRONT" !in slots
    ensures "A_BACK" in slots && "B_BACK" in slots
  {
    if gameFormat == "SINGLE" then ["B_BACK", "A_BACK"] else ["B_BACK", "B_FRONT", "A_FRONT", "A_BACK"]
  }

  class SlotSelector {
    const roomId: string
    var participants: seq<Seat>
    var loading: bool
    var calls: seq<Call>
    var alerts: seq<string>

    constructor (roomId: string, initialParticipants: seq<Seat>)
      ensures this.roomId == roomId && participants == initialParticipants
      ensures !loading && calls == [] && alerts == []
    {
      this.roomId := roomId;
      participants := initialParticipants;
      loading := false;
      calls := [];
      alerts := [];
    }

    /**
     * `handleSlotClick(slot)`. `leaveAnswer` and `joinAnswer` are how
     * `leaveMatchRoom` and `joinMatchRoom` end. A leave that throws skips
     * the join after it; a join that throws raises no alert.
     */
    method HandleSlotClick(user: Option<string>, slot: string, leaveAnswer: Answer, joinAnswer: Answer)
      modifies this
      ensures participants == old(participants)
      ensures var branch := ClickBranch(old(participants), old(loading), user, slot);
        && (branch == AskLogin ==> alerts == old(alerts) + ["Please login to join"] && calls == old(calls)
                                   && loading == old(loading))
        && (branch == Ignore ==> alerts == old(alerts) && calls == old(calls) && loading == old(loading))
        && (branch == Move && leaveAnswer.Threw? ==> calls == old(calls) + [Leave(roomId)] && alerts == old(alerts) && !loading)
        && (branch == Move && !leaveAnswer.Threw? ==>
              calls == old(calls) + [Leave(roomId), Join(roomId, slot)] && alerts == old(alerts) && !loading)
        && (branch == JoinNew ==> && calls == old(calls) + [Join(roomId, slot)] && !loading
                                  && alerts == old(alerts) + (if joinAnswer.Resolved? && joinAnswer.result.Err?
                                                              then [joinAnswer.result.error] else []))
    {
      if user.None? {
        alerts := alerts + ["Please login to join"];
        return;
      }
      if loading {
        return;
      }
      var isTaken := SeatAt(participants, slot).Some?;
      if isTaken {
        return;
      }
      var existingParticipant := SeatOf(participants, user.value);
      loading := true;
      if existingParticipant.Some? {
        if existingParticipant.value.courtSlot == slot {
          assert false;   // leaving one's own slot: that slot is taken, so the click returned above
        } else {
          calls := calls + [Leave(roomId)];
          if !leaveAnswer.Threw? {   // a throw jumps to `catch`
            calls := calls + [Join(roomId, slot)];
          }
        }
      } else {
        calls := calls + [Join(roomId, slot)];
        if joinAnswer.Resolved? && joinAnswer.result.Err? {
          alerts := alerts + [joinAnswer.result.error];
        }
      }
      loading := false;   // `finally`
    }

    /** The realtime subscription replaces the list with the fetched rows, when there are any. */
    method OnParticipantsChanged(fetched: Option<seq<Seat>>)
      modifies this
      ensures participants == (if fetched.Some? then fetched.value else old(participants))
      ensures loading == old(loading) && calls == old(calls) && alerts == old(alerts)
    {
      if fetched.Some? {
        participants := fetched.value;
      }
    }
  }

  /**
   * With a signed-in user, no click in flight and a free slot, a player
   * already in the room moves (leave, then join) and anyone else joins.
   */
  lemma FreeSlotOutcome(participants: seq<Seat>, user: string, slot: string)
    requires forall k :: 0 <= k < |participants| ==> participants[k].courtSlot != slot
    ensures var branch := ClickBranch(participants, false, Some(user), slot);
      && (branch == Move <==> exists k :: 0 <= k < |participants| && participants[k].userId == user)
      && (branch == JoinNew <==> forall k :: 0 <= k < |participants| ==> participants[k].userId != user)
  {
    LeaveOwnUnreachable(participants, false, Some(user), slot);
  }
}
