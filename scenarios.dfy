/** Properties that span several parts of the app: a room that has left do-not-disturb, two
    write replies for the same room, a priority toggle seen on the grid, the two dashboards'
    views of one housekeeper's workload, and the panel after a maintenance ticket. */
module Scenarios {
  import opened Prelude
  import opened Constants
  import opened Rooms
  import opened RoomGrid
  import opened RoomPanel
  import opened AdminDashboard
  import EmployeeDashboard

  /** Moving a long do-not-disturb room to any other status keeps its old `dnd_since`, so the
      grid's welfare dot stays on while the panel's alert and the banner go off. */
  lemma LeftDndKeepsWelfareDot(r: Room, next: string, now: Millis)
    requires r.dndSince.Some? && now - r.dndSince.value > HOURS_4_MS
    requires next != DND
    ensures var m := Overwrite(r, Row(r.id, StatusChangePatch(next, now)));
            WelfareDot(m, now) && !PanelWelfareAlert(m, now) && !BannerAlert(m, now)
  {
    StatusChangeEffect(r, next, now);
  }

  /** Two write replies for one room reach the register one after the other. Each reply is the
      whole row as stored, so the later reply decides the room and the earlier one leaves no
      trace, whichever columns each handler wrote. */
  lemma LaterFullReplyWins(rooms: seq<Room>, a: Row, b: Row)
    requires a.id == b.id && FullRow(b.fields)
    ensures MergeById(MergeById(rooms, a), b) == MergeById(rooms, b)
  {
    var ab := MergeById(MergeById(rooms, a), b);
    forall i | 0 <= i < |rooms| ensures ab[i] == MergeById(rooms, b)[i] {
      if rooms[i].id == a.id {
        OverwriteFullRow(rooms[i], a, b);
      }
    }
  }

  /** The administrator's workload card for a housekeeper shows the same assigned, cleaning and
      ready numbers as that housekeeper's own stat cards. */
  lemma WorkloadMatchesOwnStats(rooms: seq<Room>, staffId: string)
    ensures var w := StaffWorkload(rooms, staffId);
            var own := EmployeeDashboard.ComputeMyStats(rooms, staffId);
            |w.rooms| == own.total && w.inProgress == own.active && w.done == own.done
  {
  }

  /** A successful priority toggle: the reply carries the flipped flag, and once the dashboard
      merges it into the open selection the tile's dot is flipped. */
  method PriorityToggleFlipsDot(actor: Profile, room: Room, row: Row) returns (selected: Option<Room>)
    requires row.id == room.id && row.fields.priority == Some(!room.priority)
    ensures selected.Some? && selected.value.id == room.id
    ensures PriorityDot(selected.value) == !PriorityDot(room)
  {
    var p := new Panel(actor);
    var calls := p.HandlePriority(room, Written(row));
    assert calls[1] == RoomUpdated(row);
    selected := MergeSelected(Some(room), calls[1].row);
  }

  /** As written: a maintenance ticket whose second status write fails stops the handler before
      it clears `saving`: the ticket is not listed and the note is kept. */
  method FailedMaintenanceWriteLeavesSaving(actor: Profile, room: Room, ticket: Ticket, note: string)
    returns (crashed: bool, stillSaving: bool, listed: seq<Ticket>, kept: string)
    requires Trim(note) != []
    ensures crashed && stillSaving && listed == [] && kept == note
  {
    var p := new Panel(actor);
    p.SetMaintenanceInput(note);
    var calls;
    calls, crashed := p.HandleMaintenanceAsWritten(room, Created(ticket), WriteFailed);
    stillSaving, listed, kept := p.saving, p.tickets, p.maintenanceInput;
  }

  /** With the guarded local update the same failure leaves the panel usable: the ticket is
      listed, the note cleared, and the next Advance writes the successor status. */
  method UsableAfterFailedMaintenanceWrite(actor: Profile, room: Room, ticket: Ticket, note: string,
                                           now: Millis, reply: WriteReply)
    returns (listed: seq<Ticket>, advance: seq<Call>)
    requires Trim(note) != []
    ensures listed == [ticket.(creatorName := Some(actor.fullName))]
    ensures advance != [] && advance[0] == UpdateRoom(room.id, StatusChangePatch(AdvanceTarget(room), now))
  {
    var p := new Panel(actor);
    p.SetMaintenanceInput(note);
    var calls := p.HandleMaintenance(room, Created(ticket), WriteFailed);
    listed := p.tickets;
    advance := p.ClickAdvance(room, now, reply);
  }

  /** A ticket created from the panel and then resolved there is no longer among the open ones. */
  method CreateThenResolve(actor: Profile, room: Room, ticket: Ticket, note: string, reply: WriteReply)
    returns (open: seq<Ticket>)
    requires Trim(note) != []
    ensures open == []
  {
    var p := new Panel(actor);
    p.SetMaintenanceInput(note);
    var calls := p.HandleMaintenance(room, Created(ticket), reply);
    calls := p.HandleResolve(ticket.id, true);
    open := OpenTickets(p.tickets);
    // The only ticket in the list is the one just resolved, so no open ticket remains.
    assert p.tickets == ResolveLocal([ticket.(creatorName := Some(actor.fullName))], ticket.id);
  }
}
