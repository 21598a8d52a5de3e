/** The side panel for one room (hotel-app/src/components/RoomPanel.jsx). Its handlers build a
    write for the store, and when the write succeeds they hand the reply row to the dashboard
    (`onRoomUpdate`), record an activity and raise a notification. Each handler is modelled as a
    method that runs to completion: the store's replies are parameters, and the result lists
    the outbound calls in the order the handler makes them. */
module RoomPanel {
  import opened Prelude
  import opened Constants
  import opened Rooms

  /** The `metadata` object passed to `logActivity`; `NoMeta` is the default `{}`. */
  datatype Metadata = NoMeta | Transition(from: string, to: string) | NoteMeta(note: string)

  /** A maintenance ticket; `creatorName` is the `creator.full_name` join. */
  datatype Ticket = Ticket(id: string, roomId: string, note: string, createdBy: string,
                           status: string, creatorName: Option<string>)

  /** What a handler asks of the outside world, in order. */
  datatype Call =
    | FetchTickets(roomId: string)
    | UpdateRoom(roomId: string, patch: Fields)
    | InsertTicket(roomId: string, note: string, createdBy: string)
    | ResolveTicket(ticketId: string)
    | RoomUpdated(row: Row)
    | LogActivity(roomId: string, action: string, actorId: string, metadata: Metadata)
    | Notify(message: string, kind: string)

  /** The `{ data, error }` of `updateRoom`: the written row, or an error (data is null). */
  datatype WriteReply = Written(row: Row) | WriteFailed

  /** The `{ data, error }` of `createMaintenanceTicket`. */
  datatype TicketReply = Created(ticket: Ticket) | CreateFailed

  /** How many activities a run of calls records. */
  function LogCount(calls: seq<Call>): (n: nat)
    ensures n <= |calls|
    ensures n == 0 <==> forall i :: 0 <= i < |calls| ==> !calls[i].LogActivity?
  {
    if calls == [] then 0 else (if calls[0].LogActivity? then 1 else 0) + LogCount(calls[1..])
  }

  /** How many rows a run of calls hands to the dashboard's local state. */
  function LocalUpdateCount(calls: seq<Call>): (n: nat)
    ensures n <= |calls|
    ensures n == 0 <==> forall i :: 0 <= i < |calls| ==> !calls[i].RoomUpdated?
  {
    if calls == [] then 0 else (if calls[0].RoomUpdated? then 1 else 0) + LocalUpdateCount(calls[1..])
  }

  /** Both counts add up over consecutive runs of calls. */
  lemma {:induction false} CountsAppend(a: seq<Call>, b: seq<Call>)
    ensures LogCount(a + b) == LogCount(a) + LogCount(b)
    ensures LocalUpdateCount(a + b) == LocalUpdateCount(a) + LocalUpdateCount(b)
  {
    if a == [] {
      assert a + b == b;
    } else {
      assert (a + b)[0] == a[0];
      assert (a + b)[1..] == a[1..] + b;
      CountsAppend(a[1..], b);
    }
  }

  // ---------------------------------------------------------------------------
  // The status-change write
  // ---------------------------------------------------------------------------

  /** The `updates` object of `handleStatusChange`: always the new status; `dnd_since` only when
      entering do-not-disturb; `last_cleaned_at` only when the room becomes ready; nothing else. */
  function StatusChangePatch(newStatus: string, now: Millis): (p: Fields)
    ensures p.status == Some(newStatus)
    ensures p.dndSince.Some? <==> newStatus == DND
    ensures p.dndSince.Some? ==> p.dndSince.value == Some(now)
    ensures p.lastCleanedAt.Some? <==> newStatus == READY
    ensures p.lastCleanedAt.Some? ==> p.lastCleanedAt.value == Some(now)
    ensures p.(status := None, dndSince := None, lastCleanedAt := None) == NoFields
  {
    NoFields.(status := Some(newStatus),
              dndSince := if newStatus == DND then Some(Some(now)) else None,
              lastCleanedAt := if newStatus == READY then Some(Some(now)) else None)
  }

  /** Applied to a room, the patch changes its status and at most the one timestamp its target
      calls for; in particular leaving do-not-disturb keeps the old `dnd_since`. */
  lemma StatusChangeEffect(r: Room, newStatus: string, now: Millis)
    ensures var m := Overwrite(r, Row(r.id, StatusChangePatch(newStatus, now)));
            m.status == newStatus
            && m.dndSince == (if newStatus == DND then Some(now) else r.dndSince)
            && m.lastCleanedAt == (if newStatus == READY then Some(now) else r.lastCleanedAt)
            && m == r.(status := newStatus, dndSince := m.dndSince, lastCleanedAt := m.lastCleanedAt)
  {
  }

  /** The status Advance writes: the table's default successor, `checked_out` for a status the
      table does not know, and always one of the seven statuses. */
  function AdvanceTarget(room: Room): (s: string)
    ensures IsStatusId(s)
    ensures IsStatusId(room.status) ==> exists i :: 0 <= i < |STATUS_FLOW| && STATUS_FLOW[i].id == room.status
                                                  && STATUS_FLOW[i].next == s
    ensures !IsStatusId(room.status) ==> s == CHECKED_OUT
  {
    NextIsStatus(room.status);
    var d := GetStatusDef(room.status);
    assert d == STATUS_FLOW[0] || IsStatusId(room.status);
    d.next
  }

  /** The text of the success notification for a status change. */
  function StatusNotice(room: Room, newStatus: string): string
  {
    "Room " + room.roomNumber + " \U{2192} " + GetStatusDef(newStatus).title
  }

  /** `assigned_to: staffId || null`: an empty selection unassigns. */
  function AssignTarget(staffId: Option<string>): (t: Option<string>)
    ensures t.None? <==> staffId.None? || staffId.value == ""
    ensures t.Some? ==> t == staffId
  {
    if staffId.Some? && staffId.value != "" then staffId else None
  }

  /** `profiles?.find(p => p.id === staffId)?.full_name`: the first matching name, if any. */
  function StaffName(profiles: seq<Profile>, staffId: Option<string>): (name: Option<string>)
    ensures name.Some? <==> staffId.Some? && exists i :: 0 <= i < |profiles| && profiles[i].id == staffId.value
    ensures name.Some? ==> exists i :: 0 <= i < |profiles| && profiles[i].id == staffId.value
                                     && profiles[i].fullName == name.value
                                     && forall j :: 0 <= j < i ==> profiles[j].id != staffId.value
  {
    if staffId.None? || profiles == [] then None
    else if profiles[0].id == staffId.value then Some(profiles[0].fullName)
    else
      var rest := StaffName(profiles[1..], staffId);
      assert rest.Some? ==> exists i :: 1 <= i < |profiles| && profiles[i].id == staffId.value
                                        && profiles[i].fullName == rest.value
                                        && forall j :: 0 <= j < i ==> profiles[j].id != staffId.value by {
        if rest.Some? {
          var k :| 0 <= k < |profiles[1..]| && profiles[1..][k].id == staffId.value
                   && profiles[1..][k].fullName == rest.value
                   && forall j :: 0 <= j < k ==> profiles[1..][j].id != staffId.value;
          assert profiles[k + 1] == profiles[1..][k];
          forall j | 0 <= j < k + 1 ensures profiles[j].id != staffId.value {
            if j > 0 { assert profiles[j] == profiles[1..][j - 1]; }
          }
        }
      }
      assert rest.None? ==> forall i :: 0 <= i < |profiles| ==> profiles[i].id != staffId.value by {
        if rest.None? {
          forall i | 0 <= i < |profiles| ensures profiles[i].id != staffId.value {
            if i > 0 { assert profiles[i] == profiles[1..][i - 1]; }
          }
        }
      }
      rest
  }

  /** A missing value in a template literal prints as `undefined`. */
  function Shown(name: Option<string>): string
  {
    if name.Some? then name.value else "undefined"
  }

  const MAINTENANCE_PATCH: Fields := NoFields.(status := Some(MAINTENANCE))

  /** The ticket insert followed by the two identical maintenance-status writes. */
  function TicketWrites(room: Room, note: string, actorId: string): (calls: seq<Call>)
    ensures |calls| == 3 && calls[0] == InsertTicket(room.id, note, actorId)
    ensures forall i :: 1 <= i < |calls| ==> calls[i] == UpdateRoom(room.id, MAINTENANCE_PATCH)
    ensures LogCount(calls) == 0 && LocalUpdateCount(calls) == 0
  {
    [InsertTicket(room.id, note, actorId), UpdateRoom(room.id, MAINTENANCE_PATCH), UpdateRoom(room.id, MAINTENANCE_PATCH)]
  }

  /** `onRoomUpdate(updated)`, made only when the write returned a row, and handing over that row. */
  function LocalUpdate(reply: WriteReply): (calls: seq<Call>)
    ensures LocalUpdateCount(calls) == (if reply.Written? then 1 else 0)
    ensures forall c :: c in calls ==> reply.Written? && c == RoomUpdated(reply.row)
  {
    if reply.Written? then [RoomUpdated(reply.row)] else []
  }

  /** The notice and the activity that follow a created ticket: a warning naming the room first,
      then exactly one activity, which keeps the note as typed. */
  function TicketAnnounced(room: Room, note: string, actorId: string): (calls: seq<Call>)
    ensures |calls| == 2 && LogCount(calls) == 1
    ensures calls[0] == Notify("Maintenance ticket created for Room " + room.roomNumber, "warning")
    ensures calls[1] == LogActivity(room.id, "Maintenance ticket created", actorId, NoteMeta(note))
  {
    [Notify("Maintenance ticket created for Room " + room.roomNumber, "warning"),
     LogActivity(room.id, "Maintenance ticket created", actorId, NoteMeta(note))]
  }

  // ---------------------------------------------------------------------------
  // Tickets
  // ---------------------------------------------------------------------------

  /** `tickets.filter(t => t.status === 'open')`. */
  function OpenTickets(tickets: seq<Ticket>): (r: seq<Ticket>)
    ensures forall t :: t in r <==> t in tickets && t.status == "open"
  {
    Filter(tickets, (t: Ticket) => t.status == "open")
  }

  /** The tickets of the list whose id is not `id`. */
  function OtherTickets(tickets: seq<Ticket>, id: string): (r: seq<Ticket>)
    ensures forall t :: t in r <==> t in tickets && t.id != id
  {
    Filter(tickets, (t: Ticket) => t.id != id)
  }

  /** `t.map(tk => tk.id === ticketId ? { ...tk, status: 'resolved' } : tk)`. */
  function ResolveLocal(tickets: seq<Ticket>, id: string): (r: seq<Ticket>)
    ensures |r| == |tickets|
    ensures forall i :: 0 <= i < |tickets| && tickets[i].id != id ==> r[i] == tickets[i]
    ensures forall i :: 0 <= i < |tickets| && tickets[i].id == id ==> r[i] == tickets[i].(status := "resolved")
  {
    seq(|tickets|, i requires 0 <= i < |tickets| =>
      if tickets[i].id == id then tickets[i].(status := "resolved") else tickets[i])
  }

  /** Resolving twice is resolving once. */
  lemma {:induction false} ResolveLocalIdempotent(tickets: seq<Ticket>, id: string)
    ensures ResolveLocal(ResolveLocal(tickets, id), id) == ResolveLocal(tickets, id)
  {
    var once := ResolveLocal(tickets, id);
    assert forall i :: 0 <= i < |tickets| ==> ResolveLocal(once, id)[i] == once[i];
  }

  /** After a local resolve the panel lists the same open tickets as before, minus the resolved one. */
  lemma {:induction false} ResolveRemovesFromOpen(tickets: seq<Ticket>, id: string)
    ensures OpenTickets(ResolveLocal(tickets, id)) == OtherTickets(OpenTickets(tickets), id)
  {
    if tickets != [] {
      var r := ResolveLocal(tickets, id);
      assert r[1..] == ResolveLocal(tickets[1..], id);
      ResolveRemovesFromOpen(tickets[1..], id);
      var t := tickets[0];
      if t.status == "open" {
        assert OpenTickets(tickets) == [t] + OpenTickets(tickets[1..]);
        assert OpenTickets(tickets)[1..] == OpenTickets(tickets[1..]);
      } else {
        assert OpenTickets(tickets) == OpenTickets(tickets[1..]);
      }
    }
  }

  /** The panel's welfare alert: on do-not-disturb and `dndHours >= 4`, that is, at least four
      hours (14400000 ms) since `dnd_since`. */
  function PanelWelfareAlert(room: Room, now: Millis): (shown: bool)
    ensures shown <==> room.status == DND && room.dndSince.Some? && now - room.dndSince.value >= HOURS_4_MS
  {
    DndHoursAtLeastFour(room, now);
    room.status == DND && DndHours(room, now) >= 4
  }

  /** The Create Maintenance Ticket button is enabled when nothing is saving and the note has a
      non-whitespace character. */
  function CreateTicketEnabled(saving: bool, input: string): (enabled: bool)
    ensures enabled <==> !saving && exists i :: 0 <= i < |input| && !IsWhitespace(input[i])
  {
    !saving && Trim(input) != []
  }

  // ---------------------------------------------------------------------------
  // The panel's state and handlers
  // ---------------------------------------------------------------------------

  class Panel {
    /** The signed-in profile (`useAuth().profile`). */
    const actor: Profile
    var tickets: seq<Ticket>
    var maintenanceInput: string
    var saving: bool

    constructor(actor: Profile)
      ensures this.actor == actor
      ensures tickets == [] && maintenanceInput == "" && !saving
    {
      this.actor := actor;
      tickets := [];
      maintenanceInput := "";
      saving := false;
    }

    /** `loadTickets`: the list is replaced when the query returns data. */
    method LoadTickets(room: Room, reply: Option<seq<Ticket>>) returns (calls: seq<Call>)
      modifies this
      ensures calls == [FetchTickets(room.id)]
      ensures tickets == (if reply.Some? then reply.value else old(tickets))
      ensures maintenanceInput == old(maintenanceInput) && saving == old(saving)
    {
      calls := [FetchTickets(room.id)];
      if reply.Some? {
        tickets := reply.value;
      }
    }

    /** `handleStatusChange(newStatus)`: one write; on success the reply row goes to the
        dashboard, exactly one activity is recorded and a notice is raised; on error nothing
        else happens. `saving` is clear afterwards on both paths. */
    method HandleStatusChange(room: Room, newStatus: string, now: Millis, reply: WriteReply)
      returns (calls: seq<Call>)
      modifies this
      ensures calls != [] && calls[0] == UpdateRoom(room.id, StatusChangePatch(newStatus, now))
      ensures reply.WriteFailed? ==> |calls| == 1
      ensures reply.Written? ==> calls == [calls[0], RoomUpdated(reply.row),
                LogActivity(room.id, "Status changed to " + newStatus, actor.id, Transition(room.status, newStatus)),
                Notify(StatusNotice(room, newStatus), "success")]
      ensures LogCount(calls) == LocalUpdateCount(calls) == (if reply.Written? then 1 else 0)
      ensures !saving
      ensures tickets == old(tickets) && maintenanceInput == old(maintenanceInput)
    {
      saving := true;
      var updates := NoFields.(status := Some(newStatus));
      if newStatus == DND {
        updates := updates.(dndSince := Some(Some(now)));
      }
      if newStatus == READY {
        updates := updates.(lastCleanedAt := Some(Some(now)));
      }
      calls := [UpdateRoom(room.id, updates)];
      if reply.Written? {
        calls := calls + [RoomUpdated(reply.row)];
        calls := calls + [LogActivity(room.id, "Status changed to " + newStatus, actor.id,
                                      Transition(room.status, newStatus))];
        calls := calls + [Notify(StatusNotice(room, newStatus), "success")];
        CountsAppend(calls[..2], calls[2..]);
      }
      saving := false;
    }

    /** `handleAdvance`: a status change to the default successor. */
    method HandleAdvance(room: Room, now: Millis, reply: WriteReply) returns (calls: seq<Call>)
      modifies this
      ensures calls != [] && calls[0] == UpdateRoom(room.id, StatusChangePatch(AdvanceTarget(room), now))
      ensures reply.WriteFailed? ==> |calls| == 1
      ensures reply.Written? ==> calls == [calls[0], RoomUpdated(reply.row),
                LogActivity(room.id, "Status changed to " + AdvanceTarget(room), actor.id,
                            Transition(room.status, AdvanceTarget(room))),
                Notify(StatusNotice(room, AdvanceTarget(room)), "success")]
      ensures !saving && tickets == old(tickets) && maintenanceInput == old(maintenanceInput)
    {
      calls := HandleStatusChange(room, GetStatusDef(room.status).next, now, reply);
    }

    /** The Advance button, disabled while `saving`. */
    method ClickAdvance(room: Room, now: Millis, reply: WriteReply) returns (calls: seq<Call>)
      modifies this
      ensures old(saving) ==> calls == [] && saving
      ensures !old(saving) ==> calls != [] && calls[0] == UpdateRoom(room.id, StatusChangePatch(AdvanceTarget(room), now))
                               && !saving
      ensures tickets == old(tickets) && maintenanceInput == old(maintenanceInput)
    {
      if saving {
        calls := [];
      } else {
        calls := HandleAdvance(room, now, reply);
      }
    }

    /** `handleAssign(staffId)`: writes `assigned_to`; on success the reply row goes to the
        dashboard, then a notice, then the activity "Assigned to <name>" or "Unassigned". */
    method HandleAssign(room: Room, staffId: Option<string>, profiles: seq<Profile>, reply: WriteReply)
      returns (calls: seq<Call>)
      modifies {}
      ensures calls != [] && calls[0] == UpdateRoom(room.id, NoFields.(assignedTo := Some(AssignTarget(staffId))))
      ensures reply.WriteFailed? ==> |calls| == 1
      ensures reply.Written? ==>
                var name := Shown(StaffName(profiles, staffId));
                var isAssigned := AssignTarget(staffId).Some?;
                calls == [calls[0], RoomUpdated(reply.row),
                          Notify(if isAssigned then "Room " + room.roomNumber + " assigned to " + name
                                 else "Room " + room.roomNumber + " unassigned", "info"),
                          LogActivity(room.id, if isAssigned then "Assigned to " + name else "Unassigned",
                                      actor.id, NoMeta)]
    {
      var target := if staffId.Some? && staffId.value != "" then staffId else None;
      calls := [UpdateRoom(room.id, NoFields.(assignedTo := Some(target)))];
      if reply.Written? {
        calls := calls + [RoomUpdated(reply.row)];
        var staffName := StaffName(profiles, staffId);
        if target.Some? {
          calls := calls + [Notify("Room " + room.roomNumber + " assigned to " + Shown(staffName), "info")];
          calls := calls + [LogActivity(room.id, "Assigned to " + Shown(staffName), actor.id, NoMeta)];
        } else {
          calls := calls + [Notify("Room " + room.roomNumber + " unassigned", "info")];
          calls := calls + [LogActivity(room.id, "Unassigned", actor.id, NoMeta)];
        }
      }
    }

    /** `handleEffort(effort)`: writes exactly `clean_effort`. */
    method HandleEffort(room: Room, effort: string, reply: WriteReply) returns (calls: seq<Call>)
      ensures calls != [] && calls[0] == UpdateRoom(room.id, NoFields.(cleanEffort := Some(effort)))
      ensures calls == [calls[0]] + (if reply.Written? then [RoomUpdated(reply.row)] else [])
      ensures LogCount(calls) == 0
    {
      calls := [UpdateRoom(room.id, NoFields.(cleanEffort := Some(effort)))];
      if reply.Written? {
        calls := calls + [RoomUpdated(reply.row)];
      }
    }

    /** `handlePriority`: writes the negation of the room's current flag. */
    method HandlePriority(room: Room, reply: WriteReply) returns (calls: seq<Call>)
      ensures calls != [] && calls[0] == UpdateRoom(room.id, NoFields.(priority := Some(!room.priority)))
      ensures calls == [calls[0]] + (if reply.Written? then [RoomUpdated(reply.row)] else [])
      ensures LogCount(calls) == 0
    {
      calls := [UpdateRoom(room.id, NoFields.(priority := Some(!room.priority)))];
      if reply.Written? {
        calls := calls + [RoomUpdated(reply.row)];
      }
    }

    /** The note's text area. */
    method SetMaintenanceInput(text: string)
      modifies this
      ensures maintenanceInput == text
      ensures tickets == old(tickets) && saving == old(saving)
    {
      maintenanceInput := text;
    }

    /** `handleMaintenance` as the code stands. `reply` answers the second of the two identical
        status writes; when it fails its data is null, and the dashboard's `handleRoomUpdate`
        reads `updatedRoom.id` from it and throws, so the handler stops there (`crashed`), before
        `setSaving(false)`: the ticket is not listed, the note is kept and `saving` is still set. */
    method HandleMaintenanceAsWritten(room: Room, created: TicketReply, reply: WriteReply)
      returns (calls: seq<Call>, crashed: bool)
      modifies this
      ensures Trim(old(maintenanceInput)) == [] ==>
                calls == [] && !crashed && saving == old(saving) && tickets == old(tickets)
                && maintenanceInput == old(maintenanceInput)
      ensures Trim(old(maintenanceInput)) != [] && created.CreateFailed? ==>
                calls == [InsertTicket(room.id, old(maintenanceInput), actor.id)] && !crashed
                && !saving && tickets == old(tickets) && maintenanceInput == old(maintenanceInput)
      ensures Trim(old(maintenanceInput)) != [] && created.Created? && reply.WriteFailed? ==>
                calls == TicketWrites(room, old(maintenanceInput), actor.id)
                && crashed && saving && tickets == old(tickets) && maintenanceInput == old(maintenanceInput)
      ensures Trim(old(maintenanceInput)) != [] && created.Created? && reply.Written? ==>
                !crashed && !saving && maintenanceInput == ""
                && tickets == [created.ticket.(creatorName := Some(actor.fullName))] + old(tickets)
                && calls == TicketWrites(room, old(maintenanceInput), actor.id) + [RoomUpdated(reply.row)]
                            + TicketAnnounced(room, old(maintenanceInput), actor.id)
    {
      crashed := false;
      if Trim(maintenanceInput) == [] {
        calls := [];
        return;
      }
      saving := true;
      var note := maintenanceInput;
      if created.CreateFailed? {
        calls := [InsertTicket(room.id, note, actor.id)];
        saving := false;
        return;
      }
      calls := TicketWrites(room, note, actor.id);
      if reply.WriteFailed? {
        crashed := true;
        return;
      }
      calls := calls + [RoomUpdated(reply.row)];
      tickets := [created.ticket.(creatorName := Some(actor.fullName))] + tickets;
      maintenanceInput := "";
      calls := calls + TicketAnnounced(room, note, actor.id);
      saving := false;
    }

    /** `handleMaintenance` with the local update guarded (`if (updated) onRoomUpdate(updated)`):
        a whitespace-only note does nothing; a failed insert writes nothing else; a successful
        insert writes the maintenance status before the ticket is listed, the note is cleared
        and the activity records the note as typed. `saving` is clear on every path that set it. */
    method HandleMaintenance(room: Room, created: TicketReply, reply: WriteReply)
      returns (calls: seq<Call>)
      modifies this
      ensures Trim(old(maintenanceInput)) == [] ==>
                calls == [] && saving == old(saving) && tickets == old(tickets)
                && maintenanceInput == old(maintenanceInput)
      ensures Trim(old(maintenanceInput)) != [] ==> !saving && calls != [] && calls[0] == InsertTicket(room.id, old(maintenanceInput), actor.id)
      ensures Trim(old(maintenanceInput)) != [] && created.CreateFailed? ==>
                |calls| == 1 && tickets == old(tickets) && maintenanceInput == old(maintenanceInput)
      ensures Trim(old(maintenanceInput)) != [] && created.Created? ==>
                maintenanceInput == ""
                && tickets == [created.ticket.(creatorName := Some(actor.fullName))] + old(tickets)
                && calls == TicketWrites(room, old(maintenanceInput), actor.id) + LocalUpdate(reply)
                            + TicketAnnounced(room, old(maintenanceInput), actor.id)
    {
      if Trim(maintenanceInput) == [] {
        calls := [];
        return;
      }
      saving := true;
      var note := maintenanceInput;
      if created.Created? {
        calls := TicketWrites(room, note, actor.id) + LocalUpdate(reply);
        tickets := [created.ticket.(creatorName := Some(actor.fullName))] + tickets;
        maintenanceInput := "";
        calls := calls + TicketAnnounced(room, note, actor.id);
      } else {
        calls := [InsertTicket(room.id, note, actor.id)];
      }
      saving := false;
    }

    /** The Create Maintenance Ticket button, disabled while saving or while the note is blank. */
    method ClickCreateTicket(room: Room, created: TicketReply, reply: WriteReply) returns (calls: seq<Call>)
      modifies this
      ensures !CreateTicketEnabled(old(saving), old(maintenanceInput)) ==>
                calls == [] && saving == old(saving) && tickets == old(tickets)
                && maintenanceInput == old(maintenanceInput)
      ensures CreateTicketEnabled(old(saving), old(maintenanceInput)) ==>
                !saving && calls != [] && calls[0] == InsertTicket(room.id, old(maintenanceInput), actor.id)
      ensures CreateTicketEnabled(old(saving), old(maintenanceInput)) && created.CreateFailed? ==>
                |calls| == 1 && tickets == old(tickets) && maintenanceInput == old(maintenanceInput)
      ensures CreateTicketEnabled(old(saving), old(maintenanceInput)) && created.Created? ==>
                maintenanceInput == ""
                && tickets == [created.ticket.(creatorName := Some(actor.fullName))] + old(tickets)
                && calls == TicketWrites(room, old(maintenanceInput), actor.id) + LocalUpdate(reply)
                            + TicketAnnounced(room, old(maintenanceInput), actor.id)
    {
      if saving {
        calls := [];
      } else {
        calls := HandleMaintenance(room, created, reply);
      }
    }

    /** `handleResolve(ticketId)`: on success only the matching ticket is marked resolved. */
    method HandleResolve(ticketId: string, resolved: bool) returns (calls: seq<Call>)
      modifies this
      ensures calls == [ResolveTicket(ticketId)] + (if resolved then [Notify("Ticket resolved", "success")] else [])
      ensures tickets == (if resolved then ResolveLocal(old(tickets), ticketId) else old(tickets))
      ensures resolved ==> OpenTickets(tickets) == OtherTickets(OpenTickets(old(tickets)), ticketId)
      ensures maintenanceInput == old(maintenanceInput) && saving == old(saving)
    {
      calls := [ResolveTicket(ticketId)];
      if resolved {
        ResolveRemovesFromOpen(tickets, ticketId);
        tickets := ResolveLocal(tickets, ticketId);
        calls := calls + [Notify("Ticket resolved", "success")];
      }
    }
  }
}
