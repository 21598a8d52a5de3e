/** Room records as the client holds them, the shallow `{ ...r, ...row }` merge both dashboards
    apply to realtime UPDATE events and to write replies, and the derived values more than one
    view computes from a room (hours on do-not-disturb, the distinct floor list, selection). */
module Rooms {
  import opened Prelude
  import opened Constants

  /** Wall-clock instants, in milliseconds. */
  type Millis = int

  /** The embedded `assigned_profile:profiles(id, full_name, avatar_initial)` join. */
  datatype ProfileRef = ProfileRef(id: string, fullName: string, avatarInitial: Option<string>)

  /** A row of `profiles` as the dashboards use it. */
  datatype Profile = Profile(id: string, fullName: string, role: string)

  /** A room as loaded by `getRooms` (all columns plus the `assigned_profile` join). */
  datatype Room = Room(
    id: string,
    roomNumber: string,
    floor: int,
    status: string,
    assignedTo: Option<string>,
    cleanEffort: string,
    priority: bool,
    dndSince: Option<Millis>,
    lastCleanedAt: Option<Millis>,
    guestPrefs: Option<string>,
    updatedAt: Option<Millis>,
    assignedProfile: Option<ProfileRef>)

  /** The columns an object carries besides `id`: `None` is a key that is absent, so a spread
      leaves the target's value alone; for a nullable column `Some(None)` is an explicit null. */
  datatype Fields = Fields(
    roomNumber: Option<string>,
    floor: Option<int>,
    status: Option<string>,
    assignedTo: Option<Option<string>>,
    cleanEffort: Option<string>,
    priority: Option<bool>,
    dndSince: Option<Option<Millis>>,
    lastCleanedAt: Option<Option<Millis>>,
    guestPrefs: Option<Option<string>>,
    updatedAt: Option<Option<Millis>>)

  const NoFields: Fields := Fields(None, None, None, None, None, None, None, None, None, None)

  /** A row of `rooms` as it arrives: a realtime `payload.new` or the data of a write reply.
      It never carries the `assigned_profile` join. */
  datatype Row = Row(id: string, fields: Fields)

  /** The value a spread leaves in one property. */
  function Pick<T>(o: Option<T>, current: T): T
  {
    if o.Some? then o.value else current
  }

  /** `{ ...r, ...row }`: every property `row` carries replaces the room's; the rest is kept. */
  function Overwrite(r: Room, row: Row): (m: Room)
    ensures m.id == row.id
    ensures row.fields.roomNumber.Some? ==> m.roomNumber == row.fields.roomNumber.value
    ensures row.fields.roomNumber.None? ==> m.roomNumber == r.roomNumber
    ensures row.fields.floor.Some? ==> m.floor == row.fields.floor.value
    ensures row.fields.floor.None? ==> m.floor == r.floor
    ensures row.fields.status.Some? ==> m.status == row.fields.status.value
    ensures row.fields.status.None? ==> m.status == r.status
    ensures row.fields.assignedTo.Some? ==> m.assignedTo == row.fields.assignedTo.value
    ensures row.fields.assignedTo.None? ==> m.assignedTo == r.assignedTo
    ensures row.fields.cleanEffort.Some? ==> m.cleanEffort == row.fields.cleanEffort.value
    ensures row.fields.cleanEffort.None? ==> m.cleanEffort == r.cleanEffort
    ensures row.fields.priority.Some? ==> m.priority == row.fields.priority.value
    ensures row.fields.priority.None? ==> m.priority == r.priority
    ensures row.fields.dndSince.Some? ==> m.dndSince == row.fields.dndSince.value
    ensures row.fields.dndSince.None? ==> m.dndSince == r.dndSince
    ensures row.fields.lastCleanedAt.Some? ==> m.lastCleanedAt == row.fields.lastCleanedAt.value
    ensures row.fields.lastCleanedAt.None? ==> m.lastCleanedAt == r.lastCleanedAt
    ensures row.fields.guestPrefs.Some? ==> m.guestPrefs == row.fields.guestPrefs.value
    ensures row.fields.guestPrefs.None? ==> m.guestPrefs == r.guestPrefs
    ensures row.fields.updatedAt.Some? ==> m.updatedAt == row.fields.updatedAt.value
    ensures row.fields.updatedAt.None? ==> m.updatedAt == r.updatedAt
    ensures m.assignedProfile == r.assignedProfile
    ensures row.fields == NoFields ==> m == r.(id := row.id)
  {
    var f := row.fields;
    Room(row.id, Pick(f.roomNumber, r.roomNumber), Pick(f.floor, r.floor), Pick(f.status, r.status),
         Pick(f.assignedTo, r.assignedTo), Pick(f.cleanEffort, r.cleanEffort), Pick(f.priority, r.priority),
         Pick(f.dndSince, r.dndSince), Pick(f.lastCleanedAt, r.lastCleanedAt),
         Pick(f.guestPrefs, r.guestPrefs), Pick(f.updatedAt, r.updatedAt), r.assignedProfile)
  }

  /** The property set of `{ ...a, ...b }` when both are spread, `b` winning on shared keys. */
  function Combine(a: Fields, b: Fields): Fields
  {
    Fields(Later(a.roomNumber, b.roomNumber), Later(a.floor, b.floor), Later(a.status, b.status),
           Later(a.assignedTo, b.assignedTo), Later(a.cleanEffort, b.cleanEffort),
           Later(a.priority, b.priority), Later(a.dndSince, b.dndSince),
           Later(a.lastCleanedAt, b.lastCleanedAt), Later(a.guestPrefs, b.guestPrefs),
           Later(a.updatedAt, b.updatedAt))
  }

  function Later<T>(a: Option<T>, b: Option<T>): Option<T>
  {
    if b.Some? then b else a
  }

  /** Two rows that never carry the same property. */
  predicate DisjointFields(a: Fields, b: Fields)
  {
    !(a.roomNumber.Some? && b.roomNumber.Some?) && !(a.floor.Some? && b.floor.Some?)
    && !(a.status.Some? && b.status.Some?) && !(a.assignedTo.Some? && b.assignedTo.Some?)
    && !(a.cleanEffort.Some? && b.cleanEffort.Some?) && !(a.priority.Some? && b.priority.Some?)
    && !(a.dndSince.Some? && b.dndSince.Some?) && !(a.lastCleanedAt.Some? && b.lastCleanedAt.Some?)
    && !(a.guestPrefs.Some? && b.guestPrefs.Some?) && !(a.updatedAt.Some? && b.updatedAt.Some?)
  }

  /** Spreading the same row twice is spreading it once. */
  lemma OverwriteIdempotent(r: Room, row: Row)
    ensures Overwrite(Overwrite(r, row), row) == Overwrite(r, row)
  {
  }

  /** Two successive spreads are one spread of the combined row: the later value wins. */
  lemma OverwriteCombine(r: Room, a: Row, b: Row)
    ensures Overwrite(Overwrite(r, a), b) == Overwrite(r, Row(b.id, Combine(a.fields, b.fields)))
  {
  }

  /** A row that carries every column, as a write reply (`.select()` of the whole row) does. */
  predicate FullRow(f: Fields)
  {
    f.roomNumber.Some? && f.floor.Some? && f.status.Some? && f.assignedTo.Some? && f.cleanEffort.Some?
    && f.priority.Some? && f.dndSince.Some? && f.lastCleanedAt.Some? && f.guestPrefs.Some? && f.updatedAt.Some?
  }

  /** A full row leaves nothing of an earlier spread: only the join survives, and it never changes. */
  lemma OverwriteFullRow(r: Room, a: Row, b: Row)
    requires FullRow(b.fields)
    ensures Overwrite(Overwrite(r, a), b) == Overwrite(r, b)
  {
  }

  /** Rows for the same room that touch disjoint properties can be applied in either order. */
  lemma OverwriteCommute(r: Room, a: Row, b: Row)
    requires a.id == b.id && DisjointFields(a.fields, b.fields)
    ensures Overwrite(Overwrite(r, a), b) == Overwrite(Overwrite(r, b), a)
  {
  }

  // ---------------------------------------------------------------------------
  // The list merge: prev.map(r => r.id === row.id ? { ...r, ...row } : r)
  // ---------------------------------------------------------------------------

  /** Every entry whose id is the row's id is overwritten; all others are left as they are. */
  function MergeById(rooms: seq<Room>, row: Row): (merged: seq<Room>)
    ensures |merged| == |rooms|
    ensures forall i :: 0 <= i < |rooms| ==> merged[i].id == rooms[i].id
    ensures forall i :: 0 <= i < |rooms| && rooms[i].id != row.id ==> merged[i] == rooms[i]
    ensures forall i :: 0 <= i < |rooms| && rooms[i].id == row.id ==> merged[i] == Overwrite(rooms[i], row)
  {
    seq(|rooms|, i requires 0 <= i < |rooms| => if rooms[i].id == row.id then Overwrite(rooms[i], row) else rooms[i])
  }

  /** A row whose id no entry has leaves the list unchanged. */
  lemma {:induction false} MergeUnknownIdIsNoOp(rooms: seq<Room>, row: Row)
    requires forall i :: 0 <= i < |rooms| ==> rooms[i].id != row.id
    ensures MergeById(rooms, row) == rooms
  {
    var merged := MergeById(rooms, row);
    assert forall i :: 0 <= i < |rooms| ==> merged[i] == rooms[i];
  }

  /** Merging the same row twice is merging it once. */
  lemma {:induction false} MergeIdempotent(rooms: seq<Room>, row: Row)
    ensures MergeById(MergeById(rooms, row), row) == MergeById(rooms, row)
  {
    var once := MergeById(rooms, row);
    var twice := MergeById(once, row);
    forall i | 0 <= i < |rooms| ensures twice[i] == once[i] {
      if rooms[i].id == row.id {
        OverwriteIdempotent(rooms[i], row);
      }
    }
  }

  /** Two rows that touch disjoint properties merge to the same list in either order. */
  lemma {:induction false} MergeCommute(rooms: seq<Room>, a: Row, b: Row)
    requires DisjointFields(a.fields, b.fields)
    ensures MergeById(MergeById(rooms, a), b) == MergeById(MergeById(rooms, b), a)
  {
    var ab := MergeById(MergeById(rooms, a), b);
    var ba := MergeById(MergeById(rooms, b), a);
    forall i | 0 <= i < |rooms| ensures ab[i] == ba[i] {
      if rooms[i].id == a.id && rooms[i].id == b.id {
        OverwriteCommute(rooms[i], a, b);
      }
    }
  }

  /** The list of ids, unchanged by every merge. */
  function Ids(rooms: seq<Room>): (ids: seq<string>)
    ensures |ids| == |rooms| && forall i :: 0 <= i < |rooms| ==> ids[i] == rooms[i].id
  {
    seq(|rooms|, i requires 0 <= i < |rooms| => rooms[i].id)
  }

  lemma MergeKeepsIds(rooms: seq<Room>, row: Row)
    ensures Ids(MergeById(rooms, row)) == Ids(rooms)
  {
  }

  /** `prev?.id === row.id ? { ...prev, ...row } : prev` (and the guarded update in
      `handleRoomUpdate`, which computes the same value). */
  function MergeSelected(selected: Option<Room>, row: Row): (s: Option<Room>)
    ensures selected.None? ==> s.None?
    ensures selected.Some? && selected.value.id != row.id ==> s == selected
    ensures selected.Some? && selected.value.id == row.id ==> s == Some(Overwrite(selected.value, row))
  {
    if selected.Some? && selected.value.id == row.id then Some(Overwrite(selected.value, row)) else selected
  }

  /** The selection is a copy of an entry of the list. */
  predicate SelectionInList(rooms: seq<Room>, selected: Option<Room>)
  {
    selected.None? || selected.value in rooms
  }

  /** Because the list and the selection receive the same row, a selection that was a copy of
      an entry is still a copy of the corresponding merged entry. */
  lemma MergeKeepsSelectionInList(rooms: seq<Room>, selected: Option<Room>, row: Row)
    requires SelectionInList(rooms, selected)
    ensures SelectionInList(MergeById(rooms, row), MergeSelected(selected, row))
  {
    if selected.Some? {
      var i :| 0 <= i < |rooms| && rooms[i] == selected.value;
      assert MergeById(rooms, row)[i] == MergeSelected(selected, row).value;
    }
  }

  /** The joined profile is never refreshed by a merge: a row that reassigns the room leaves
      the old `assigned_profile` in place. */
  lemma MergeKeepsJoinedProfile(rooms: seq<Room>, row: Row, i: nat)
    requires i < |rooms|
    ensures MergeById(rooms, row)[i].assignedProfile == rooms[i].assignedProfile
  {
  }

  // ---------------------------------------------------------------------------
  // Derived values
  // ---------------------------------------------------------------------------

  const HOURS_4_MS: int := 4 * HOUR_MS

  /** `room.dnd_since ? Math.floor((now - dnd_since) / 3600000) : 0`. */
  function DndHours(room: Room, now: Millis): (h: int)
    ensures room.dndSince.None? ==> h == 0
    ensures room.dndSince.Some? ==> h * HOUR_MS <= now - room.dndSince.value < (h + 1) * HOUR_MS
  {
    if room.dndSince.Some? then (now - room.dndSince.value) / HOUR_MS else 0
  }

  /** At least four whole hours have passed since `dnd_since`: exactly the rooms for which
      the elapsed time is at least four hours. */
  lemma DndHoursAtLeastFour(room: Room, now: Millis)
    ensures DndHours(room, now) >= 4 <==> room.dndSince.Some? && now - room.dndSince.value >= HOURS_4_MS
  {
  }

  /** `selectedRoom?.id === room.id ? null : room`: clicking the selected room clears the
      selection, clicking any other room selects it. */
  function ToggleSelection(selected: Option<Room>, room: Room): (s: Option<Room>)
    ensures s.None? <==> selected.Some? && selected.value.id == room.id
    ensures s.Some? ==> s.value == room
  {
    if selected.Some? && selected.value.id == room.id then None else Some(room)
  }

  /** Two clicks on the same room from a selection of some other room (or none) end with
      nothing selected. */
  lemma ToggleTwiceClears(selected: Option<Room>, room: Room)
    requires selected.None? || selected.value.id != room.id
    ensures ToggleSelection(ToggleSelection(selected, room), room) == None
  {
  }

  // ---------------------------------------------------------------------------
  // Distinct sorted floors: [...new Set(rooms.map(r => r.floor))].sort((a, b) => a - b)
  // ---------------------------------------------------------------------------

  predicate StrictlyAscending(s: seq<int>)
  {
    forall i, j :: 0 <= i < j < |s| ==> s[i] < s[j]
  }

  /** Inserts `x` into an ascending list unless it is already there. */
  function InsertFloor(x: int, s: seq<int>): (r: seq<int>)
    requires StrictlyAscending(s)
    ensures StrictlyAscending(r)
    ensures forall y :: y in r <==> y == x || y in s
  {
    if s == [] then [x]
    else if x < s[0] then [x] + s
    else if x == s[0] then s
    else
      var t := InsertFloor(x, s[1..]);
      InsertFloorAbove(x, s, t);
      [s[0]] + t
  }

  /** Inserting a floor above the head keeps the head in front. */
  lemma InsertFloorAbove(x: int, s: seq<int>, t: seq<int>)
    requires s != [] && StrictlyAscending(s) && s[0] < x
    requires StrictlyAscending(t) && forall y :: y in t <==> y == x || y in s[1..]
    ensures StrictlyAscending([s[0]] + t)
    ensures forall y :: y in [s[0]] + t <==> y == x || y in s
  {
    var r := [s[0]] + t;
    forall y | y in t ensures s[0] < y {
      if y != x {
        var k :| 0 <= k < |s[1..]| && s[1..][k] == y;
        assert s[k + 1] == y;
      }
    }
    forall i, j | 0 <= i < j < |r| ensures r[i] < r[j] {
      assert r[j] == t[j - 1] && t[j - 1] in t;
      if i > 0 {
        assert r[i] == t[i - 1];
      }
    }
    assert s == [s[0]] + s[1..];
  }

  /** Some room of the list is on floor `f`. */
  predicate HasFloor(rooms: seq<Room>, f: int)
  {
    exists i :: 0 <= i < |rooms| && rooms[i].floor == f
  }

  lemma HasFloorCons(rooms: seq<Room>, f: int)
    requires rooms != []
    ensures HasFloor(rooms, f) <==> f == rooms[0].floor || HasFloor(rooms[1..], f)
  {
    if i :| 0 <= i < |rooms| && rooms[i].floor == f {
      if i > 0 { assert rooms[1..][i - 1].floor == f; }
    }
    if i :| 0 <= i < |rooms[1..]| && rooms[1..][i].floor == f {
      assert rooms[i + 1].floor == f;
    }
  }

  /** The floors occurring in `rooms`, each once, in ascending order. */
  function Floors(rooms: seq<Room>): (fs: seq<int>)
    ensures StrictlyAscending(fs)
    ensures forall f :: f in fs <==> HasFloor(rooms, f)
  {
    if rooms == [] then []
    else
      var rest := Floors(rooms[1..]);
      assert forall f :: HasFloor(rooms, f) <==> f == rooms[0].floor || HasFloor(rooms[1..], f) by {
        forall f ensures HasFloor(rooms, f) <==> f == rooms[0].floor || HasFloor(rooms[1..], f) {
          HasFloorCons(rooms, f);
        }
      }
      InsertFloor(rooms[0].floor, rest)
  }

  /** Rooms on one floor, in list order: `rooms.filter(r => r.floor === floor)`. */
  function FloorRooms(rooms: seq<Room>, floor: int): (r: seq<Room>)
    ensures forall x :: x in r <==> x in rooms && x.floor == floor
    ensures forall x :: multiset(r)[x] == if x.floor == floor then multiset(rooms)[x] else 0
    ensures IsSubsequence(r, rooms)
  {
    var p := (x: Room) => x.floor == floor;
    FilterIsSubsequence(rooms, p);
    assert forall x :: multiset(Filter(rooms, p))[x] == if p(x) then multiset(rooms)[x] else 0 by {
      forall x ensures multiset(Filter(rooms, p))[x] == if p(x) then multiset(rooms)[x] else 0 {
        FilterMultiplicity(rooms, p, x);
      }
    }
    Filter(rooms, p)
  }

  /** The floor of every room in the list has at least one room in its section. */
  lemma FloorRoomsOfOccurringFloor(rooms: seq<Room>, f: int)
    requires f in Floors(rooms)
    ensures FloorRooms(rooms, f) != []
  {
    var i :| 0 <= i < |rooms| && rooms[i].floor == f;
    assert rooms[i] in FloorRooms(rooms, f);
  }

  // ---------------------------------------------------------------------------
  // Realtime events on `rooms`
  // ---------------------------------------------------------------------------

  /** A `postgres_changes` payload on `rooms`: `eventType` ("INSERT", "UPDATE" or "DELETE")
      and `payload.new`. */
  datatype RoomEvent = RoomEvent(eventType: string, newRow: Row)

  /** Only an UPDATE is merged into the list; every other event leaves it alone. */
  function ApplyRoomEvent(rooms: seq<Room>, ev: RoomEvent): (r: seq<Room>)
    ensures ev.eventType != "UPDATE" ==> r == rooms
    ensures ev.eventType == "UPDATE" ==> r == MergeById(rooms, ev.newRow)
  {
    if ev.eventType == "UPDATE" then MergeById(rooms, ev.newRow) else rooms
  }

  /** The same event applied to the open selection. */
  function ApplySelectionEvent(selected: Option<Room>, ev: RoomEvent): (s: Option<Room>)
    ensures ev.eventType != "UPDATE" ==> s == selected
    ensures ev.eventType == "UPDATE" ==> s == MergeSelected(selected, ev.newRow)
  {
    if ev.eventType == "UPDATE" then MergeSelected(selected, ev.newRow) else selected
  }

  /** Replaying a run of realtime events on the list. */
  function ApplyRoomEvents(rooms: seq<Room>, evs: seq<RoomEvent>): seq<Room>
    decreases |evs|
  {
    if evs == [] then rooms else ApplyRoomEvents(ApplyRoomEvent(rooms, evs[0]), evs[1..])
  }

  /** No sequence of events adds, removes or reorders rooms. */
  lemma {:induction false} EventsKeepIds(rooms: seq<Room>, evs: seq<RoomEvent>)
    ensures Ids(ApplyRoomEvents(rooms, evs)) == Ids(rooms)
    decreases |evs|
  {
    if evs != [] {
      MergeKeepsIds(rooms, evs[0].newRow);
      EventsKeepIds(ApplyRoomEvent(rooms, evs[0]), evs[1..]);
    }
  }

  /** Delivering the same UPDATE twice has the effect of delivering it once. */
  lemma RedeliveredUpdateIsHarmless(rooms: seq<Room>, ev: RoomEvent)
    ensures ApplyRoomEvent(ApplyRoomEvent(rooms, ev), ev) == ApplyRoomEvent(rooms, ev)
  {
    if ev.eventType == "UPDATE" {
      MergeIdempotent(rooms, ev.newRow);
    }
  }

  // ---------------------------------------------------------------------------
  // Projections shared by the dashboards
  // ---------------------------------------------------------------------------

  /** `rooms.filter(r => r.assigned_to === staffId)`. */
  function AssignedTo(rooms: seq<Room>, staffId: string): (r: seq<Room>)
    ensures forall x :: x in r <==> x in rooms && x.assignedTo == Some(staffId)
    ensures IsSubsequence(r, rooms)
  {
    FilterIsSubsequence(rooms, (x: Room) => x.assignedTo == Some(staffId));
    Filter(rooms, (x: Room) => x.assignedTo == Some(staffId))
  }

  /** `rooms.filter(r => r.status === status)`. */
  function WithStatus(rooms: seq<Room>, status: string): (r: seq<Room>)
    ensures forall x :: x in r <==> x in rooms && x.status == status
    ensures IsSubsequence(r, rooms)
  {
    FilterIsSubsequence(rooms, (x: Room) => x.status == status);
    Filter(rooms, (x: Room) => x.status == status)
  }

  /** `rooms.filter(r => r.clean_effort === effort)`. */
  function WithEffort(rooms: seq<Room>, effort: string): (r: seq<Room>)
    ensures forall x :: x in r <==> x in rooms && x.cleanEffort == effort
    ensures IsSubsequence(r, rooms)
  {
    FilterIsSubsequence(rooms, (x: Room) => x.cleanEffort == effort);
    Filter(rooms, (x: Room) => x.cleanEffort == effort)
  }

  /** The rooms whose status is none of the seven. */
  function UnknownStatus(rooms: seq<Room>): (r: seq<Room>)
    ensures forall x :: x in r <==> x in rooms && !IsStatusId(x.status)
  {
    Filter(rooms, (x: Room) => !IsStatusId(x.status))
  }

  /** Every room has exactly one of the seven statuses or an unknown one. */
  lemma {:induction false} StatusPartition(rooms: seq<Room>)
    ensures |WithStatus(rooms, OCCUPIED)| + |WithStatus(rooms, CHECKED_OUT)| + |WithStatus(rooms, IN_PROGRESS)|
            + |WithStatus(rooms, INSPECTION)| + |WithStatus(rooms, READY)| + |WithStatus(rooms, MAINTENANCE)|
            + |WithStatus(rooms, DND)| + |UnknownStatus(rooms)| == |rooms|
  {
    if rooms != [] {
      StatusPartition(rooms[1..]);
      StatusIds(rooms[0].status);
    }
  }
}
