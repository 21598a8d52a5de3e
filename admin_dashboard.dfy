/** The administrator's dashboard (hotel-app/src/pages/AdminDashboard.jsx): the local register of
    rooms, profiles and the activity feed, kept current by realtime events and by the panel's
    write replies, and the projections the page draws from it (stat cards, filters, the floor
    list, the welfare banner and the per-staff workload). */
module AdminDashboard {
  import opened Prelude
  import opened Constants
  import opened Rooms
  import opened RoomGrid
  import opened RoomPanel

  /** A row of `activity_log`, as loaded or as a realtime INSERT delivers it. */
  datatype ActivityRecord = ActivityRecord(id: string, roomId: string, action: string, actorId: string,
                                           metadata: Metadata, createdAt: Millis)

  /** The feed keeps at most this many records. */
  const FEED_LIMIT: nat := 50

  /** `[record, ...prev].slice(0, 50)`. */
  function PrependCapped(record: ActivityRecord, log: seq<ActivityRecord>): (feed: seq<ActivityRecord>)
    ensures |feed| == if |log| + 1 < FEED_LIMIT then |log| + 1 else FEED_LIMIT
    ensures feed[0] == record
    ensures feed[1..] <= log
  {
    var all := [record] + log;
    assert all[1..] == log;
    if |all| <= FEED_LIMIT then all else all[..FEED_LIMIT]
  }

  /** Inserting into a full feed drops exactly its oldest record. */
  lemma FullFeedDropsOldest(record: ActivityRecord, log: seq<ActivityRecord>)
    requires |log| == FEED_LIMIT
    ensures PrependCapped(record, log) == [record] + log[..FEED_LIMIT - 1]
  {
    var feed := PrependCapped(record, log);
    assert feed[1..] == log[..FEED_LIMIT - 1];
  }

  // ---------------------------------------------------------------------------
  // Filters
  // ---------------------------------------------------------------------------

  /** The four filter controls; `None` is the 'all' choice and an empty search matches every room.
      The floor choice is the number the floor selector's option stands for. */
  datatype RoomFilter = RoomFilter(status: Option<string>, floor: Option<int>, staff: Option<string>, search: string)

  const NoFilter: RoomFilter := RoomFilter(None, None, None, "")

  /** The predicate of `filteredRooms`. */
  predicate Passes(f: RoomFilter, r: Room)
  {
    (f.status.None? || r.status == f.status.value)
    && (f.floor.None? || r.floor == f.floor.value)
    && (f.staff.None? || r.assignedTo == Some(f.staff.value))
    && (f.search == "" || Includes(r.roomNumber, f.search))
  }

  /** `filteredRooms`: an order-preserving selection of exactly the rooms that pass every filter;
      with no filter set it is the whole list. */
  function FilteredRooms(rooms: seq<Room>, f: RoomFilter): (r: seq<Room>)
    ensures IsSubsequence(r, rooms)
    ensures forall x :: x in r <==> x in rooms && Passes(f, x)
    ensures f == NoFilter ==> r == rooms
  {
    var p := (x: Room) => Passes(f, x);
    FilterIsSubsequence(rooms, p);
    if f == NoFilter then
      FilterKeepsAll(rooms, p);
      Filter(rooms, p)
    else
      Filter(rooms, p)
  }

  /** Passing the search filter means the room number contains the query as a block. */
  lemma SearchMeansInfix(f: RoomFilter, r: Room)
    requires f.search != ""
    ensures Passes(f, r) ==> IsInfix(f.search, r.roomNumber)
  {
  }

  /** A stat card: clicking the active card clears the status filter, any other card sets it. */
  function ToggleStatusFilter(current: Option<string>, s: string): (next: Option<string>)
    ensures next.None? <==> current == Some(s)
    ensures next.Some? ==> next.value == s
  {
    if current == Some(s) then None else Some(s)
  }

  /** The grid below the filters draws every filtered room exactly once per occurrence, since
      the floor list is computed from all rooms. */
  lemma GridShowsEveryFilteredRoom(rooms: seq<Room>, f: RoomFilter, x: Room)
    ensures multiset(Tiles(FloorSections(FilteredRooms(rooms, f), Floors(rooms))))[x]
            == multiset(FilteredRooms(rooms, f))[x]
  {
    var shown := FilteredRooms(rooms, f);
    TilesPartitionRooms(shown, Floors(rooms), x);
    if x in shown {
      var i :| 0 <= i < |rooms| && rooms[i] == x;
      assert HasFloor(rooms, x.floor);
    } else {
      assert multiset(shown)[x] == 0;
    }
  }

  // ---------------------------------------------------------------------------
  // Stat cards
  // ---------------------------------------------------------------------------

  datatype RoomStats = RoomStats(total: nat, ready: nat, cleaning: nat, checkedOut: nat,
                                 occupied: nat, maintenance: nat, dnd: nat)

  /** `stats`: the six cards count rooms by status. Inspection has no card, so together with
      the inspection rooms and the rooms of unknown status they make up the total. */
  function Stats(rooms: seq<Room>): (st: RoomStats)
    ensures st.total == |rooms|
    ensures st.ready == |WithStatus(rooms, READY)| && st.cleaning == |WithStatus(rooms, IN_PROGRESS)|
    ensures st.checkedOut == |WithStatus(rooms, CHECKED_OUT)| && st.occupied == |WithStatus(rooms, OCCUPIED)|
    ensures st.maintenance == |WithStatus(rooms, MAINTENANCE)| && st.dnd == |WithStatus(rooms, DND)|
    ensures st.ready + st.cleaning + st.checkedOut + st.occupied + st.maintenance + st.dnd
            + |WithStatus(rooms, INSPECTION)| + |UnknownStatus(rooms)| == st.total
    ensures st.ready + st.cleaning + st.checkedOut + st.occupied + st.maintenance + st.dnd <= st.total
  {
    StatusPartition(rooms);
    RoomStats(|rooms|, |WithStatus(rooms, READY)|, |WithStatus(rooms, IN_PROGRESS)|,
              |WithStatus(rooms, CHECKED_OUT)|, |WithStatus(rooms, OCCUPIED)|,
              |WithStatus(rooms, MAINTENANCE)|, |WithStatus(rooms, DND)|)
  }

  /** A card's filter, set on its own, shows exactly the rooms the card counts. */
  lemma StatusFilterShowsWithStatus(rooms: seq<Room>, s: string)
    ensures FilteredRooms(rooms, NoFilter.(status := Some(s))) == WithStatus(rooms, s)
  {
    var f := NoFilter.(status := Some(s));
    FilterAgree(rooms, (x: Room) => Passes(f, x), (x: Room) => x.status == s);
  }

  /** Each card's number is the number of rooms the grid shows once that card is clicked with
      no other filter set. */
  lemma StatCardsCountWhatTheyShow(rooms: seq<Room>)
    ensures var st := Stats(rooms);
            var shown := (s: string) => |FilteredRooms(rooms, NoFilter.(status := Some(s)))|;
            st.ready == shown(READY) && st.cleaning == shown(IN_PROGRESS) && st.checkedOut == shown(CHECKED_OUT)
            && st.occupied == shown(OCCUPIED) && st.maintenance == shown(MAINTENANCE) && st.dnd == shown(DND)
  {
    StatusFilterShowsWithStatus(rooms, READY);
    StatusFilterShowsWithStatus(rooms, IN_PROGRESS);
    StatusFilterShowsWithStatus(rooms, CHECKED_OUT);
    StatusFilterShowsWithStatus(rooms, OCCUPIED);
    StatusFilterShowsWithStatus(rooms, MAINTENANCE);
    StatusFilterShowsWithStatus(rooms, DND);
  }

  // ---------------------------------------------------------------------------
  // The welfare banner
  // ---------------------------------------------------------------------------

  /** The banner's test: on do-not-disturb, with `dnd_since` set, for strictly more than four hours. */
  predicate BannerAlert(r: Room, now: Millis)
  {
    r.status == DND && r.dndSince.Some? && now - r.dndSince.value > HOURS_4_MS
  }

  /** `dndAlerts`. */
  function DndAlerts(rooms: seq<Room>, now: Millis): (alerts: seq<Room>)
    ensures IsSubsequence(alerts, rooms)
    ensures forall x :: x in alerts <==> x in rooms && BannerAlert(x, now)
  {
    FilterIsSubsequence(rooms, (x: Room) => BannerAlert(x, now));
    Filter(rooms, (x: Room) => BannerAlert(x, now))
  }

  /** The banner and the panel disagree at exactly one instant: four hours to the millisecond
      after `dnd_since`, the panel already warns and the banner does not yet. */
  lemma BannerAndPanelThresholds(r: Room, now: Millis)
    ensures BannerAlert(r, now) ==> PanelWelfareAlert(r, now)
    ensures PanelWelfareAlert(r, now) && !BannerAlert(r, now) <==>
              r.status == DND && r.dndSince.Some? && now - r.dndSince.value == HOURS_4_MS
  {
  }

  // ---------------------------------------------------------------------------
  // Staff and workload
  // ---------------------------------------------------------------------------

  /** `profiles.filter(p => p.role !== 'admin')`. */
  function NonAdminStaff(profiles: seq<Profile>): (staff: seq<Profile>)
    ensures forall p :: p in staff <==> p in profiles && p.role != "admin"
    ensures IsSubsequence(staff, profiles)
  {
    FilterIsSubsequence(profiles, (p: Profile) => p.role != "admin");
    Filter(profiles, (p: Profile) => p.role != "admin")
  }

  /** One staff card: the assigned rooms and how many are being cleaned, ready or heavy.
      The performance panel's completed/total is `done` over `|rooms|` of the same card. */
  datatype Workload = Workload(rooms: seq<Room>, inProgress: nat, done: nat, heavy: nat)

  function StaffWorkload(rooms: seq<Room>, staffId: string): (w: Workload)
    ensures w.rooms == AssignedTo(rooms, staffId)
    ensures forall x :: x in w.rooms <==> x in rooms && x.assignedTo == Some(staffId)
    ensures w.heavy == |WithEffort(w.rooms, "Heavy")|
    ensures w.inProgress <= |w.rooms| && w.done <= |w.rooms| && w.heavy <= |w.rooms|
    ensures w.inProgress + w.done <= |w.rooms|
    ensures w.inProgress == |WithStatus(w.rooms, IN_PROGRESS)| && w.done == |WithStatus(w.rooms, READY)|
  {
    var mine := AssignedTo(rooms, staffId);
    FilterDisjointBound(mine, (x: Room) => x.status == IN_PROGRESS, (x: Room) => x.status == READY);
    Workload(mine, |WithStatus(mine, IN_PROGRESS)|, |WithStatus(mine, READY)|,
             |WithEffort(mine, "Heavy")|)
  }

  // ---------------------------------------------------------------------------
  // The register
  // ---------------------------------------------------------------------------

  class Dashboard {
    var rooms: seq<Room>
    var profiles: seq<Profile>
    var activityLog: seq<ActivityRecord>
    var selectedRoom: Option<Room>
    var filter: RoomFilter
    var loading: bool

    constructor()
      ensures rooms == [] && profiles == [] && activityLog == [] && selectedRoom.None?
      ensures filter == NoFilter && loading
    {
      rooms := [];
      profiles := [];
      activityLog := [];
      selectedRoom := None;
      filter := NoFilter;
      loading := true;
    }

    /** `loadAll`: each list is replaced only when its query returned data. */
    method LoadAll(roomData: Option<seq<Room>>, profileData: Option<seq<Profile>>,
                   logData: Option<seq<ActivityRecord>>)
      modifies this
      ensures rooms == (if roomData.Some? then roomData.value else old(rooms))
      ensures profiles == (if profileData.Some? then profileData.value else old(profiles))
      ensures activityLog == (if logData.Some? then logData.value else old(activityLog))
      ensures selectedRoom == old(selectedRoom) && filter == old(filter) && !loading
    {
      loading := true;
      if roomData.Some? { rooms := roomData.value; }
      if profileData.Some? { profiles := profileData.value; }
      if logData.Some? { activityLog := logData.value; }
      loading := false;
    }

    /** The realtime handler on `rooms`: an UPDATE is merged into the list and into the
        selection; any other event changes nothing. */
    method OnRoomEvent(ev: RoomEvent)
      modifies this
      ensures rooms == ApplyRoomEvent(old(rooms), ev)
      ensures selectedRoom == ApplySelectionEvent(old(selectedRoom), ev)
      ensures old(SelectionInList(rooms, selectedRoom)) ==> SelectionInList(rooms, selectedRoom)
      ensures profiles == old(profiles) && activityLog == old(activityLog)
      ensures filter == old(filter) && loading == old(loading)
    {
      if ev.eventType == "UPDATE" {
        if SelectionInList(rooms, selectedRoom) {
          MergeKeepsSelectionInList(rooms, selectedRoom, ev.newRow);
        }
        rooms := MergeById(rooms, ev.newRow);
        selectedRoom := MergeSelected(selectedRoom, ev.newRow);
      }
    }

    /** The realtime handler on `activity_log` INSERTs. */
    method OnActivityInsert(record: ActivityRecord)
      modifies this
      ensures activityLog == PrependCapped(record, old(activityLog))
      ensures |activityLog| <= FEED_LIMIT
      ensures rooms == old(rooms) && profiles == old(profiles) && selectedRoom == old(selectedRoom)
      ensures filter == old(filter) && loading == old(loading)
    {
      activityLog := PrependCapped(record, activityLog);
    }

    /** `handleRoomUpdate`, the panel's `onRoomUpdate`: the reply row is merged into the list and,
        when it is the selected room, into the selection. */
    method HandleRoomUpdate(row: Row)
      modifies this
      ensures rooms == MergeById(old(rooms), row)
      ensures selectedRoom == MergeSelected(old(selectedRoom), row)
      ensures old(SelectionInList(rooms, selectedRoom)) ==> SelectionInList(rooms, selectedRoom)
      ensures profiles == old(profiles) && activityLog == old(activityLog)
      ensures filter == old(filter) && loading == old(loading)
    {
      if SelectionInList(rooms, selectedRoom) {
        MergeKeepsSelectionInList(rooms, selectedRoom, row);
      }
      rooms := MergeById(rooms, row);
      if selectedRoom.Some? && selectedRoom.value.id == row.id {
        selectedRoom := Some(Overwrite(selectedRoom.value, row));
      }
    }

    /** A click on a grid tile (`onSelectRoom={setSelectedRoom}`). */
    method ClickGridRoom(room: Room)
      modifies this
      ensures selectedRoom == ToggleSelection(old(selectedRoom), room)
      ensures rooms == old(rooms) && profiles == old(profiles) && activityLog == old(activityLog)
      ensures filter == old(filter) && loading == old(loading)
    {
      selectedRoom := ToggleSelection(selectedRoom, room);
    }

    /** The panel's close button. */
    method ClosePanel()
      modifies this
      ensures selectedRoom.None?
      ensures rooms == old(rooms) && profiles == old(profiles) && activityLog == old(activityLog)
      ensures filter == old(filter) && loading == old(loading)
    {
      selectedRoom := None;
    }

    /** A click on the stat card for status `s`. */
    method ClickStatCard(s: string)
      modifies this
      ensures filter == old(filter).(status := ToggleStatusFilter(old(filter).status, s))
      ensures rooms == old(rooms) && profiles == old(profiles) && activityLog == old(activityLog)
      ensures selectedRoom == old(selectedRoom) && loading == old(loading)
    {
      filter := filter.(status := ToggleStatusFilter(filter.status, s));
    }

    /** The filter selectors and the search box. */
    method SetFilter(f: RoomFilter)
      modifies this
      ensures filter == f
      ensures rooms == old(rooms) && profiles == old(profiles) && activityLog == old(activityLog)
      ensures selectedRoom == old(selectedRoom) && loading == old(loading)
    {
      filter := f;
    }

    /** The Clear button: afterwards the grid shows every room. */
    method ClearFilters()
      modifies this
      ensures filter == NoFilter && FilteredRooms(rooms, filter) == rooms
      ensures rooms == old(rooms) && profiles == old(profiles) && activityLog == old(activityLog)
      ensures selectedRoom == old(selectedRoom) && loading == old(loading)
    {
      filter := NoFilter;
    }
  }
}
