/** The housekeeper's dashboard (hotel-app/src/pages/EmployeeDashboard.jsx): the same room
    register and merge as the administrator's, the "my rooms" view that puts priority rooms
    first and groups the rest by status in a fixed order, and the all-rooms overview in which
    only the housekeeper's own rooms can be opened. */
module EmployeeDashboard {
  import opened Prelude
  import opened Constants
  import opened Rooms
  import opened RoomGrid

  datatype Tab = MyRoomsTab | AllRoomsTab

  /** `myRooms`: exactly the rooms assigned to `me`, in list order. */
  function MyRooms(rooms: seq<Room>, me: string): (mine: seq<Room>)
    ensures forall x :: x in mine <==> x in rooms && x.assignedTo == Some(me)
    ensures IsSubsequence(mine, rooms)
  {
    AssignedTo(rooms, me)
  }

  /** `displayRooms`. */
  function DisplayRooms(rooms: seq<Room>, me: string, tab: Tab): (shown: seq<Room>)
    ensures tab == MyRoomsTab ==> shown == MyRooms(rooms, me)
    ensures tab == AllRoomsTab ==> shown == rooms
  {
    if tab == MyRoomsTab then MyRooms(rooms, me) else rooms
  }

  datatype MyStats = MyStats(total: nat, done: nat, active: nat, pending: nat)

  /** `myStats`: ready, cleaning and checked-out counts among my rooms, which never exceed
      the number of my rooms. */
  function ComputeMyStats(rooms: seq<Room>, me: string): (st: MyStats)
    ensures st.total == |MyRooms(rooms, me)|
    ensures st.done == |WithStatus(MyRooms(rooms, me), READY)|
    ensures st.active == |WithStatus(MyRooms(rooms, me), IN_PROGRESS)|
    ensures st.pending == |WithStatus(MyRooms(rooms, me), CHECKED_OUT)|
    ensures st.done + st.active + st.pending <= st.total
  {
    var mine := MyRooms(rooms, me);
    StatusPartition(mine);
    MyStats(|mine|, |WithStatus(mine, READY)|, |WithStatus(mine, IN_PROGRESS)|, |WithStatus(mine, CHECKED_OUT)|)
  }

  // ---------------------------------------------------------------------------
  // The "my rooms" view
  // ---------------------------------------------------------------------------

  /** The status sections, in the order the view draws them. */
  const STATUS_GROUP_ORDER: seq<string> := [CHECKED_OUT, IN_PROGRESS, INSPECTION, DND, MAINTENANCE, READY, OCCUPIED]

  /** The order lists each of the seven statuses once and nothing else. */
  lemma StatusGroupOrderIsTable()
    ensures forall s :: s in STATUS_GROUP_ORDER <==> IsStatusId(s)
    ensures Distinct(STATUS_GROUP_ORDER)
  {
    forall s ensures s in STATUS_GROUP_ORDER <==> IsStatusId(s) {
      StatusIds(s);
    }
  }

  /** `myRooms.filter(r => r.priority)`. */
  function PriorityRooms(mine: seq<Room>): (r: seq<Room>)
    ensures forall x :: x in r <==> x in mine && x.priority
    ensures IsSubsequence(r, mine)
  {
    FilterIsSubsequence(mine, (x: Room) => x.priority);
    Filter(mine, (x: Room) => x.priority)
  }

  /** `myRooms.filter(r => r.status === status && !r.priority)`. */
  function GroupRooms(mine: seq<Room>, status: string): (r: seq<Room>)
    ensures forall x :: x in r <==> x in mine && x.status == status && !x.priority
    ensures IsSubsequence(r, mine)
  {
    FilterIsSubsequence(mine, (x: Room) => x.status == status && !x.priority);
    Filter(mine, (x: Room) => x.status == status && !x.priority)
  }

  datatype StatusGroup = StatusGroup(status: string, rooms: seq<Room>)

  /** The status sections, skipping a status with no non-priority room. */
  function StatusGroups(mine: seq<Room>, order: seq<string>): (groups: seq<StatusGroup>)
    ensures |groups| <= |order|
    ensures forall k :: 0 <= k < |groups| ==>
              groups[k].rooms != [] && groups[k].rooms == GroupRooms(mine, groups[k].status)
              && groups[k].status in order
  {
    if order == [] then []
    else
      var here := GroupRooms(mine, order[0]);
      (if here == [] then [] else [StatusGroup(order[0], here)]) + StatusGroups(mine, order[1..])
  }

  /** The statuses of a run of groups, top to bottom. */
  function GroupStatuses(groups: seq<StatusGroup>): seq<string>
  {
    if groups == [] then [] else [groups[0].status] + GroupStatuses(groups[1..])
  }

  /** The first group is the first status in the order that has a non-priority room. */
  lemma StatusGroupsUnfold(mine: seq<Room>, order: seq<string>)
    requires order != []
    ensures var rest := StatusGroups(mine, order[1..]);
            GroupStatuses(StatusGroups(mine, order)) ==
              if GroupRooms(mine, order[0]) == [] then GroupStatuses(rest) else [order[0]] + GroupStatuses(rest)
  {
    var here := GroupRooms(mine, order[0]);
    var rest := StatusGroups(mine, order[1..]);
    if here != [] {
      var groups := [StatusGroup(order[0], here)] + rest;
      assert StatusGroups(mine, order) == groups;
      assert groups[1..] == rest;
    } else {
      assert StatusGroups(mine, order) == rest;
    }
  }

  /** The groups follow the order given (for the view, `STATUS_GROUP_ORDER`). */
  lemma {:induction false} StatusGroupsFollowOrder(mine: seq<Room>, order: seq<string>)
    ensures IsSubsequence(GroupStatuses(StatusGroups(mine, order)), order)
  {
    if order != [] {
      var rest := GroupStatuses(StatusGroups(mine, order[1..]));
      StatusGroupsFollowOrder(mine, order[1..]);
      StatusGroupsUnfold(mine, order);
      if GroupRooms(mine, order[0]) == [] {
        SubsequenceOfTail(rest, order);
      } else {
        assert ([order[0]] + rest)[1..] == rest;
      }
    }
  }

  /** There is a group for exactly the listed statuses that have a non-priority room. */
  lemma {:induction false} StatusGroupsCoverOrder(mine: seq<Room>, order: seq<string>, s: string)
    ensures s in GroupStatuses(StatusGroups(mine, order)) <==> s in order && GroupRooms(mine, s) != []
  {
    if order != [] {
      var rest := GroupStatuses(StatusGroups(mine, order[1..]));
      StatusGroupsCoverOrder(mine, order[1..], s);
      StatusGroupsUnfold(mine, order);
      assert s in order <==> s == order[0] || s in order[1..] by {
        assert order == [order[0]] + order[1..];
      }
      var here := GroupRooms(mine, order[0]);
      if here == [] {
        assert s == order[0] ==> GroupRooms(mine, s) == [];
      } else {
        assert s in [order[0]] + rest <==> s == order[0] || s in rest;
      }
    }
  }

  /** The cards of all status sections, top to bottom. */
  function GroupCards(groups: seq<StatusGroup>): seq<Room>
  {
    if groups == [] then [] else groups[0].rooms + GroupCards(groups[1..])
  }

  lemma {:induction false} GroupCardsConcat(a: seq<StatusGroup>, b: seq<StatusGroup>)
    ensures GroupCards(a + b) == GroupCards(a) + GroupCards(b)
  {
    if a == [] {
      assert a + b == b;
    } else {
      assert (a + b)[0] == a[0];
      assert (a + b)[1..] == a[1..] + b;
      GroupCardsConcat(a[1..], b);
    }
  }

  /** With distinct statuses in the order, a non-priority room whose status is listed is drawn
      as often as it occurs; every other room not at all. */
  lemma {:induction false} GroupCardsCount(mine: seq<Room>, order: seq<string>, x: Room)
    requires Distinct(order)
    ensures multiset(GroupCards(StatusGroups(mine, order)))[x]
            == if !x.priority && x.status in order then multiset(mine)[x] else 0
  {
    if order != [] {
      var here := GroupRooms(mine, order[0]);
      var head := if here == [] then [] else [StatusGroup(order[0], here)];
      var rest := StatusGroups(mine, order[1..]);
      assert StatusGroups(mine, order) == head + rest;
      GroupCardsConcat(head, rest);
      assert GroupCards(head) == here by {
        if here != [] { assert head[1..] == []; }
      }
      FilterMultiplicity(mine, (r: Room) => r.status == order[0] && !r.priority, x);
      DistinctTail(order);
      GroupCardsCount(mine, order[1..], x);
    }
  }

  /** The "my rooms" view: a priority room is drawn once, in the priority section; a
      non-priority room with one of the seven statuses is drawn once, in its status section;
      a non-priority room with an unknown status is not drawn at all. */
  lemma MyRoomsViewPartition(mine: seq<Room>, x: Room)
    ensures multiset(PriorityRooms(mine))[x] + multiset(GroupCards(StatusGroups(mine, STATUS_GROUP_ORDER)))[x]
            == if x.priority || IsStatusId(x.status) then multiset(mine)[x] else 0
  {
    StatusGroupOrderIsTable();
    GroupCardsCount(mine, STATUS_GROUP_ORDER, x);
    FilterMultiplicity(mine, (r: Room) => r.priority, x);
  }

  // ---------------------------------------------------------------------------
  // The all-rooms overview
  // ---------------------------------------------------------------------------

  /** `floors.map(floor => ...displayRooms.filter(r => r.floor === floor)...)`: one section per
      floor, with no check for an empty floor. */
  function AllRoomsSections(rooms: seq<Room>): (sections: seq<FloorSection>)
    ensures |sections| == |Floors(rooms)|
    ensures forall k :: 0 <= k < |sections| ==>
              sections[k] == FloorSection(Floors(rooms)[k], FloorRooms(rooms, Floors(rooms)[k]))
  {
    var fs := Floors(rooms);
    seq(|fs|, k requires 0 <= k < |fs| => FloorSection(fs[k], FloorRooms(rooms, fs[k])))
  }

  /** Since the floors come from the same list, no section is empty, and the overview draws
      exactly the sections the floor grid would (the grid's empty-floor check never fires). */
  lemma AllRoomsMatchesGrid(rooms: seq<Room>)
    ensures forall k :: 0 <= k < |AllRoomsSections(rooms)| ==> AllRoomsSections(rooms)[k].rooms != []
    ensures AllRoomsSections(rooms) == FloorSections(rooms, Floors(rooms))
  {
    var fs := Floors(rooms);
    forall f | f in fs ensures FloorRooms(rooms, f) != [] {
      FloorRoomsOfOccurringFloor(rooms, f);
    }
    SectionsWithoutEmptyFloors(rooms, fs);
  }

  lemma {:induction false} SectionsWithoutEmptyFloors(rooms: seq<Room>, fs: seq<int>)
    requires forall f :: f in fs ==> FloorRooms(rooms, f) != []
    ensures FloorSections(rooms, fs) == seq(|fs|, k requires 0 <= k < |fs| => FloorSection(fs[k], FloorRooms(rooms, fs[k])))
  {
    if fs != [] {
      assert fs[0] in fs;
      SectionsWithoutEmptyFloors(rooms, fs[1..]);
    }
  }

  // ---------------------------------------------------------------------------
  // The register
  // ---------------------------------------------------------------------------

  class Dashboard {
    /** The signed-in housekeeper's profile id. */
    const me: string
    var rooms: seq<Room>
    var selectedRoom: Option<Room>
    var activeTab: Tab
    var loading: bool

    constructor(me: string)
      ensures this.me == me && rooms == [] && selectedRoom.None? && activeTab == MyRoomsTab && loading
    {
      this.me := me;
      rooms := [];
      selectedRoom := None;
      activeTab := MyRoomsTab;
      loading := true;
    }

    /** `loadRooms`. */
    method LoadRooms(data: Option<seq<Room>>)
      modifies this
      ensures rooms == (if data.Some? then data.value else old(rooms))
      ensures selectedRoom == old(selectedRoom) && activeTab == old(activeTab) && !loading
    {
      loading := true;
      if data.Some? {
        rooms := data.value;
      }
      loading := false;
    }

    /** The realtime handler on `rooms`. */
    method OnRoomEvent(ev: RoomEvent)
      modifies this
      ensures rooms == ApplyRoomEvent(old(rooms), ev)
      ensures selectedRoom == ApplySelectionEvent(old(selectedRoom), ev)
      ensures activeTab == old(activeTab) && loading == old(loading)
    {
      if ev.eventType == "UPDATE" {
        rooms := MergeById(rooms, ev.newRow);
        selectedRoom := MergeSelected(selectedRoom, ev.newRow);
      }
    }

    /** `handleRoomUpdate`. */
    method HandleRoomUpdate(row: Row)
      modifies this
      ensures rooms == MergeById(old(rooms), row)
      ensures selectedRoom == MergeSelected(old(selectedRoom), row)
      ensures activeTab == old(activeTab) && loading == old(loading)
    {
      rooms := MergeById(rooms, row);
      if selectedRoom.Some? && selectedRoom.value.id == row.id {
        selectedRoom := Some(Overwrite(selectedRoom.value, row));
      }
    }

    method SetTab(tab: Tab)
      modifies this
      ensures activeTab == tab
      ensures rooms == old(rooms) && selectedRoom == old(selectedRoom) && loading == old(loading)
    {
      activeTab := tab;
    }

    /** A card in the "my rooms" view: the selected card deselects, any other card selects. */
    method ClickMyRoomCard(room: Room)
      modifies this
      ensures selectedRoom == ToggleSelection(old(selectedRoom), room)
      ensures rooms == old(rooms) && activeTab == old(activeTab) && loading == old(loading)
    {
      selectedRoom := ToggleSelection(selectedRoom, room);
    }

    /** A tile in the all-rooms overview: only a room assigned to me reacts. */
    method ClickAllRoomsTile(room: Room)
      modifies this
      ensures room.assignedTo == Some(me) ==> selectedRoom == ToggleSelection(old(selectedRoom), room)
      ensures room.assignedTo != Some(me) ==> selectedRoom == old(selectedRoom)
      ensures rooms == old(rooms) && activeTab == old(activeTab) && loading == old(loading)
    {
      if room.assignedTo == Some(me) {
        selectedRoom := ToggleSelection(selectedRoom, room);
      }
    }

    method ClosePanel()
      modifies this
      ensures selectedRoom.None?
      ensures rooms == old(rooms) && activeTab == old(activeTab) && loading == old(loading)
    {
      selectedRoom := None;
    }
  }
}
