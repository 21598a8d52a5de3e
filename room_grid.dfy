/** The floor-by-floor grid of room tiles (hotel-app/src/components/RoomGrid.jsx): one section
    per floor that has rooms, a priority dot and a welfare dot on each tile, and a click that
    toggles the selection. */
module RoomGrid {
  import opened Prelude
  import opened Constants
  import opened Rooms

  /** A rendered floor: its heading and its tiles in list order. */
  datatype FloorSection = FloorSection(floor: int, rooms: seq<Room>)

  /** The floor headings of a run of sections, top to bottom. */
  function SectionFloors(sections: seq<FloorSection>): seq<int>
  {
    if sections == [] then [] else [sections[0].floor] + SectionFloors(sections[1..])
  }

  /** `floors.map(...)`, skipping a floor whose filtered list is empty. */
  function FloorSections(rooms: seq<Room>, floors: seq<int>): (sections: seq<FloorSection>)
    ensures |sections| <= |floors|
    ensures forall k :: 0 <= k < |sections| ==>
              sections[k].rooms != [] && sections[k].rooms == FloorRooms(rooms, sections[k].floor)
              && sections[k].floor in floors
  {
    if floors == [] then []
    else
      var here := FloorRooms(rooms, floors[0]);
      (if here == [] then [] else [FloorSection(floors[0], here)]) + FloorSections(rooms, floors[1..])
  }

  /** The first section is the first listed floor that has rooms. */
  lemma FloorSectionsUnfold(rooms: seq<Room>, floors: seq<int>)
    requires floors != []
    ensures var rest := FloorSections(rooms, floors[1..]);
            SectionFloors(FloorSections(rooms, floors)) ==
              if FloorRooms(rooms, floors[0]) == [] then SectionFloors(rest) else [floors[0]] + SectionFloors(rest)
  {
    var here := FloorRooms(rooms, floors[0]);
    var rest := FloorSections(rooms, floors[1..]);
    if here != [] {
      var sections := [FloorSection(floors[0], here)] + rest;
      assert FloorSections(rooms, floors) == sections;
      assert sections[1..] == rest;
    } else {
      assert FloorSections(rooms, floors) == rest;
    }
  }

  /** The sections follow the order of `floors`. */
  lemma {:induction false} FloorSectionsFollowFloors(rooms: seq<Room>, floors: seq<int>)
    ensures IsSubsequence(SectionFloors(FloorSections(rooms, floors)), floors)
  {
    if floors != [] {
      var rest := SectionFloors(FloorSections(rooms, floors[1..]));
      FloorSectionsFollowFloors(rooms, floors[1..]);
      FloorSectionsUnfold(rooms, floors);
      if FloorRooms(rooms, floors[0]) == [] {
        SubsequenceOfTail(rest, floors);
      } else {
        assert ([floors[0]] + rest)[1..] == rest;
      }
    }
  }

  /** There is a section for exactly the listed floors that have rooms. */
  lemma {:induction false} FloorSectionsCoverFloors(rooms: seq<Room>, floors: seq<int>, f: int)
    ensures f in SectionFloors(FloorSections(rooms, floors)) <==> f in floors && FloorRooms(rooms, f) != []
  {
    if floors != [] {
      var rest := SectionFloors(FloorSections(rooms, floors[1..]));
      FloorSectionsCoverFloors(rooms, floors[1..], f);
      FloorSectionsUnfold(rooms, floors);
      assert f in floors <==> f == floors[0] || f in floors[1..] by {
        assert floors == [floors[0]] + floors[1..];
      }
      var here := FloorRooms(rooms, floors[0]);
      if here == [] {
        assert f == floors[0] ==> FloorRooms(rooms, f) == [];
      } else {
        assert f in [floors[0]] + rest <==> f == floors[0] || f in rest;
      }
    }
  }

  /** The tiles of all sections, top to bottom. */
  function Tiles(sections: seq<FloorSection>): seq<Room>
  {
    if sections == [] then [] else sections[0].rooms + Tiles(sections[1..])
  }

  /** With distinct floors, a room whose floor is listed is drawn exactly as often as it occurs
      in `rooms`; a room on any other floor is not drawn. */
  lemma {:induction false} TilesPartitionRooms(rooms: seq<Room>, floors: seq<int>, x: Room)
    requires Distinct(floors)
    ensures multiset(Tiles(FloorSections(rooms, floors)))[x] == if x.floor in floors then multiset(rooms)[x] else 0
  {
    if floors != [] {
      var here := FloorRooms(rooms, floors[0]);
      var head := if here == [] then [] else [FloorSection(floors[0], here)];
      var rest := FloorSections(rooms, floors[1..]);
      assert FloorSections(rooms, floors) == head + rest;
      TilesConcat(head, rest);
      assert Tiles(head) == here by {
        if here != [] { assert head[1..] == []; }
      }
      FilterMultiplicity(rooms, (r: Room) => r.floor == floors[0], x);
      DistinctTail(floors);
      TilesPartitionRooms(rooms, floors[1..], x);
    }
  }

  lemma {:induction false} TilesConcat(a: seq<FloorSection>, b: seq<FloorSection>)
    ensures Tiles(a + b) == Tiles(a) + Tiles(b)
  {
    if a == [] {
      assert a + b == b;
    } else {
      assert (a + b)[0] == a[0];
      assert (a + b)[1..] == a[1..] + b;
      TilesConcat(a[1..], b);
    }
  }

  /** Over the floor list the dashboards pass (`Floors` of the same rooms), every room is drawn
      exactly as often as it occurs. */
  lemma GridShowsEveryRoom(rooms: seq<Room>, x: Room)
    ensures multiset(Tiles(FloorSections(rooms, Floors(rooms))))[x] == multiset(rooms)[x]
  {
    var fs := Floors(rooms);
    TilesPartitionRooms(rooms, fs, x);
    if x in rooms {
      var i :| 0 <= i < |rooms| && rooms[i] == x;
      assert HasFloor(rooms, x.floor);
    }
  }

  /** The priority dot is drawn exactly for rooms flagged as priority. */
  function PriorityDot(room: Room): (shown: bool)
    ensures shown <==> room.priority
  {
    room.priority
  }

  /** The welfare dot: at least four whole hours since `dnd_since`, whatever the status. */
  function WelfareDot(room: Room, now: Millis): (shown: bool)
    ensures shown <==> room.dndSince.Some? && now - room.dndSince.value >= HOURS_4_MS
  {
    DndHoursAtLeastFour(room, now);
    DndHours(room, now) >= 4
  }

  /** The dot does not look at the status: a room not on do-not-disturb still shows it when
      an old `dnd_since` is four hours past. */
  lemma WelfareDotIgnoresStatus(room: Room, now: Millis, s: string)
    ensures WelfareDot(room.(status := s), now) == WelfareDot(room, now)
  {
  }
}
