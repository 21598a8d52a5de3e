# Hotel housekeeping app: room lifecycle model

This project is a Dafny model of the room logic inside a React housekeeping app for hotel
staff. Administrators and housekeepers see the same list of rooms. Each room has a status from
a fixed table of seven:

- occupied
- checked out
- cleaning
- inspection
- ready
- maintenance
- do not disturb

Each status names a default successor. A side panel writes status changes, housekeeper
assignments, cleaning effort, the priority flag and maintenance tickets to the store. The
dashboards keep a local copy of the rooms up to date in two ways: by merging the store's
realtime UPDATE events, and by merging the rows the panel's writes return. Both merges are
shallow field overwrites keyed on the room id. From that local copy the pages compute:

- stat cards;
- filters;
- the sorted floor list;
- a floor-by-floor grid;
- the housekeeper's "my rooms" view, with priority rooms first and the rest grouped by status;
- per-staff workload;
- two do-not-disturb welfare warnings that use different thresholds.

Modules, one per source file plus three of shared material (`Prelude`, `Rooms` and `Scenarios`):

- `Prelude`: filtering, subsequences, `includes`, `trim` and decimal text.
- `Constants`: the status table, `getStatusDef` and `timeAgo`.
- `Rooms`: rooms and partial rows, the shallow merge, realtime events, floors and projections.
- `RoomGrid`: the floor grid.
- `RoomPanel`: the panel handlers, as the class `Panel` (fields `tickets`, `maintenanceInput`,
  `saving`). Each handler is a method that runs to completion. The store's replies are
  parameters, and the method returns the outbound calls in the order the handler makes them:
  the store writes first, then, once a write has succeeded, `onRoomUpdate`, and then
  `logActivity` and `onNotify`. A status change records the activity before the notice; an
  assignment and a maintenance ticket raise the notice first.
- `AdminDashboard` and `EmployeeDashboard`: each has its projections as functions, and a
  class `Dashboard` whose methods are the state-changing handlers.
- `Scenarios`: properties that span several modules.

Modelling conventions:

- Timestamps are integer milliseconds, and the wall-clock time is a parameter `now`.
- `Math.floor(x / d)` with `d > 0` is Dafny's `/`.
- A status is kept as a raw string, so the table's fallback for unknown ids is part of the model.
- A partial row (a realtime payload or a write reply) is a `Row` with one `Option` per column.
  A nullable column is `Option<Option<_>>`: absent, or present with a possibly null value.

## Model

| member | source | states |
|---|---|---|
| Constants.FindStatus | hotel-app/src/lib/constants.js:14 | `find` yields nothing exactly when no row has the id, and otherwise a row of the table with that id |
| Constants.GetStatusDef | hotel-app/src/lib/constants.js:13-15 | total lookup: always a row of the table; the row with the given id when there is one; the first (occupied) row for any unknown id |
| Constants.StatusIds | hotel-app/src/lib/constants.js:2-8 | the table's ids are exactly the seven named statuses |
| Constants.StatusIdsDistinct | hotel-app/src/lib/constants.js:1-9 | the seven ids are pairwise distinct |
| Constants.GetStatusDefOfRow | hotel-app/src/lib/constants.js:13-15 | looking up a row's own id returns that row |
| Constants.SuccessorTable | hotel-app/src/lib/constants.js:2-8 | the successor map is occupied→checked_out→in_progress→inspection→ready→occupied, maintenance→ready, dnd→checked_out |
| Constants.UnknownStatusAdvancesToCheckedOut | hotel-app/src/lib/constants.js:2-14 | an unknown id falls back to the occupied row, whose successor is checked_out |
| Constants.NextIsStatus | hotel-app/src/lib/constants.js:2-15 | the successor of any id, known or not, is one of the seven ids |
| Constants.AdvanceStaysInTable | hotel-app/src/lib/constants.js:2-15 | after one or more successor steps from any id the status is one of the seven |
| Constants.AdvanceUnfold | hotel-app/src/lib/constants.js:13-15 | k+1 successor steps are one step followed by k steps |
| Constants.InspectionToReady | hotel-app/src/lib/constants.js:5-7 | inspection and maintenance reach ready in one step |
| Constants.InProgressToReady | hotel-app/src/lib/constants.js:4-5 | cleaning reaches ready in two steps |
| Constants.CheckedOutToReady | hotel-app/src/lib/constants.js:3-5 | checked out reaches ready in three steps |
| Constants.OccupiedToReady | hotel-app/src/lib/constants.js:2-8 | occupied and do-not-disturb reach ready in four steps |
| Constants.ReadyWithinFourAdvances | hotel-app/src/lib/constants.js:2-15 | from every status, known or unknown, at most four Advance presses reach ready |
| Constants.MainCycleReturns | hotel-app/src/lib/constants.js:2-6 | the five statuses of the main cycle return to themselves after five steps |
| Constants.CleanEffortLevels | hotel-app/src/lib/constants.js:11 | the effort levels are exactly Light, Normal, Heavy |
| Constants.TimeAgo | hotel-app/src/lib/constants.js:17-26 | a missing timestamp gives the dash and only it does; the minute count shown is 1..59, the hour count 1..23, the day count at least 1 |
| Constants.TimeAgoBuckets | hotel-app/src/lib/constants.js:19-25 | the bucket is chosen by elapsed time (under a minute, under an hour, under a day, else days) and the number shown is the floor of the elapsed time in that unit |
| Constants.AgeText | hotel-app/src/lib/constants.js:18-25 | the text is the dash, "just now", or the decimal number followed by "m ago", "h ago" or "d ago", and the digits read back as the bucket's number |
| Constants.WithSuffix | hotel-app/src/lib/constants.js:23-25 | the rendered number followed by the suffix, whose digits parse back to the number |
| Prelude.Includes | hotel-app/src/pages/AdminDashboard.jsx:107 | `includes` is true exactly when the query occurs as a contiguous block |
| Prelude.Trim | hotel-app/src/components/RoomPanel.jsx:64 | `trim()` is empty exactly when every character is ECMAScript whitespace |
| Prelude.DecimalRoundTrip | hotel-app/src/lib/constants.js:23-25 | the decimal text of a number parses back to it |
| Rooms.Overwrite | hotel-app/src/pages/AdminDashboard.jsx:44 | `{ ...r, ...row }`, column by column for all ten columns: a column the row carries takes the row's value, any other keeps the room's; the id is the row's and the joined profile is kept |
| Rooms.OverwriteFullRow | hotel-app/src/lib/supabase.js:44-52 | a row carrying every column, as a write reply does, leaves no trace of any earlier spread |
| Rooms.OverwriteIdempotent | hotel-app/src/pages/AdminDashboard.jsx:44 | spreading the same row twice equals spreading it once |
| Rooms.OverwriteCombine | hotel-app/src/pages/AdminDashboard.jsx:44 | two successive spreads equal one spread of the combined row, the later value winning |
| Rooms.OverwriteCommute | hotel-app/src/pages/AdminDashboard.jsx:44 | rows for one room that touch disjoint columns commute |
| Rooms.MergeById | hotel-app/src/pages/AdminDashboard.jsx:44 | the merged list has the same length and ids; entries with the row's id are overwritten, all others unchanged |
| Rooms.MergeUnknownIdIsNoOp | hotel-app/src/pages/AdminDashboard.jsx:44 | a row whose id is not in the list leaves the list unchanged |
| Rooms.MergeIdempotent | hotel-app/src/pages/AdminDashboard.jsx:44 | merging the same row twice equals merging it once |
| Rooms.MergeCommute | hotel-app/src/pages/AdminDashboard.jsx:44 | two rows touching disjoint columns merge to the same list in either order |
| Rooms.MergeKeepsIds | hotel-app/src/pages/AdminDashboard.jsx:44 | a merge neither adds, removes nor reorders rooms |
| Rooms.MergeSelected | hotel-app/src/pages/AdminDashboard.jsx:45 | a null selection stays null; a selection with another id is untouched; a matching one is overwritten |
| Rooms.MergeKeepsSelectionInList | hotel-app/src/pages/AdminDashboard.jsx:44-45 | a selection that is a copy of a list entry is still a copy of an entry after both receive the same row |
| Rooms.MergeKeepsJoinedProfile | hotel-app/src/pages/AdminDashboard.jsx:44 | the joined `assigned_profile` is never refreshed by a merge, even when the row reassigns the room |
| Rooms.DndHours | hotel-app/src/components/RoomPanel.jsx:14 | 0 without `dnd_since`; otherwise the whole number of hours elapsed (floor of the difference over 3600000) |
| Rooms.DndHoursAtLeastFour | hotel-app/src/components/RoomPanel.jsx:14 | `dndHours >= 4` holds exactly when `dnd_since` is set and at least 14400000 ms have passed |
| Rooms.ToggleSelection | hotel-app/src/pages/EmployeeDashboard.jsx:140 | clicking the selected room clears the selection; clicking any other room selects that room |
| Rooms.ToggleTwiceClears | hotel-app/src/pages/EmployeeDashboard.jsx:140 | two clicks on a room that was not selected end with nothing selected |
| Rooms.InsertFloor | hotel-app/src/pages/AdminDashboard.jsx:101 | adding a floor to a strictly ascending list keeps it strictly ascending and adds exactly that floor |
| Rooms.HasFloorCons | hotel-app/src/pages/AdminDashboard.jsx:101 | a floor occurs in a list exactly when it is the head's floor or occurs in the tail |
| Rooms.Floors | hotel-app/src/pages/AdminDashboard.jsx:101 | the floor list is strictly ascending and holds exactly the floors occurring in the rooms |
| Rooms.FloorRooms | hotel-app/src/components/RoomGrid.jsx:7 | exactly the rooms on that floor, each as often as in the list and in list order |
| Rooms.FloorRoomsOfOccurringFloor | hotel-app/src/pages/AdminDashboard.jsx:101 | every floor in the floor list has at least one room |
| Rooms.ApplyRoomEvent | hotel-app/src/pages/AdminDashboard.jsx:43-44 | only an UPDATE is merged; any other event leaves the list untouched |
| Rooms.ApplySelectionEvent | hotel-app/src/pages/AdminDashboard.jsx:43-45 | only an UPDATE reaches the selection |
| Rooms.EventsKeepIds | hotel-app/src/pages/AdminDashboard.jsx:42-46 | no run of realtime events changes the ids, their number or their order |
| Rooms.RedeliveredUpdateIsHarmless | hotel-app/src/pages/AdminDashboard.jsx:43-44 | delivering an event twice has the effect of delivering it once |
| Rooms.AssignedTo | hotel-app/src/pages/AdminDashboard.jsx:233 | exactly the rooms assigned to the staff id, as an order-preserving subsequence |
| Rooms.WithStatus | hotel-app/src/pages/AdminDashboard.jsx:113-118 | exactly the rooms with that status, in list order |
| Rooms.UnknownStatus | hotel-app/src/lib/constants.js:13-15 | exactly the rooms whose status is none of the seven |
| Rooms.StatusPartition | hotel-app/src/pages/AdminDashboard.jsx:111-119 | the seven per-status counts and the unknown-status count add up to the number of rooms |
| RoomGrid.FloorSections | hotel-app/src/components/RoomGrid.jsx:6-8 | each section is a listed floor and holds exactly that floor's rooms; no section is empty, and there are no more sections than floors |
| RoomGrid.FloorSectionsFollowFloors | hotel-app/src/components/RoomGrid.jsx:6-8 | the section headings come in the order of the floor list |
| RoomGrid.FloorSectionsCoverFloors | hotel-app/src/components/RoomGrid.jsx:6-8 | a floor has a section exactly when it is listed and has rooms |
| RoomGrid.TilesPartitionRooms | hotel-app/src/components/RoomGrid.jsx:6-17 | with distinct floors, a room on a listed floor is drawn exactly as often as it occurs, and any other room not at all |
| RoomGrid.TilesConcat | hotel-app/src/components/RoomGrid.jsx:6-17 | the tiles of two runs of sections are the tiles of each, in order |
| RoomGrid.GridShowsEveryRoom | hotel-app/src/components/RoomGrid.jsx:6-17 | over the floors of the same rooms, every room is drawn exactly once per occurrence |
| RoomGrid.PriorityDot | hotel-app/src/components/RoomGrid.jsx:27 | the priority dot shows exactly for priority rooms |
| RoomGrid.WelfareDot | hotel-app/src/components/RoomGrid.jsx:20-28 | the welfare dot shows exactly when `dnd_since` is set and at least four hours old, whatever the status |
| RoomGrid.WelfareDotIgnoresStatus | hotel-app/src/components/RoomGrid.jsx:28 | changing a room's status never changes its welfare dot |
| RoomPanel.LogCount | hotel-app/src/components/RoomPanel.jsx:33 | the number of activities a run of calls records; zero exactly when it records none |
| RoomPanel.LocalUpdateCount | hotel-app/src/components/RoomPanel.jsx:32 | the number of rows handed to the dashboard; zero exactly when none is |
| RoomPanel.CountsAppend | hotel-app/src/components/RoomPanel.jsx:30-34 | both counts add up over consecutive runs of calls |
| RoomPanel.StatusChangePatch | hotel-app/src/components/RoomPanel.jsx:27-29 | status is always the target; `dnd_since` is present exactly for dnd and `last_cleaned_at` exactly for ready, both set to `now`; no other column |
| RoomPanel.StatusChangeEffect | hotel-app/src/components/RoomPanel.jsx:27-29 | applied to a room the patch changes the status and at most the one timestamp the target calls for; leaving dnd keeps the old `dnd_since` |
| RoomPanel.AdvanceTarget | hotel-app/src/components/RoomPanel.jsx:39-41 | Advance targets the table's successor of the room's status, checked_out for an unknown status, always one of the seven |
| RoomPanel.AssignTarget | hotel-app/src/components/RoomPanel.jsx:44 | `staffId \|\| null`: an empty or missing selection unassigns, anything else is written as is |
| RoomPanel.StaffName | hotel-app/src/components/RoomPanel.jsx:47 | the name of the first profile with that id, present exactly when such a profile exists |
| RoomPanel.TicketWrites | hotel-app/src/components/RoomPanel.jsx:66-69 | the insert of the note by the actor, followed by two writes to the same room whose patch is the maintenance status and nothing else; no activity and no local update |
| RoomPanel.LocalUpdate | hotel-app/src/components/RoomPanel.jsx:69-70 | one local update exactly when the write returned a row, handing over the reply's row |
| RoomPanel.TicketAnnounced | hotel-app/src/components/RoomPanel.jsx:73-74 | first a warning naming the room, then exactly one activity, "Maintenance ticket created", whose metadata is the note as typed |
| RoomPanel.OpenTickets | hotel-app/src/components/RoomPanel.jsx:198 | the panel lists exactly the open tickets |
| RoomPanel.OtherTickets | hotel-app/src/components/RoomPanel.jsx:82 | exactly the tickets with another id |
| RoomPanel.ResolveLocal | hotel-app/src/components/RoomPanel.jsx:82 | same length; the tickets with the id are marked resolved, every other ticket is unchanged |
| RoomPanel.ResolveLocalIdempotent | hotel-app/src/components/RoomPanel.jsx:82 | resolving twice equals resolving once |
| RoomPanel.ResolveRemovesFromOpen | hotel-app/src/components/RoomPanel.jsx:82 | after a local resolve, the open list is the previous open list without the resolved id |
| RoomPanel.PanelWelfareAlert | hotel-app/src/components/RoomPanel.jsx:184 | the panel's warning shows exactly for a dnd room whose `dnd_since` is at least 14400000 ms old |
| RoomPanel.CreateTicketEnabled | hotel-app/src/components/RoomPanel.jsx:208 | the ticket button is enabled exactly when nothing is saving and the note has a non-whitespace character |
| RoomPanel.Panel.constructor | hotel-app/src/components/RoomPanel.jsx:7-10 | no tickets, an empty note, not saving |
| RoomPanel.Panel.LoadTickets | hotel-app/src/components/RoomPanel.jsx:20-23 | one fetch; the ticket list is replaced only when data came back |
| RoomPanel.Panel.HandleStatusChange | hotel-app/src/components/RoomPanel.jsx:25-37 | the write carries the patch; on error nothing else happens; on success the row goes to the dashboard, exactly one activity `{from, to}` is logged and a notice raised; `saving` is clear afterwards |
| RoomPanel.Panel.HandleAdvance | hotel-app/src/components/RoomPanel.jsx:39-41 | a status change to the successor target: on success the reply row, the activity with from/to and the success notice, in that order; on error only the write |
| RoomPanel.Panel.ClickAdvance | hotel-app/src/components/RoomPanel.jsx:111 | while saving the button does nothing; otherwise it writes the successor status |
| RoomPanel.Panel.HandleAssign | hotel-app/src/components/RoomPanel.jsx:43-51 | writes only `assigned_to`; on success the row, then "assigned to <name>" / "unassigned" notice, then the matching activity |
| RoomPanel.Panel.HandleEffort | hotel-app/src/components/RoomPanel.jsx:53-56 | writes exactly `clean_effort`; a local update only on success; no activity |
| RoomPanel.Panel.HandlePriority | hotel-app/src/components/RoomPanel.jsx:58-61 | writes the negation of the current flag; a local update only on success; no activity |
| RoomPanel.Panel.SetMaintenanceInput | hotel-app/src/components/RoomPanel.jsx:207 | the note becomes the typed text |
| RoomPanel.Panel.HandleMaintenanceAsWritten | hotel-app/src/components/RoomPanel.jsx:63-77 | the handler as written: blank note does nothing; failed insert writes nothing else; a failed second status write passes null to the dashboard and stops the handler with `saving` still set |
| RoomPanel.Panel.HandleMaintenance | hotel-app/src/components/RoomPanel.jsx:63-77 | blank note: no call and no change; failed insert: only the insert; success: insert, then the maintenance write, then the ticket is prepended with its creator and the note cleared and one activity records it; `saving` clear |
| RoomPanel.Panel.ClickCreateTicket | hotel-app/src/components/RoomPanel.jsx:208 | disabled while saving or with a blank note; otherwise it runs the ticket handler: a failed insert changes nothing else, a created ticket is listed first, the note is cleared and the writes, reply row, notice and activity follow in order |
| RoomPanel.Panel.HandleResolve | hotel-app/src/components/RoomPanel.jsx:79-85 | on success only the matching ticket is resolved and it leaves the open list; on error nothing changes |
| AdminDashboard.PrependCapped | hotel-app/src/pages/AdminDashboard.jsx:49 | the new record is first, at most 50 records are kept, and the rest is a prefix of the previous feed in its order |
| AdminDashboard.FullFeedDropsOldest | hotel-app/src/pages/AdminDashboard.jsx:49 | inserting into a full feed drops exactly the oldest record |
| AdminDashboard.FilteredRooms | hotel-app/src/pages/AdminDashboard.jsx:103-109 | an order-preserving subsequence of exactly the rooms passing the status, floor, staff and search filters; all rooms with no filter set |
| AdminDashboard.SearchMeansInfix | hotel-app/src/pages/AdminDashboard.jsx:107 | passing a non-empty search means the room number contains the query as a block |
| AdminDashboard.ToggleStatusFilter | hotel-app/src/pages/AdminDashboard.jsx:175 | the active stat card clears the status filter; any other card sets it |
| AdminDashboard.GridShowsEveryFilteredRoom | hotel-app/src/pages/AdminDashboard.jsx:207 | the grid draws every filtered room exactly once per occurrence |
| AdminDashboard.Stats | hotel-app/src/pages/AdminDashboard.jsx:111-119 | each card is the number of rooms with its status; the six cards with inspection and unknown-status rooms make up the total, so the six sum to at most the total |
| AdminDashboard.StatusFilterShowsWithStatus | hotel-app/src/pages/AdminDashboard.jsx:102-108 | the status filter alone selects exactly the rooms with that status, in list order |
| AdminDashboard.StatCardsCountWhatTheyShow | hotel-app/src/pages/AdminDashboard.jsx:167-175 | each card's number equals the number of rooms the list shows once that card's filter is set alone |
| AdminDashboard.DndAlerts | hotel-app/src/pages/AdminDashboard.jsx:121 | exactly the dnd rooms with `dnd_since` set and strictly more than 14400000 ms elapsed, in order |
| AdminDashboard.BannerAndPanelThresholds | hotel-app/src/pages/AdminDashboard.jsx:121 | a banner alert implies the panel's alert; they disagree exactly at 14400000 ms to the millisecond |
| AdminDashboard.NonAdminStaff | hotel-app/src/pages/AdminDashboard.jsx:232 | exactly the non-admin profiles, in order |
| AdminDashboard.StaffWorkload | hotel-app/src/pages/AdminDashboard.jsx:233-236 | the card's rooms are the staff member's assigned rooms in list order; cleaning, ready and heavy are the numbers of those rooms with status in_progress, status ready and effort Heavy, each at most the assigned count, and cleaning plus ready too |
| Rooms.WithEffort | hotel-app/src/pages/AdminDashboard.jsx:236 | exactly the rooms with that cleaning effort, in list order |
| Scenarios.WorkloadMatchesOwnStats | hotel-app/src/pages/AdminDashboard.jsx:233-235 | the administrator's workload card and the housekeeper's own stat cards agree on assigned, cleaning and ready |
| AdminDashboard.Dashboard.constructor | hotel-app/src/pages/AdminDashboard.jsx:19-35 | empty lists, no selection, no filter, loading |
| AdminDashboard.Dashboard.LoadAll | hotel-app/src/pages/AdminDashboard.jsx:55-65 | each list is replaced only when its query returned data; loading cleared |
| AdminDashboard.Dashboard.OnRoomEvent | hotel-app/src/pages/AdminDashboard.jsx:42-47 | the list and the selection receive the event; a selection copied from the list stays one; nothing else changes |
| AdminDashboard.Dashboard.OnActivityInsert | hotel-app/src/pages/AdminDashboard.jsx:48-50 | the feed is the capped prepend and never exceeds 50 |
| AdminDashboard.Dashboard.HandleRoomUpdate | hotel-app/src/pages/AdminDashboard.jsx:69-72 | the row is merged into the list and, when ids match, into the selection |
| AdminDashboard.Dashboard.ClickGridRoom | hotel-app/src/pages/AdminDashboard.jsx:207 | the selection toggles as the grid asks |
| AdminDashboard.Dashboard.ClosePanel | hotel-app/src/pages/AdminDashboard.jsx:214 | nothing selected afterwards |
| AdminDashboard.Dashboard.ClickStatCard | hotel-app/src/pages/AdminDashboard.jsx:175 | only the status filter toggles |
| AdminDashboard.Dashboard.SetFilter | hotel-app/src/pages/AdminDashboard.jsx:186-198 | the filters become the chosen ones |
| AdminDashboard.Dashboard.ClearFilters | hotel-app/src/pages/AdminDashboard.jsx:199 | all filters cleared, after which every room is shown |
| EmployeeDashboard.MyRooms | hotel-app/src/pages/EmployeeDashboard.jsx:50 | exactly my rooms, in the original order |
| EmployeeDashboard.DisplayRooms | hotel-app/src/pages/EmployeeDashboard.jsx:51 | my rooms on the my-rooms tab, all rooms otherwise |
| EmployeeDashboard.ComputeMyStats | hotel-app/src/pages/EmployeeDashboard.jsx:54-59 | each count is the number of my rooms with that status, and done + active + pending is at most total |
| EmployeeDashboard.StatusGroupOrderIsTable | hotel-app/src/pages/EmployeeDashboard.jsx:128 | the group order lists each of the seven statuses once and nothing else |
| EmployeeDashboard.PriorityRooms | hotel-app/src/pages/EmployeeDashboard.jsx:122 | exactly my priority rooms, in list order |
| EmployeeDashboard.GroupRooms | hotel-app/src/pages/EmployeeDashboard.jsx:129 | exactly my non-priority rooms with that status, in list order |
| EmployeeDashboard.StatusGroups | hotel-app/src/pages/EmployeeDashboard.jsx:128-130 | each group is a listed status and holds exactly my non-priority rooms with it; no group is empty |
| EmployeeDashboard.StatusGroupsFollowOrder | hotel-app/src/pages/EmployeeDashboard.jsx:128-130 | the groups come in the order given (the fixed status order for the view) |
| EmployeeDashboard.StatusGroupsCoverOrder | hotel-app/src/pages/EmployeeDashboard.jsx:128-130 | a status has a group exactly when it is listed and has a non-priority room |
| EmployeeDashboard.GroupCardsConcat | hotel-app/src/pages/EmployeeDashboard.jsx:128-140 | the cards of two runs of groups are the cards of each, in order |
| EmployeeDashboard.GroupCardsCount | hotel-app/src/pages/EmployeeDashboard.jsx:128-140 | with distinct statuses, a non-priority room with a listed status is drawn as often as it occurs, any other not at all |
| EmployeeDashboard.MyRoomsViewPartition | hotel-app/src/pages/EmployeeDashboard.jsx:115-140 | a priority room is drawn once (in the priority section), a non-priority room with a known status once (in its group), a non-priority room with an unknown status nowhere |
| EmployeeDashboard.AllRoomsSections | hotel-app/src/pages/EmployeeDashboard.jsx:154-155 | one section per floor, holding exactly that floor's rooms |
| EmployeeDashboard.AllRoomsMatchesGrid | hotel-app/src/pages/EmployeeDashboard.jsx:154-155 | no section of the overview is empty, and it draws the same sections as the floor grid |
| EmployeeDashboard.SectionsWithoutEmptyFloors | hotel-app/src/components/RoomGrid.jsx:6-8 | when no listed floor is empty the grid sections are one per floor |
| EmployeeDashboard.Dashboard.constructor | hotel-app/src/pages/EmployeeDashboard.jsx:15-20 | no rooms, no selection, the my-rooms tab, loading |
| EmployeeDashboard.Dashboard.LoadRooms | hotel-app/src/pages/EmployeeDashboard.jsx:36-41 | the list is replaced only when data came back; loading cleared |
| EmployeeDashboard.Dashboard.OnRoomEvent | hotel-app/src/pages/EmployeeDashboard.jsx:26-31 | only an UPDATE is merged into the list and into a matching selection |
| EmployeeDashboard.Dashboard.HandleRoomUpdate | hotel-app/src/pages/EmployeeDashboard.jsx:45-48 | the row is merged into the list and, when ids match, into the selection |
| EmployeeDashboard.Dashboard.SetTab | hotel-app/src/pages/EmployeeDashboard.jsx:71 | only the tab changes |
| EmployeeDashboard.Dashboard.ClickMyRoomCard | hotel-app/src/pages/EmployeeDashboard.jsx:140 | the selected card deselects, any other selects |
| EmployeeDashboard.Dashboard.ClickAllRoomsTile | hotel-app/src/pages/EmployeeDashboard.jsx:165-167 | only a room assigned to me toggles the selection; any other click changes nothing |
| EmployeeDashboard.Dashboard.ClosePanel | hotel-app/src/pages/EmployeeDashboard.jsx:188 | nothing selected afterwards |
| Scenarios.LeftDndKeepsWelfareDot | hotel-app/src/components/RoomPanel.jsx:27-29 | a room moved out of dnd after more than four hours keeps its grid welfare dot while the panel alert and the banner are off |
| Scenarios.LaterFullReplyWins | hotel-app/src/lib/supabase.js:44-52 | of two write replies for one room, each the whole stored row, the later alone decides the merged list |
| Scenarios.PriorityToggleFlipsDot | hotel-app/src/components/RoomPanel.jsx:58-61 | a successful priority toggle, merged into the open selection, flips the room's priority dot |
| Scenarios.FailedMaintenanceWriteLeavesSaving | hotel-app/src/components/RoomPanel.jsx:69-70 | as written, a failed second write stops the handler before it clears `saving`; the ticket is not listed and the note is kept |
| Scenarios.UsableAfterFailedMaintenanceWrite | hotel-app/src/components/RoomPanel.jsx:69-77 | with the guarded update, the ticket is listed and Advance works again |
| Scenarios.CreateThenResolve | hotel-app/src/components/RoomPanel.jsx:79-85 | a ticket created and then resolved in the panel is no longer listed as open |

## Left out

- Store queries and writes in hotel-app/src/lib/supabase.js are not part of this model. Their
  results are parameters (`Option` data, `WriteReply`, `TicketReply`, a `resolved` flag), and
  the store's own `updated_at` stamp is one of the columns a reply row may carry.
- Sign-in and the current profile are given. The panel's `actor` and the housekeeper's `me` are
  constructor arguments, and a missing profile is not modelled.
- The asynchronous interleaving of handlers is not modelled. Each handler runs to completion,
  so `saving` is only observed before and after a handler.
- Realtime channel subscription and removal are not modelled, nor is delivery order between
  clients. Events are applied one at a time (`ApplyRoomEvents`).
- `handleAddEmployee` and the hotel configuration modal are left out. They call an auth admin API
  and parse text.
- Percentages and predictive insights use floating point and `Math.round`/`Math.ceil`, so they
  are left out. Only the integer counts are modelled.
- `formatTime`, date parsing and invalid or empty timestamp strings are left out. A timestamp
  is `Option<int>`.
- JSX layout, colours, icons, `RoomCard`, Header and Toast (with its dismissal timer) are left
  out.
- The admin-only visibility of the assign, priority and resolve controls is left out. The
  handlers are callable whatever the role.
- The filter selectors' string values (`'all'` and `parseInt` of the floor) are represented as
  `Option` values. A `null` room number for the search filter is not modelled, because
  `roomNumber` is a string.
- The `loading` flag only records whether a load has finished. The spinner page is not modelled.
- FailedMaintenanceWriteLeavesSaving: the model stops at the handler's throw. React's render-time
  error for the queued list update, and whatever the page shows after it, is not modelled.
- RoomPanel.Panel.HandleMaintenance: the first of the two identical status writes ignores its
  reply, so only the second write's reply is a parameter.

## Findings

| source | as written | input that shows it | evidently intended | confidence | as-written member | corrected member |
|---|---|---|---|---|---|---|
| hotel-app/src/components/RoomPanel.jsx:69-70 | `onRoomUpdate(updated)` is called even when the second status write fails; `updated` is then null and `handleRoomUpdate` reads `updatedRoom.id` (hotel-app/src/pages/AdminDashboard.jsx:71, hotel-app/src/pages/EmployeeDashboard.jsx:47), so the handler throws there, before `setSaving(false)`; the list updater queued just before it (hotel-app/src/pages/AdminDashboard.jsx:70, hotel-app/src/pages/EmployeeDashboard.jsx:46) reads the same `id` and throws again at the next render | a non-blank note, a successful ticket insert, and an error from the second `updateRoom` | pass the row on only when the write returned one, as the other handlers do | not executed | RoomPanel.Panel.HandleMaintenanceAsWritten, Scenarios.FailedMaintenanceWriteLeavesSaving | RoomPanel.Panel.HandleMaintenance, Scenarios.UsableAfterFailedMaintenanceWrite |

