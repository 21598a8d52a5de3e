/** The status table, the effort levels and the relative-time formatter shared by every view
    (hotel-app/src/lib/constants.js). */
module Constants {
  import opened Prelude

  const OCCUPIED: string := "occupied"
  const CHECKED_OUT: string := "checked_out"
  const IN_PROGRESS: string := "in_progress"
  const INSPECTION: string := "inspection"
  const READY: string := "ready"
  const MAINTENANCE: string := "maintenance"
  const DND: string := "dnd"

  /** One row of the status table: its id, display label (`title`) and default "next" status.
      Colours and icons are presentation only and are not kept. */
  datatype StatusDef = StatusDef(id: string, title: string, next: string)

  const STATUS_FLOW: seq<StatusDef> := [
    StatusDef(OCCUPIED, "Occupied", CHECKED_OUT),
    StatusDef(CHECKED_OUT, "Checked Out", IN_PROGRESS),
    StatusDef(IN_PROGRESS, "Cleaning", INSPECTION),
    StatusDef(INSPECTION, "Inspection", READY),
    StatusDef(READY, "Ready", OCCUPIED),
    StatusDef(MAINTENANCE, "Maintenance", READY),
    StatusDef(DND, "Do Not Disturb", CHECKED_OUT)
  ]

  const CLEAN_EFFORT: seq<string> := ["Light", "Normal", "Heavy"]

  /** `id` names one of the rows of the status table. */
  predicate IsStatusId(id: string)
  {
    exists i :: 0 <= i < |STATUS_FLOW| && STATUS_FLOW[i].id == id
  }

  /** `table.find(s => s.id === id)`: the first row with that id, if any. */
  function FindStatus(table: seq<StatusDef>, id: string): (r: Option<StatusDef>)
    ensures r.None? <==> forall i :: 0 <= i < |table| ==> table[i].id != id
    ensures r.Some? ==> exists i :: 0 <= i < |table| && table[i] == r.value && r.value.id == id
                                   && forall j :: 0 <= j < i ==> table[j].id != id
  {
    if table == [] then None
    else if table[0].id == id then Some(table[0])
    else
      var r := FindStatus(table[1..], id);
      assert r.Some? ==> exists i :: 1 <= i < |table| && table[i] == r.value && r.value.id == id
                                     && forall j :: 0 <= j < i ==> table[j].id != id by {
        if r.Some? {
          var k :| 0 <= k < |table[1..]| && table[1..][k] == r.value && r.value.id == id
                   && forall j :: 0 <= j < k ==> table[1..][j].id != id;
          assert table[k + 1] == r.value;
          forall j | 0 <= j < k + 1 ensures table[j].id != id {
            if j > 0 { assert table[j] == table[1..][j - 1]; }
          }
        }
      }
      r
  }

  /** `getStatusDef`: the row whose id is `id`, or the first row (occupied) when there is none. */
  function GetStatusDef(id: string): (d: StatusDef)
    ensures d in STATUS_FLOW
    ensures IsStatusId(id) ==> d.id == id
    ensures !IsStatusId(id) ==> d == STATUS_FLOW[0]
  {
    match FindStatus(STATUS_FLOW, id)
    case Some(d) => d
    case None => STATUS_FLOW[0]
  }

  /** The seven ids are exactly the seven literal statuses. */
  lemma StatusIds(id: string)
    ensures IsStatusId(id) <==> id == OCCUPIED || id == CHECKED_OUT || id == IN_PROGRESS
                                || id == INSPECTION || id == READY || id == MAINTENANCE || id == DND
  {
    if id == OCCUPIED || id == CHECKED_OUT || id == IN_PROGRESS || id == INSPECTION
       || id == READY || id == MAINTENANCE || id == DND {
      var i := if id == OCCUPIED then 0 else if id == CHECKED_OUT then 1 else if id == IN_PROGRESS then 2
               else if id == INSPECTION then 3 else if id == READY then 4 else if id == MAINTENANCE then 5 else 6;
      assert STATUS_FLOW[i].id == id;
    }
  }

  /** No two rows of the table share an id. */
  lemma StatusIdsDistinct()
    ensures forall i, j :: 0 <= i < j < |STATUS_FLOW| ==> STATUS_FLOW[i].id != STATUS_FLOW[j].id
  {
  }

  /** Looking up the id of row `i` yields row `i` itself. */
  lemma GetStatusDefOfRow(i: nat)
    requires i < |STATUS_FLOW|
    ensures GetStatusDef(STATUS_FLOW[i].id) == STATUS_FLOW[i]
  {
    StatusIdsDistinct();
    var d := GetStatusDef(STATUS_FLOW[i].id);
    var j :| 0 <= j < |STATUS_FLOW| && STATUS_FLOW[j] == d;
  }

  /** The default-advance successor of every status: the five-state cycle plus two side branches. */
  lemma SuccessorTable()
    ensures GetStatusDef(OCCUPIED).next == CHECKED_OUT
    ensures GetStatusDef(CHECKED_OUT).next == IN_PROGRESS
    ensures GetStatusDef(IN_PROGRESS).next == INSPECTION
    ensures GetStatusDef(INSPECTION).next == READY
    ensures GetStatusDef(READY).next == OCCUPIED
    ensures GetStatusDef(MAINTENANCE).next == READY
    ensures GetStatusDef(DND).next == CHECKED_OUT
  {
    GetStatusDefOfRow(0);
    GetStatusDefOfRow(1);
    GetStatusDefOfRow(2);
    GetStatusDefOfRow(3);
    GetStatusDefOfRow(4);
    GetStatusDefOfRow(5);
    GetStatusDefOfRow(6);
  }

  /** A status the table does not know falls back to occupied, whose successor is checked_out. */
  lemma UnknownStatusAdvancesToCheckedOut(id: string)
    requires !IsStatusId(id)
    ensures GetStatusDef(id).id == OCCUPIED
    ensures GetStatusDef(id).next == CHECKED_OUT
  {
  }

  /** Every `next` value is itself an id of the table. */
  lemma NextIsStatus(id: string)
    ensures IsStatusId(GetStatusDef(id).next)
  {
    var d := GetStatusDef(id);
    var i :| 0 <= i < |STATUS_FLOW| && STATUS_FLOW[i] == d;
    StatusIds(d.next);
  }

  /** The status reached by pressing Advance `k` times, starting from `id`. */
  function AdvanceTimes(id: string, k: nat): string
    decreases k
  {
    if k == 0 then id else AdvanceTimes(GetStatusDef(id).next, k - 1)
  }

  /** Following `next` from any status, even an unknown one, stays inside the table. */
  lemma {:induction false} AdvanceStaysInTable(id: string, k: nat)
    requires k >= 1
    ensures IsStatusId(AdvanceTimes(id, k))
    decreases k
  {
    NextIsStatus(id);
    if k > 1 {
      AdvanceStaysInTable(GetStatusDef(id).next, k - 1);
    }
  }

  /** One press of Advance from `id`, then `k` more. */
  lemma AdvanceUnfold(id: string, k: nat)
    ensures AdvanceTimes(id, k + 1) == AdvanceTimes(GetStatusDef(id).next, k)
  {
  }

  /** Inspection and maintenance are one press from ready. */
  lemma InspectionToReady()
    ensures AdvanceTimes(INSPECTION, 1) == READY
    ensures AdvanceTimes(MAINTENANCE, 1) == READY
  {
    SuccessorTable();
    AdvanceUnfold(INSPECTION, 0);
    AdvanceUnfold(MAINTENANCE, 0);
  }

  /** Cleaning is two presses from ready. */
  lemma InProgressToReady()
    ensures AdvanceTimes(IN_PROGRESS, 2) == READY
  {
    InspectionToReady();
    SuccessorTable();
    AdvanceUnfold(IN_PROGRESS, 1);
  }

  /** A checked-out room is three presses from ready. */
  lemma CheckedOutToReady()
    ensures AdvanceTimes(CHECKED_OUT, 3) == READY
  {
    InProgressToReady();
    SuccessorTable();
    AdvanceUnfold(CHECKED_OUT, 2);
  }

  /** Occupied and do-not-disturb rooms both go to checked_out first: four presses from ready. */
  lemma OccupiedToReady()
    ensures AdvanceTimes(OCCUPIED, 4) == READY
    ensures AdvanceTimes(DND, 4) == READY
  {
    CheckedOutToReady();
    SuccessorTable();
    AdvanceUnfold(OCCUPIED, 3);
    AdvanceUnfold(DND, 3);
  }

  /** Any room, whatever its status, is at most four Advance presses away from ready. */
  lemma ReadyWithinFourAdvances(id: string)
    ensures exists k :: 0 <= k <= 4 && AdvanceTimes(id, k) == READY
  {
    StatusIds(id);
    InspectionToReady();
    InProgressToReady();
    CheckedOutToReady();
    OccupiedToReady();
    if !IsStatusId(id) {
      UnknownStatusAdvancesToCheckedOut(id);
      AdvanceUnfold(id, 3);
      assert AdvanceTimes(id, 4) == READY;
    } else if id == READY {
      assert AdvanceTimes(id, 0) == READY;
    } else if id == INSPECTION || id == MAINTENANCE {
      assert AdvanceTimes(id, 1) == READY;
    } else if id == IN_PROGRESS {
      assert AdvanceTimes(id, 2) == READY;
    } else if id == CHECKED_OUT {
      assert AdvanceTimes(id, 3) == READY;
    } else {
      assert AdvanceTimes(id, 4) == READY;
    }
  }

  /** Five presses bring a room on the main cycle back to where it started. */
  lemma MainCycleReturns(id: string)
    requires id == OCCUPIED || id == CHECKED_OUT || id == IN_PROGRESS || id == INSPECTION || id == READY
    ensures AdvanceTimes(id, 5) == id
  {
    SuccessorTable();
    if id == OCCUPIED {
      assert AdvanceTimes(READY, 1) == OCCUPIED;
      assert AdvanceTimes(INSPECTION, 2) == OCCUPIED;
      assert AdvanceTimes(IN_PROGRESS, 3) == OCCUPIED;
      assert AdvanceTimes(CHECKED_OUT, 4) == OCCUPIED;
    } else if id == CHECKED_OUT {
      assert AdvanceTimes(OCCUPIED, 1) == CHECKED_OUT;
      assert AdvanceTimes(READY, 2) == CHECKED_OUT;
      assert AdvanceTimes(INSPECTION, 3) == CHECKED_OUT;
      assert AdvanceTimes(IN_PROGRESS, 4) == CHECKED_OUT;
    } else if id == IN_PROGRESS {
      assert AdvanceTimes(CHECKED_OUT, 1) == IN_PROGRESS;
      assert AdvanceTimes(OCCUPIED, 2) == IN_PROGRESS;
      assert AdvanceTimes(READY, 3) == IN_PROGRESS;
      assert AdvanceTimes(INSPECTION, 4) == IN_PROGRESS;
    } else if id == INSPECTION {
      assert AdvanceTimes(IN_PROGRESS, 1) == INSPECTION;
      assert AdvanceTimes(CHECKED_OUT, 2) == INSPECTION;
      assert AdvanceTimes(OCCUPIED, 3) == INSPECTION;
      assert AdvanceTimes(READY, 4) == INSPECTION;
    } else {
      assert AdvanceTimes(INSPECTION, 1) == READY;
      assert AdvanceTimes(IN_PROGRESS, 2) == READY;
      assert AdvanceTimes(CHECKED_OUT, 3) == READY;
      assert AdvanceTimes(OCCUPIED, 4) == READY;
    }
  }

  /** The three effort levels, in display order. */
  lemma CleanEffortLevels()
    ensures |CLEAN_EFFORT| == 3
    ensures CLEAN_EFFORT[0] == "Light" && CLEAN_EFFORT[1] == "Normal" && CLEAN_EFFORT[2] == "Heavy"
  {
  }

  // ---------------------------------------------------------------------------
  // timeAgo
  // ---------------------------------------------------------------------------

  const MINUTE_MS: int := 60000
  const HOUR_MS: int := 3600000
  const DAY_MS: int := 86400000

  /** The bucket `timeAgo` chooses; `Dash` is the '—' shown for a missing timestamp. */
  datatype Age = Dash | JustNow | MinutesAgo(minutes: nat) | HoursAgo(hours: nat) | DaysAgo(days: nat)

  /** `timeAgo(at)` evaluated at wall-clock time `now` (both in milliseconds).
      `Math.floor(x / d)` with d > 0 is Dafny's `/`. */
  function TimeAgo(at: Option<int>, now: int): (a: Age)
    ensures at.None? <==> a == Dash
    ensures a.MinutesAgo? ==> 1 <= a.minutes <= 59
    ensures a.HoursAgo? ==> 1 <= a.hours <= 23
    ensures a.DaysAgo? ==> a.days >= 1
  {
    match at
    case None => Dash
    case Some(t) =>
      var mins := (now - t) / MINUTE_MS;
      var hrs := mins / 60;
      if mins < 1 then JustNow
      else if mins < 60 then MinutesAgo(mins)
      else if hrs < 24 then HoursAgo(hrs)
      else DaysAgo(hrs / 24)
  }

  /** Which bucket an elapsed time lands in, and that the number shown is the floor of the
      elapsed time in that unit. */
  lemma TimeAgoBuckets(t: int, now: int)
    ensures TimeAgo(Some(t), now) == JustNow <==> now - t < MINUTE_MS
    ensures TimeAgo(Some(t), now).MinutesAgo? <==> MINUTE_MS <= now - t < HOUR_MS
    ensures TimeAgo(Some(t), now).HoursAgo? <==> HOUR_MS <= now - t < DAY_MS
    ensures TimeAgo(Some(t), now).DaysAgo? <==> DAY_MS <= now - t
    ensures TimeAgo(Some(t), now).MinutesAgo? ==>
              var m := TimeAgo(Some(t), now).minutes; m * MINUTE_MS <= now - t < (m + 1) * MINUTE_MS
    ensures TimeAgo(Some(t), now).HoursAgo? ==>
              var h := TimeAgo(Some(t), now).hours; h * HOUR_MS <= now - t < (h + 1) * HOUR_MS
    ensures TimeAgo(Some(t), now).DaysAgo? ==>
              var d := TimeAgo(Some(t), now).days; d * DAY_MS <= now - t < (d + 1) * DAY_MS
  {
    var x := now - t;
    var mins := x / MINUTE_MS;
    var hrs := mins / 60;
    assert mins * MINUTE_MS <= x < (mins + 1) * MINUTE_MS;
    assert hrs * 60 <= mins < (hrs + 1) * 60;
    assert hrs * HOUR_MS <= x < (hrs + 1) * HOUR_MS;
    var days := hrs / 24;
    assert days * 24 <= hrs < (days + 1) * 24;
    assert days * DAY_MS <= x < (days + 1) * DAY_MS;
  }

  /** The text `timeAgo` returns for a bucket. */
  function AgeText(a: Age): (s: string)
    ensures a == Dash <==> s == "\U{2014}"
    ensures a == JustNow <==> s == "just now"
    ensures a.MinutesAgo? ==> |s| > 5 && s[|s| - 5..] == "m ago" && ParseDecimal(s[..|s| - 5]) == Some(a.minutes)
    ensures a.HoursAgo? ==> |s| > 5 && s[|s| - 5..] == "h ago" && ParseDecimal(s[..|s| - 5]) == Some(a.hours)
    ensures a.DaysAgo? ==> |s| > 5 && s[|s| - 5..] == "d ago" && ParseDecimal(s[..|s| - 5]) == Some(a.days)
  {
    match a
    case Dash => "\U{2014}"
    case JustNow => "just now"
    case MinutesAgo(m) => WithSuffix(m, "m ago")
    case HoursAgo(h) => WithSuffix(h, "h ago")
    case DaysAgo(d) => WithSuffix(d, "d ago")
  }

  /** `${n}` followed by a unit suffix; the digits read back as `n`. */
  function WithSuffix(n: nat, suffix: string): (s: string)
    requires |suffix| == 5
    ensures |s| > 5 && s[|s| - 5..] == suffix
    ensures ParseDecimal(s[..|s| - 5]) == Some(n)
  {
    DecimalRoundTrip(n);
    var digits := NatToDecimal(n);
    assert (digits + suffix)[..|digits|] == digits;
    digits + suffix
  }
}
