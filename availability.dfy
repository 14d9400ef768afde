/**
 * The owner availability service: the availability windows an owner keeps,
 * the slots generated inside them for a date, and the per-date availability
 * checks built on those slots.
 */
module Availability {
  import opened Wrappers
  import opened Schema
  import opened Tables
  import opened TimeArith

  /** A generated slot as the service emits it: it carries no `timezone` and no `appointmentId`. */
  datatype TimeSlot = TimeSlot(startTime: string, endTime: string, isAvailable: bool)

  /** The form data of a new window. */
  datatype WindowForm = WindowForm(
    date: int,
    startTime: string,
    endTime: string,
    slotDuration: int,
    notes: Option<string>,
    timezone: string)

  /** A partial form: a field that is `None` leaves its column as it is. */
  datatype WindowPatch = WindowPatch(
    date: Option<int>,
    startTime: Option<string>,
    endTime: Option<string>,
    slotDuration: Option<int>,
    notes: Option<string>,
    timezone: Option<string>)

  /** The row inserted for a form: `isActive` takes its column default, true. */
  function NewWindow(id: int, ownerId: UserId, form: WindowForm, now: int): AvailabilityWindow {
    AvailabilityWindow(id, ownerId, form.date, form.startTime, form.endTime, Some(form.slotDuration),
                       true, form.timezone, form.notes, now, now)
  }

  /** `UPDATE ... SET`: the given fields and `updatedAt`. */
  function ApplyPatch(w: AvailabilityWindow, p: WindowPatch, now: int): AvailabilityWindow {
    w.(date := p.date.GetOr(w.date),
       startTime := p.startTime.GetOr(w.startTime),
       endTime := p.endTime.GetOr(w.endTime),
       slotDuration := if p.slotDuration.Some? then p.slotDuration else w.slotDuration,
       notes := if p.notes.Some? then p.notes else w.notes,
       timezone := p.timezone.GetOr(w.timezone),
       updatedAt := now)
  }

  /** A patch never moves a window to another id or owner, and an empty one only refreshes `updatedAt`. */
  lemma ApplyPatchKeepsIdentity(w: AvailabilityWindow, p: WindowPatch, now: int)
    ensures ApplyPatch(w, p, now).id == w.id && ApplyPatch(w, p, now).ownerId == w.ownerId
    ensures ApplyPatch(w, p, now).isActive == w.isActive && ApplyPatch(w, p, now).createdAt == w.createdAt
    ensures p == WindowPatch(None, None, None, None, None, None) ==> ApplyPatch(w, p, now) == w.(updatedAt := now)
  {
  }

  /** The `WHERE id = windowId AND ownerId = ownerId` of update and delete. */
  predicate Targets(w: AvailabilityWindow, windowId: int, ownerId: UserId) {
    w.id == windowId && w.ownerId == ownerId
  }

  /** The `id` column is the primary key: no two rows share an id. */
  predicate DistinctIds(ws: seq<AvailabilityWindow>) {
    forall i, j :: 0 <= i < j < |ws| ==> ws[i].id != ws[j].id
  }

  /** With distinct ids, no window occurs twice. */
  lemma {:induction false} DistinctIdsOnce(ws: seq<AvailabilityWindow>)
    requires DistinctIds(ws)
    ensures forall w :: multiset(ws)[w] <= 1
  {
    if ws != [] {
      var n := |ws| - 1;
      var init := ws[..n];
      DistinctIdsOnce(init);
      assert ws == init + [ws[n]];
      assert ws[n] !in init by {
        forall i | 0 <= i < n ensures init[i] != ws[n] {
          assert init[i].id == ws[i].id != ws[n].id;
        }
      }
    }
  }

  /** The table after the delete statement. */
  function Remaining(ws: seq<AvailabilityWindow>, windowId: int, ownerId: UserId): seq<AvailabilityWindow> {
    if ws == [] then []
    else
      var w := ws[|ws| - 1];
      Remaining(ws[..|ws| - 1], windowId, ownerId) + (if Targets(w, windowId, ownerId) then [] else [w])
  }

  /** The delete removes exactly the targeted rows and keeps the others in order. */
  lemma {:induction false} RemainingRows(ws: seq<AvailabilityWindow>, windowId: int, ownerId: UserId)
    ensures forall w :: w in Remaining(ws, windowId, ownerId) <==> w in ws && !Targets(w, windowId, ownerId)
    ensures |Remaining(ws, windowId, ownerId)| <= |ws|
    ensures !HasTarget(ws, windowId, ownerId) ==> Remaining(ws, windowId, ownerId) == ws
  {
    if ws != [] {
      var init := ws[..|ws| - 1];
      RemainingRows(init, windowId, ownerId);
      assert ws == init + [ws[|ws| - 1]];
      if !HasTarget(ws, windowId, ownerId) {
        assert !HasTarget(init, windowId, ownerId) by {
          forall i | 0 <= i < |init| ensures !Targets(init[i], windowId, ownerId) {
            assert init[i] == ws[i];
          }
        }
      }
    }
  }

  /** The delete keeps the primary key. */
  lemma {:induction false} RemainingKeepsDistinctIds(ws: seq<AvailabilityWindow>, windowId: int, ownerId: UserId)
    requires DistinctIds(ws)
    ensures DistinctIds(Remaining(ws, windowId, ownerId))
  {
    if ws != [] {
      var n := |ws| - 1;
      var init := ws[..n];
      var last := ws[n];
      assert DistinctIds(init) by {
        forall i, j | 0 <= i < j < n ensures init[i].id != init[j].id {
          assert init[i] == ws[i] && init[j] == ws[j];
        }
      }
      RemainingKeepsDistinctIds(init, windowId, ownerId);
      RemainingRows(init, windowId, ownerId);
      var head := Remaining(init, windowId, ownerId);
      forall v | v in head ensures v.id != last.id {
        var i :| 0 <= i < n && init[i] == v;
        assert ws[i] == v;
      }
      var r := Remaining(ws, windowId, ownerId);
      forall i, j | 0 <= i < j < |r| ensures r[i].id != r[j].id {
        if !Targets(last, windowId, ownerId) && j == |r| - 1 {
          assert r[i] == head[i] && head[i] in head;
        } else {
          assert r[i] == head[i] && r[j] == head[j];
        }
      }
    }
  }

  predicate HasTarget(ws: seq<AvailabilityWindow>, windowId: int, ownerId: UserId) {
    exists i :: 0 <= i < |ws| && Targets(ws[i], windowId, ownerId)
  }

  /** The table after the update statement. */
  function PatchWindows(ws: seq<AvailabilityWindow>, windowId: int, ownerId: UserId, p: WindowPatch, now: int): seq<AvailabilityWindow> {
    if ws == [] then []
    else
      var w := ws[|ws| - 1];
      PatchWindows(ws[..|ws| - 1], windowId, ownerId, p, now)
        + [if Targets(w, windowId, ownerId) then ApplyPatch(w, p, now) else w]
  }

  /** The update changes the targeted rows only; every other row stays as it was. */
  lemma {:induction false} PatchWindowsOnlyTargets(ws: seq<AvailabilityWindow>, windowId: int, ownerId: UserId, p: WindowPatch, now: int)
    ensures |PatchWindows(ws, windowId, ownerId, p, now)| == |ws|
    ensures forall i :: 0 <= i < |ws| && !Targets(ws[i], windowId, ownerId) ==> PatchWindows(ws, windowId, ownerId, p, now)[i] == ws[i]
    ensures forall i :: 0 <= i < |ws| && Targets(ws[i], windowId, ownerId) ==> PatchWindows(ws, windowId, ownerId, p, now)[i] == ApplyPatch(ws[i], p, now)
  {
    if ws != [] {
      PatchWindowsOnlyTargets(ws[..|ws| - 1], windowId, ownerId, p, now);
    }
  }

  /** Every row after the update has the id of a row before it. */
  lemma PatchKeepsIds(ws: seq<AvailabilityWindow>, windowId: int, ownerId: UserId, p: WindowPatch, now: int)
    ensures forall w :: w in PatchWindows(ws, windowId, ownerId, p, now) ==> exists v :: v in ws && v.id == w.id
  {
    PatchWindowsOnlyTargets(ws, windowId, ownerId, p, now);
    forall w | w in PatchWindows(ws, windowId, ownerId, p, now) ensures exists v :: v in ws && v.id == w.id {
      var i :| 0 <= i < |ws| && PatchWindows(ws, windowId, ownerId, p, now)[i] == w;
      assert ws[i] in ws;
    }
  }

  /** The update keeps the primary key. */
  lemma PatchKeepsDistinctIds(ws: seq<AvailabilityWindow>, windowId: int, ownerId: UserId, p: WindowPatch, now: int)
    requires DistinctIds(ws)
    ensures DistinctIds(PatchWindows(ws, windowId, ownerId, p, now))
  {
    var r := PatchWindows(ws, windowId, ownerId, p, now);
    PatchWindowsOnlyTargets(ws, windowId, ownerId, p, now);
    forall i | 0 <= i < |r| ensures r[i].id == ws[i].id {
      ApplyPatchKeepsIdentity(ws[i], p, now);
    }
  }

  /** Without a row whose id and owner both match, the update leaves the table as it is. */
  lemma NoTargetNoPatch(ws: seq<AvailabilityWindow>, windowId: int, ownerId: UserId, p: WindowPatch, now: int)
    requires !HasTarget(ws, windowId, ownerId)
    ensures PatchWindows(ws, windowId, ownerId, p, now) == ws
  {
    PatchWindowsOnlyTargets(ws, windowId, ownerId, p, now);
  }

  /** The update statement over the table's rows: the new rows and the number of rows affected. */
  method UpdateWhere(ws: seq<AvailabilityWindow>, windowId: int, ownerId: UserId, p: WindowPatch, now: int)
    returns (result: seq<AvailabilityWindow>, rowCount: int)
    ensures result == PatchWindows(ws, windowId, ownerId, p, now)
    ensures rowCount >= 0 && (rowCount > 0 <==> HasTarget(ws, windowId, ownerId))
  {
    result := [];
    rowCount := 0;
    for k := 0 to |ws|
      invariant result == PatchWindows(ws[..k], windowId, ownerId, p, now)
      invariant rowCount >= 0 && (rowCount > 0 <==> HasTarget(ws[..k], windowId, ownerId))
    {
      var w := ws[k];
      assert ws[..k + 1][..k] == ws[..k];
      if Targets(w, windowId, ownerId) {
        result := result + [ApplyPatch(w, p, now)];
        rowCount := rowCount + 1;
      } else {
        result := result + [w];
      }
    }
    assert ws[..|ws|] == ws;
  }

  /** The delete statement over the table's rows: the rows kept and the number of rows affected. */
  method DeleteWhere(ws: seq<AvailabilityWindow>, windowId: int, ownerId: UserId) returns (kept: seq<AvailabilityWindow>, rowCount: int)
    ensures kept == Remaining(ws, windowId, ownerId)
    ensures rowCount >= 0 && (rowCount > 0 <==> HasTarget(ws, windowId, ownerId))
  {
    kept := [];
    rowCount := 0;
    for k := 0 to |ws|
      invariant kept == Remaining(ws[..k], windowId, ownerId)
      invariant rowCount >= 0 && (rowCount > 0 <==> HasTarget(ws[..k], windowId, ownerId))
    {
      var w := ws[k];
      assert ws[..k + 1][..k] == ws[..k];
      if Targets(w, windowId, ownerId) {
        rowCount := rowCount + 1;
      } else {
        kept := kept + [w];
      }
    }
    assert ws[..|ws|] == ws;
  }

  /** `WHERE ownerId = ? [AND date BETWEEN ? AND ?]`: the range applies only when both bounds are given. */
  predicate InOwnerQuery(w: AvailabilityWindow, ownerId: UserId, startDate: Option<int>, endDate: Option<int>) {
    w.ownerId == ownerId && (startDate.Some? && endDate.Some? ==> startDate.value <= w.date <= endDate.value)
  }

  /** The `ORDER BY date, startTime` key: the date, then the start time's character codes. */
  function WindowKey(w: AvailabilityWindow): seq<int> {
    [w.date] + seq(|w.startTime|, i requires 0 <= i < |w.startTime| => w.startTime[i] as int)
  }

  /** What `getOwnerAvailabilityWindows` returns: the owner's windows, in range when both bounds are given, ordered by date and start time. */
  function OwnerWindows(windows: seq<AvailabilityWindow>, ownerId: UserId, startDate: Option<int>, endDate: Option<int>): (r: seq<AvailabilityWindow>)
    ensures forall w :: w in r <==> w in windows && InOwnerQuery(w, ownerId, startDate, endDate)
    ensures SortedByKey(r, WindowKey)
    ensures forall i, j :: 0 <= i < j < |r| ==> r[i].date <= r[j].date
    ensures forall w :: multiset(r)[w] == if InOwnerQuery(w, ownerId, startDate, endDate) then multiset(windows)[w] else 0
  {
    var selected := w => InOwnerQuery(w, ownerId, startDate, endDate);
    var rows := Filter(windows, selected);
    forall w ensures multiset(rows)[w] == if InOwnerQuery(w, ownerId, startDate, endDate) then multiset(windows)[w] else 0 {
      FilterMultiset(windows, selected, w);
    }
    var r := SortByKey(rows, WindowKey);
    SameMembers(r, rows);
    SortedDates(r);
    r
  }

  /** Over a table with a primary key, the query lists every selected window exactly once. */
  lemma OwnerWindowsOnce(windows: seq<AvailabilityWindow>, ownerId: UserId, startDate: Option<int>, endDate: Option<int>)
    requires DistinctIds(windows)
    ensures forall w ::
      multiset(OwnerWindows(windows, ownerId, startDate, endDate))[w] ==
      if w in windows && InOwnerQuery(w, ownerId, startDate, endDate) then 1 else 0
  {
    DistinctIdsOnce(windows);
  }

  /** Inactive windows are listed too: the query has no `isActive` condition. */
  lemma InactiveWindowsListed(windows: seq<AvailabilityWindow>, w: AvailabilityWindow)
    requires w in windows && !w.isActive
    ensures w in OwnerWindows(windows, w.ownerId, None, None)
  {
  }

  /** Sorting on the key orders windows by date first. */
  lemma SortedDates(r: seq<AvailabilityWindow>)
    requires SortedByKey(r, WindowKey)
    ensures forall i, j :: 0 <= i < j < |r| ==> r[i].date <= r[j].date
  {
    forall i, j | 0 <= i < j < |r| ensures r[i].date <= r[j].date {
      assert LexLe(WindowKey(r[i]), WindowKey(r[j]));
      assert WindowKey(r[i])[0] == r[i].date && WindowKey(r[j])[0] == r[j].date;
    }
  }

  /** `generateTimeSlots` reads the owner's active windows on the date. */
  predicate OnDate(w: AvailabilityWindow, ownerId: UserId, date: int) {
    w.ownerId == ownerId && w.date == date && w.isActive
  }

  function WindowsOn(ws: seq<AvailabilityWindow>, ownerId: UserId, date: int): seq<AvailabilityWindow> {
    Filter(ws, w => OnDate(w, ownerId, date))
  }

  /** `window.slotDuration ?? 30`. */
  function SlotLength(w: AvailabilityWindow): int {
    w.slotDuration.GetOr(30)
  }

  /** Slot generation only stops for a positive slot length; the service needs it of every window it reads on the date. */
  predicate PositiveOn(ws: seq<AvailabilityWindow>, ownerId: UserId, date: int) {
    forall w :: w in ws && OnDate(w, ownerId, date) ==> SlotLength(w) > 0
  }

  /** The slots `generateSlotsInWindow` cuts from a window (none where a slot length that is not positive would never stop). */
  function WindowSlotTexts(w: AvailabilityWindow): seq<SlotText> {
    if SlotLength(w) > 0 then SlotsInWindow(w.startTime, w.endTime, SlotLength(w)) else []
  }

  /** The appointments fetched for a date: the owner's, confirmed or requested, scheduled exactly at midnight. */
  predicate Fetched(a: Appointment, ownerId: UserId, date: int) {
    a.ownerId == ownerId && a.scheduledAt == Midnight(date) && (a.status == Confirmed || a.status == Requested)
  }

  /**
   * The conflict test: the slot's end points are read back as instants on the
   * date (an unreadable one compares false), the appointment lasts
   * `duration || 60` minutes.
   */
  predicate Conflicts(a: Appointment, date: int, slot: SlotText) {
    var s := SlotInstant(Midnight(date), slot.startTime);
    var e := SlotInstant(Midnight(date), slot.endTime);
    s.Some? && e.Some? && Overlaps(s.value, e.value, a.scheduledAt, a.scheduledAt + OrDefault(a.duration, 60))
  }

  /** Some appointment of the table, fetched for the date, conflicts with the slot. */
  predicate Booked(appointments: map<int, Appointment>, ownerId: UserId, date: int, slot: SlotText) {
    exists a :: a in appointments.Values && Fetched(a, ownerId, date) && Conflicts(a, date, slot)
  }

  /** The rows the appointment query returns, in primary-key order. */
  function FetchedRows(appointments: map<int, Appointment>, ownerId: UserId, date: int): seq<Appointment> {
    Filter(Rows(appointments), a => Fetched(a, ownerId, date))
  }

  /** `existingAppointments.some(...)`. */
  predicate BookedBy(fetched: seq<Appointment>, date: int, slot: SlotText) {
    exists a :: a in fetched && Conflicts(a, date, slot)
  }

  /** Scanning the fetched rows finds a conflict exactly when the table books the slot. */
  lemma BookedByFetched(appointments: map<int, Appointment>, ownerId: UserId, date: int, slot: SlotText)
    ensures BookedBy(FetchedRows(appointments, ownerId, date), date, slot) <==> Booked(appointments, ownerId, date, slot)
  {
    var fetched := FetchedRows(appointments, ownerId, date);
    assert forall a :: a in fetched <==> a in appointments.Values && Fetched(a, ownerId, date);
    if Booked(appointments, ownerId, date, slot) {
      var a :| a in appointments.Values && Fetched(a, ownerId, date) && Conflicts(a, date, slot);
      assert a in fetched;
    }
  }

  /** The availability test of a date, as a function of the slot. */
  function FreeOn(appointments: map<int, Appointment>, ownerId: UserId, date: int): SlotText -> bool {
    slot => !BookedBy(FetchedRows(appointments, ownerId, date), date, slot)
  }

  function Mark(slot: SlotText, free: SlotText -> bool): TimeSlot {
    TimeSlot(slot.startTime, slot.endTime, free(slot))
  }

  /** The slots of one window, each marked. */
  function Marked(slots: seq<SlotText>, free: SlotText -> bool): seq<TimeSlot> {
    if slots == [] then []
    else Marked(slots[..|slots| - 1], free) + [Mark(slots[|slots| - 1], free)]
  }

  /** The windows' slots, concatenated in window order. */
  function TimeSlotsOf(ws: seq<AvailabilityWindow>, slotsOf: AvailabilityWindow -> seq<SlotText>, free: SlotText -> bool): seq<TimeSlot> {
    if ws == [] then []
    else TimeSlotsOf(ws[..|ws| - 1], slotsOf, free) + Marked(slotsOf(ws[|ws| - 1]), free)
  }

  /** What `generateTimeSlots` returns for a table state. */
  function TimeSlots(windows: seq<AvailabilityWindow>, appointments: map<int, Appointment>, ownerId: UserId, date: int): seq<TimeSlot> {
    TimeSlotsOf(WindowsOn(windows, ownerId, date), WindowSlotTexts, FreeOn(appointments, ownerId, date))
  }

  predicate HasFreeSlot(slots: seq<SlotText>, free: SlotText -> bool) {
    exists i :: 0 <= i < |slots| && free(slots[i])
  }

  predicate SomeAvailable(slots: seq<TimeSlot>) {
    exists i :: 0 <= i < |slots| && slots[i].isAvailable
  }

  /** What `hasAvailabilityForDate` returns for a table state. */
  predicate HasAvailability(windows: seq<AvailabilityWindow>, appointments: map<int, Appointment>, ownerId: UserId, date: int) {
    WindowsOn(windows, ownerId, date) != [] && SomeAvailable(TimeSlots(windows, appointments, ownerId, date))
  }

  /** Each marked slot keeps its times and is available exactly when the test says it is free. */
  lemma {:induction false} MarkedSlots(slots: seq<SlotText>, free: SlotText -> bool)
    ensures |Marked(slots, free)| == |slots|
    ensures forall i :: 0 <= i < |slots| ==> Marked(slots, free)[i] == Mark(slots[i], free)
  {
    if slots != [] {
      MarkedSlots(slots[..|slots| - 1], free);
    }
  }

  lemma MarkedAvailable(slots: seq<SlotText>, free: SlotText -> bool)
    ensures SomeAvailable(Marked(slots, free)) <==> HasFreeSlot(slots, free)
  {
    MarkedSlots(slots, free);
    if HasFreeSlot(slots, free) {
      var i :| 0 <= i < |slots| && free(slots[i]);
      assert Marked(slots, free)[i].isAvailable;
    }
  }

  /** Every output slot is available exactly when the test says its times are free. */
  lemma {:induction false} TimeSlotsOfAvailability(ws: seq<AvailabilityWindow>, slotsOf: AvailabilityWindow -> seq<SlotText>, free: SlotText -> bool)
    ensures forall i :: 0 <= i < |TimeSlotsOf(ws, slotsOf, free)| ==>
      (TimeSlotsOf(ws, slotsOf, free)[i].isAvailable <==>
         free(SlotText(TimeSlotsOf(ws, slotsOf, free)[i].startTime, TimeSlotsOf(ws, slotsOf, free)[i].endTime)))
  {
    if ws != [] {
      TimeSlotsOfAvailability(ws[..|ws| - 1], slotsOf, free);
      MarkedSlots(slotsOf(ws[|ws| - 1]), free);
    }
  }

  /**
   * A generated slot is unavailable exactly when some fetched appointment
   * conflicts with it.
   */
  lemma SlotUnavailableIffBooked(windows: seq<AvailabilityWindow>, appointments: map<int, Appointment>, ownerId: UserId, date: int)
    ensures forall i :: 0 <= i < |TimeSlots(windows, appointments, ownerId, date)| ==>
      (!TimeSlots(windows, appointments, ownerId, date)[i].isAvailable <==>
         Booked(appointments, ownerId, date,
                    SlotText(TimeSlots(windows, appointments, ownerId, date)[i].startTime,
                             TimeSlots(windows, appointments, ownerId, date)[i].endTime)))
  {
    TimeSlotsOfAvailability(WindowsOn(windows, ownerId, date), WindowSlotTexts, FreeOn(appointments, ownerId, date));
    forall slot: SlotText ensures BookedBy(FetchedRows(appointments, ownerId, date), date, slot) <==> Booked(appointments, ownerId, date, slot) {
      BookedByFetched(appointments, ownerId, date, slot);
    }
  }

  /** With no appointment at midnight of the date, every slot is offered, whatever else is booked that day. */
  lemma OnlyMidnightAppointmentsBlock(windows: seq<AvailabilityWindow>, appointments: map<int, Appointment>, ownerId: UserId, date: int)
    requires forall a :: a in appointments.Values ==> a.scheduledAt != Midnight(date)
    ensures forall i :: 0 <= i < |TimeSlots(windows, appointments, ownerId, date)| ==>
      TimeSlots(windows, appointments, ownerId, date)[i].isAvailable
  {
    SlotUnavailableIffBooked(windows, appointments, ownerId, date);
  }

  /** Slots follow window order: two windows give the first's slots, then the second's, duplicates included. */
  lemma {:induction false} TimeSlotsOfConcat(a: seq<AvailabilityWindow>, b: seq<AvailabilityWindow>, slotsOf: AvailabilityWindow -> seq<SlotText>, free: SlotText -> bool)
    ensures TimeSlotsOf(a + b, slotsOf, free) == TimeSlotsOf(a, slotsOf, free) + TimeSlotsOf(b, slotsOf, free)
    decreases |b|
  {
    if b == [] {
      assert a + b == a;
    } else {
      ConcatInit(a, b);
      TimeSlotsOfConcat(a, b[..|b| - 1], slotsOf, free);
    }
  }

  /** The same window listed twice yields its slots twice. */
  lemma DuplicateWindowDuplicatesSlots(w: AvailabilityWindow, appointments: map<int, Appointment>, ownerId: UserId, date: int)
    requires OnDate(w, ownerId, date)
    ensures TimeSlots([w, w], appointments, ownerId, date) == TimeSlots([w], appointments, ownerId, date) + TimeSlots([w], appointments, ownerId, date)
  {
    assert [w, w][..1] == [w] && [w][..0] == [];
    assert WindowsOn([w], ownerId, date) == [w];
    assert WindowsOn([w, w], ownerId, date) == [w] + [w];
    TimeSlotsOfConcat([w], [w], WindowSlotTexts, FreeOn(appointments, ownerId, date));
  }

  /** A window that is inactive, on another date or another owner's contributes nothing. */
  lemma OtherWindowsIgnored(windows: seq<AvailabilityWindow>, w: AvailabilityWindow, appointments: map<int, Appointment>, ownerId: UserId, date: int)
    requires !OnDate(w, ownerId, date)
    ensures TimeSlots(windows + [w], appointments, ownerId, date) == TimeSlots(windows, appointments, ownerId, date)
  {
    FilterConcat(windows, [w], x => OnDate(x, ownerId, date));
    assert WindowsOn(windows + [w], ownerId, date) == WindowsOn(windows, ownerId, date);
  }

  lemma SomeAvailableConcat(a: seq<TimeSlot>, b: seq<TimeSlot>)
    ensures SomeAvailable(a + b) <==> SomeAvailable(a) || SomeAvailable(b)
  {
    if SomeAvailable(a) {
      var i :| 0 <= i < |a| && a[i].isAvailable;
      assert (a + b)[i] == a[i];
    }
    if SomeAvailable(b) {
      var i :| 0 <= i < |b| && b[i].isAvailable;
      assert (a + b)[|a| + i] == b[i];
    }
    if SomeAvailable(a + b) {
      var i :| 0 <= i < |a + b| && (a + b)[i].isAvailable;
      if i >= |a| {
        assert b[i - |a|] == (a + b)[i];
      } else {
        assert a[i] == (a + b)[i];
      }
    }
  }

  /** Some generated slot is available exactly when some window read has a slot the test finds free. */
  lemma {:induction false} SomeAvailableIff(ws: seq<AvailabilityWindow>, slotsOf: AvailabilityWindow -> seq<SlotText>, free: SlotText -> bool)
    ensures SomeAvailable(TimeSlotsOf(ws, slotsOf, free))
      <==> exists k :: 0 <= k < |ws| && HasFreeSlot(slotsOf(ws[k]), free)
  {
    if ws != [] {
      var init := ws[..|ws| - 1];
      SomeAvailableIff(init, slotsOf, free);
      MarkedAvailable(slotsOf(ws[|ws| - 1]), free);
      SomeAvailableConcat(TimeSlotsOf(init, slotsOf, free), Marked(slotsOf(ws[|ws| - 1]), free));
      if exists k :: 0 <= k < |ws| && HasFreeSlot(slotsOf(ws[k]), free) {
        var k :| 0 <= k < |ws| && HasFreeSlot(slotsOf(ws[k]), free);
        if k < |init| {
          assert init[k] == ws[k];
        }
      }
      if exists k :: 0 <= k < |init| && HasFreeSlot(slotsOf(init[k]), free) {
        var k :| 0 <= k < |init| && HasFreeSlot(slotsOf(init[k]), free);
        assert ws[k] == init[k];
      }
    }
  }

  /** A date has availability exactly when one of the owner's active windows on it has a slot no fetched appointment conflicts with. */
  lemma HasAvailabilityIff(windows: seq<AvailabilityWindow>, appointments: map<int, Appointment>, ownerId: UserId, date: int)
    ensures HasAvailability(windows, appointments, ownerId, date)
      <==> exists w :: w in windows && OnDate(w, ownerId, date) && HasFreeSlot(WindowSlotTexts(w), FreeOn(appointments, ownerId, date))
  {
    var on := WindowsOn(windows, ownerId, date);
    var free := FreeOn(appointments, ownerId, date);
    SomeAvailableIff(on, WindowSlotTexts, free);
    if exists w :: w in windows && OnDate(w, ownerId, date) && HasFreeSlot(WindowSlotTexts(w), free) {
      var w :| w in windows && OnDate(w, ownerId, date) && HasFreeSlot(WindowSlotTexts(w), free);
      assert w in on;
      var k :| 0 <= k < |on| && on[k] == w;
    }
    if exists k :: 0 <= k < |on| && HasFreeSlot(WindowSlotTexts(on[k]), free) {
      var k :| 0 <= k < |on| && HasFreeSlot(WindowSlotTexts(on[k]), free);
      assert on[k] in on;
    }
  }

  /** The distinct dates of the owner's active windows within the inclusive range. */
  function DatesInRange(windows: seq<AvailabilityWindow>, ownerId: UserId, startDate: int, endDate: int): set<int> {
    set w | w in windows && w.ownerId == ownerId && startDate <= w.date <= endDate && w.isActive :: w.date
  }

  /** `hasAvailabilityForDate` as a test on dates. */
  function AvailableOn(windows: seq<AvailabilityWindow>, appointments: map<int, Appointment>, ownerId: UserId): int -> bool {
    d => HasAvailability(windows, appointments, ownerId, d)
  }

  /** `[...new Set(windows.map(w => w.date))]` over the date-ordered rows: the candidate dates, ascending, each once. */
  method DistinctDates(windows: seq<AvailabilityWindow>, ownerId: UserId, startDate: int, endDate: int) returns (u: seq<int>)
    ensures Increasing(u)
    ensures forall d :: d in u <==> startDate <= d <= endDate && WindowsOn(windows, ownerId, d) != []
  {
    u := Ascending(DatesInRange(windows, ownerId, startDate, endDate));
    DatesInRangeIff(windows, ownerId, startDate, endDate);
  }

  /**
   * Keeping the candidates that pass the availability test gives dates that
   * are ascending, each once, and exactly the dates in range that have
   * availability.
   */
  lemma AvailableDatesSpec(u: seq<int>, windows: seq<AvailabilityWindow>, appointments: map<int, Appointment>, ownerId: UserId, startDate: int, endDate: int)
    requires Increasing(u)
    requires forall d :: d in u <==> startDate <= d <= endDate && WindowsOn(windows, ownerId, d) != []
    ensures Increasing(Filter(u, AvailableOn(windows, appointments, ownerId)))
    ensures forall d :: d in Filter(u, AvailableOn(windows, appointments, ownerId)) <==>
      startDate <= d <= endDate && HasAvailability(windows, appointments, ownerId, d)
  {
    FilterIncreasing(u, AvailableOn(windows, appointments, ownerId));
  }

  /** Every window read on a date within the range has a positive slot length. */
  lemma PositiveOnInRange(windows: seq<AvailabilityWindow>, ownerId: UserId, startDate: int, endDate: int, date: int)
    requires PositiveInRange(windows, ownerId, startDate, endDate) && startDate <= date <= endDate
    ensures PositiveOn(windows, ownerId, date)
  {
    forall w | w in windows && OnDate(w, ownerId, date) ensures SlotLength(w) > 0 {
    }
  }

  /** A date is a candidate exactly when it is in range and has an active window of the owner. */
  lemma DatesInRangeIff(windows: seq<AvailabilityWindow>, ownerId: UserId, startDate: int, endDate: int)
    ensures forall d :: d in DatesInRange(windows, ownerId, startDate, endDate) <==>
      startDate <= d <= endDate && WindowsOn(windows, ownerId, d) != []
  {
    forall d | d in DatesInRange(windows, ownerId, startDate, endDate)
      ensures startDate <= d <= endDate && WindowsOn(windows, ownerId, d) != []
    {
      var w :| w in windows && w.ownerId == ownerId && startDate <= w.date <= endDate && w.isActive && w.date == d;
      assert w in WindowsOn(windows, ownerId, d);
    }
    forall d | startDate <= d <= endDate && WindowsOn(windows, ownerId, d) != []
      ensures d in DatesInRange(windows, ownerId, startDate, endDate)
    {
      var on := WindowsOn(windows, ownerId, d);
      assert on[0] in on;
    }
  }

  predicate PositiveInRange(windows: seq<AvailabilityWindow>, ownerId: UserId, startDate: int, endDate: int) {
    forall w :: w in windows && w.ownerId == ownerId && w.isActive && startDate <= w.date <= endDate ==> SlotLength(w) > 0
  }

  class AvailabilityService {
    /** The `owner_availability_windows` table, in primary-key order. */
    var windows: seq<AvailabilityWindow>
    /** The next value of the serial `id` column. */
    var nextId: int

    ghost predicate Valid()
      reads this
    {
      && nextId > 0
      && (forall w :: w in windows ==> 0 < w.id < nextId)
      && DistinctIds(windows)
    }

    constructor()
      ensures Valid() && windows == [] && nextId == 1
    {
      windows := [];
      nextId := 1;
    }

    /** Inserts an active window and returns its fresh id. */
    method CreateAvailabilityWindow(ownerId: UserId, form: WindowForm, now: int) returns (id: int)
      requires Valid()
      modifies this
      ensures Valid()
      ensures id == old(nextId) && nextId == old(nextId) + 1
      ensures forall w :: w in old(windows) ==> w.id != id
      ensures windows == old(windows) + [NewWindow(id, ownerId, form, now)]
    {
      id := nextId;
      windows := windows + [NewWindow(id, ownerId, form, now)];
      nextId := nextId + 1;
    }

    /** The owner's windows, within the date range when both bounds are given, ordered by date and start time. */
    method GetOwnerAvailabilityWindows(ownerId: UserId, startDate: Option<int>, endDate: Option<int>) returns (r: seq<AvailabilityWindow>)
      ensures r == OwnerWindows(windows, ownerId, startDate, endDate)
    {
      r := OwnerWindows(windows, ownerId, startDate, endDate);
    }

    /** Patches the row whose id and owner both match; reports whether a row was affected. */
    method UpdateAvailabilityWindow(windowId: int, ownerId: UserId, patch: WindowPatch, now: int) returns (updated: bool)
      requires Valid()
      modifies this
      ensures Valid() && nextId == old(nextId)
      ensures windows == PatchWindows(old(windows), windowId, ownerId, patch, now)
      ensures updated <==> HasTarget(old(windows), windowId, ownerId)
    {
      var result, rowCount := UpdateWhere(windows, windowId, ownerId, patch, now);
      PatchKeepsIds(windows, windowId, ownerId, patch, now);
      PatchKeepsDistinctIds(windows, windowId, ownerId, patch, now);
      windows := result;
      updated := rowCount > 0;
    }

    /** Deletes the row whose id and owner both match; reports whether a row was affected. */
    method DeleteAvailabilityWindow(windowId: int, ownerId: UserId) returns (deleted: bool)
      requires Valid()
      modifies this
      ensures Valid() && nextId == old(nextId)
      ensures windows == Remaining(old(windows), windowId, ownerId)
      ensures forall w :: w in windows <==> w in old(windows) && !Targets(w, windowId, ownerId)
      ensures deleted <==> HasTarget(old(windows), windowId, ownerId)
    {
      var kept, rowCount := DeleteWhere(windows, windowId, ownerId);
      RemainingRows(windows, windowId, ownerId);
      RemainingKeepsDistinctIds(windows, windowId, ownerId);
      windows := kept;
      deleted := rowCount > 0;
    }

    /** The slots of the owner's active windows on the date, each marked available unless a fetched appointment conflicts with it. */
    method GenerateTimeSlots(ownerId: UserId, date: int, appointments: map<int, Appointment>) returns (timeSlots: seq<TimeSlot>)
      requires PositiveOn(windows, ownerId, date)
      ensures timeSlots == TimeSlots(windows, appointments, ownerId, date)
    {
      var matching := WindowsOn(windows, ownerId, date);
      var free := FreeOn(appointments, ownerId, date);
      timeSlots := [];
      for k := 0 to |matching|
        invariant timeSlots == TimeSlotsOf(matching[..k], WindowSlotTexts, free)
      {
        var w := matching[k];
        assert w in matching;
        var slots := GenerateSlotsInWindow(w.startTime, w.endTime, SlotLength(w));
        var marked := MarkSlots(slots, ownerId, date, appointments);
        assert matching[..k + 1][..k] == matching[..k];
        timeSlots := timeSlots + marked;
      }
      assert matching[..|matching|] == matching;
    }

    /** The inner loop of `generateTimeSlots`: each slot marked against the appointments fetched for the date. */
    method MarkSlots(slots: seq<SlotText>, ownerId: UserId, date: int, appointments: map<int, Appointment>) returns (marked: seq<TimeSlot>)
      ensures marked == Marked(slots, FreeOn(appointments, ownerId, date))
    {
      var existing := FetchedRows(appointments, ownerId, date);
      marked := [];
      for j := 0 to |slots|
        invariant marked == Marked(slots[..j], FreeOn(appointments, ownerId, date))
      {
        var slot := slots[j];
        var isBooked := BookedBy(existing, date, slot);
        assert slots[..j + 1][..j] == slots[..j];
        marked := marked + [TimeSlot(slot.startTime, slot.endTime, !isBooked)];
      }
      assert slots[..|slots|] == slots;
    }

    /** False without an active window on the date; otherwise whether some generated slot is available. */
    method HasAvailabilityForDate(ownerId: UserId, date: int, appointments: map<int, Appointment>) returns (r: bool)
      requires PositiveOn(windows, ownerId, date)
      ensures r == HasAvailability(windows, appointments, ownerId, date)
      ensures r <==> SomeAvailable(TimeSlots(windows, appointments, ownerId, date))
    {
      var found := WindowsOn(windows, ownerId, date);
      if |found| == 0 {
        return false;
      }
      var timeSlots := GenerateTimeSlots(ownerId, date, appointments);
      r := exists i :: 0 <= i < |timeSlots| && timeSlots[i].isAvailable;
    }

    /** The distinct dates in range with an active window, ascending, that have availability. */
    method GetAvailableDates(ownerId: UserId, startDate: int, endDate: int, appointments: map<int, Appointment>) returns (dates: seq<int>)
      requires PositiveInRange(windows, ownerId, startDate, endDate)
      ensures Increasing(dates)
      ensures forall d :: d in dates <==> startDate <= d <= endDate && HasAvailability(windows, appointments, ownerId, d)
    {
      var uniqueDates := DistinctDates(windows, ownerId, startDate, endDate);
      var avail := AvailableOn(windows, appointments, ownerId);
      dates := [];
      for k := 0 to |uniqueDates|
        invariant dates == Filter(uniqueDates[..k], avail)
      {
        var date := uniqueDates[k];
        assert date in uniqueDates;
        PositiveOnInRange(windows, ownerId, startDate, endDate, date);
        var has := HasAvailabilityForDate(ownerId, date, appointments);
        assert uniqueDates[..k + 1][..k] == uniqueDates[..k];
        if has {
          dates := dates + [date];
        }
      }
      assert uniqueDates[..|uniqueDates|] == uniqueDates;
      AvailableDatesSpec(uniqueDates, windows, appointments, ownerId, startDate, endDate);
    }
  }
}
