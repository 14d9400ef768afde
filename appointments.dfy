/**
 * The appointment service: viewing requests booked against a property, the
 * conflict check against confirmed appointments, the owner's status changes,
 * per-role notes, the buyer's withdrawal of a request, the listings by user
 * and by property, and the fixed one-hour business slots of a day.
 */
module Appointments {
  import opened Wrappers
  import opened Schema
  import opened Tables
  import opened TimeArith
  import opened BuyerProfiles

  /** `NewAppointment`: what a caller submits; absent optional fields take the column defaults. */
  datatype NewAppointment = NewAppointment(
    propertyId: int,
    buyerId: UserId,
    ownerId: UserId,
    scheduledAt: int,
    duration: Option<int>,
    kind: Option<AppointmentType>,
    notes: Option<string>,
    buyerNotes: Option<string>,
    ownerNotes: Option<string>)

  const DefaultDuration: int := 60

  /** The minute span an appointment occupies; a null or zero duration counts as 60 minutes. */
  function EndOf(a: Appointment): int {
    a.scheduledAt + OrDefault(a.duration, DefaultDuration)
  }

  // ----- Conflict check -----

  predicate ConfirmedFor(a: Appointment, propertyId: int) {
    a.propertyId == propertyId && a.status == Confirmed
  }

  /** The overlap test of `checkForConflicts` between a requested span and a stored appointment. */
  predicate Clashes(a: Appointment, start: int, end: int) {
    Overlaps(start, end, a.scheduledAt, EndOf(a))
  }

  /** A confirmed appointment of the same property that overlaps `[scheduledAt, scheduledAt + duration)`. */
  predicate Blocks(a: Appointment, propertyId: int, scheduledAt: int, duration: int) {
    ConfirmedFor(a, propertyId) && Clashes(a, scheduledAt, scheduledAt + duration)
  }

  /**
   * `checkForConflicts`: the property's confirmed appointments, in table
   * order, and the first of them that overlaps the requested span. Requested,
   * cancelled and other appointments are never consulted.
   */
  function CheckForConflicts(appointments: map<int, Appointment>, propertyId: int, scheduledAt: int, duration: int): (r: Option<Appointment>)
    ensures r.Some? ==> r.value in appointments.Values && Blocks(r.value, propertyId, scheduledAt, duration)
    ensures r.None? <==> forall a :: a in appointments.Values ==> !Blocks(a, propertyId, scheduledAt, duration)
  {
    var confirmed := Filter(Rows(appointments), a => ConfirmedFor(a, propertyId));
    Find(confirmed, a => Clashes(a, scheduledAt, scheduledAt + duration))
  }

  /** Adding an appointment that is not confirmed never changes the outcome of the conflict check, whatever it overlaps. */
  lemma RequestedNeverBlock(appointments: map<int, Appointment>, k: int, a: Appointment, propertyId: int, scheduledAt: int, duration: int)
    requires k !in appointments && a.status != Confirmed
    ensures CheckForConflicts(appointments[k := a], propertyId, scheduledAt, duration).None? <==>
      CheckForConflicts(appointments, propertyId, scheduledAt, duration).None?
  {
    var m := appointments[k := a];
    if CheckForConflicts(appointments, propertyId, scheduledAt, duration).None? {
      forall b | b in m.Values ensures !Blocks(b, propertyId, scheduledAt, duration) {
        var j :| j in m && m[j] == b;
        if j != k {
          assert b in appointments.Values;
        }
      }
    } else {
      var b :| b in appointments.Values && Blocks(b, propertyId, scheduledAt, duration);
      var j :| j in appointments && appointments[j] == b;
      assert m[j] == b;
    }
  }

  /**
   * The checks of `createAppointment`, in order: the property must exist,
   * the submitted owner must be its owner, and no confirmed appointment of
   * the property may overlap the requested span (duration 0 or absent counts
   * as 60 minutes). None means the booking is admitted.
   */
  function Admission(appointments: map<int, Appointment>, properties: map<int, Property>, data: NewAppointment): (r: Option<string>)
    ensures r == Some("Property not found") <==> data.propertyId !in properties
    ensures r == Some("Property owner mismatch") <==>
      data.propertyId in properties && properties[data.propertyId].ownerId != data.ownerId
    ensures r == Some("Time slot is not available") <==>
      data.propertyId in properties && properties[data.propertyId].ownerId == data.ownerId &&
      exists a :: a in appointments.Values && Blocks(a, data.propertyId, data.scheduledAt, OrDefault(data.duration, DefaultDuration))
    ensures r.None? ==> data.propertyId in properties && properties[data.propertyId].ownerId == data.ownerId
  {
    if data.propertyId !in properties then Some("Property not found")
    else if properties[data.propertyId].ownerId != data.ownerId then Some("Property owner mismatch")
    else if CheckForConflicts(appointments, data.propertyId, data.scheduledAt, OrDefault(data.duration, DefaultDuration)).Some? then
      Some("Time slot is not available")
    else None
  }

  /**
   * The row `createAppointment` inserts: the submitted fields with the
   * column defaults for an absent duration (60) and type (viewing), status
   * requested whatever was submitted, and the buyer's profile snapshot.
   */
  function NewRow(id: int, data: NewAppointment, snapshot: Option<BuyerProfileSnapshot>, now: int): (r: Appointment)
    ensures r.id == id && r.status == Requested && r.buyerProfileSnapshot == snapshot
    ensures r.propertyId == data.propertyId && r.buyerId == data.buyerId && r.ownerId == data.ownerId
    ensures r.scheduledAt == data.scheduledAt && r.duration == Some(data.duration.GetOr(DefaultDuration))
    ensures r.kind == data.kind.GetOr(Viewing)
    ensures r.confirmedAt.None? && r.cancelledAt.None?
  {
    Appointment(
      id, data.propertyId, data.buyerId, data.ownerId, data.scheduledAt,
      Some(data.duration.GetOr(DefaultDuration)), data.kind.GetOr(Viewing), Requested,
      data.notes, data.buyerNotes, data.ownerNotes, None, None,
      now, now, None, None, snapshot)
  }

  // ----- Status and notes -----

  /**
   * The row after `updateAppointmentStatus`: any target status is written
   * (there is no transition table); confirming stamps `confirmedAt`,
   * cancelling stamps `cancelledAt`; non-empty notes replace the owner's
   * notes; nothing else changes but `updatedAt`.
   */
  function WithStatus(a: Appointment, status: AppointmentStatus, notes: Option<string>, now: int): (r: Appointment)
    ensures r.status == status && r.updatedAt == now
    ensures r.confirmedAt == (if status == Confirmed then Some(now) else a.confirmedAt)
    ensures r.cancelledAt == (if status == Cancelled then Some(now) else a.cancelledAt)
    ensures notes.Some? && notes.value != "" ==> r.ownerNotes == notes
    ensures notes.None? || notes.value == "" ==> r.ownerNotes == a.ownerNotes
    ensures r.(status := a.status, updatedAt := a.updatedAt, confirmedAt := a.confirmedAt,
               cancelledAt := a.cancelledAt, ownerNotes := a.ownerNotes) == a
  {
    a.(status := status, updatedAt := now,
       confirmedAt := if status == Confirmed then Some(now) else a.confirmedAt,
       cancelledAt := if status == Cancelled then Some(now) else a.cancelledAt,
       ownerNotes := if notes.Some? && notes.value != "" then notes else a.ownerNotes)
  }

  /** `updateAppointmentStatus` on the table: a missing row, then a caller who is not the owner, is refused. */
  function StatusChange(appointments: map<int, Appointment>, id: int, status: AppointmentStatus, userId: UserId, notes: Option<string>, now: int): (r: Result<Appointment, string>)
    ensures id !in appointments <==> r == Failure("Appointment not found")
    ensures r == Failure("Unauthorized to update appointment status") <==> id in appointments && appointments[id].ownerId != userId
    ensures r.Success? <==> id in appointments && appointments[id].ownerId == userId
    ensures r.Success? ==> r.value == WithStatus(appointments[id], status, notes, now)
  {
    if id !in appointments then Failure("Appointment not found")
    else if appointments[id].ownerId != userId then Failure("Unauthorized to update appointment status")
    else Success(WithStatus(appointments[id], status, notes, now))
  }

  /** Every status can be set from every status by the owner, even back from completed or cancelled. */
  lemma NoTransitionTable(appointments: map<int, Appointment>, id: int, target: AppointmentStatus, notes: Option<string>, now: int)
    requires id in appointments
    ensures var r := StatusChange(appointments, id, target, appointments[id].ownerId, notes, now);
      r.Success? && r.value.status == target
  {
  }

  /** Confirming a cancelled appointment keeps its cancellation stamp: both stamps are then set. */
  lemma ReconfirmKeepsCancelStamp(a: Appointment, t1: int, t2: int)
    ensures var c := WithStatus(WithStatus(a, Cancelled, None, t1), Confirmed, None, t2);
      c.status == Confirmed && c.cancelledAt == Some(t1) && c.confirmedAt == Some(t2)
  {
  }

  /** Which notes field `updateAppointmentNotes` writes; the route default is the buyer's. */
  datatype NoteType = BuyerNote | OwnerNote

  /** The party a note type belongs to: buyer notes to the buyer, owner notes to the owner. */
  predicate NoteAuthor(a: Appointment, userId: UserId, noteType: NoteType) {
    match noteType
    case BuyerNote => a.buyerId == userId
    case OwnerNote => a.ownerId == userId
  }

  /**
   * `updateAppointmentNotes`: a missing row is refused, then a caller who is
   * neither buyer nor owner, then a caller who is not the party the note type
   * belongs to; on success only the selected notes field and `updatedAt` change.
   */
  function NotesChange(appointments: map<int, Appointment>, id: int, userId: UserId, notes: string, noteType: NoteType, now: int): (r: Result<Appointment, string>)
    ensures id !in appointments <==> r == Failure("Appointment not found")
    ensures r == Failure("Unauthorized to update appointment notes") <==>
      id in appointments && appointments[id].ownerId != userId && appointments[id].buyerId != userId
    ensures r.Success? <==> id in appointments && NoteAuthor(appointments[id], userId, noteType)
    ensures r.Success? && noteType == BuyerNote ==> r.value == appointments[id].(buyerNotes := Some(notes), updatedAt := now)
    ensures r.Success? && noteType == OwnerNote ==> r.value == appointments[id].(ownerNotes := Some(notes), updatedAt := now)
  {
    if id !in appointments then Failure("Appointment not found")
    else
      var a := appointments[id];
      var isOwner := a.ownerId == userId;
      var isBuyer := a.buyerId == userId;
      if !isOwner && !isBuyer then Failure("Unauthorized to update appointment notes")
      else if (noteType == OwnerNote && !isOwner) || (noteType == BuyerNote && !isBuyer) then
        Failure("Unauthorized to update this type of notes")
      else if noteType == BuyerNote then Success(a.(buyerNotes := Some(notes), updatedAt := now))
      else Success(a.(ownerNotes := Some(notes), updatedAt := now))
  }

  /** The owner of a booking is refused the buyer's notes, and the buyer the owner's, unless one user is both. */
  lemma NotesStayWithTheirParty(appointments: map<int, Appointment>, id: int, notes: string, now: int)
    requires id in appointments && appointments[id].buyerId != appointments[id].ownerId
    ensures NotesChange(appointments, id, appointments[id].ownerId, notes, BuyerNote, now) == Failure("Unauthorized to update this type of notes")
    ensures NotesChange(appointments, id, appointments[id].buyerId, notes, OwnerNote, now) == Failure("Unauthorized to update this type of notes")
  {
  }

  // ----- Withdrawal -----

  /**
   * The checks of `deleteAppointment`, in order: the row must exist, the
   * caller must be its buyer, and it must still be requested.
   */
  function DeleteRefusal(appointments: map<int, Appointment>, id: int, userId: UserId): (r: Option<string>)
    ensures r.None? <==> id in appointments && appointments[id].buyerId == userId && appointments[id].status == Requested
    ensures r == Some("Appointment not found") <==> id !in appointments
    ensures r == Some("Unauthorized to delete appointment") <==> id in appointments && appointments[id].buyerId != userId
  {
    if id !in appointments then Some("Appointment not found")
    else if appointments[id].buyerId != userId then Some("Unauthorized to delete appointment")
    else if appointments[id].status != Requested then Some("Cannot delete confirmed or completed appointments")
    else None
  }

  /** The buyer check comes first: a stranger learns nothing about the appointment's status. */
  lemma DeleteChecksBuyerFirst(appointments: map<int, Appointment>, id: int, userId: UserId, s: AppointmentStatus)
    requires id in appointments && appointments[id].buyerId != userId
    ensures DeleteRefusal(appointments, id, userId) == DeleteRefusal(appointments[id := appointments[id].(status := s)], id, userId)
  {
  }

  // ----- Listings -----

  /** Which column `getUserAppointments` matches; `buyer` is the default. */
  datatype ListRole = AsBuyer | AsOwner

  predicate Involves(a: Appointment, userId: UserId, role: ListRole) {
    if role == AsBuyer then a.buyerId == userId else a.ownerId == userId
  }

  /** `getUserAppointments`: the user's appointments in the chosen role, latest first. */
  function UserAppointments(appointments: map<int, Appointment>, userId: UserId, role: ListRole): (r: seq<Appointment>)
    ensures forall a :: a in r <==> a in appointments.Values && Involves(a, userId, role)
    ensures forall i, j :: 0 <= i < j < |r| ==> r[i].scheduledAt >= r[j].scheduledAt
    ensures forall a :: multiset(r)[a] == if Involves(a, userId, role) then Copies(appointments, a) else 0
  {
    var involved := a => Involves(a, userId, role);
    var rows := Filter(Rows(appointments), involved);
    var r := SortByInt(rows, (a: Appointment) => -a.scheduledAt);
    SameMembers(r, rows);
    SelectPermutation(appointments, involved, r);
    r
  }

  /** `getPropertyAppointments`: the property's appointments, earliest first. */
  function PropertyAppointments(appointments: map<int, Appointment>, propertyId: int): (r: seq<Appointment>)
    ensures forall a :: a in r <==> a in appointments.Values && a.propertyId == propertyId
    ensures forall i, j :: 0 <= i < j < |r| ==> r[i].scheduledAt <= r[j].scheduledAt
    ensures forall a :: multiset(r)[a] == if a.propertyId == propertyId then Copies(appointments, a) else 0
  {
    var ofProperty := (a: Appointment) => a.propertyId == propertyId;
    var rows := Filter(Rows(appointments), ofProperty);
    var r := SortByInt(rows, (a: Appointment) => a.scheduledAt);
    SameMembers(r, rows);
    SelectPermutation(appointments, ofProperty, r);
    r
  }

  // ----- Business-hour slots -----

  const OpeningHour: int := 9
  const ClosingHour: int := 18

  /** A one-hour slot of `getAvailableTimeSlots`, as instants; the locale-formatted label is not modelled. */
  datatype HourSlot = HourSlot(start: int, end: int)

  function SlotAt(midnight: int, hour: int): HourSlot {
    HourSlot(midnight + 60 * hour, midnight + 60 * hour + 60)
  }

  /** The query of `getAvailableTimeSlots`: confirmed appointments of the property starting between 00:00 and 23:59:59.999 of the day. */
  predicate ConfirmedThatDay(a: Appointment, propertyId: int, midnight: int) {
    ConfirmedFor(a, propertyId) && midnight <= a.scheduledAt <= midnight + MinutesPerDay - 1
  }

  predicate Taken(fetched: seq<Appointment>, s: HourSlot) {
    exists a :: a in fetched && Overlaps(a.scheduledAt, EndOf(a), s.start, s.end)
  }

  /** The free slots among the hours from opening up to (not including) `upTo`, in hour order. */
  function OpenHours(fetched: seq<Appointment>, midnight: int, upTo: int): seq<HourSlot>
    requires OpeningHour <= upTo
    decreases upTo
  {
    if upTo == OpeningHour then []
    else
      var s := SlotAt(midnight, upTo - 1);
      OpenHours(fetched, midnight, upTo - 1) + (if Taken(fetched, s) then [] else [s])
  }

  /** The slots listed are exactly the untaken hours among those considered. */
  lemma {:induction false} OpenHoursMembers(fetched: seq<Appointment>, midnight: int, upTo: int)
    requires OpeningHour <= upTo
    ensures forall s :: s in OpenHours(fetched, midnight, upTo) <==>
      exists h :: OpeningHour <= h < upTo && s == SlotAt(midnight, h) && !Taken(fetched, s)
    decreases upTo
  {
    if upTo > OpeningHour {
      OpenHoursMembers(fetched, midnight, upTo - 1);
      var s := SlotAt(midnight, upTo - 1);
      forall x | x in OpenHours(fetched, midnight, upTo) && x !in OpenHours(fetched, midnight, upTo - 1)
        ensures x == s && !Taken(fetched, s)
      {
      }
    }
  }

  /** At most one slot per hour, each an hour long, in strictly increasing order, all starting before `upTo` o'clock. */
  lemma {:induction false} OpenHoursOrdered(fetched: seq<Appointment>, midnight: int, upTo: int)
    requires OpeningHour <= upTo
    ensures var r := OpenHours(fetched, midnight, upTo);
      && |r| <= upTo - OpeningHour
      && (forall i, j :: 0 <= i < j < |r| ==> r[i].start < r[j].start)
      && (forall i :: 0 <= i < |r| ==> r[i].end == r[i].start + 60 && midnight + 60 * OpeningHour <= r[i].start < midnight + 60 * upTo - 59)
    decreases upTo
  {
    if upTo > OpeningHour {
      OpenHoursOrdered(fetched, midnight, upTo - 1);
    }
  }

  /** The query of `getAvailableTimeSlots`, in table order (the order does not change which hours are taken). */
  function ConfirmedOnDay(appointments: map<int, Appointment>, propertyId: int, date: int): (r: seq<Appointment>)
    ensures forall a :: a in r <==> a in appointments.Values && ConfirmedThatDay(a, propertyId, Midnight(date))
  {
    Filter(Rows(appointments), a => ConfirmedThatDay(a, propertyId, Midnight(date)))
  }

  // ----- The service -----

  class AppointmentService {
    /** The `appointments` table by primary key. */
    var appointments: map<int, Appointment>
    /** The next value of the serial `id` column. */
    var nextId: int

    ghost predicate Valid()
      reads this
    {
      nextId > 0 && forall k :: k in appointments ==> 0 < k < nextId && appointments[k].id == k
    }

    constructor()
      ensures Valid() && appointments == map[] && nextId == 1
    {
      appointments := map[];
      nextId := 1;
    }

    /**
     * `createAppointment`: refuses with the first failing check and inserts
     * nothing; otherwise inserts a requested appointment carrying the buyer's
     * profile snapshot (null when the buyer has none) under the next key.
     */
    method CreateAppointment(data: NewAppointment, properties: map<int, Property>, buyers: BuyerProfileService, now: int) returns (r: Result<Appointment, string>)
      requires Valid()
      modifies this
      ensures Valid()
      ensures var refusal := Admission(old(appointments), properties, data);
        && (refusal.Some? ==> r == Failure(refusal.value) && appointments == old(appointments) && nextId == old(nextId))
        && (refusal.None? ==> r.Success? && nextId == old(nextId) + 1 && appointments == old(appointments)[old(nextId) := r.value])
      ensures r.Success? ==> r.value == NewRow(old(nextId), data, Snapshot(buyers.profiles, data.buyerId, now), now)
      ensures r.Success? ==> (r.value.buyerProfileSnapshot.None? <==> forall k :: k in buyers.profiles ==> buyers.profiles[k].userId != data.buyerId)
    {
      var refusal := Admission(appointments, properties, data);
      if refusal.Some? {
        return Failure(refusal.value);
      }
      var snapshot := buyers.CreateSnapshot(data.buyerId, now);
      var row := NewRow(nextId, data, snapshot, now);
      appointments := appointments[nextId := row];
      nextId := nextId + 1;
      r := Success(row);
    }

    /** `getUserAppointments`. */
    method GetUserAppointments(userId: UserId, role: ListRole) returns (r: seq<Appointment>)
      ensures r == UserAppointments(appointments, userId, role)
    {
      r := UserAppointments(appointments, userId, role);
    }

    /** `getPropertyAppointments`. */
    method GetPropertyAppointments(propertyId: int) returns (r: seq<Appointment>)
      ensures r == PropertyAppointments(appointments, propertyId)
    {
      r := PropertyAppointments(appointments, propertyId);
    }

    /** `updateAppointmentStatus`: rewrites the row when the owner asks; a refusal changes nothing. */
    method UpdateAppointmentStatus(id: int, status: AppointmentStatus, userId: UserId, notes: Option<string>, now: int) returns (r: Result<Appointment, string>)
      requires Valid()
      modifies this
      ensures Valid() && nextId == old(nextId)
      ensures r == StatusChange(old(appointments), id, status, userId, notes, now)
      ensures appointments == if r.Success? then old(appointments)[id := r.value] else old(appointments)
    {
      r := StatusChange(appointments, id, status, userId, notes, now);
      if r.Success? {
        appointments := appointments[id := r.value];
      }
    }

    /** `updateAppointmentNotes`: rewrites the selected notes field when the right party asks. */
    method UpdateAppointmentNotes(id: int, userId: UserId, notes: string, noteType: NoteType, now: int) returns (r: Result<Appointment, string>)
      requires Valid()
      modifies this
      ensures Valid() && nextId == old(nextId)
      ensures r == NotesChange(old(appointments), id, userId, notes, noteType, now)
      ensures appointments == if r.Success? then old(appointments)[id := r.value] else old(appointments)
    {
      r := NotesChange(appointments, id, userId, notes, noteType, now);
      if r.Success? {
        appointments := appointments[id := r.value];
      }
    }

    /** `deleteAppointment`: the buyer withdraws a request that is still requested; exactly that row goes. */
    method DeleteAppointment(id: int, userId: UserId) returns (r: Result<bool, string>)
      requires Valid()
      modifies this
      ensures Valid() && nextId == old(nextId)
      ensures var refusal := DeleteRefusal(old(appointments), id, userId);
        && (refusal.Some? ==> r == Failure(refusal.value) && appointments == old(appointments))
        && (refusal.None? ==> r == Success(true) && appointments == old(appointments) - {id})
    {
      var refusal := DeleteRefusal(appointments, id, userId);
      if refusal.Some? {
        return Failure(refusal.value);
      }
      appointments := appointments - {id};
      r := Success(true);
    }

    /**
     * `getAvailableTimeSlots`: for each hour from 09:00 to 17:00 of the day,
     * the one-hour slot unless a confirmed appointment of the property that
     * starts that day overlaps it.
     */
    method GetAvailableTimeSlots(propertyId: int, date: int) returns (slots: seq<HourSlot>)
      ensures slots == OpenHours(ConfirmedOnDay(appointments, propertyId, date), Midnight(date), ClosingHour)
    {
      var confirmed := ConfirmedOnDay(appointments, propertyId, date);
      slots := FreeHourSlots(confirmed, Midnight(date));
    }
  }

  /** The hour loop of `getAvailableTimeSlots`: each hour from opening to closing whose slot no fetched appointment overlaps. */
  method FreeHourSlots(confirmed: seq<Appointment>, midnight: int) returns (slots: seq<HourSlot>)
    ensures slots == OpenHours(confirmed, midnight, ClosingHour)
  {
    slots := [];
    var hour := OpeningHour;
    while hour < ClosingHour
      invariant OpeningHour <= hour <= ClosingHour
      invariant slots == OpenHours(confirmed, midnight, hour)
    {
      var slot := SlotAt(midnight, hour);
      var hasConflict := exists a :: a in confirmed && Overlaps(a.scheduledAt, EndOf(a), slot.start, slot.end);
      if !hasConflict {
        slots := slots + [slot];
      }
      hour := hour + 1;
    }
  }

  /**
   * A business slot is offered exactly when no confirmed appointment of the
   * property starting that day overlaps it; there are at most nine, in
   * increasing order, each one hour long within 09:00 to 18:00.
   */
  lemma AvailableSlotsSpec(appointments: map<int, Appointment>, propertyId: int, date: int, hour: int)
    requires OpeningHour <= hour < ClosingHour
    ensures var r := OpenHours(ConfirmedOnDay(appointments, propertyId, date), Midnight(date), ClosingHour);
      && |r| <= 9
      && (forall i, j :: 0 <= i < j < |r| ==> r[i].start < r[j].start)
      && (SlotAt(Midnight(date), hour) in r <==>
          forall a :: a in appointments.Values && ConfirmedThatDay(a, propertyId, Midnight(date)) ==>
            !Overlaps(a.scheduledAt, EndOf(a), Midnight(date) + 60 * hour, Midnight(date) + 60 * hour + 60))
  {
    var fetched := ConfirmedOnDay(appointments, propertyId, date);
    var m := Midnight(date);
    OpenHoursMembers(fetched, m, ClosingHour);
    OpenHoursOrdered(fetched, m, ClosingHour);
    var s := SlotAt(m, hour);
    if s in OpenHours(fetched, m, ClosingHour) {
      var h :| OpeningHour <= h < ClosingHour && s == SlotAt(m, h) && !Taken(fetched, s);
    }
  }
}
