/**
 * The appointments endpoint: GET lists the signed-in user's appointments in
 * the requested role, POST books a viewing for the signed-in buyer and turns
 * the service's refusals into HTTP statuses.
 */
module AppointmentsApi {
  import opened Wrappers
  import opened Schema
  import opened Text
  import opened Appointments
  import opened BuyerProfiles
  import opened Requests

  /** The JSON body of `POST`; a missing, null or empty member is `None`. */
  datatype BookingBody = BookingBody(
    propertyId: Option<int>,
    scheduledAt: Option<int>,
    duration: Option<int>,
    kind: Option<AppointmentType>,
    notes: Option<string>)

  datatype ApiResponse =
    | ErrorResponse(status: int, error: string)
    | AppointmentList(appointments: seq<Appointment>)
    | Created(appointment: Appointment)

  /** The `role` query parameter: anything but an absent or empty value or 'buyer' lists the user's appointments as owner. */
  function RoleOf(param: Option<string>): (r: ListRole)
    ensures r == AsBuyer <==> param.None? || param.value == "" || param.value == "buyer"
  {
    if param.None? || param.value == "" || param.value == "buyer" then AsBuyer else AsOwner
  }

  /** `GET`. */
  method Get(session: Option<User>, roleParam: Option<string>, service: AppointmentService) returns (r: ApiResponse)
    ensures !SignedIn(session) ==> r == ErrorResponse(401, "Unauthorized")
    ensures SignedIn(session) ==> r == AppointmentList(UserAppointments(service.appointments, session.value.id, RoleOf(roleParam)))
  {
    if !SignedIn(session) {
      return ErrorResponse(401, "Unauthorized");
    }
    var list := service.GetUserAppointments(session.value.id, RoleOf(roleParam));
    r := AppointmentList(list);
  }

  /** `propertyId` is missing or zero, or `scheduledAt` is missing. */
  predicate MissingFields(b: BookingBody) {
    b.propertyId.None? || b.propertyId.value == 0 || b.scheduledAt.None?
  }

  /** The booking the handler submits: the session user buys, the property's owner owns, 60 minutes and a viewing unless given. */
  function BookingOf(b: BookingBody, buyerId: UserId, properties: map<int, Property>): (d: NewAppointment)
    requires !MissingFields(b) && b.propertyId.value in properties
    ensures d.propertyId == b.propertyId.value && d.scheduledAt == b.scheduledAt.value
    ensures d.ownerId == properties[d.propertyId].ownerId && d.buyerId == buyerId
    ensures d.duration == Some(b.duration.GetOr(60)) && d.kind == Some(b.kind.GetOr(Viewing))
  {
    NewAppointment(b.propertyId.value, buyerId, properties[b.propertyId.value].ownerId, b.scheduledAt.value,
      Some(b.duration.GetOr(60)), Some(b.kind.GetOr(Viewing)), b.notes, None, None)
  }

  /** The handler's map from a service error to a status: 'not found' or 'mismatch' is 404, 'not available' 409, anything else 500. */
  function ErrorStatus(message: string): int {
    if Contains(message, "not found") || Contains(message, "mismatch") then 404
    else if Contains(message, "not available") then 409
    else 500
  }

  /** The response to a service error: the message itself for 404 and 409, a generic one for 500. */
  function ErrorFor(message: string): (r: ApiResponse)
    ensures r.ErrorResponse? && r.status == ErrorStatus(message)
    ensures r.status != 500 ==> r.error == message
  {
    var status := ErrorStatus(message);
    ErrorResponse(status, if status == 500 then "Failed to create appointment" else message)
  }

  /** A text cannot contain a word one of whose letters it lacks. */
  lemma NotContainedWithout(s: string, word: string, k: int)
    requires 0 <= k < |word| && word[k] !in s
    ensures !Contains(s, word)
  {
    forall i | 0 <= i <= |s| - |word|
      ensures !OccursAt(s, word, i)
    {
      assert s[i..i + |word|][k] == s[i + k];
    }
  }

  const SlotTaken: string := "Time slot is not available"

  /** The service's three refusals map to 404, 404 and 409. */
  lemma ServiceErrorStatuses()
    ensures ErrorStatus("Property not found") == 404
    ensures ErrorStatus("Property owner mismatch") == 404
    ensures ErrorStatus(SlotTaken) == 409
  {
    assert OccursAt("Property not found", "not found", 9);
    assert OccursAt("Property owner mismatch", "mismatch", 15);
    ClashStatus();
  }

  lemma ClashStatus()
    ensures ErrorStatus(SlotTaken) == 409
  {
    NotContainedWithout(SlotTaken, "not found", 4);
    NotContainedWithout(SlotTaken, "mismatch", 7);
    assert OccursAt(SlotTaken, "not available", 13);
  }

  /** A clash is answered 409 with the service's message. */
  lemma ClashResponse()
    ensures ErrorFor(SlotTaken) == ErrorResponse(409, SlotTaken)
  {
    ServiceErrorStatuses();
  }

  /** Since the owner is read from the property, a booking for a known property is refused only for a clash. */
  lemma OnlyClashesRefused(appointments: map<int, Appointment>, b: BookingBody, buyerId: UserId, properties: map<int, Property>)
    requires !MissingFields(b) && b.propertyId.value in properties
    ensures var refusal := Admission(appointments, properties, BookingOf(b, buyerId, properties));
      refusal.None? || refusal == Some(SlotTaken)
  {
  }

  /**
   * `POST`: 401 without a user, 400 without a property or time, 404 for an
   * unknown property, all before the service is called; then the service's
   * refusal as its status, or 201 with the requested appointment.
   */
  method Post(session: Option<User>, b: BookingBody, properties: map<int, Property>, service: AppointmentService, buyers: BuyerProfileService, now: int)
    returns (r: ApiResponse)
    requires service.Valid()
    modifies service
    ensures service.Valid()
    ensures !SignedIn(session) ==> r == ErrorResponse(401, "Unauthorized")
    ensures SignedIn(session) && MissingFields(b) ==> r == ErrorResponse(400, "Property ID and scheduled date are required")
    ensures SignedIn(session) && !MissingFields(b) && b.propertyId.value !in properties ==> r == ErrorResponse(404, "Property not found")
    ensures !r.Created? ==> service.appointments == old(service.appointments)
    ensures SignedIn(session) && !MissingFields(b) && b.propertyId.value in properties ==>
      var data := BookingOf(b, session.value.id, properties);
      var refusal := Admission(old(service.appointments), properties, data);
      && (refusal.Some? ==> r == ErrorResponse(409, SlotTaken))
      && (refusal.None? ==> r.Created? && r.appointment == NewRow(old(service.nextId), data, Snapshot(buyers.profiles, session.value.id, now), now)
                            && service.appointments == old(service.appointments)[old(service.nextId) := r.appointment])
  {
    if !SignedIn(session) {
      return ErrorResponse(401, "Unauthorized");
    }
    if MissingFields(b) {
      return ErrorResponse(400, "Property ID and scheduled date are required");
    }
    if b.propertyId.value !in properties {
      return ErrorResponse(404, "Property not found");
    }
    r := Book(session.value.id, b, properties, service, buyers, now);
  }

  /** The part of `POST` after its own checks: the service call and the mapping of its refusal. */
  method Book(buyerId: UserId, b: BookingBody, properties: map<int, Property>, service: AppointmentService, buyers: BuyerProfileService, now: int)
    returns (r: ApiResponse)
    requires service.Valid() && !MissingFields(b) && b.propertyId.value in properties
    modifies service
    ensures service.Valid()
    ensures !r.Created? ==> service.appointments == old(service.appointments)
    ensures var data := BookingOf(b, buyerId, properties);
      var refusal := Admission(old(service.appointments), properties, data);
      && (refusal.Some? ==> r == ErrorResponse(409, SlotTaken))
      && (refusal.None? ==> r.Created? && r.appointment == NewRow(old(service.nextId), data, Snapshot(buyers.profiles, buyerId, now), now)
                            && service.appointments == old(service.appointments)[old(service.nextId) := r.appointment])
  {
    var data := BookingOf(b, buyerId, properties);
    OnlyClashesRefused(service.appointments, b, buyerId, properties);
    var created := service.CreateAppointment(data, properties, buyers, now);
    if created.Failure? {
      assert created.error == SlotTaken;
      ClashResponse();
      return ErrorFor(created.error);
    }
    r := Created(created.value);
  }
}
