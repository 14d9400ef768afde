/**
 * The page on which a buyer requests a viewing: loading it for a property,
 * and its form action that submits the request.
 */
module AppointmentCreatePage {
  import opened Wrappers
  import opened Schema
  import opened Text
  import opened Appointments
  import opened BuyerProfiles
  import opened Requests

  /** The page data, or where the user is sent instead. */
  datatype PageLoad =
    | Redirect(location: string)
    | BookingPage(property: Property, user: User)

  /** What the form action answers. */
  datatype ActionResult =
    | Failed(error: string)
    | Booked(appointment: Appointment)

  const SignIn: string := "/auth/signin"
  const Dashboard: string := "/dashboard"
  const Unauthorized: string := "Unauthorized"
  const MissingFields: string := "Property ID and scheduled date are required"
  const NotFound: string := "Property not found"

  /** The page of a property. */
  function PropertyPage(id: int): string {
    "/properties/" + IntToString(id)
  }

  /**
   * `load`: to sign-in without a user, to the dashboard without a
   * `propertyId` or for an unknown one, to the property's own page when the
   * user owns it; otherwise the booking form for that property.
   */
  function Load(session: Option<User>, propertyParam: Option<string>, properties: map<int, Property>): (r: PageLoad)
    ensures !SignedIn(session) <==> r == Redirect(SignIn)
    ensures r.BookingPage? <==>
      && SignedIn(session) && Given(propertyParam)
      && ParamProperty(propertyParam.value, properties).Some?
      && ParamProperty(propertyParam.value, properties).value.ownerId != session.value.id
    ensures r.BookingPage? ==> r.property in properties.Values && r.property.ownerId != r.user.id && r.user == session.value
  {
    if !SignedIn(session) then Redirect(SignIn)
    else if !Given(propertyParam) then Redirect(Dashboard)
    else
      match ParamProperty(propertyParam.value, properties)
      case None => Redirect(Dashboard)
      case Some(p) =>
        if p.ownerId == session.value.id then Redirect(PropertyPage(p.id))
        else BookingPage(p, session.value)
  }

  /** An owner who opens the form for their own property lands on its page. */
  lemma OwnerSentToProperty(session: Option<User>, id: int, properties: map<int, Property>)
    requires SignedIn(session) && id in properties && properties[id].ownerId == session.value.id
    ensures Load(session, Some(IntToString(id)), properties) == Redirect(PropertyPage(properties[id].id))
  {
    ParseIntOfIntToString(id);
    assert IntToString(id) != "" by { assert JsParseInt("") == None; }
  }

  /** The form fields; `scheduledAt` and `type` are `None` when missing or empty. */
  datatype BookingFields = BookingFields(
    propertyId: Option<string>,
    scheduledAt: Option<int>,
    duration: Option<string>,
    kind: Option<AppointmentType>,
    notes: Option<string>)

  /** The checks before the service call, in their order. */
  function Refusal(session: Option<User>, f: BookingFields, properties: map<int, Property>): (r: Option<string>)
    ensures r.None? <==>
      SignedIn(session) && Given(f.propertyId) && f.scheduledAt.Some? && ParamProperty(f.propertyId.value, properties).Some?
  {
    if !SignedIn(session) then Some(Unauthorized)
    else if !Given(f.propertyId) || f.scheduledAt.None? then Some(MissingFields)
    else if ParamProperty(f.propertyId.value, properties).None? then Some(NotFound)
    else None
  }

  /**
   * The request submitted for accepted fields: the session user as buyer,
   * the property's owner as owner, `parseInt` of a given duration or 60, the
   * type or a viewing, and the notes unless empty.
   */
  function BookingOf(session: Option<User>, f: BookingFields, properties: map<int, Property>): NewAppointment
    requires Refusal(session, f, properties).None?
  {
    var p := ParamProperty(f.propertyId.value, properties).value;
    NewAppointment(JsParseInt(f.propertyId.value).value, session.value.id, p.ownerId, f.scheduledAt.value,
      if Given(f.duration) then JsParseInt(f.duration.value) else Some(DefaultDuration),
      Some(f.kind.GetOr(Viewing)),
      if Given(f.notes) then f.notes else None, None, None)
  }

  /** The submitted request names the page's property and its real owner, so only a clash can refuse it. */
  lemma BookingAdmissible(appointments: map<int, Appointment>, session: Option<User>, f: BookingFields, properties: map<int, Property>)
    requires Refusal(session, f, properties).None?
    ensures var data := BookingOf(session, f, properties);
      && data.propertyId in properties && properties[data.propertyId].ownerId == data.ownerId
      && data.buyerId == session.value.id
      && (Admission(appointments, properties, data).None? || Admission(appointments, properties, data) == Some("Time slot is not available"))
  {
  }

  /**
   * The form action: a refused form changes nothing; otherwise the service
   * either books the request or refuses it for a clash, whose message the
   * action passes on.
   */
  method Submit(session: Option<User>, f: BookingFields, properties: map<int, Property>, service: AppointmentService, buyers: BuyerProfileService, now: int)
    returns (r: ActionResult)
    requires service.Valid()
    modifies service
    ensures service.Valid()
    ensures !r.Booked? ==> service.appointments == old(service.appointments)
    ensures Refusal(session, f, properties).Some? ==> r == Failed(Refusal(session, f, properties).value)
    ensures Refusal(session, f, properties).None? ==>
      var data := BookingOf(session, f, properties);
      var refusal := Admission(old(service.appointments), properties, data);
      && (refusal.Some? ==> r == Failed("Time slot is not available"))
      && (refusal.None? ==> r.Booked? && r.appointment == NewRow(old(service.nextId), data, Snapshot(buyers.profiles, session.value.id, now), now)
                            && service.appointments == old(service.appointments)[old(service.nextId) := r.appointment])
  {
    var refusal := Refusal(session, f, properties);
    if refusal.Some? {
      return Failed(refusal.value);
    }
    var data := BookingOf(session, f, properties);
    BookingAdmissible(service.appointments, session, f, properties);
    var created := service.CreateAppointment(data, properties, buyers, now);
    r := if created.Success? then Booked(created.value) else Failed(created.error);
  }
}
