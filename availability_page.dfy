/**
 * The availability-management page of an owner: loading it, and its two
 * form actions that add and remove viewing windows.
 */
module AvailabilityPage {
  import opened Wrappers
  import opened Schema
  import opened Text
  import opened Tables
  import opened Availability
  import opened Requests

  /** The page data, or where the user is sent instead. */
  datatype PageLoad =
    | Redirect(location: string)
    | ManagePage(windows: seq<AvailabilityWindow>, property: Option<Property>, userProperties: seq<Property>)

  /** What a form action answers. */
  datatype ActionResult =
    | Failed(error: string)
    | WindowCreated(windowId: int)
    | Succeeded

  const SignIn: string := "/auth/signin"
  const Dashboard: string := "/dashboard"
  const Unauthorized: string := "Unauthorized"
  const NoProperties: string := "You must own properties to manage availability"
  const MissingFields: string := "Missing required fields"
  const MissingWindowId: string := "Missing window ID"
  const NoSuchWindow: string := "Window not found or not authorized"
  const DefaultTimezone: string := "Europe/Berlin"
  const DefaultSlotDuration: int := 30

  predicate OwnedBy(ownerId: UserId, p: Property) {
    p.ownerId == ownerId
  }

  /** `findMany where ownerId = ?`. */
  function OwnedProperties(properties: map<int, Property>, ownerId: UserId): (r: seq<Property>)
    ensures forall p :: p in r <==> p in properties.Values && p.ownerId == ownerId
    ensures forall p :: multiset(r)[p] == if p.ownerId == ownerId then Copies(properties, p) else 0
  {
    var owned := p => OwnedBy(ownerId, p);
    var r := Filter(Rows(properties), owned);
    SelectPermutation(properties, owned, r);
    r
  }

  /** The user owns at least one property. */
  predicate Owns(properties: map<int, Property>, ownerId: UserId) {
    exists k :: k in properties && properties[k].ownerId == ownerId
  }

  /** The query finds a property exactly when the user owns one. */
  lemma OwnedPropertiesNonEmpty(properties: map<int, Property>, ownerId: UserId)
    ensures OwnedProperties(properties, ownerId) != [] <==> Owns(properties, ownerId)
  {
    var r := OwnedProperties(properties, ownerId);
    if Owns(properties, ownerId) {
      var k :| k in properties && properties[k].ownerId == ownerId;
      assert properties[k] in r;
    }
    if r != [] {
      assert r[0] in r;
      var k :| k in properties && properties[k] == r[0];
    }
  }

  /**
   * `load`: without a session, to sign-in; with a `propertyId` parameter
   * that names no property or one the user does not own, or without one
   * when the user owns nothing, to the dashboard. Otherwise the user's
   * windows, the named property if any, and all the user's properties.
   */
  method Load(session: Option<User>, propertyParam: Option<string>, properties: map<int, Property>, service: AvailabilityService)
    returns (r: PageLoad)
    ensures session.None? ==> r == Redirect(SignIn)
    ensures session.Some? && Given(propertyParam) ==>
      var named := ParamProperty(propertyParam.value, properties);
      && (named.None? || named.value.ownerId != session.value.id ==> r == Redirect(Dashboard))
      && (named.Some? && named.value.ownerId == session.value.id ==> r.ManagePage? && r.property == named)
    ensures session.Some? && !Given(propertyParam) ==>
      if Owns(properties, session.value.id) then r.ManagePage? && r.property.None? else r == Redirect(Dashboard)
    ensures r.ManagePage? ==>
      && r.windows == OwnerWindows(service.windows, session.value.id, None, None)
      && r.userProperties == OwnedProperties(properties, session.value.id)
      && r.userProperties != []
  {
    if session.None? {
      return Redirect(SignIn);
    }
    var userId := session.value.id;
    var property: Option<Property> := None;
    if Given(propertyParam) {
      property := ParamProperty(propertyParam.value, properties);
      if property.None? || property.value.ownerId != userId {
        return Redirect(Dashboard);
      }
      assert property.value in properties.Values;
    } else if !Owns(properties, userId) {
      return Redirect(Dashboard);
    }
    OwnedPropertiesNonEmpty(properties, userId);
    var windows := service.GetOwnerAvailabilityWindows(userId, None, None);
    r := ManagePage(windows, property, OwnedProperties(properties, userId));
  }

  /** The fields of the `createWindow` form; `date` is `None` when empty or missing. */
  datatype WindowFields = WindowFields(
    date: Option<int>,
    startTime: Option<string>,
    endTime: Option<string>,
    slotDuration: Option<string>,
    notes: Option<string>,
    timezone: Option<string>)

  /** `parseInt(slotDuration) || 30`: a missing field, NaN and 0 all give 30. */
  function SlotDurationOf(field: Option<string>): (r: int)
    ensures r != 0
  {
    var parsed := if field.None? then None else JsParseInt(field.value);
    if parsed.None? || parsed.value == 0 then DefaultSlotDuration else parsed.value
  }

  /** Any non-zero duration written in decimal comes through unchanged. */
  lemma SlotDurationOfDecimal(n: int)
    requires n != 0
    ensures SlotDurationOf(Some(IntToString(n))) == n
  {
    ParseIntOfIntToString(n);
  }

  /** A zero duration is replaced by the default. */
  lemma SlotDurationOfZero()
    ensures SlotDurationOf(Some("0")) == DefaultSlotDuration
  {
    ParseIntOfIntToString(0);
  }

  /** The timezone, Berlin when missing or empty. */
  function TimezoneOf(field: Option<string>): (r: string)
    ensures r != ""
    ensures Given(field) ==> r == field.value
  {
    if Given(field) then field.value else DefaultTimezone
  }

  /** The checks of `createWindow` in their order. */
  function CreateRefusal(session: Option<User>, properties: map<int, Property>, f: WindowFields): Option<string> {
    if session.None? then Some(Unauthorized)
    else if !Owns(properties, session.value.id) then Some(NoProperties)
    else if f.date.None? || !Given(f.startTime) || !Given(f.endTime) then Some(MissingFields)
    else None
  }

  /** A window is created exactly for a signed-in owner who gave a date, a start and an end. */
  lemma CreateRefusalSpec(session: Option<User>, properties: map<int, Property>, f: WindowFields)
    ensures CreateRefusal(session, properties, f).None? <==>
      session.Some? && Owns(properties, session.value.id) && f.date.Some? && Given(f.startTime) && Given(f.endTime)
    ensures CreateRefusal(session, properties, f) == Some(Unauthorized) <==> session.None?
  {
  }

  /** The service form built from accepted fields. */
  function FormOf(f: WindowFields): WindowForm
    requires f.date.Some? && f.startTime.Some? && f.endTime.Some?
  {
    WindowForm(f.date.value, f.startTime.value, f.endTime.value, SlotDurationOf(f.slotDuration), f.notes, TimezoneOf(f.timezone))
  }

  /** `createWindow`: a refused form changes nothing; an accepted one appends the window and reports its id. */
  method CreateWindow(session: Option<User>, properties: map<int, Property>, f: WindowFields, service: AvailabilityService, now: int)
    returns (r: ActionResult)
    requires service.Valid()
    modifies service
    ensures service.Valid()
    ensures CreateRefusal(session, properties, f).Some? ==>
      r == Failed(CreateRefusal(session, properties, f).value) && service.windows == old(service.windows)
    ensures CreateRefusal(session, properties, f).None? ==>
      && r == WindowCreated(old(service.nextId))
      && service.windows == old(service.windows) + [NewWindow(r.windowId, session.value.id, FormOf(f), now)]
  {
    var refusal := CreateRefusal(session, properties, f);
    if refusal.Some? {
      return Failed(refusal.value);
    }
    var id := service.CreateAvailabilityWindow(session.value.id, FormOf(f), now);
    r := WindowCreated(id);
  }

  /** `parseInt` of the `windowId` field; a missing field reads as the text 'null', which is NaN. */
  function WindowIdOf(field: Option<string>): Option<int> {
    if field.None? then None else JsParseInt(field.value)
  }

  /** The checks of `deleteWindow` before the delete, in their order. */
  function DeleteRefusal(session: Option<User>, properties: map<int, Property>, windowField: Option<string>): Option<string> {
    if session.None? then Some(Unauthorized)
    else if !Owns(properties, session.value.id) then Some(NoProperties)
    else if WindowIdOf(windowField).None? || WindowIdOf(windowField).value == 0 then Some(MissingWindowId)
    else None
  }

  /**
   * `deleteWindow`: succeeds exactly when the checks pass and the user owns
   * a window of that id; it removes that window and no window of anyone else.
   */
  method DeleteWindow(session: Option<User>, properties: map<int, Property>, windowField: Option<string>, service: AvailabilityService)
    returns (r: ActionResult)
    requires service.Valid()
    modifies service
    ensures service.Valid()
    ensures DeleteRefusal(session, properties, windowField).Some? ==>
      r == Failed(DeleteRefusal(session, properties, windowField).value) && service.windows == old(service.windows)
    ensures DeleteRefusal(session, properties, windowField).None? ==>
      var id := WindowIdOf(windowField).value;
      && (r == Succeeded <==> HasTarget(old(service.windows), id, session.value.id))
      && (r != Succeeded ==> r == Failed(NoSuchWindow))
      && service.windows == Remaining(old(service.windows), id, session.value.id)
    ensures forall w :: w in old(service.windows) && (session.None? || w.ownerId != session.value.id) ==> w in service.windows
  {
    var refusal := DeleteRefusal(session, properties, windowField);
    if refusal.Some? {
      return Failed(refusal.value);
    }
    var deleted := service.DeleteAvailabilityWindow(WindowIdOf(windowField).value, session.value.id);
    r := if deleted then Succeeded else Failed(NoSuchWindow);
  }
}
