/**
 * The property service: validation of the listing form, creation, update and
 * soft deletion (archiving) of listings with their location row, and the
 * listing feed, whose content and order depend on who is looking.
 */
module Properties {
  import opened Wrappers
  import opened Schema
  import opened Tables
  import opened Text

  // ----- Loose form values -----

  /** A form field that should hold a number: absent or null, a text, or a number. */
  datatype Value = Missing | Text(text: string) | Number(n: int)

  /** JavaScript truthiness of a value: the empty text and the number 0 are false. */
  predicate Truthy(v: Value) {
    match v
    case Missing => false
    case Text(s) => s != ""
    case Number(n) => n != 0
  }

  /** `String(value)` for a value that is present. */
  function StringOf(v: Value): string
    requires !v.Missing?
  {
    match v
    case Text(s) => s
    case Number(n) => IntToString(n)
  }

  /**
   * `toNumberOrNull`: the empty text and an absent value are null; otherwise
   * `parseInt` of the value's text, with NaN read as null.
   */
  function ToNumberOrNull(v: Value): (r: Option<int>)
    ensures v.Missing? || v == Text("") ==> r.None?
    ensures v.Text? && v.text != "" ==> r == JsParseInt(v.text)
  {
    if v.Missing? || v == Text("") then None else JsParseInt(StringOf(v))
  }

  /** A number survives the conversion unchanged; text that parses gives its integer. */
  lemma ToNumberOrNullOfNumber(n: int)
    ensures ToNumberOrNull(Number(n)) == Some(n)
    ensures ToNumberOrNull(Number(0)) == Some(0)
  {
    ParseIntOfIntToString(0);
    ParseIntOfIntToString(n);
  }

  /** The text '123' gives 123. */
  lemma ToNumberOrNullOfDigits()
    ensures ToNumberOrNull(Text("123")) == Some(123)
  {
    ParseIntOfIntToString(123);
    assert IntToString(123) == "123" by {
      assert NatToString(123) == NatToString(12) + ['3'];
      assert NatToString(12) == NatToString(1) + ['2'];
    }
  }

  /** Text without a leading digit, such as 'abc' or a lone space, gives null. */
  lemma ToNumberOrNullOfNonNumbers()
    ensures ToNumberOrNull(Text("abc")) == None
    ensures ToNumberOrNull(Text(" ")) == None
  {
    assert TrimStart("abc") == "abc";
    assert DigitPrefix("abc", 10) == [];
    assert TrimStart(" ") == [];
  }

  // ----- Validation -----

  /** The listing form as the service receives it; an absent text field is "". */
  datatype PropertyInput = PropertyInput(
    title: string,
    description: string,
    price: Value,
    propertyType: string,
    status: string,
    bedrooms: Value,
    bathrooms: Value,
    livingArea: Value,
    yearBuilt: Value,
    address: string,
    street: string,
    city: string,
    postalCode: string,
    country: string,
    latitude: Option<string>,
    longitude: Option<string>)

  /** The price is present and parses to a positive integer. */
  predicate PriceValid(v: Value) {
    var price := ToNumberOrNull(v);
    price.Some? && price.value > 0
  }

  const TitleRequired: string := "Property title is required"
  const PriceRequired: string := "Property price is required"
  const PriceNotPositive: string := "Price must be a valid positive number"
  const TypeRequired: string := "Property type is required"
  const CityRequired: string := "City is required when address is provided"
  const PostalCodeRequired: string := "Postal code is required when city is provided"

  /** One check: its message when it fails, nothing otherwise. */
  function Check(failed: bool, message: string): (r: seq<string>)
    ensures |r| == (if failed then 1 else 0)
    ensures failed ==> r == [message]
  {
    if failed then [message] else []
  }

  /** The price check: a falsy price is missing, any other must parse to a positive integer. */
  function PriceErrors(v: Value): (r: seq<string>)
    ensures |r| == (if PriceValid(v) then 0 else 1)
    ensures !Truthy(v) ==> r == [PriceRequired]
    ensures Truthy(v) && !PriceValid(v) ==> r == [PriceNotPositive]
  {
    if !Truthy(v) then [PriceRequired]
    else Check(!PriceValid(v), PriceNotPositive)
  }

  /** `validatePropertyData`: the failing checks' messages in source order. */
  function ValidatePropertyData(d: PropertyInput): seq<string> {
    Check(d.title == "" || Trim(d.title) == "", TitleRequired)
    + PriceErrors(d.price)
    + Check(d.propertyType == "", TypeRequired)
    + Check(d.address != "" && d.city == "", CityRequired)
    + Check(d.city != "" && d.postalCode == "", PostalCodeRequired)
  }

  /** The data is accepted exactly when every check passes, and each failed check contributes one message. */
  lemma ValidatePropertyDataSpec(d: PropertyInput)
    ensures var e := ValidatePropertyData(d);
      && (e == [] <==>
          !IsBlank(d.title) && PriceValid(d.price) && d.propertyType != "" &&
          (d.address != "" ==> d.city != "") && (d.city != "" ==> d.postalCode != ""))
      && |e| == (if IsBlank(d.title) then 1 else 0) + (if PriceValid(d.price) then 0 else 1)
              + (if d.propertyType == "" then 1 else 0) + (if d.address != "" && d.city == "" then 1 else 0)
              + (if d.city != "" && d.postalCode == "" then 1 else 0)
      && (IsBlank(d.title) ==> e[0] == TitleRequired)
      && (!Truthy(d.price) ==> e[if IsBlank(d.title) then 1 else 0] == PriceRequired)
  {
    TrimSpec(d.title);
    var e := ValidatePropertyData(d);
    if !Truthy(d.price) {
      var k := if IsBlank(d.title) then 1 else 0;
      assert e[k] == PriceRequired;
    }
  }

  /** Once validation passes, the service's second price check cannot fail: the integer price is positive. */
  lemma ValidatedPrice(d: PropertyInput)
    requires ValidatePropertyData(d) == []
    ensures ToNumberOrNull(d.price).Some? && ToNumberOrNull(d.price).value > 0
  {
    ValidatePropertyDataSpec(d);
  }

  // ----- The rows written -----

  function OrNull(s: string): Option<string> {
    if s == "" then None else Some(s)
  }

  function OrDefault(s: string, default: string): string {
    if s == "" then default else s
  }

  /** `createProperty`'s row: owned by the session user, status 'draft' unless given. */
  function NewProperty(id: int, ownerId: UserId, d: PropertyInput, price: int, now: int): (p: Property)
    ensures p.id == id && p.ownerId == ownerId && p.title == d.title && p.price == price
    ensures p.status == (if d.status == "" then "draft" else d.status)
    ensures p.description.Some? <==> d.description != ""
    ensures p.bedrooms == ToNumberOrNull(d.bedrooms) && p.yearBuilt == ToNumberOrNull(d.yearBuilt)
    ensures p.createdAt == Some(now) && p.updatedAt == Some(now)
  {
    Property(id, ownerId, d.title, OrNull(d.description), price, d.propertyType, OrDefault(d.status, "draft"),
      ToNumberOrNull(d.bedrooms), ToNumberOrNull(d.bathrooms), ToNumberOrNull(d.livingArea), ToNumberOrNull(d.yearBuilt),
      Some(now), Some(now))
  }

  /** `updateProperty`'s row: the form's fields with 'apartment' and 'draft' as defaults; id, owner and creation stamp stay. */
  function UpdatedProperty(old_: Property, d: PropertyInput, price: int, now: int): (p: Property)
    ensures p.id == old_.id && p.ownerId == old_.ownerId && p.createdAt == old_.createdAt
    ensures p.title == d.title && p.price == price && p.updatedAt == Some(now)
    ensures p.propertyType == (if d.propertyType == "" then "apartment" else d.propertyType)
    ensures p.status == (if d.status == "" then "draft" else d.status)
    ensures p.livingArea == ToNumberOrNull(d.livingArea) && p.bathrooms == ToNumberOrNull(d.bathrooms)
  {
    old_.(title := d.title, description := OrNull(d.description), price := price,
      propertyType := OrDefault(d.propertyType, "apartment"), status := OrDefault(d.status, "draft"),
      bedrooms := ToNumberOrNull(d.bedrooms), bathrooms := ToNumberOrNull(d.bathrooms),
      livingArea := ToNumberOrNull(d.livingArea), yearBuilt := ToNumberOrNull(d.yearBuilt),
      updatedAt := Some(now))
  }

  /** On creation a location row is written when any address part is given. */
  predicate HasAddress(d: PropertyInput) {
    d.street != "" || d.city != "" || d.postalCode != "" || d.country != ""
  }

  /** On update the coordinates count as well. */
  predicate HasLocationUpdate(d: PropertyInput) {
    HasAddress(d) || (d.latitude.Some? && d.latitude.value != "") || (d.longitude.Some? && d.longitude.value != "")
  }

  /** The location row written for `d`; a coordinate the form leaves out keeps `kept`'s value. */
  function LocationOf(propertyId: int, d: PropertyInput, kept: Option<Location>): (l: Location)
    ensures l.propertyId == propertyId && l.city == d.city && l.street == d.street
    ensures l.country == (if d.country == "" then "Germany" else d.country)
    ensures d.latitude.Some? ==> l.latitude == d.latitude
    ensures d.latitude.None? ==> l.latitude == (if kept.Some? then kept.value.latitude else None)
  {
    var prior := if kept.Some? then kept.value else Location(propertyId, "", "", "", "", None, None);
    Location(propertyId, d.street, d.city, d.postalCode, OrDefault(d.country, "Germany"),
      if d.latitude.Some? then d.latitude else prior.latitude,
      if d.longitude.Some? then d.longitude else prior.longitude)
  }

  /**
   * `updateProperty`'s location write: when any part of the location is given
   * the property's row is updated, or created when it has none; only that row changes.
   */
  function LocationsAfterUpdate(locations: map<int, Location>, propertyId: int, d: PropertyInput): (r: map<int, Location>)
    ensures !HasLocationUpdate(d) ==> r == locations
    ensures HasLocationUpdate(d) ==> r.Keys == locations.Keys + {propertyId}
    ensures HasLocationUpdate(d) ==> r[propertyId] == LocationOf(propertyId, d, if propertyId in locations then Some(locations[propertyId]) else None)
    ensures forall k :: k in locations && k != propertyId ==> r[k] == locations[k]
  {
    if !HasLocationUpdate(d) then locations
    else
      var existing := if propertyId in locations then Some(locations[propertyId]) else None;
      locations[propertyId := LocationOf(propertyId, d, existing)]
  }

  /** The owner and admins may change a listing. */
  predicate MayEdit(p: Property, user: User) {
    p.ownerId == user.id || user.role == Some(Admin)
  }

  // ----- The listing feed -----

  /** A missing creation stamp counts as now. */
  function CreatedKey(p: Property, now: int): int {
    p.createdAt.GetOr(now)
  }

  predicate IsLive(p: Property) {
    p.status == "live"
  }

  /** What a signed-in user sees: live, published and in-negotiation listings, and all of their own. */
  predicate ListedFor(p: Property, userId: UserId) {
    p.status == "live" || p.status == "published" || p.status == "in_negotiation" || p.ownerId == userId
  }

  /** The feed's comparator as a key: own listings first, drafts first among those, then newest first. */
  function FeedKey(p: Property, userId: UserId, now: int): seq<int> {
    var own := p.ownerId == userId;
    [if own then 0 else 1, if own && p.status == "draft" then 0 else 1, -CreatedKey(p, now)]
  }

  /** `getAllProperties` for an anonymous visitor: live listings, newest first. */
  function AnonymousFeed(properties: map<int, Property>, now: int): (r: seq<Property>)
    ensures forall p :: p in r <==> p in properties.Values && IsLive(p)
    ensures forall i, j :: 0 <= i < j < |r| ==> CreatedKey(r[i], now) >= CreatedKey(r[j], now)
    ensures forall p :: multiset(r)[p] == if IsLive(p) then Copies(properties, p) else 0
  {
    var rows := Filter(Rows(properties), IsLive);
    var r := SortByInt(rows, (p: Property) => -CreatedKey(p, now));
    SameMembers(r, rows);
    SelectPermutation(properties, IsLive, r);
    r
  }

  /** `getAllProperties` for a signed-in user. */
  function MemberFeed(properties: map<int, Property>, userId: UserId, now: int): (r: seq<Property>)
    ensures forall p :: p in r <==> p in properties.Values && ListedFor(p, userId)
    ensures SortedByKey(r, (p: Property) => FeedKey(p, userId, now))
    ensures forall p :: multiset(r)[p] == if ListedFor(p, userId) then Copies(properties, p) else 0
  {
    var listed := (p: Property) => ListedFor(p, userId);
    var rows := Filter(Rows(properties), listed);
    var r := SortByKey(rows, (p: Property) => FeedKey(p, userId, now));
    SameMembers(r, rows);
    SelectPermutation(properties, listed, r);
    r
  }

  /** Reading a three-column order: each column decides when the ones before it tie. */
  lemma LexLe3(a0: int, a1: int, a2: int, b0: int, b1: int, b2: int)
    requires LexLe([a0, a1, a2], [b0, b1, b2])
    ensures a0 <= b0
    ensures a0 == b0 ==> a1 <= b1
    ensures a0 == b0 && a1 == b1 ==> a2 <= b2
  {
    assert [a0, a1, a2][1..] == [a1, a2] && [b0, b1, b2][1..] == [b1, b2];
    if a0 == b0 {
      assert LexLe([a1, a2], [b1, b2]);
      assert [a1, a2][1..] == [a2] && [b1, b2][1..] == [b2];
      if a1 == b1 {
        assert LexLe([a2], [b2]);
        SingletonLexLe(a2, b2);
      }
    }
  }

  /**
   * A signed-in user's feed: the user's own listings come before everybody
   * else's, drafts come first among the own ones, and within each of these
   * groups newer listings come first.
   */
  lemma MemberFeedOrder(properties: map<int, Property>, userId: UserId, now: int)
    ensures var r := MemberFeed(properties, userId, now);
      forall i, j :: 0 <= i < j < |r| ==>
        && (r[j].ownerId == userId ==> r[i].ownerId == userId)
        && (r[i].ownerId == userId && r[j].ownerId == userId && r[j].status == "draft" ==> r[i].status == "draft")
        && (((r[i].ownerId == userId) == (r[j].ownerId == userId) &&
             (r[i].ownerId == userId ==> (r[i].status == "draft") == (r[j].status == "draft"))) ==>
              CreatedKey(r[i], now) >= CreatedKey(r[j], now))
  {
    var r := MemberFeed(properties, userId, now);
    forall i, j | 0 <= i < j < |r|
      ensures r[j].ownerId == userId ==> r[i].ownerId == userId
      ensures r[i].ownerId == userId && r[j].ownerId == userId && r[j].status == "draft" ==> r[i].status == "draft"
      ensures ((r[i].ownerId == userId) == (r[j].ownerId == userId) &&
               (r[i].ownerId == userId ==> (r[i].status == "draft") == (r[j].status == "draft"))) ==>
                CreatedKey(r[i], now) >= CreatedKey(r[j], now)
    {
      var a := FeedKey(r[i], userId, now);
      var b := FeedKey(r[j], userId, now);
      assert LexLe(a, b);
      LexLe3(a[0], a[1], a[2], b[0], b[1], b[2]);
    }
  }

  /** A visitor's feed is a part of every signed-in user's feed: everything live is listed for everyone. */
  lemma AnonymousFeedIncluded(properties: map<int, Property>, userId: UserId, now: int)
    ensures forall p :: p in AnonymousFeed(properties, now) ==> p in MemberFeed(properties, userId, now)
  {
  }

  // ----- The service -----

  class PropertyService {
    /** The `properties` table by primary key. */
    var properties: map<int, Property>
    /** The `property_locations` table, one row per property. */
    var locations: map<int, Location>
    var nextId: int

    ghost predicate Valid()
      reads this
    {
      && nextId > 0
      && (forall k :: k in properties ==> k < nextId && properties[k].id == k)
      && (forall k :: k in locations ==> k in properties && locations[k].propertyId == k)
    }

    constructor()
      ensures Valid() && properties == map[] && locations == map[]
    {
      properties := map[];
      locations := map[];
      nextId := 1;
    }

    /**
     * `createProperty`: a signed-in user with valid data gets a new listing
     * they own, and a location row when an address part is given.
     */
    method CreateProperty(d: PropertyInput, session: Option<User>, now: int) returns (r: Result<Property, string>)
      requires Valid()
      modifies this
      ensures Valid()
      ensures session.None? ==> r == Failure("Unauthorized")
      ensures session.Some? && ValidatePropertyData(d) != [] ==> r == Failure(Join(ValidatePropertyData(d), ", "))
      ensures r.Success? <==> session.Some? && ValidatePropertyData(d) == []
      ensures r.Failure? ==> properties == old(properties) && locations == old(locations)
      ensures r.Success? ==>
        && r.value == NewProperty(old(nextId), session.value.id, d, ToNumberOrNull(d.price).value, now)
        && properties == old(properties)[r.value.id := r.value]
        && locations == (if HasAddress(d) then old(locations)[r.value.id := LocationOf(r.value.id, d, None)] else old(locations))
    {
      if session.None? {
        return Failure("Unauthorized");
      }
      var errors := ValidatePropertyData(d);
      if |errors| > 0 {
        return Failure(Join(errors, ", "));
      }
      ValidatedPrice(d);
      var price := ToNumberOrNull(d.price).value;
      var p := NewProperty(nextId, session.value.id, d, price, now);
      properties := properties[nextId := p];
      if HasAddress(d) {
        locations := locations[nextId := LocationOf(nextId, d, None)];
      }
      nextId := nextId + 1;
      r := Success(p);
    }

    /**
     * `updateProperty`: the owner or an admin rewrites the listing's fields;
     * the location row is updated or created when any part of it is given.
     */
    method UpdateProperty(propertyId: int, d: PropertyInput, session: Option<User>, now: int) returns (r: Result<Property, string>)
      requires Valid()
      modifies this
      ensures Valid()
      ensures session.None? ==> r == Failure("Unauthorized")
      ensures session.Some? && propertyId !in old(properties) ==> r == Failure("Property not found")
      ensures session.Some? && propertyId in old(properties) && !MayEdit(old(properties)[propertyId], session.value) ==>
        r == Failure("Forbidden: You can only edit your own properties")
      ensures r.Success? <==>
        session.Some? && propertyId in old(properties) && MayEdit(old(properties)[propertyId], session.value) &&
        ValidatePropertyData(d) == []
      ensures r.Failure? ==> properties == old(properties) && locations == old(locations)
      ensures r.Success? ==>
        && r.value == UpdatedProperty(old(properties)[propertyId], d, ToNumberOrNull(d.price).value, now)
        && properties == old(properties)[propertyId := r.value]
        && locations == LocationsAfterUpdate(old(locations), propertyId, d)
    {
      if session.None? {
        return Failure("Unauthorized");
      }
      if propertyId !in properties {
        return Failure("Property not found");
      }
      if !MayEdit(properties[propertyId], session.value) {
        return Failure("Forbidden: You can only edit your own properties");
      }
      var errors := ValidatePropertyData(d);
      if |errors| > 0 {
        return Failure(Join(errors, ", "));
      }
      ValidatedPrice(d);
      var p := UpdatedProperty(properties[propertyId], d, ToNumberOrNull(d.price).value, now);
      properties := properties[propertyId := p];
      locations := LocationsAfterUpdate(locations, propertyId, d);
      r := Success(p);
    }

    /** `archiveProperty`: the owner or an admin soft-deletes a listing; only its status and update stamp change. */
    method ArchiveProperty(propertyId: int, session: Option<User>, now: int) returns (r: Result<string, string>)
      requires Valid()
      modifies this
      ensures Valid() && locations == old(locations)
      ensures session.None? ==> r == Failure("Unauthorized")
      ensures session.Some? && propertyId !in old(properties) ==> r == Failure("Property not found")
      ensures r.Success? <==> session.Some? && propertyId in old(properties) && MayEdit(old(properties)[propertyId], session.value)
      ensures r.Failure? ==> properties == old(properties)
      ensures r.Success? ==>
        && properties.Keys == old(properties).Keys
        && properties[propertyId] == old(properties)[propertyId].(status := "archived", updatedAt := Some(now))
        && (forall k :: k in properties && k != propertyId ==> properties[k] == old(properties)[k])
    {
      if session.None? {
        return Failure("Unauthorized");
      }
      if propertyId !in properties {
        return Failure("Property not found");
      }
      if !MayEdit(properties[propertyId], session.value) {
        return Failure("Forbidden: You can only delete your own properties");
      }
      properties := properties[propertyId := properties[propertyId].(status := "archived", updatedAt := Some(now))];
      r := Success("Property archived successfully");
    }

    /** `getAllProperties`. */
    method GetAllProperties(session: Option<User>, now: int) returns (r: seq<Property>)
      ensures session.None? ==> r == AnonymousFeed(properties, now)
      ensures session.Some? ==> r == MemberFeed(properties, session.value.id, now)
    {
      if session.None? {
        r := AnonymousFeed(properties, now);
      } else {
        r := MemberFeed(properties, session.value.id, now);
      }
    }
  }

  /** An archived listing leaves the visitors' feed and stays in its owner's. */
  lemma ArchivedListing(properties: map<int, Property>, p: Property, now: int)
    requires p in properties.Values && p.status == "archived"
    ensures p !in AnonymousFeed(properties, now)
    ensures p in MemberFeed(properties, p.ownerId, now)
  {
  }
}
