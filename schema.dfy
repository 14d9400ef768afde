/**
 * Row types of the tables the services read and write, and the enumerations
 * they use. Instants are whole minutes on one time line, calendar dates are
 * day numbers, and midnight of day `d` is the instant `d * 1440`.
 */
module Schema {
  import opened Wrappers

  /** User ids are opaque text keys. */
  type UserId = string

  const MinutesPerDay: int := 1440

  /** Instant of local midnight at the start of a day. */
  function Midnight(date: int): int {
    date * MinutesPerDay
  }

  /** The authenticated caller, if any; `role` is the user's role column. */
  datatype Role = Buyer | Owner | Admin
  datatype User = User(id: UserId, role: Option<Role>)

  datatype AppointmentStatus = Requested | Confirmed | Cancelled | Completed | NoShow
  datatype AppointmentType = Viewing | Consultation | Negotiation

  datatype EquityBand = Lt10 | B10To30 | B30To50 | Gt50
  datatype PurchaseTimeline = Immediate | Lt3m | Lt6m | Gt6m
  datatype PurchasePurpose = Eigennutzung | Kapitalanlage

  /** The buyer-profile fields copied into an appointment when it is booked. */
  datatype BuyerProfileSnapshot = BuyerProfileSnapshot(
    equityBand: EquityBand,
    timeline: PurchaseTimeline,
    purpose: PurchasePurpose,
    householdSize: Option<int>,
    schufaAvailable: bool,
    financingVerified: bool,
    snapshotDate: int)

  /** A row of `appointments`; `duration` is nullable with default 60. */
  datatype Appointment = Appointment(
    id: int,
    propertyId: int,
    buyerId: UserId,
    ownerId: UserId,
    scheduledAt: int,
    duration: Option<int>,
    kind: AppointmentType,
    status: AppointmentStatus,
    notes: Option<string>,
    buyerNotes: Option<string>,
    ownerNotes: Option<string>,
    externalCalendarId: Option<string>,
    externalEventId: Option<string>,
    createdAt: int,
    updatedAt: int,
    confirmedAt: Option<int>,
    cancelledAt: Option<int>,
    buyerProfileSnapshot: Option<BuyerProfileSnapshot>)

  /** A row of `owner_availability_windows`; times are "HH:MM" text, `slotDuration` is nullable. */
  datatype AvailabilityWindow = AvailabilityWindow(
    id: int,
    ownerId: UserId,
    date: int,
    startTime: string,
    endTime: string,
    slotDuration: Option<int>,
    isActive: bool,
    timezone: string,
    notes: Option<string>,
    createdAt: int,
    updatedAt: int)

  /** A row of `properties`; `status` is free text ('draft', 'live', 'published', 'in_negotiation', 'archived', ...). */
  datatype Property = Property(
    id: int,
    ownerId: UserId,
    title: string,
    description: Option<string>,
    price: int,
    propertyType: string,
    status: string,
    bedrooms: Option<int>,
    bathrooms: Option<int>,
    livingArea: Option<int>,
    yearBuilt: Option<int>,
    createdAt: Option<int>,
    updatedAt: Option<int>)

  /** A row of `property_locations`. */
  datatype Location = Location(
    propertyId: int,
    street: string,
    city: string,
    postalCode: string,
    country: string,
    latitude: Option<string>,
    longitude: Option<string>)

  datatype QuestionStatus = Pending | Answered | Published | Rejected

  /** A row of `property_questions`. */
  datatype Question = Question(
    id: int,
    propertyId: int,
    askedBy: UserId,
    text: string,
    status: QuestionStatus,
    createdAt: int,
    updatedAt: int)

  /** A row of `property_answers`. */
  datatype Answer = Answer(
    id: int,
    questionId: int,
    answeredBy: UserId,
    text: string,
    isPublished: bool,
    createdAt: int,
    updatedAt: int)

  /** A row of `buyer_profile`; the boolean columns are nullable. */
  datatype BuyerProfileRow = BuyerProfileRow(
    id: int,
    userId: UserId,
    equityBand: EquityBand,
    timeline: PurchaseTimeline,
    purpose: PurchasePurpose,
    householdSize: Option<int>,
    schufaAvailable: Option<bool>,
    financingDocUrl: Option<string>,
    financingVerified: Option<bool>,
    consentTimestamp: int,
    retentionUntil: int,
    createdAt: Option<int>,
    updatedAt: Option<int>)
}
