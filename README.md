# domovae core — a Dafny model

A model of the server-side core of domovae, a real-estate marketplace where owners list
properties, buyers ask questions and book viewings, and owners publish the hours they are
available. The model covers:

- the six services behind the app: availability windows and slots, appointments,
  questions and answers, properties, buyer profiles, and SEO metadata;
- four request handlers: the buyer-profile API, the appointments API, the owner's
  availability page, and the booking page.

Database tables are `map<int, Row>` keyed by id, or a `seq` for availability windows. Each
service is a `class` whose fields hold its tables, and each mutating service method is
proved against a pure function of the old tables. Instants are whole minutes; a date is a
day number whose midnight is `date * 1440`. Sessions are `Option<User>`; code that tests
`session?.user?.id` treats a user with an empty id as no session (`Requests.SignedIn`),
code that tests `session?.user` does not. Queries return each matching row once per key
holding it (`Tables.SelectPermutation`), and the window table keeps its ids distinct. JavaScript's
`parseInt`, `Number`, `%`, `||`, `trim` and `toString` are written out where the code
relies on them (`Text`, `TimeArith`).

Modules:

| file | module | what it holds |
|---|---|---|
| wrappers.dfy | Wrappers | `Option`, `Result` |
| text.dfy | Text | digits, `toString`, `padStart`, `trim`, `includes`, `join`, JS `parseInt` |
| tables.dfy | Tables | rows of a table in id order, `Filter`, an insertion sort by lexicographic key (ORDER BY) |
| schema.dfy | Schema | the rows of the database tables and the enums |
| time_arith.dfy | TimeArith | `timeToMinutes`, `minutesToTime`, the slots of one window, the overlap test |
| availability.dfy | Availability | `AvailabilityService` |
| appointments.dfy | Appointments | `AppointmentService` |
| buyer_profiles.dfy | BuyerProfiles | `BuyerProfileService`, profile mapping, trust badges |
| qa.dfy | QA | `QAService` |
| properties.dfy | Properties | `PropertyService`, validation, feeds |
| seo.dfy | Seo | meta tags, structured data, alt text, canonical URL, slug |
| requests.dfy | Requests | what the handlers share: signed-in test, form-field test, property lookup from a parameter |
| buyer_profile_api.dfy | BuyerProfileApi | `GET`/`POST /api/buyer-profile` |
| appointments_api.dfy | AppointmentsApi | `GET`/`POST /api/appointments` |
| availability_page.dfy | AvailabilityPage | `/availability/manage`: load, `createWindow`, `deleteWindow` |
| appointment_create_page.dfy | AppointmentCreatePage | `/appointments/create`: load and the booking action |

The model follows the code where the service descriptions say otherwise:

- the availability slots look up appointments whose start equals the day's midnight, not
  every appointment on that date;
- a failing profile snapshot is not caught when an appointment is created, so it does not
  degrade to `null`;
- appointment statuses have no transition table, so any status can follow any other.

Lemmas state each of these behaviours (`Availability.OnlyMidnightAppointmentsBlock`,
`Appointments.NoTransitionTable`, `Appointments.ReconfirmKeepsCancelStamp`).

## Model

| member | source | states |
|---|---|---|
| Text.ParseIntOfIntToString | src/routes/availability/manage/+page.server.ts:113 | `parseInt` of an integer's decimal text gives the integer back |
| Text.TrimSpec | src/lib/server/services/qa-service.ts:83 | `trim` leaves nothing exactly when the text is all white space; otherwise neither end of the result is white space |
| Text.NatToStringSpec | src/lib/server/services/availability-service.ts:154-158 | `toString` of a natural number is a non-empty digit string without a leading zero that denotes the number |
| Text.PadStart2Spec | src/lib/server/services/availability-service.ts:154-158 | `padStart(2, '0')` keeps a text of two or more characters and fills a shorter one with zeros to exactly two |
| Text.Join | src/lib/server/services/qa-service.ts:72-75 | the messages joined by the separator, none when the list is empty |
| Text.JsParseInt | src/routes/availability/manage/+page.server.ts:157 | the global `parseInt` without a radix: leading white space skipped, one sign, a `0x` prefix for base 16, the longest digit run, NaN as None |
| Text.Trim | src/lib/server/services/qa-service.ts:83 | `String.prototype.trim`: the text without leading and trailing JavaScript white space |
| TimeArith.JsNumberOfDigits | src/lib/server/services/availability-service.ts:146-149 | `Number` of a digit string is its decimal value |
| TimeArith.OrDefault | src/lib/server/services/appointment-service.ts:30 | `v \|\| d` gives `v` when it is a non-zero number and `d` when it is null or 0 |
| TimeArith.ColonIndexOfConcat | src/lib/server/services/availability-service.ts:146-149 | `split(':')` cuts at the first colon, which is after the hour field |
| TimeArith.TimeFields | src/lib/server/services/availability-service.ts:146-149 | `timeToMinutes("HH:MM")` is 60 × `Number(HH)` + `Number(MM)`, NaN when either is |
| TimeArith.TimeToMinutesOfDigits | src/lib/server/services/availability-service.ts:146-149 | digit fields give 60 × hours + minutes |
| TimeArith.JsRem | src/lib/server/services/availability-service.ts:156 | JS `%` by a positive divisor: below the divisor in size, equal to the Euclidean remainder for non-negative operands and not positive for negative ones |
| TimeArith.MinutesToTimeNonNegative | src/lib/server/services/availability-service.ts:154-158 | for non-negative minutes the text is padded hours, ':', padded minutes |
| TimeArith.MinutesToTimeShape | src/lib/server/services/availability-service.ts:154-158 | below 100 hours the text is five characters `HH:MM` whose fields denote `m / 60` and `m % 60` |
| TimeArith.MinutesRoundTrip | src/lib/server/services/availability-service.ts:146-158 | `timeToMinutes(minutesToTime(m)) == m` for every non-negative `m` |
| TimeArith.WindowSlotsShape | src/lib/server/services/availability-service.ts:133-138 | slots start at the window start, each is `d` minutes long, each starts where the previous ended, and the loop stops exactly when another slot would pass the end |
| TimeArith.WindowSlotsInside | src/lib/server/services/availability-service.ts:133-138 | every slot lies inside its window |
| TimeArith.WindowSlotsCount | src/lib/server/services/availability-service.ts:133-138 | there are `floor((end - start) / d)` slots, and none when the end precedes the start |
| TimeArith.SlotsInWindowParsed | src/lib/server/services/availability-service.ts:123-141 | with both bounds parsed, slot `i` carries the labels of the `i`-th window slot |
| TimeArith.SlotsInWindowMalformed | src/lib/server/services/availability-service.ts:123-141 | a bound that parses to NaN yields no slot |
| TimeArith.GenerateSlotsInWindow | src/lib/server/services/availability-service.ts:123-141 | the loop returns exactly `SlotsInWindow` |
| TimeArith.StepSlots | src/lib/server/services/availability-service.ts:133-138 | the loop emits the labels of `WindowSlots(start, end, d)` in order |
| TimeArith.SlotInstantOfMinutes | src/lib/server/services/availability-service.ts:102-103 | every slot label up to 24:00 makes the instant `midnight + m` |
| TimeArith.SlotInstantPastMidnight | src/lib/server/services/availability-service.ts:102-103 | a label past 24:00 makes an invalid date |
| TimeArith.OverlapsIffSharedMinute | src/lib/server/services/availability-service.ts:105 | for non-empty spans the overlap test holds exactly when some minute lies in both |
| TimeArith.OverlapsSymmetric | src/lib/server/services/appointment-service.ts:266-274 | the overlap test is symmetric |
| TimeArith.AdjacentDoNotOverlap | src/lib/server/services/appointment-service.ts:266-274 | back-to-back spans do not overlap |
| TimeArith.JsNumber | src/lib/server/services/availability-service.ts:146-149 | `Number` on a time field: blank is 0, a signed decimal run is its value, anything else NaN |
| TimeArith.TimeToMinutes | src/lib/server/services/availability-service.ts:146-149 | `timeToMinutes`: hours times 60 plus minutes of the first two colon-separated fields, NaN when either is missing or not a number |
| TimeArith.MinutesToTime | src/lib/server/services/availability-service.ts:154-158 | `minutesToTime`: floored hours and JavaScript remainder minutes, each padded to two characters |
| TimeArith.WindowSlots | src/lib/server/services/availability-service.ts:133-138 | the slot boundaries: spans of the slot length from the start while one still ends by the window's end |
| TimeArith.SlotsInWindow | src/lib/server/services/availability-service.ts:123-141 | `generateSlotsInWindow`: the boundaries written as times; a NaN bound gives no slot |
| TimeArith.SlotInstant | src/lib/server/services/availability-service.ts:102-103 | the instant of `date + "T" + time + ":00"`, or an invalid date for a time outside 00:00 to 24:00 |
| TimeArith.Overlaps | src/lib/server/services/availability-service.ts:105 | the half-open overlap test shared by the conflict checks |
| Availability.ApplyPatchKeepsIdentity | src/lib/server/services/availability-service.ts:179-203 | an update keeps id, owner, active flag and creation stamp; an empty patch only refreshes `updatedAt` |
| Availability.RemainingRows | src/lib/server/services/availability-service.ts:163-174 | a delete keeps exactly the windows that are not the owner's window of that id; nothing changes without a match |
| Availability.PatchWindowsOnlyTargets | src/lib/server/services/availability-service.ts:179-203 | an update keeps the length, patches the matching window and leaves every other window alone |
| Availability.PatchKeepsIds | src/lib/server/services/availability-service.ts:179-203 | an update adds no new window id |
| Availability.NoTargetNoPatch | src/lib/server/services/availability-service.ts:179-203 | a window id the owner does not have changes nothing |
| Availability.UpdateWhere | src/lib/server/services/availability-service.ts:184-200 | the `update ... where` loop returns the patched table and a row count that is positive exactly when some row matched |
| Availability.DeleteWhere | src/lib/server/services/availability-service.ts:164-171 | the `delete ... where` loop returns the remaining rows and a row count that is positive exactly when some row matched |
| Availability.OwnerWindows | src/lib/server/services/availability-service.ts:33-60 | a permutation of the owner's windows, active or not, restricted to the range only when both bounds are given; ordered by date and start time; each selected window as often as the table holds it |
| Availability.SortedDates | src/lib/server/services/availability-service.ts:39 | the order by (date, start) puts dates in non-decreasing order |
| Availability.BookedByFetched | src/lib/server/services/availability-service.ts:87-107 | a slot is booked by the fetched rows exactly when a confirmed or requested appointment of the owner starting at that midnight overlaps it |
| Availability.MarkedSlots | src/lib/server/services/availability-service.ts:95-113 | one marked slot per slot, in order, each available exactly when free |
| Availability.MarkedAvailable | src/lib/server/services/availability-service.ts:95-113 | some marked slot is available exactly when some slot is free |
| Availability.TimeSlotsOfAvailability | src/lib/server/services/availability-service.ts:80-115 | each generated slot is available exactly when free |
| Availability.SlotUnavailableIffBooked | src/lib/server/services/availability-service.ts:65-118 | a slot of `generateTimeSlots` is unavailable exactly when a booking overlaps it |
| Availability.OnlyMidnightAppointmentsBlock | src/lib/server/services/availability-service.ts:87-93 | when no appointment starts exactly at the day's midnight, every slot is available |
| Availability.TimeSlotsOfConcat | src/lib/server/services/availability-service.ts:80-115 | the slots of two window lists are those of the first followed by those of the second |
| Availability.DuplicateWindowDuplicatesSlots | src/lib/server/services/availability-service.ts:80-115 | two windows with the same hours give every slot twice, with no de-duplication |
| Availability.OtherWindowsIgnored | src/lib/server/services/availability-service.ts:71-77 | a window of another owner or date, or an inactive one, adds no slot |
| Availability.SomeAvailableIff | src/lib/server/services/availability-service.ts:208-229 | some slot is available exactly when some window has a free slot |
| Availability.HasAvailabilityIff | src/lib/server/services/availability-service.ts:208-229 | a date has availability exactly when one of the owner's active windows that day has a free slot |
| Availability.DistinctDates | src/lib/server/services/availability-service.ts:236-247 | the distinct window dates in the range, strictly increasing |
| Availability.AvailableDatesSpec | src/lib/server/services/availability-service.ts:234-261 | the kept dates are increasing, and a date is kept exactly when it lies in the range and has availability |
| Availability.DatesInRangeIff | src/lib/server/services/availability-service.ts:236-247 | a date is listed exactly when it lies in the range and the owner has an active window on it |
| Availability.AvailabilityService.constructor | src/lib/server/services/availability-service.ts:1-6 | an empty windows table |
| Availability.AvailabilityService.CreateAvailabilityWindow | src/lib/server/services/availability-service.ts:10-28 | appends one active window with a fresh id and the form's fields |
| Availability.AvailabilityService.GetOwnerAvailabilityWindows | src/lib/server/services/availability-service.ts:33-60 | returns `OwnerWindows` |
| Availability.AvailabilityService.UpdateAvailabilityWindow | src/lib/server/services/availability-service.ts:179-203 | patches exactly the owner's window of that id, and reports whether there was one |
| Availability.AvailabilityService.DeleteAvailabilityWindow | src/lib/server/services/availability-service.ts:163-174 | removes exactly the owner's window of that id, and reports whether there was one |
| Availability.AvailabilityService.GenerateTimeSlots | src/lib/server/services/availability-service.ts:65-118 | returns `TimeSlots`: every slot of every active window of the owner that day, marked booked or free |
| Availability.AvailabilityService.MarkSlots | src/lib/server/services/availability-service.ts:95-113 | marks each slot of one window against the fetched appointments |
| Availability.AvailabilityService.HasAvailabilityForDate | src/lib/server/services/availability-service.ts:208-229 | true exactly when some generated slot that day is available |
| Availability.AvailabilityService.GetAvailableDates | src/lib/server/services/availability-service.ts:234-261 | the increasing list of dates in the range that have availability |
| Availability.NewWindow | src/lib/server/services/availability-service.ts:14-24 | the inserted row: the form's fields, active by column default |
| Availability.ApplyPatch | src/lib/server/services/availability-service.ts:186-194 | the `SET` clause: each given field, and `updatedAt` |
| Availability.Remaining | src/lib/server/services/availability-service.ts:164-171 | the table after the delete whose `WHERE` matches both id and owner |
| Availability.PatchWindows | src/lib/server/services/availability-service.ts:184-200 | the table after the update whose `WHERE` matches both id and owner |
| Availability.DistinctIdsOnce | src/lib/server/services/availability-service.ts:164-200 | a table whose rows have distinct ids holds no window twice |
| Availability.RemainingKeepsDistinctIds | src/lib/server/services/availability-service.ts:163-174 | the delete keeps the ids distinct |
| Availability.PatchKeepsDistinctIds | src/lib/server/services/availability-service.ts:179-203 | the update keeps the ids distinct |
| Availability.OwnerWindowsOnce | src/lib/server/services/availability-service.ts:33-60 | over a table with distinct ids, the query lists each selected window exactly once and no other |
| Availability.InactiveWindowsListed | src/lib/server/services/availability-service.ts:37-51 | the query has no `isActive` condition: an inactive window of the owner is listed |
| Availability.Fetched | src/lib/server/services/availability-service.ts:86-92 | the fetch for a date: the owner's confirmed or requested appointments scheduled exactly at midnight |
| Availability.Conflicts | src/lib/server/services/availability-service.ts:96-106 | the conflict test: slot instants read back on the date, the appointment lasting `duration || 60` minutes |
| Availability.TimeSlots | src/lib/server/services/availability-service.ts:65-118 | `generateTimeSlots`: each active window's slots on the date, each marked against the fetched appointments |
| Appointments.CheckForConflicts | src/lib/server/services/appointment-service.ts:255-277 | finds a confirmed appointment of the property that overlaps the requested span, and finds none exactly when none exists |
| Appointments.RequestedNeverBlock | src/lib/server/services/appointment-service.ts:262 | adding an appointment that is not confirmed never creates a conflict |
| Appointments.Admission | src/lib/server/services/appointment-service.ts:11-35 | 'Property not found', 'Property owner mismatch' and 'Time slot is not available', each exactly under its condition and in that order; a booking defaults to 60 minutes |
| Appointments.NewRow | src/lib/server/services/appointment-service.ts:38-53 | the new row: requested, with the snapshot, 60 minutes and a viewing unless given, and no confirm or cancel stamp |
| Appointments.WithStatus | src/lib/server/services/appointment-service.ts:136-156 | sets the status and `updatedAt`, stamps `confirmedAt`/`cancelledAt` on those statuses, replaces owner notes only when non-empty notes are given, and changes nothing else |
| Appointments.StatusChange | src/lib/server/services/appointment-service.ts:114-169 | not found, not the owner, or the updated row, each exactly under its condition |
| Appointments.NoTransitionTable | src/lib/server/services/appointment-service.ts:114-169 | the owner can move an appointment to any status |
| Appointments.ReconfirmKeepsCancelStamp | src/lib/server/services/appointment-service.ts:147-151 | confirming a cancelled appointment keeps its cancellation stamp |
| Appointments.NotesChange | src/lib/server/services/appointment-service.ts:174-218 | not found, not a party, or the note of the given kind updated, each exactly under its condition |
| Appointments.NotesStayWithTheirParty | src/lib/server/services/appointment-service.ts:189-200 | the owner cannot write buyer notes and the buyer cannot write owner notes |
| Appointments.DeleteRefusal | src/lib/server/services/appointment-service.ts:223-241 | a delete is allowed exactly for the buyer of a requested appointment; not found and not the buyer are refused by name |
| Appointments.DeleteChecksBuyerFirst | src/lib/server/services/appointment-service.ts:229-241 | for someone other than the buyer, the refusal does not depend on the status |
| Appointments.UserAppointments | src/lib/server/services/appointment-service.ts:64-88 | the user's appointments in the given role, latest first; each matching row once per key holding it, and no other row |
| Appointments.PropertyAppointments | src/lib/server/services/appointment-service.ts:93-109 | the property's appointments, earliest first; each matching row once per key holding it, and no other row |
| Appointments.OpenHoursMembers | src/lib/server/services/appointment-service.ts:303-330 | an hour slot is offered exactly when it lies within opening hours and no fetched appointment takes it |
| Appointments.OpenHoursOrdered | src/lib/server/services/appointment-service.ts:303-330 | at most one slot per hour, in increasing order, each 60 minutes long and within opening hours |
| Appointments.ConfirmedOnDay | src/lib/server/services/appointment-service.ts:284-299 | the property's confirmed appointments that start that day |
| Appointments.FreeHourSlots | src/lib/server/services/appointment-service.ts:303-330 | the hour loop returns `OpenHours` |
| Appointments.AvailableSlotsSpec | src/lib/server/services/appointment-service.ts:282-337 | at most nine slots, increasing; an hour is offered exactly when no confirmed appointment that day overlaps it |
| Appointments.AppointmentService.constructor | src/lib/server/services/appointment-service.ts:1-7 | an empty appointments table |
| Appointments.AppointmentService.CreateAppointment | src/lib/server/services/appointment-service.ts:11-59 | a refusal leaves the table alone; otherwise the new row under a fresh id, with a snapshot exactly when the buyer has a profile |
| Appointments.AppointmentService.GetUserAppointments | src/lib/server/services/appointment-service.ts:64-88 | returns `UserAppointments` |
| Appointments.AppointmentService.GetPropertyAppointments | src/lib/server/services/appointment-service.ts:93-109 | returns `PropertyAppointments` |
| Appointments.AppointmentService.UpdateAppointmentStatus | src/lib/server/services/appointment-service.ts:114-169 | answers `StatusChange` and writes back only the updated row |
| Appointments.AppointmentService.UpdateAppointmentNotes | src/lib/server/services/appointment-service.ts:174-218 | answers `NotesChange` and writes back only the updated row |
| Appointments.AppointmentService.DeleteAppointment | src/lib/server/services/appointment-service.ts:223-250 | a refusal changes nothing; otherwise exactly that row is removed |
| Appointments.AppointmentService.GetAvailableTimeSlots | src/lib/server/services/appointment-service.ts:282-337 | the hour slots left free by that day's confirmed appointments |
| Appointments.EndOf | src/lib/server/services/appointment-service.ts:268-270 | an appointment's end: the start plus `duration || 60` minutes |
| Appointments.OpenHours | src/lib/server/services/appointment-service.ts:303-330 | the one-hour slots from 9 up to 18 that no confirmed appointment overlaps, in hour order |
| BuyerProfiles.ParseEquityBand | src/lib/server/services/buyer-profile-service.ts:118-139 | parsing accepts exactly the texts of the equity bands |
| BuyerProfiles.ParseTimeline | src/lib/server/services/buyer-profile-service.ts:142-163 | parsing accepts exactly the texts of the timelines |
| BuyerProfiles.ParsePurpose | src/lib/server/services/buyer-profile-service.ts:166-181 | parsing accepts exactly the texts of the purposes |
| BuyerProfiles.TruthyNumber | src/lib/server/services/buyer-profile-service.ts:241 | `x \|\| undefined` on a number drops null and 0 and keeps the rest |
| BuyerProfiles.TruthyText | src/lib/server/services/buyer-profile-service.ts:243 | `x \|\| undefined` on a text drops null and '' and keeps the rest |
| BuyerProfiles.MapToBuyerProfile | src/lib/server/services/buyer-profile-service.ts:220-250 | copies the enums, flags true only when stored as true, falsy household size and URL dropped, missing dates read as now |
| BuyerProfiles.KeyOf | src/lib/server/services/buyer-profile-service.ts:68-76 | finds a row of the user, and finds none exactly when the user has none |
| BuyerProfiles.KeyOfUnique | src/lib/server/services/buyer-profile-service.ts:43-62 | with one row per user, the row found is the user's row |
| BuyerProfiles.Profile | src/lib/server/services/buyer-profile-service.ts:68-76 | null exactly when the user has no row; otherwise the mapped row of that user |
| BuyerProfiles.Snapshot | src/lib/server/services/buyer-profile-service.ts:81-97 | null exactly when there is no profile; otherwise the profile's enums, household size and flags, dated now |
| BuyerProfiles.BadgeKinds | src/lib/server/services/buyer-profile-service.ts:102-196 | badges come in the order financing, equity, timeline, purpose, Schufa |
| BuyerProfiles.TrustBadgesShape | src/lib/server/services/buyer-profile-service.ts:102-196 | three to five badges, each kind at most once; equity, timeline and purpose always; financing exactly when verified; Schufa exactly when available |
| BuyerProfiles.FullProfileFiveBadges | src/lib/server/services/buyer-profile-service.ts:102-196 | a verified profile with Schufa earns all five badges in order |
| BuyerProfiles.BadgeValuesAndColours | src/lib/server/services/buyer-profile-service.ts:106-193 | each badge's value parses back to the profile's enum, and its colour follows the source's table for that enum |
| BuyerProfiles.SnapshotKeepsBadges | src/lib/server/services/buyer-profile-service.ts:81-102 | a snapshot earns the same badges as its profile |
| BuyerProfiles.UpsertOnePerUser | src/lib/server/services/buyer-profile-service.ts:17-63 | an upsert keeps one row per user, adds a row exactly when the user had none, and reads back the submitted fields, unverified and with the new retention date |
| BuyerProfiles.UpsertLeavesOthers | src/lib/server/services/buyer-profile-service.ts:43-62 | other users' profiles are unchanged |
| BuyerProfiles.UpsertRowsOfOthers | src/lib/server/services/buyer-profile-service.ts:43-62 | other users' rows survive unchanged and no other user gains a row |
| BuyerProfiles.UpsertTwiceKeepsOneRow | src/lib/server/services/buyer-profile-service.ts:43-62 | a second upsert reuses the row and shows the latest form |
| BuyerProfiles.Unexpired | src/lib/server/services/buyer-profile-service.ts:255-264 | the cleanup keeps exactly the rows whose retention date differs from now |
| BuyerProfiles.CleanupCount | src/lib/server/services/buyer-profile-service.ts:255-264 | the count removed plus the count kept is the table size; one row per user is kept |
| BuyerProfiles.PastRetentionSurvives | src/lib/server/services/buyer-profile-service.ts:260 | a row whose retention date has already passed is never removed, now or later |
| BuyerProfiles.BuyerProfileService.constructor | src/lib/server/services/buyer-profile-service.ts:13 | an empty profiles table |
| BuyerProfiles.BuyerProfileService.UpsertProfile | src/lib/server/services/buyer-profile-service.ts:17-63 | the table becomes `Upserted`, and the returned profile is the user's, unverified |
| BuyerProfiles.BuyerProfileService.GetProfile | src/lib/server/services/buyer-profile-service.ts:68-76 | returns `Profile` |
| BuyerProfiles.BuyerProfileService.CreateSnapshot | src/lib/server/services/buyer-profile-service.ts:81-97 | returns `Snapshot` |
| BuyerProfiles.BuyerProfileService.CleanupExpiredProfiles | src/lib/server/services/buyer-profile-service.ts:255-264 | the table becomes `Unexpired`, and the count is the number of rows removed |
| BuyerProfiles.Written | src/lib/server/services/buyer-profile-service.ts:28-40 | the row `upsertProfile` writes: the input's fields, `financingVerified` false, consent and update stamped now |
| BuyerProfiles.Upserted | src/lib/server/services/buyer-profile-service.ts:43-62 | the user's row updated in place, or a new row under the next key |
| BuyerProfiles.TrustBadges | src/lib/server/services/buyer-profile-service.ts:102-196 | `generateTrustBadges`: financing when verified, equity, timeline and purpose, then Schufa when available |
| BuyerProfiles.ExpiredKeys | src/lib/server/services/buyer-profile-service.ts:258-261 | the rows the cleanup deletes: retention instant equal to now |
| QA.FieldErrorsSpec | src/lib/server/services/qa-service.ts:28-62 | no error exactly when the text is not blank, within the limit and the reference is positive; one message per failed check, in order |
| QA.ValidateQuestionData | src/lib/server/services/qa-service.ts:28-44 | a question is valid exactly when not blank, at most 1000 characters and for a positive property id |
| QA.ValidateAnswerData | src/lib/server/services/qa-service.ts:46-62 | an answer is valid exactly when not blank, at most 2000 characters and for a positive question id |
| QA.LengthLimitsInclusive | src/lib/server/services/qa-service.ts:36-54 | 1000 and 2000 characters pass; one more fails with the length message |
| QA.AnswersOf | src/lib/server/services/qa-service.ts:104-118 | a question's answers, latest first; each matching row once per key holding it, and no other row |
| QA.QuestionsOf | src/lib/server/services/qa-service.ts:92-120 | a property's questions, latest first; each matching row once per key holding it, and no other row |
| QA.Threads | src/lib/server/services/qa-service.ts:92-120 | one thread per question, in order, with its answers |
| QA.VisibleQuestions | src/lib/server/services/qa-service.ts:123-147 | the property's questions that the viewer may see, latest first; each once per key holding it, and no other |
| QA.ThreadsOf | src/lib/server/services/qa-service.ts:92-120 | every thread carries its question's answers, and the threads hold exactly the given questions |
| QA.PropertyQuestionsSpec | src/lib/server/services/qa-service.ts:92-148 | the threads are exactly the visible questions, latest first, each with all its answers |
| QA.VisibilityWidens | src/lib/server/services/qa-service.ts:123-147 | members see what anonymous viewers see, owners and admins see what members see, and askers see their own questions |
| QA.AnonymousSeesUnpublishedAnswers | src/lib/server/services/qa-service.ts:132-137 | an anonymous viewer of a public question also gets its unpublished answers |
| QA.AnswerAddedSpec | src/lib/server/services/qa-service.ts:225-242 | adding an answer keeps the store consistent and marks the question answered |
| QA.PublicationSetSpec | src/lib/server/services/qa-service.ts:288-340 | publishing an answer also publishes its question; unpublishing leaves the questions alone |
| QA.QuestionDeletedSpec | src/lib/server/services/qa-service.ts:343-367 | deleting a question removes it and exactly its answers |
| QA.AnswerDeletedSpec | src/lib/server/services/qa-service.ts:370-416 | deleting an answer removes it; the question goes back to pending exactly when no answer is left |
| QA.QAService.constructor | src/lib/server/services/qa-service.ts:1-2 | empty questions and answers tables |
| QA.QAService.CreateQuestion | src/lib/server/services/qa-service.ts:65-89 | unauthorized, the joined validation errors, or a pending question with the trimmed text under a fresh id |
| QA.QAService.GetPropertyQuestions | src/lib/server/services/qa-service.ts:92-148 | returns `PropertyQuestions` for the viewer `ViewerOf` derives; a session without a user id sees exactly what an anonymous visitor sees |
| QA.QAService.GetOwnerQuestions | src/lib/server/services/qa-service.ts:151-192 | unauthorized, forbidden unless the user owns the property, otherwise all its threads |
| QA.QAService.CreateAnswer | src/lib/server/services/qa-service.ts:195-245 | unauthorized, validation errors, question not found, forbidden unless the user owns the property; otherwise an unpublished answer is added |
| QA.QAService.UpdateQuestionStatus | src/lib/server/services/qa-service.ts:248-285 | only the property's owner may set the status; nothing else changes |
| QA.QAService.UpdateAnswerPublication | src/lib/server/services/qa-service.ts:288-340 | only the property's owner may publish; the store becomes `PublicationSet` |
| QA.QAService.DeleteQuestion | src/lib/server/services/qa-service.ts:343-367 | only the asker may delete; the question and its answers go |
| QA.QAService.DeleteAnswer | src/lib/server/services/qa-service.ts:370-416 | only the property's owner may delete; the store becomes `AnswerDeleted` |
| QA.FieldErrors | src/lib/server/services/qa-service.ts:28-62 | the validators' shared checks: blank text, text over the limit, a reference id that is not positive, in that order |
| QA.ViewerOf | src/lib/server/services/qa-service.ts:121-141 | anonymous exactly when the session has no user id; privileged exactly for the property's owner or an admin; otherwise the member with that id |
| QA.VisibleTo | src/lib/server/services/qa-service.ts:131-146 | the visibility filter: public questions for anonymous viewers, all for privileged ones, public or own for members |
| QA.PropertyQuestions | src/lib/server/services/qa-service.ts:92-148 | the visible questions with their answers |
| QA.AnswerAdded | src/lib/server/services/qa-service.ts:225-242 | the inserted unpublished answer and the question marked answered |
| QA.PublicationSet | src/lib/server/services/qa-service.ts:318-337 | the answer's flag set, and on publishing the question marked published |
| QA.QuestionDeleted | src/lib/server/services/qa-service.ts:363-364 | the question removed with its answers, by the cascade the source relies on |
| QA.AnswerDeleted | src/lib/server/services/qa-service.ts:397-413 | the answer removed, and a question left without answers reset to pending |
| Properties.ToNumberOrNull | src/lib/server/services/property-service.ts:8-12 | a missing or empty value is null, and a text is read by `parseInt` |
| Properties.ToNumberOrNullOfNumber | src/lib/server/services/property-service.ts:8-12 | a number, 0 included, comes back unchanged |
| Properties.ToNumberOrNullOfDigits | src/lib/server/services/property-service.ts:8-12 | '123' reads as 123 |
| Properties.ToNumberOrNullOfNonNumbers | src/lib/server/services/property-service.ts:8-12 | 'abc' and ' ' read as null |
| Properties.PriceErrors | src/lib/server/services/property-service.ts:23-30 | a missing price is 'required', a non-positive one 'must be positive', a valid one no error |
| Properties.ValidatePropertyDataSpec | src/lib/server/services/property-service.ts:16-46 | no error exactly when title, price, type and the address chain are all valid; one message per failed check, in order |
| Properties.ValidatedPrice | src/lib/server/services/property-service.ts:72-75 | a validated price always parses to a positive number |
| Properties.NewProperty | src/lib/server/services/property-service.ts:78-92 | the inserted row: owner, title, price, 'draft' unless given, parsed numbers, both stamps now |
| Properties.UpdatedProperty | src/lib/server/services/property-service.ts:146-161 | the updated row keeps id, owner and creation stamp, with 'apartment' and 'draft' as defaults |
| Properties.LocationOf | src/lib/server/services/property-service.ts:95-105 | the location row, with 'Germany' as the default country and the old coordinates kept when none are given |
| Properties.LocationsAfterUpdate | src/lib/server/services/property-service.ts:164-203 | without location fields nothing changes; otherwise only this property's location is written |
| Properties.AnonymousFeed | src/lib/server/services/property-service.ts:277-285 | exactly the live listings, newest first; each once per key holding it |
| Properties.MemberFeed | src/lib/server/services/property-service.ts:290-322 | live, published and in-negotiation listings plus the user's own, in the source's sort order; each once per key holding it |
| Properties.LexLe3 | src/lib/server/services/property-service.ts:299-322 | the three-part sort key compares part by part |
| Properties.MemberFeedOrder | src/lib/server/services/property-service.ts:299-322 | own listings come first, own drafts first among them, then newest first |
| Properties.AnonymousFeedIncluded | src/lib/server/services/property-service.ts:263-296 | a member sees everything an anonymous viewer sees |
| Properties.ArchivedListing | src/lib/server/services/property-service.ts:209-296 | an archived listing leaves the public feed but stays in its owner's feed |
| Properties.PropertyService.constructor | src/lib/server/services/property-service.ts:1-2 | empty properties and locations tables |
| Properties.PropertyService.CreateProperty | src/lib/server/services/property-service.ts:55-108 | unauthorized, the joined validation errors, or the new row plus a location when an address is given |
| Properties.PropertyService.UpdateProperty | src/lib/server/services/property-service.ts:111-206 | unauthorized, not found, forbidden, validation errors; otherwise this row and its location are updated |
| Properties.PropertyService.ArchiveProperty | src/lib/server/services/property-service.ts:209-238 | unauthorized, not found, forbidden; otherwise only this row's status becomes 'archived' |
| Properties.PropertyService.GetAllProperties | src/lib/server/services/property-service.ts:263-324 | the anonymous feed without a session, otherwise the member feed |
| Properties.ValidatePropertyData | src/lib/server/services/property-service.ts:16-46 | `validatePropertyData`: the failing checks' messages in source order |
| Properties.MayEdit | src/lib/server/services/property-service.ts:130 | the owner or an admin may change a listing |
| Properties.ListedFor | src/lib/server/services/property-service.ts:290-296 | a signed-in user's feed filter: live, published or in negotiation, or their own |
| Properties.FeedKey | src/lib/server/services/property-service.ts:299-322 | the feed comparator as a key: own first, drafts first among own, then newest first |
| Seo.CityOr | src/lib/server/services/seo-service.ts:18 | `city \|\| fallback` |
| Seo.CanonicalUrl | src/lib/server/services/seo-service.ts:149-151 | the URL starts with the base URL and '/properties/', and `parseInt` of the rest gives back the listing's id |
| Seo.CanonicalUrlInjective | src/lib/server/services/seo-service.ts:149-151 | distinct properties get distinct canonical URLs |
| Seo.ShortDescription | src/lib/server/services/seo-service.ts:21-25 | up to 157 characters kept; longer texts are cut to 157 plus '...' |
| Seo.GenerateSeoMeta | src/lib/server/services/seo-service.ts:17-44 | the title pattern, the shortened description, the first photo or the default image, and the canonical URL |
| Seo.FallbackDescription | src/lib/server/services/seo-service.ts:26-28 | without a description it starts with the title and city, and adds a price exactly when the price is non-zero |
| Seo.AltTextDistinct | src/lib/server/services/seo-service.ts:139-147 | different photo indexes get different alt texts, all starting with the title and city |
| Seo.Geo | src/lib/server/services/seo-service.ts:73-79 | coordinates appear exactly when both are present and non-empty |
| Seo.StructuredDataSpec | src/lib/server/services/seo-service.ts:46-137 | residence, offer and breadcrumb; in stock exactly when live; four numbered crumbs ending at the listing |
| Seo.Lower | src/lib/server/services/seo-service.ts:155 | lower-cases each character |
| Seo.KeepSlugChars | src/lib/server/services/seo-service.ts:156 | keeps only letters, digits, white space and dashes |
| Seo.DashSpaces | src/lib/server/services/seo-service.ts:157 | no white space is left |
| Seo.CollapseDashes | src/lib/server/services/seo-service.ts:158 | no two dashes in a row are left |
| Seo.DropLeadingDashes | src/lib/server/services/seo-service.ts:161 | a suffix that does not start with a dash |
| Seo.DropTrailingDashes | src/lib/server/services/seo-service.ts:161 | a prefix that does not end with a dash |
| Seo.StripDashesShape | src/lib/server/services/seo-service.ts:159-161 | stripping the dashes at both ends of a clean text gives a slug |
| Seo.SlugifyShape | src/lib/server/services/seo-service.ts:153-162 | every result is a slug: lower-case letters, digits and single inner dashes |
| Seo.KeepOfSlug | src/lib/server/services/seo-service.ts:156 | the character filter keeps a text made only of allowed characters |
| Seo.DashSpacesOfSlug | src/lib/server/services/seo-service.ts:157 | a text without white space is unchanged |
| Seo.CollapseOfSingleDashes | src/lib/server/services/seo-service.ts:158 | a text without double dashes is unchanged |
| Seo.SlugifyFixesSlugs | src/lib/server/services/seo-service.ts:153-162 | a slug slugifies to itself |
| Seo.SlugifyIdempotent | src/lib/server/services/seo-service.ts:153-162 | slugifying twice is slugifying once |
| Seo.AltText | src/lib/server/services/seo-service.ts:139-147 | `generateAltText`: the main photo for the first image, numbered photos after it |
| Seo.GenerateStructuredData | src/lib/server/services/seo-service.ts:46-137 | the residence, its offer and the breadcrumb trail |
| Seo.Slugify | src/lib/server/services/seo-service.ts:153-161 | the slug pipeline on one text |
| Seo.GenerateSlug | src/lib/server/services/seo-service.ts:152-162 | `generateSlug`: the title and city joined by a dash, then slugified |
| Requests.ParamProperty | src/routes/appointments/create/+page.server.ts:18-20 | the property named by `parseInt(param)`, found exactly when the parse succeeds and the id exists |
| Requests.ParamPropertyOfId | src/routes/appointments/create/+page.server.ts:75-76 | an id written in decimal names exactly the property stored under it, and none when no property has it |
| BuyerProfileApi.PostRefusal | src/routes/api/buyer-profile/+server.ts:27-84 | every refusal is an error response |
| BuyerProfileApi.PostRefusalSpec | src/routes/api/buyer-profile/+server.ts:27-84 | accepted exactly with a session, consent 'true', three valid enums and an acceptable file if any; 401 exactly without a session, 400 otherwise |
| BuyerProfileApi.EmptyFileIgnored | src/routes/api/buyer-profile/+server.ts:70-94 | an empty upload is treated like no upload |
| BuyerProfileApi.SizeCheckedFirst | src/routes/api/buyer-profile/+server.ts:70-84 | an oversized file is refused for its size whatever its type |
| BuyerProfileApi.Get | src/routes/api/buyer-profile/+server.ts:6-25 | 401 without a session; otherwise the user's profile, null exactly when there is none |
| BuyerProfileApi.Post | src/routes/api/buyer-profile/+server.ts:27-103 | a refusal leaves the table alone; otherwise the profile is upserted and returned unverified |
| BuyerProfileApi.InputOf | src/routes/api/buyer-profile/+server.ts:86-94 | the service input: parsed enumerations, household size, the Schufa flag and the document |
| AppointmentsApi.RoleOf | src/routes/api/appointments/+server.ts:12 | the buyer role exactly for a missing or empty parameter or 'buyer' |
| AppointmentsApi.Get | src/routes/api/appointments/+server.ts:5-20 | 401 without a signed-in user; otherwise that user's appointments in the role |
| AppointmentsApi.ErrorFor | src/routes/api/appointments/+server.ts:68-77 | 'not found' and 'mismatch' give 404, 'not available' 409, anything else 500 with a generic message |
| AppointmentsApi.ServiceErrorStatuses | src/routes/api/appointments/+server.ts:68-77 | the service's three refusals map to 404, 404 and 409 |
| AppointmentsApi.ClashStatus | src/routes/api/appointments/+server.ts:72-73 | a clash maps to 409 |
| AppointmentsApi.ClashResponse | src/routes/api/appointments/+server.ts:68-77 | a clash is answered 409 with the service's message |
| AppointmentsApi.OnlyClashesRefused | src/routes/api/appointments/+server.ts:42-64 | with the owner read from the property, the service can only refuse for a clash |
| AppointmentsApi.Post | src/routes/api/appointments/+server.ts:22-79 | 401, 400 or 404 before the service; then 409 for a clash or the created row, and the table changes only on success |
| AppointmentsApi.Book | src/routes/api/appointments/+server.ts:54-77 | the service call and the mapping of its refusal |
| AppointmentsApi.BookingOf | src/routes/api/appointments/+server.ts:54-62 | the booking: the session user buys, the property's owner owns, 60 minutes and a viewing unless given |
| AppointmentsApi.ErrorStatus | src/routes/api/appointments/+server.ts:68-77 | 404 for 'not found' or 'mismatch', 409 for 'not available', 500 otherwise |
| AvailabilityPage.OwnedProperties | src/routes/availability/manage/+page.server.ts:35-47 | exactly the user's properties, each once per key holding it |
| AvailabilityPage.OwnedPropertiesNonEmpty | src/routes/availability/manage/+page.server.ts:35-47 | the list is non-empty exactly when the user owns a property |
| AvailabilityPage.Load | src/routes/availability/manage/+page.server.ts:8-91 | sign-in without a session; dashboard for a property the user does not own, or when the user owns none; otherwise the user's windows, the named property and the user's properties |
| AvailabilityPage.SlotDurationOf | src/routes/availability/manage/+page.server.ts:113 | `parseInt(x) \|\| 30` is never 0 |
| AvailabilityPage.SlotDurationOfDecimal | src/routes/availability/manage/+page.server.ts:113 | a non-zero duration comes through unchanged |
| AvailabilityPage.SlotDurationOfZero | src/routes/availability/manage/+page.server.ts:113 | a zero duration becomes 30 |
| AvailabilityPage.TimezoneOf | src/routes/availability/manage/+page.server.ts:115 | the given timezone, Berlin otherwise |
| AvailabilityPage.CreateRefusalSpec | src/routes/availability/manage/+page.server.ts:94-119 | a window is created exactly for a signed-in owner who gave date, start and end; 'Unauthorized' exactly without a session |
| AvailabilityPage.CreateWindow | src/routes/availability/manage/+page.server.ts:94-139 | a refusal changes nothing; otherwise one window is appended and its id is returned |
| AvailabilityPage.DeleteWindow | src/routes/availability/manage/+page.server.ts:141-176 | a refusal changes nothing; otherwise success exactly when the user owns a window of that id, and no one else's window is removed |
| AvailabilityPage.CreateRefusal | src/routes/availability/manage/+page.server.ts:94-119 | the checks of `createWindow` in their order |
| AvailabilityPage.FormOf | src/routes/availability/manage/+page.server.ts:110-131 | the service form built from the accepted fields |
| AvailabilityPage.DeleteRefusal | src/routes/availability/manage/+page.server.ts:141-161 | the checks of `deleteWindow` before the delete, in their order |
| AppointmentCreatePage.Load | src/routes/appointments/create/+page.server.ts:7-39 | sign-in exactly without a signed-in user; the booking page exactly for a property that exists and that the user does not own |
| AppointmentCreatePage.OwnerSentToProperty | src/routes/appointments/create/+page.server.ts:31-33 | an owner is sent to the property's own page |
| AppointmentCreatePage.Refusal | src/routes/appointments/create/+page.server.ts:42-84 | the booking goes ahead exactly with a signed-in user, a property, a date and a known property |
| AppointmentCreatePage.BookingAdmissible | src/routes/appointments/create/+page.server.ts:75-95 | the booking names the real owner, so the service can only refuse for a clash |
| AppointmentCreatePage.Submit | src/routes/appointments/create/+page.server.ts:42-108 | the checks' message, the clash message, or the booked row, and the table changes only on success |
| AppointmentCreatePage.BookingOf | src/routes/appointments/create/+page.server.ts:87-95 | the request: session user as buyer, owner from the property, `parseInt` of a given duration or 60, the type or a viewing, the notes unless empty |

## Left out

- I/O, the database and its drivers: failures of a query, foreign-key violations and the
  catch-all 500 responses ("Failed to create availability window" and the like) are not
  modelled, and neither is concurrent access.
- The wall clock: every `new Date()` is the parameter `now`, one value per call.
- The retention date (twelve months ahead) is computed by the caller and passed in as
  `retentionUntil`.
- Local time zones and daylight saving: a date is a day number and an instant a minute count.
- The JSON encoding of the snapshot column, logging, and the `with` relations and media of
  the ORM queries are left out.
- Numbers beyond integers written in digits: `Number` and `parseInt` accept decimal integer
  text (and hexadecimal for `parseInt`); fractions, exponents and `Infinity` are left out.
- Text lengths count characters, not UTF-16 code units; lower-casing is ASCII only, so
  non-ASCII letters in slugs are not modelled.
- Ties in ORDER BY: results are sorted by the same keys, but rows with equal keys may be
  in any order in the database; collation of text keys is not modelled.
- The file upload: the stored URL of an uploaded financing document is a parameter.
- Formatting callbacks: `formatPrice` and `encodeURIComponent` are parameters of the SEO
  functions.
- The formatted label of an appointment hour slot is left out; slots carry start and end
  instants.
- Properties.PropertyService.CreateProperty: `canCreateProperty` never refuses, so its
  branch is not modelled; the second price check cannot fail (`Properties.ValidatedPrice`).
- One location per property is assumed.
- QA.QAService: a question whose property row is missing is treated as forbidden.
- Out-of-range enum texts in the appointments API body (type) and a `date` form field that
  is not a date are read as missing.
- AppointmentsApi.Post: a JSON `duration: null` is stored as 60 minutes here, while the code
  passes the null through to the database.
- Availability.AvailabilityService.GenerateTimeSlots: requires positive slot lengths on that
  day, because with a zero or negative length the code loops forever.
- A NaN household size or duration read from a form is modelled as missing.
- Seo.SlugifyShape: the documented slug examples are not replayed one by one; the shape and
  idempotence of every slug are proved instead.
