# AI-agent booking platform: availability, reservations and registration

This project models the server core of a booking platform for small businesses. AI agents
use it to book appointments. The model covers:

- the time-slot helpers of `src/lib/utils.ts`: `generateTimeSlots`, `isSlotAvailable` and
  `generateSlug`;
- `GET /api/ai/availability`. It lists the bookable slots of one service, from 9:00 to 17:00
  on each day of a window, at most 50 of them.
- `POST`, `GET` and `DELETE /api/ai/reservations`: create a booking, look one up by id and
  e-mail, and cancel one;
- `POST /api/ai/medical/reservations`. It is the same booking flow plus an industry check
  and five optional medical fields.
- `POST /api/companies/register`: create a company and its first service, undoing the company
  when the service cannot be created;
- `createSlug` of `scripts/seed-germany.ts`, which spells out German umlauts before slugging.

Modules: one per route and per source of helpers (`utils.ts` is split into `Slots` and `Slugs`),
plus `Wrappers`, `Formats` and `Store`, which gather what the routes share:

| module | file | models |
|---|---|---|
| `Wrappers` | `wrappers.dfy` | `Option`, HTTP replies, JavaScript truthiness of strings |
| `Slots` | `slots.dfy` | `generateTimeSlots`, `isSlotAvailable` |
| `Slugs` | `slugs.dfy` | `generateSlug` |
| `SeedGermany` | `seed_germany.dfy` | `createSlug` |
| `Formats` | `formats.dfy` | UUID and e-mail checks, confirmation numbers |
| `Store` | `store.dfy` | the three tables, and the queries and writes the routes issue |
| `Availability` | `availability.dfy` | the availability route |
| `Reservations` | `reservations.dfy` | the reservations route |
| `MedicalReservations` | `medical_reservations.dfy` | the medical reservations route |
| `Registration` | `registration.dfy` | the registration route |

Conventions:

- An instant is a whole number of minutes.
- A day is 1440 minutes long and starts at a multiple of 1440. `setHours(h, 0, 0, 0)` is
  `AtHour(t, h)`.
- The store is a `class Database` whose tables are sequences. The routes' methods update it
  in place.
- Each route has a specification function that returns the reply and the new tables.
- Each route that writes, and the availability route, has a method proved equal to its
  specification function. `GET /api/ai/reservations` only reads, and is modelled by the
  function `Reservations.ReservationGet` alone. The lemmas state what the functions promise.
- Several values come from outside a handler and are parameters of the model:
  - the ids the store assigns to new rows;
  - whether an insert or an update goes through;
  - the current instant;
  - `NEXT_PUBLIC_APP_URL`.

Behaviour worth knowing:

- **Touching bookings.** `isSlotAvailable` treats intervals as half-open. A slot that starts
  when a booking ends is therefore offered by the availability route
  (`Slots.AdjacentSlotsAvailable`). The booking routes test conflicts with closed bounds
  (`start_time <= end`, `end_time >= start`), so they refuse that same slot with 409
  (`Reservations.TouchingBookingRefused`). The availability route and the booking routes
  therefore disagree about such a slot (`Reservations.TouchingSlotOfferedThenRefused`).
- **Bookings the availability route ignores.** It loads only bookings that *start* inside
  `[startDate, endDate]`. A booking that started earlier and is still running, or that
  starts later on the last visited day, does not hide a slot
  (`Availability.BookingOutsideQueryIgnored`). Given `date=`, `endDate` is midnight of the
  last day. A booking starting exactly then is still considered, but every later booking on
  that day is ignored.
- **Repeated cancellation.** `DELETE` of a booking that is already cancelled still matches
  by id and e-mail. It answers 200 again, despite its message "not found or already
  cancelled" (`Reservations.DeleteIdempotent`, `Reservations.DeleteOutcomes`).

## Model

| member | source | states |
|---|---|---|
| Slots.GenerateTimeSlots | src/lib/utils.ts:41-60 | the loop produces exactly the series from `startHour` on the date, every `intervalMinutes`, while before `endHour` |
| Slots.SlotSeriesBounds | src/lib/utils.ts:54-57 | the series is empty iff start >= end; it starts at the first slot, stays in [start, end) and each slot is one step after the previous |
| Slots.SlotSeriesNth | src/lib/utils.ts:54-57 | the i-th slot is start + i * step |
| Slots.SlotSeriesCount | src/lib/utils.ts:54-57 | the number of slots n satisfies (n-1)*step < end-start <= n*step |
| Slots.SlotSeriesMembers | src/lib/utils.ts:54-57 | an instant is a slot iff it lies in [start, end) at a whole number of steps from start |
| Slots.SlotSeriesIncreasing | src/lib/utils.ts:54-57 | the slots are strictly increasing |
| Slots.SlotSeriesLastEnd | src/lib/utils.ts:54-57 | the last slot plus one step reaches or passes the end hour, so a slot may run past closing |
| Slots.AtHourNextDay | src/app/api/ai/availability/route.ts:90 | moving to the next day moves each hour of the day by 1440 minutes |
| Slots.HalfHourDay | src/app/api/ai/availability/route.ts:82 | 9:00 to 17:00 in 30-minute steps gives 16 slots, the last ending at 17:00 |
| Slots.LastSlotOverrunsClosing | src/app/api/ai/availability/route.ts:82 | with 45-minute slots the eleventh starts at 16:30 and ends at 17:15, after closing |
| Slots.IsSlotAvailable | src/lib/utils.ts:63-77 | for a positive duration and well-formed intervals, a slot is available iff it overlaps no booked interval |
| Slots.NothingBookedAllAvailable | src/lib/utils.ts:63-77 | with no bookings every slot is available |
| Slots.ClashesIsHalfOpenOverlap | src/lib/utils.ts:71-76 | the three-way clash test is exactly overlap of half-open intervals |
| Slots.AdjacentSlotsAvailable | src/lib/utils.ts:71-76 | a slot that ends when a booking starts, or starts when it ends, is available |
| Slots.MoreBookingsNeverFreeASlot | src/lib/utils.ts:71-76 | adding a booked interval never makes an unavailable slot available |
| Slugs.CollapseRunsShape | src/lib/utils.ts:11 | after collapsing runs only [a-z0-9-] remains and no '-' follows another |
| Slugs.TrimHyphensShape | src/lib/utils.ts:12 | trimming one '-' at each end of a collapsed string leaves a well-formed slug |
| Slugs.SlugFromWellFormed | src/lib/utils.ts:11-12 | the two replace steps always give a well-formed slug |
| Slugs.GenerateSlug | src/lib/utils.ts:8-13 | every slug has only [a-z0-9-], no "--", and no '-' at either end, and is no longer than the name |
| Slugs.ToLowerKeepsSlugChars | src/lib/utils.ts:10 | lower-casing leaves a string of slug characters unchanged |
| Slugs.CollapseRunsKeepsWellFormed | src/lib/utils.ts:11 | collapsing runs leaves a string without "--" and with only slug characters unchanged |
| Slugs.SlugFromKeepsWellFormed | src/lib/utils.ts:11-12 | the replace steps leave a well-formed slug unchanged |
| Slugs.GenerateSlugKeepsWellFormed | src/lib/utils.ts:8-13 | a well-formed slug is its own slug |
| Slugs.GenerateSlugIdempotent | src/lib/utils.ts:8-13 | slugging a slug changes nothing |
| SeedGermany.ReplaceAllAppend | scripts/seed-germany.ts:80-83 | replacing a character distributes over concatenation |
| SeedGermany.ReplaceAllAbsent | scripts/seed-germany.ts:80-83 | replacing a character that does not occur changes nothing |
| SeedGermany.TransliterateAppend | scripts/seed-germany.ts:80-83 | the four replacements distribute over concatenation |
| SeedGermany.TransliterateChar | scripts/seed-germany.ts:80-83 | on one character the four replacements give that character's spelling |
| SeedGermany.TransliterateSpellsOut | scripts/seed-germany.ts:80-83 | the chained replacements equal spelling out each character on its own: ä, ö, ü, ß become ae, oe, ue, ss and nothing else changes |
| SeedGermany.CapitalUmlautsSpelledOut | scripts/seed-germany.ts:78-83 | capital Ä, Ö, Ü are lowered first and so are spelled out as well |
| SeedGermany.CreateSlug | scripts/seed-germany.ts:77-86 | every seed slug has only [a-z0-9-], no "--", and no '-' at either end |
| SeedGermany.CreateSlugIsGenerateSlugWithoutUmlauts | scripts/seed-germany.ts:77-86 | on names without ä, ö, ü, ß the seed slug equals `generateSlug` |
| SeedGermany.CreateSlugIdempotent | scripts/seed-germany.ts:77-86 | slugging a seed slug changes nothing |
| Formats.ConfirmationNumber | src/app/api/ai/reservations/route.ts:126 | the confirmation number is the id's first '-'-free segment upper-cased: no longer than the id, and ended in the id by a '-' or by its end |
| Formats.Utf16Length | src/app/api/companies/register/route.ts:8 | the length zod's `min` measures: between one and two code units per character, and equal to the character count iff no character lies beyond U+FFFF |
| Formats.FirstSegment | src/app/api/ai/reservations/route.ts:126 | `split('-')[0]` is the longest prefix without '-', ended by a '-' or by the end |
| Formats.ConfirmationOfUuid | src/app/api/ai/reservations/route.ts:126 | for a UUID id the confirmation number is its first 8 hex digits upper-cased |
| Store.FilterMembers | src/app/api/ai/reservations/route.ts:75-82 | a row is in a query's result iff it is in the table and matches |
| Store.FilterAppend | src/app/api/ai/availability/route.ts:84-88 | filtering distributes over concatenation |
| Store.FilterOfAtMostOne | src/app/api/ai/reservations/route.ts:41-45 | a filter that at most one row matches returns at most one row |
| Store.SingleOfAtMostOne | src/app/api/ai/reservations/route.ts:41-45 | `.single()` finds a row iff one matches, and it is that row |
| Store.FilterKeepsKeysUnique | src/app/api/ai/reservations/route.ts:75-82 | a query's result keeps unique keys unique |
| Store.AppendKeepsKeysUnique | src/app/api/ai/reservations/route.ts:95-111 | inserting a row with a free key keeps keys unique |
| Store.FilterOutAppended | src/app/api/companies/register/route.ts:94 | deleting by id the row just inserted restores the table |
| Store.CompanyBySlugFinds | src/app/api/ai/reservations/route.ts:41-45 | with unique slugs the lookup succeeds iff a company has the slug, and returns it |
| Store.ServiceOfFinds | src/app/api/ai/reservations/route.ts:55-60 | the lookup succeeds iff the company has a service with the id, and returns it |
| Store.BookingForFinds | src/app/api/ai/reservations/route.ts:168-177 | the lookup succeeds iff a booking has the id and e-mail, and returns it |
| Store.CompanyAndServiceFound | src/app/api/ai/reservations/route.ts:41-67 | both lookups succeed iff the company with the slug offers the service |
| Store.LookupFindsInserted | src/app/api/ai/reservations/route.ts:168-177 | a booking just inserted is found by its id and e-mail |
| Store.CancelWhereKeepsKeys | src/app/api/ai/reservations/route.ts:225-231 | cancelling keeps the table's length and every row's other fields; a matching row becomes cancelled and every other row is unchanged |
| Store.CancelWhereIdempotent | src/app/api/ai/reservations/route.ts:225-231 | cancelling twice is cancelling once |
| Store.CancelWhereNoMatch | src/app/api/ai/reservations/route.ts:225-231 | cancelling with no matching row changes nothing |
| Store.Database.InsertCompany | src/app/api/companies/register/route.ts:60-67 | the insert succeeds iff accepted and id and slug are free; then the row is appended |
| Store.Database.DeleteCompany | src/app/api/companies/register/route.ts:94 | exactly the companies with the id are removed |
| Store.Database.InsertService | src/app/api/companies/register/route.ts:78-89 | the insert succeeds iff accepted and the id is free; then the row is appended |
| Store.Database.InsertBooking | src/app/api/ai/reservations/route.ts:95-111 | the insert succeeds iff accepted and the id is free; then the row is appended |
| Store.Database.CancelBookings | src/app/api/ai/reservations/route.ts:225-231 | when the update goes through the matching rows become cancelled and are returned; a refused update changes nothing and returns no row |
| Availability.KeepOfferable | src/app/api/ai/availability/route.ts:84-88 | keeps exactly the day's slots that are in the future and clash with no booking, in order |
| Availability.CollectOpenSlots | src/app/api/ai/availability/route.ts:78-91 | the day loop collects exactly the open slots of each day from the start date through the end date |
| Availability.AvailabilitySpec | src/app/api/ai/availability/route.ts:8-116 | every reply is 400, 404, 500 or 200; a 200 has a positive duration and shows at most 50 slots, `showing` of them out of `totalSlots` |
| Availability.DefaultWindowIsAWeek | src/app/api/ai/availability/route.ts:14 | without `days` the loop visits eight days and the window ends seven days after it starts |
| Availability.GetAvailability | src/app/api/ai/availability/route.ts:8-116 | the handler's reply equals the route's specification for every query |
| Availability.VisitedDaysOfWindow | src/app/api/ai/availability/route.ts:56-58 | the loop visits days+1 days, the k-th being start + k days (none for a negative count) |
| Availability.DaySlotsMembers | src/app/api/ai/availability/route.ts:82 | a day's slots are the instants from 9:00 before 17:00 at whole multiples of the duration |
| Availability.OpenSlotsFromMembers | src/app/api/ai/availability/route.ts:78-91 | an instant is collected iff it is offerable and a slot of some visited day |
| Availability.OpenSlotsWithin | src/app/api/ai/availability/route.ts:78-91 | an instant is collected iff it is offerable and a slot of day k, 0 <= k <= days |
| Availability.FilterIncreasing | src/app/api/ai/availability/route.ts:84-88 | keeping some slots keeps them in increasing order |
| Availability.OpenSlotsFromLowerBound | src/app/api/ai/availability/route.ts:78-91 | nothing collected lies before 9:00 of the first day |
| Availability.OpenSlotsFromIncreasing | src/app/api/ai/availability/route.ts:78-91 | the collected slots are strictly increasing |
| Availability.ReplyListsEarliest | src/app/api/ai/availability/route.ts:93-106 | the reply reports the total, shows at most 50 slots in order, and omits a slot only when 50 earlier ones are shown |
| Availability.AvailabilityErrors | src/app/api/ai/availability/route.ts:16-58 | 400 iff company or serviceId is missing; 404 iff the company does not offer the service; 500 iff the date or day count is unreadable or the window leaves the range of `Date`; 200 otherwise |
| Availability.UnconsideredBookingIgnored | src/app/api/ai/availability/route.ts:61-73 | a booking outside the query does not change the booked intervals |
| Availability.BookingOutsideQueryIgnored | src/app/api/ai/availability/route.ts:61-73 | an inactive booking, or one starting before the start date or after the end date, does not change the reply |
| Availability.AvailabilityOffers | src/app/api/ai/availability/route.ts:78-106 | the reply lists increasing offerable slots of the window, at most 50, and leaves one out only when 50 earlier are listed; `totalSlots` is the number collected and `showing` the smaller of it and 50 |
| Reservations.ReservationPost | src/app/api/ai/reservations/route.ts:22-151 | an error writes nothing; a 201 appends exactly one confirmed booking with the new id at the requested slot, whose id was free and whose interval no active booking of the service blocked |
| Reservations.ReservationGet | src/app/api/ai/reservations/route.ts:155-208 | errors are 400 or 404, and 400 when id or e-mail is missing; a 200 returns the booking with that id and e-mail and its confirmation number |
| Reservations.ReservationDelete | src/app/api/ai/reservations/route.ts:211-255 | a missing id or e-mail gives 400 and writes nothing; a refused update gives 404 and writes nothing; the table keeps its length and each row is unchanged or cancelled; a 200 names the booking as cancelled |
| Reservations.CreateReservation | src/app/api/ai/reservations/route.ts:22-151 | POST's reply and the new bookings table equal the route's specification; other tables are unchanged |
| Reservations.CancelReservation | src/app/api/ai/reservations/route.ts:211-255 | DELETE's reply and the new bookings table equal the route's specification |
| Reservations.SlotTakenIffBlocked | src/app/api/ai/reservations/route.ts:75-92 | the conflict query finds rows iff some active booking of the service meets the requested interval, bounds included |
| Reservations.PostRejections | src/app/api/ai/reservations/route.ts:27-67 | 400 iff the body fails the schema; 404 iff the company does not offer the service; errors write nothing |
| Reservations.PostForCompanyAndService | src/app/api/ai/reservations/route.ts:70-144 | 409 iff a booking blocks the slot; 201 iff not blocked and the insert goes through; the new row has the request's customer name, e-mail, phone and notes, is confirmed, by AI agent, ends after the duration, and carries the confirmation number |
| Reservations.TouchingBookingRefused | src/app/api/ai/reservations/route.ts:79-82 | a slot touching a booking is offered as available yet refused by POST |
| Reservations.TouchingSlotOfferedThenRefused | src/app/api/ai/availability/route.ts:78-91 | with one active booking of the service, the slot starting when it ends is collected by the availability route and listed unless 50 earlier are, yet POST for it answers 409 |
| Reservations.AcceptedSlotClashesWithNothing | src/app/api/ai/reservations/route.ts:75-92 | a slot that passes the conflict check clashes with no active booking of the service |
| Reservations.CancelFreesSlot | src/app/api/ai/reservations/route.ts:225-231 | after a cancellation a slot is taken iff a booking other than the cancelled ones blocks it |
| Reservations.DeleteIdempotent | src/app/api/ai/reservations/route.ts:225-247 | repeating a DELETE gives the same reply and the same table |
| Reservations.DeleteOutcomes | src/app/api/ai/reservations/route.ts:211-248 | 400 iff id or e-mail is missing; otherwise 404 iff the update is refused or no booking has both; 200 names the booking as cancelled; only matching rows change, to cancelled |
| Reservations.GetOutcomes | src/app/api/ai/reservations/route.ts:155-200 | 400 iff id or e-mail is missing; 404 iff no booking has both; 200 returns that booking's times, status and confirmation number |
| Reservations.PostThenGet | src/app/api/ai/reservations/route.ts:155-200 | a booking just created is found by GET with its id and e-mail, with the same times and confirmation number |
| Reservations.PostKeepsNoDoubleBooking | src/app/api/ai/reservations/route.ts:75-119 | POST never creates two overlapping active bookings of one service |
| Reservations.DeleteKeepsNoDoubleBooking | src/app/api/ai/reservations/route.ts:225-231 | DELETE never creates two overlapping active bookings of one service |
| MedicalReservations.MedicalPost | src/app/api/ai/medical/reservations/route.ts:27-176 | an error writes nothing; a 201 appends exactly one confirmed booking with the new id, the requested slot and the medical fields, whose interval no active booking of the service blocked |
| MedicalReservations.CreateMedicalReservation | src/app/api/ai/medical/reservations/route.ts:27-176 | the reply and the new bookings table equal the route's specification; other tables are unchanged |
| MedicalReservations.MedicalRejections | src/app/api/ai/medical/reservations/route.ts:32-83 | 400 iff the body fails the schema or the practice has another industry (no industry passes); 404 iff no practice has the slug or it lacks the service; errors write nothing |
| MedicalReservations.MedicalMatchesGeneral | src/app/api/ai/medical/reservations/route.ts:86-141 | past the industry check, the codes, conflict rule and stored row equal the general POST's, the row carrying the medical fields |
| MedicalReservations.MedicalReply | src/app/api/ai/medical/reservations/route.ts:126-171 | the reply gives the service's duration; insuranceOnFile iff an insurer was given, and the instruction names it; stored medical fields are null or the non-empty given value |
| MedicalReservations.MedicalKeepsNoDoubleBooking | src/app/api/ai/medical/reservations/route.ts:91-141 | the medical POST never creates two overlapping active bookings of one service |
| Registration.BookingUrl | src/app/api/companies/register/route.ts:112 | the booking URL is the app URL (or the default) followed by '/' and the slug |
| Registration.RegisterPost | src/app/api/companies/register/route.ts:27-121 | an error leaves both tables unchanged; a 201 appends one company and one service with the new ids, the service belonging to the company |
| Registration.Register | src/app/api/companies/register/route.ts:27-121 | the reply and the new companies and services tables equal the route's specification |
| Registration.RegisterOutcomes | src/app/api/companies/register/route.ts:32-99 | 400 iff the body fails the schema; 409 iff the slug is taken; 500 iff an insert fails; every error, rollback included, leaves both tables as they were |
| Registration.RegisterAddsCompanyAndService | src/app/api/companies/register/route.ts:59-113 | a 201 appends one active company with the request's name, e-mail and slug, no industry, country "USA" and timezone "America/New_York" unless given, and one active service linked to it with the request's name, price and duration and currency "USD" unless given non-empty; the slug then finds them |
| Registration.RegisterTwiceConflicts | src/app/api/companies/register/route.ts:46-57 | registering the same slug again is refused with 409 and changes nothing |
| Registration.GeneratedSlugsMatchPattern | src/app/api/companies/register/route.ts:9 | every non-empty slug from either slug function matches `^[a-z0-9-]+$` |

## Left out

- Time zones and daylight saving time are not modelled. The server's local time is taken as
  UTC, so every day is 1440 minutes long. The company's `timezone` is only echoed back.
- Instants are whole minutes. Seconds and milliseconds are not modelled.
- Parsing and printing of dates is not modelled. The model does not cover the ISO strings of
  slots, the `YYYY-MM-DD` of the reply's date range, or `z.string().datetime()`.
  `Availability.AvailabilitySpec` reports `from` and `to` as the midnights of the first and
  last day.
- The availability loop asks for the current time once per slot. The model reads it once,
  as the parameter `now`.
- `buffer_time_minutes` is not modelled. The availability route reads it but never uses it.
- Formats.IsEmail is a simplified form of the zod e-mail check: a non-empty local part, one
  '@', and a dotted domain with no spaces.
- Formats.IsUuid checks only the 8-4-4-4-12 hex shape, not zod's version and variant digits.
- JSON types are not modelled. A field of the wrong JSON type fails the zod schema and gets
  400, like a missing field; the model's request fields are `Option`s of the right type, so
  it covers only the missing case. A body that is not JSON at all reaches the route's `catch`
  and gets 500 "Internal server error"; that is not modelled. The exceptions modelled are an
  unreadable `date` or `days` and a window outside the range of `Date` in the availability
  route.
- Availability.DaySlots lists slots on every visited day. On the day that starts at the
  last instant a `Date` can hold, `setHours(9)` leaves that range, and the code generates no
  slot for it; the model does not single out that day.
- Reads never fail in the model. In the code a failed conflict query leaves
  `existingBookings` null, and POST then inserts without any conflict check.
- Reservations.PostKeepsNoDoubleBooking: holds only because conflict queries never fail in
  the model.
- MedicalReservations.MedicalKeepsNoDoubleBooking: holds only because conflict queries never
  fail in the model.
- Store.Database.Valid requires every service duration to be positive. `generateTimeSlots`
  never ends for a duration of zero or less, so the availability route has no reply for one.
- zod's `min` counts UTF-16 code units, which `Formats.Utf16Length` models. Other string
  lengths in the model count characters.
- Durations and day counts are integers. zod accepts a non-integer
  `duration_minutes`, and `parseInt` truncates.
- Failed lookups are modelled as empty results. `.single()` on several rows is modelled
  as no row.
- Registration.Register: the model assumes the rollback delete succeeds. Its own failure is
  ignored by the code and not modelled.
- Concurrency is not modelled. Two requests that pass the conflict check at the same time can
  both insert. The store has no constraint against that, and handlers are modelled one at a
  time.
- Slugs.LowerChar lowers only ASCII letters and Ä, Ö, Ü. The rest of Unicode case mapping is
  not modelled.
- Fixed parts of the replies are left out of the reply datatypes:
  - `success`, `hint` and the zod `details`;
  - `meta.bookedVia` and `meta.industry`.
- Logging and the other routes are not part of this model: the search, practitioner and
  OpenAPI endpoints, and the pages.
- The seed script's database writes are not part of this model. Only its `createSlug` is.
