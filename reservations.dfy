/**
  `/ai/reservations` (src/app/api/ai/reservations/route.ts): create a booking for a slot
  (POST), look one up by id and customer e-mail (GET), and cancel one the same way (DELETE).

  The JSON body arrives already decoded: a field that is absent is `None`, and `slot` is
  `None` also when it is not an ISO 8601 date-time; otherwise it is the instant in minutes.
  The id the store gives a new row, and whether a write goes through, are parameters.
 */
module Reservations {
  import opened Wrappers
  import opened Slots
  import opened Store
  import opened Formats
  import Availability

  datatype Customer = Customer(name: Option<string>, email: Option<string>, phone: Option<string>)

  datatype BookingRequest = BookingRequest(
    companySlug: Option<string>, serviceId: Option<string>, slot: Option<int>,
    customer: Option<Customer>, notes: Option<string>, agentName: Option<string>)

  /** `name: min(1)` and `email: email()` */
  predicate ValidContact(name: Option<string>, email: Option<string>)
  {
    name.Some? && Utf16Length(name.value) >= 1 && email.Some? && IsEmail(email.value)
  }

  /** The fields shared by both booking schemas: any slug, a UUID service id, a date-time slot. */
  predicate ValidTarget(companySlug: Option<string>, serviceId: Option<string>, slot: Option<int>)
  {
    companySlug.Some? && serviceId.Some? && IsUuid(serviceId.value) && slot.Some?
  }

  /** `BookingSchema` */
  predicate ValidBookingRequest(r: BookingRequest)
  {
    ValidTarget(r.companySlug, r.serviceId, r.slot)
    && r.customer.Some? && ValidContact(r.customer.value.name, r.customer.value.email)
  }

  /** `endTime.setMinutes(endTime.getMinutes() + duration)` */
  function EndTime(start: int, duration: int): int
  {
    start + duration
  }

  /**
    The conflict query: same company and service, pending or confirmed, with
    `start_time <= end` and `end_time >= start`, both bounds closed.
   */
  predicate Blocks(b: Booking, companyId: string, serviceId: string, start: int, end: int)
  {
    b.companyId == companyId && b.serviceId == serviceId && Active(b.status)
    && b.startTime <= end && b.endTime >= start
  }

  function BlocksIn(companyId: string, serviceId: string, start: int, end: int): Booking -> bool
  {
    (b: Booking) => Blocks(b, companyId, serviceId, start, end)
  }

  /** `existingBookings && existingBookings.length > 0` */
  predicate SlotTaken(bookings: seq<Booking>, companyId: string, serviceId: string, start: int, end: int)
  {
    |Filter(bookings, BlocksIn(companyId, serviceId, start, end))| > 0
  }

  /** The row both POST handlers insert: confirmed, booked by an AI agent. */
  function NewBooking(id: string, companyId: string, serviceId: string, name: string, email: string,
                      phone: Option<string>, start: int, end: int, notes: Option<string>,
                      agentName: Option<string>, medical: MedicalFields): Booking
  {
    Booking(id, companyId, serviceId, name, email, phone, start, end, Confirmed, notes,
            AiAgent, OrElse(agentName, "Unknown AI Agent"), medical)
  }

  /** `booking.id.split('-')[0].toUpperCase()` and the confirmation message built from it. */
  function ConfirmationMessage(id: string): string
  {
    "Booking confirmed! Confirmation number: " + ConfirmationNumber(id)
  }

  /** The 201 reply of POST. */
  datatype Confirmation = Confirmation(
    id: string, confirmationNumber: string, company: string, service: string,
    startTime: int, endTime: int, customerName: string, customerEmail: string,
    status: BookingStatus, message: string, agentName: string)

  function ConfirmationOf(b: Booking, c: Company, s: Service, agentName: Option<string>): Confirmation
  {
    Confirmation(b.id, ConfirmationNumber(b.id), c.name, s.name, b.startTime, b.endTime,
                 b.customerName, b.customerEmail, b.status, ConfirmationMessage(b.id), OrElse(agentName, "Unknown"))
  }

  /**
    POST: the reply, and the bookings table afterwards. An error writes nothing; a 201 appends
    exactly one confirmed booking with the new id at the requested slot, which no existing
    booking blocks.
   */
  function ReservationPost(companies: seq<Company>, services: seq<Service>, bookings: seq<Booking>,
                           req: BookingRequest, newId: string, accepts: bool): (out: (Response<Confirmation>, seq<Booking>))
    ensures out.0.Err? ==> out.1 == bookings
    ensures out.0.Ok? ==>
      && ValidBookingRequest(req) && out.0.code == CREATED
      && |out.1| == |bookings| + 1 && out.1[..|bookings|] == bookings
      && var b := out.1[|bookings|];
      && b.id == newId && b.status == Confirmed && b.startTime == req.slot.value
      && accepts && KeyFree(bookings, BookingKey, newId)
      && !SlotTaken(bookings, b.companyId, b.serviceId, b.startTime, b.endTime)
  {
    if !ValidBookingRequest(req) then (Err(BAD_REQUEST, "Invalid request"), bookings)
    else
      var company := CompanyBySlug(companies, req.companySlug.value);
      if company.None? then (Err(NOT_FOUND, "Company not found"), bookings)
      else
        var c := company.value;
        var service := ServiceOf(services, req.serviceId.value, c.id);
        if service.None? then (Err(NOT_FOUND, "Service not found"), bookings)
        else
          var s := service.value;
          var start := req.slot.value;
          var end := EndTime(start, s.durationMinutes);
          if SlotTaken(bookings, c.id, req.serviceId.value, start, end) then
            (Err(CONFLICT, "Time slot no longer available"), bookings)
          else
            var customer := req.customer.value;
            var b := NewBooking(newId, c.id, req.serviceId.value, customer.name.value, customer.email.value,
                                customer.phone, start, end, req.notes, req.agentName, NoMedicalFields);
            if !(accepts && KeyFree(bookings, BookingKey, newId)) then
              (Err(INTERNAL_ERROR, "Failed to create booking"), bookings)
            else (Ok(CREATED, ConfirmationOf(b, c, s, req.agentName)), bookings + [b])
  }

  /** POST /ai/reservations */
  method CreateReservation(db: Database, req: BookingRequest, newId: string, accepts: bool)
    returns (resp: Response<Confirmation>)
    requires db.Valid()
    modifies db
    ensures db.Valid()
    ensures (resp, db.bookings) == ReservationPost(old(db.companies), old(db.services), old(db.bookings), req, newId, accepts)
    ensures db.companies == old(db.companies) && db.services == old(db.services)
  {
    if !ValidBookingRequest(req) {
      return Err(BAD_REQUEST, "Invalid request");
    }
    var company := CompanyBySlug(db.companies, req.companySlug.value);
    if company.None? {
      return Err(NOT_FOUND, "Company not found");
    }
    var c := company.value;
    var service := ServiceOf(db.services, req.serviceId.value, c.id);
    if service.None? {
      return Err(NOT_FOUND, "Service not found");
    }
    var s := service.value;
    var startTime := req.slot.value;
    var endTime := EndTime(startTime, s.durationMinutes);
    var existingBookings := Filter(db.bookings, BlocksIn(c.id, req.serviceId.value, startTime, endTime));
    if |existingBookings| > 0 {
      return Err(CONFLICT, "Time slot no longer available");
    }
    var customer := req.customer.value;
    var booking := NewBooking(newId, c.id, req.serviceId.value, customer.name.value, customer.email.value,
                              customer.phone, startTime, endTime, req.notes, req.agentName, NoMedicalFields);
    var ok := db.InsertBooking(booking, accepts);
    if !ok {
      return Err(INTERNAL_ERROR, "Failed to create booking");
    }
    resp := Ok(CREATED, ConfirmationOf(booking, c, s, req.agentName));
  }

  datatype CompanyContact = CompanyContact(name: string, phone: Option<string>, email: string)
  datatype ServiceSummary = ServiceSummary(name: string, durationMinutes: int)

  /** The reply of GET; `company` and `service` come from the joins on the booking's keys. */
  datatype BookingDetails = BookingDetails(
    id: string, confirmationNumber: string, company: Option<CompanyContact>, service: Option<ServiceSummary>,
    startTime: int, endTime: int, status: BookingStatus,
    customerName: string, customerEmail: string, customerPhone: Option<string>, notes: Option<string>)

  function ContactOf(c: Option<Company>): Option<CompanyContact>
  {
    if c.Some? then Some(CompanyContact(c.value.name, c.value.phone, c.value.email)) else None
  }

  function SummaryOf(s: Option<Service>): Option<ServiceSummary>
  {
    if s.Some? then Some(ServiceSummary(s.value.name, s.value.durationMinutes)) else None
  }

  function DetailsOf(b: Booking, companies: seq<Company>, services: seq<Service>): BookingDetails
  {
    BookingDetails(b.id, ConfirmationNumber(b.id), ContactOf(CompanyById(companies, b.companyId)),
                   SummaryOf(ServiceById(services, b.serviceId)), b.startTime, b.endTime, b.status,
                   b.customerName, b.customerEmail, b.customerPhone, b.notes)
  }

  /**
    GET /ai/reservations?id=…&email=… , a read of the store: 400 or 404, or 200 with the
    booking that has that id and e-mail and its confirmation number.
   */
  function ReservationGet(companies: seq<Company>, services: seq<Service>, bookings: seq<Booking>,
                          id: Option<string>, email: Option<string>): (r: Response<BookingDetails>)
    ensures r.Err? ==> r.code == BAD_REQUEST || r.code == NOT_FOUND
    ensures !Present(id) || !Present(email) ==> r.code == BAD_REQUEST
    ensures r.Ok? ==>
      && Present(id) && Present(email) && r.code == OK
      && r.body.id == id.value && r.body.customerEmail == email.value
      && r.body.confirmationNumber == ConfirmationNumber(id.value)
  {
    if !Present(id) || !Present(email) then Err(BAD_REQUEST, "Missing booking ID or email")
    else
      var booking := BookingFor(bookings, id.value, email.value);
      if booking.None? then Err(NOT_FOUND, "Booking not found")
      else Ok(OK, DetailsOf(booking.value, companies, services))
  }

  datatype Cancellation = Cancellation(id: string, status: BookingStatus, message: string)

  /**
    DELETE: the reply, and the bookings table afterwards. Without both id and e-mail it is a
    400 that writes nothing; an update the store refuses is a 404 that writes nothing;
    otherwise rows are at most cancelled, never added or removed, and a 200 reports the
    booking with that id as cancelled.
   */
  function ReservationDelete(bookings: seq<Booking>, id: Option<string>, email: Option<string>, accepts: bool)
    : (out: (Response<Cancellation>, seq<Booking>))
    ensures !Present(id) || !Present(email) ==> out.0.code == BAD_REQUEST && out.1 == bookings
    ensures Present(id) && Present(email) && !accepts ==> out.0.code == NOT_FOUND && out.1 == bookings
    ensures |out.1| == |bookings|
    ensures forall i :: 0 <= i < |bookings| ==> out.1[i] == bookings[i] || out.1[i] == bookings[i].(status := Cancelled)
    ensures out.0.Ok? ==>
      Present(id) && Present(email) && out.0.code == OK && out.0.body.id == id.value && out.0.body.status == Cancelled
  {
    if !Present(id) || !Present(email) then (Err(BAD_REQUEST, "Missing booking ID or email"), bookings)
    // the update's `error` is answered like a missing row
    else if !accepts then (Err(NOT_FOUND, "Booking not found or already cancelled"), bookings)
    else
      var after := CancelWhere(bookings, id.value, email.value);
      var booking := Single(Filter(after, (b: Booking) => OwnedBy(b, id.value, email.value)));
      if booking.None? then (Err(NOT_FOUND, "Booking not found or already cancelled"), after)
      else (Ok(OK, Cancellation(booking.value.id, booking.value.status, "Booking cancelled successfully")), after)
  }

  /** DELETE /ai/reservations?id=…&email=… */
  method CancelReservation(db: Database, id: Option<string>, email: Option<string>, accepts: bool)
    returns (resp: Response<Cancellation>)
    requires db.Valid()
    modifies db
    ensures db.Valid()
    ensures (resp, db.bookings) == ReservationDelete(old(db.bookings), id, email, accepts)
    ensures db.companies == old(db.companies) && db.services == old(db.services)
  {
    if !Present(id) || !Present(email) {
      return Err(BAD_REQUEST, "Missing booking ID or email");
    }
    var updated := db.CancelBookings(id.value, email.value, accepts);
    var booking := Single(updated);
    if booking.None? {
      return Err(NOT_FOUND, "Booking not found or already cancelled");
    }
    resp := Ok(OK, Cancellation(booking.value.id, booking.value.status, "Booking cancelled successfully"));
  }

  /** The conflict query finds a row exactly when some booking blocks the interval. */
  lemma SlotTakenIffBlocked(bookings: seq<Booking>, companyId: string, serviceId: string, start: int, end: int)
    ensures SlotTaken(bookings, companyId, serviceId, start, end) <==>
      exists i :: 0 <= i < |bookings| && Blocks(bookings[i], companyId, serviceId, start, end)
  {
    var found := Filter(bookings, BlocksIn(companyId, serviceId, start, end));
    if i :| 0 <= i < |bookings| && Blocks(bookings[i], companyId, serviceId, start, end) {
      assert bookings[i] in found;
    }
    if |found| > 0 {
      assert found[0] in bookings;
    }
  }

  /**
    POST answers 400 exactly for a request the schema rejects and 404 exactly when the slug
    names no company offering the service; no error writes anything.
   */
  lemma PostRejections(companies: seq<Company>, services: seq<Service>, bookings: seq<Booking>,
                       req: BookingRequest, newId: string, accepts: bool)
    requires KeysUnique(companies, SlugKey) && KeysUnique(services, ServiceKey)
    ensures var out := ReservationPost(companies, services, bookings, req, newId, accepts);
      && (out.0.code == BAD_REQUEST <==> !ValidBookingRequest(req))
      && (out.0.code == NOT_FOUND <==>
            ValidBookingRequest(req) && !SlugOffersService(companies, services, req.companySlug.value, req.serviceId.value))
      && (out.0.Err? ==> out.1 == bookings)
  {
    if ValidBookingRequest(req) {
      CompanyAndServiceFound(companies, services, req.companySlug.value, req.serviceId.value);
    }
  }

  /**
    Once company and service are found, POST answers 409 exactly when a pending or confirmed
    booking of that service touches or overlaps `[slot, slot + duration]`, and 201 exactly
    when none does and the insert goes through. A 201 appends one row and changes no other:
    a confirmed booking by an AI agent, ending `duration` minutes after the slot, whose
    confirmation number is the upper-cased first segment of its id.
   */
  lemma PostForCompanyAndService(companies: seq<Company>, services: seq<Service>, bookings: seq<Booking>,
                                 req: BookingRequest, newId: string, accepts: bool, c: Company, s: Service)
    requires ValidBookingRequest(req)
    requires CompanyBySlug(companies, req.companySlug.value) == Some(c)
    requires ServiceOf(services, req.serviceId.value, c.id) == Some(s)
    ensures var out := ReservationPost(companies, services, bookings, req, newId, accepts);
      var start := req.slot.value;
      var blocked := exists i :: 0 <= i < |bookings| && Blocks(bookings[i], c.id, s.id, start, start + s.durationMinutes);
      && (out.0.code == CONFLICT <==> blocked)
      && (out.0.Ok? <==> !blocked && accepts && KeyFree(bookings, BookingKey, newId))
      && (out.0.Ok? ==>
            && out.0.code == CREATED
            && |out.1| == |bookings| + 1 && out.1[..|bookings|] == bookings
            && var b := out.1[|bookings|];
            && b.id == newId && b.companyId == c.id && b.serviceId == s.id
            && b.customerName == req.customer.value.name.value
            && b.customerEmail == req.customer.value.email.value
            && b.customerPhone == req.customer.value.phone && b.notes == req.notes
            && b.startTime == start && b.endTime == start + s.durationMinutes
            && b.status == Confirmed && b.bookedVia == AiAgent
            && b.agentName == (if Present(req.agentName) then req.agentName.value else "Unknown AI Agent")
            && b.medical == NoMedicalFields
            && out.0.body.confirmationNumber == ConfirmationNumber(newId)
            && (IsUuid(newId) ==> out.0.body.confirmationNumber == ToUpper(newId[..8])))
      && (!out.0.Ok? ==> out.1 == bookings)
  {
    SlotTakenIffBlocked(bookings, c.id, s.id, req.slot.value, req.slot.value + s.durationMinutes);
    var out := ReservationPost(companies, services, bookings, req, newId, accepts);
    if out.0.Ok? {
      assert out.1[..|bookings|] == bookings;
      if IsUuid(newId) {
        ConfirmationOfUuid(newId);
      }
    }
  }

  /**
    The two overlap tests disagree at the edges: a slot that starts exactly when a booking
    ends, or ends exactly when it starts, is available to the availability test but blocked
    by the reservation conflict query, so POST answers 409 for a slot GET offered.
   */
  lemma TouchingBookingRefused(b: Booking, slot: int, duration: int)
    requires duration > 0 && b.startTime < b.endTime && Active(b.status)
    requires b.endTime == slot || b.startTime == slot + duration
    ensures IsSlotAvailable(slot, [Interval(b.startTime, b.endTime)], duration)
    ensures Blocks(b, b.companyId, b.serviceId, slot, EndTime(slot, duration))
  {
    AdjacentSlotsAvailable(slot, duration, Interval(b.startTime, b.endTime));
  }

  /**
    The same disagreement on the routes. With one pending or confirmed booking of a service
    on the books, the slot of the window that starts when that booking ends is counted as
    open by the availability route, which lists it unless fifty earlier slots are listed;
    POST for that very slot answers 409.
   */
  lemma TouchingSlotOfferedThenRefused(companies: seq<Company>, services: seq<Service>, b: Booking,
                                       q: Availability.AvailabilityQuery, now: int, c: Company, s: Service, k: int,
                                       req: BookingRequest, newId: string, accepts: bool)
    requires PositiveDurations(services) && s.durationMinutes > 0
    requires b.companyId == c.id && b.serviceId == s.id && Active(b.status) && b.startTime < b.endTime
    requires Present(q.company) && Present(q.serviceId)
    requires CompanyBySlug(companies, q.company.value) == Some(c)
    requires ServiceOf(services, q.serviceId.value, c.id) == Some(s)
    requires !q.date.InvalidDate? && !q.days.NotANumber? && Availability.WindowInRange(q.date, q.days, now)
    requires 0 <= k <= Availability.DaysAhead(q.days) && b.endTime > now
    requires b.endTime in Availability.DaySlots(Availability.NthDay(Availability.StartDate(q.date, now), k), s.durationMinutes)
    requires ValidBookingRequest(req) && req.companySlug == q.company && req.serviceId == q.serviceId
    requires req.slot == Some(b.endTime)
    ensures var resp := Availability.AvailabilitySpec(companies, services, [b], q, now);
      && resp.Ok?
      && b.endTime in Availability.OpenSlotsFrom(Availability.StartDate(q.date, now),
           Availability.EndDate(Availability.StartDate(q.date, now), Availability.DaysAhead(q.days)),
           now, Availability.BookedIntervals([b], c.id, s.id, Availability.StartDate(q.date, now),
             Availability.EndDate(Availability.StartDate(q.date, now), Availability.DaysAhead(q.days))),
           s.durationMinutes)
      && (b.endTime in resp.body.slots
          || (|resp.body.slots| == Availability.MaxSlotsShown
              && forall i :: 0 <= i < |resp.body.slots| ==> resp.body.slots[i] < b.endTime))
    ensures ReservationPost(companies, services, [b], req, newId, accepts).0.code == CONFLICT
  {
    var start := Availability.StartDate(q.date, now);
    var n := Availability.DaysAhead(q.days);
    var end := Availability.EndDate(start, n);
    var booked := Availability.BookedIntervals([b], c.id, s.id, start, end);
    var considered := Filter([b], Availability.ConsideredIn(c.id, s.id, start, end));
    assert considered == if Availability.Considered(b, c.id, s.id, start, end) then [b] else [];
    if considered == [b] {
      assert booked == [Interval(b.startTime, b.endTime)];
      AdjacentSlotsAvailable(b.endTime, s.durationMinutes, Interval(b.startTime, b.endTime));
    } else {
      assert booked == [];
      NothingBookedAllAvailable(b.endTime, s.durationMinutes);
    }
    Availability.OpenSlotsWithin(start, n, now, booked, s.durationMinutes, b.endTime);
    Availability.AvailabilityOffers(companies, services, [b], q, now, c, s);
    PostForCompanyAndService(companies, services, [b], req, newId, accepts, c, s);
    assert Blocks([b][0], c.id, s.id, b.endTime, b.endTime + s.durationMinutes);
  }

  /**
    The conflict query is at least as strict as the availability test: a slot POST accepts
    clashes with no pending or confirmed booking of that service.
   */
  lemma AcceptedSlotClashesWithNothing(bookings: seq<Booking>, companyId: string, serviceId: string, start: int, duration: int)
    requires duration >= 0
    requires forall i :: 0 <= i < |bookings| ==> bookings[i].startTime <= bookings[i].endTime
    requires !SlotTaken(bookings, companyId, serviceId, start, EndTime(start, duration))
    ensures forall i ::
      (0 <= i < |bookings| && bookings[i].companyId == companyId
       && bookings[i].serviceId == serviceId && Active(bookings[i].status)) ==>
        !Clashes(start, start + duration, Interval(bookings[i].startTime, bookings[i].endTime))
  {
    SlotTakenIffBlocked(bookings, companyId, serviceId, start, EndTime(start, duration));
  }

  /**
    After a DELETE the store carries out, exactly the bookings that blocked an interval and
    were not the one cancelled still block it: cancelling frees the slot and never blocks a
    new one.
   */
  lemma CancelFreesSlot(bookings: seq<Booking>, id: string, email: string,
                        companyId: string, serviceId: string, start: int, end: int)
    requires id != "" && email != ""
    ensures var after := ReservationDelete(bookings, Some(id), Some(email), true).1;
      SlotTaken(after, companyId, serviceId, start, end) <==>
        exists i :: 0 <= i < |bookings| && Blocks(bookings[i], companyId, serviceId, start, end)
          && !OwnedBy(bookings[i], id, email)
  {
    var after := ReservationDelete(bookings, Some(id), Some(email), true).1;
    assert after == CancelWhere(bookings, id, email);
    SlotTakenIffBlocked(after, companyId, serviceId, start, end);
    if i :| 0 <= i < |bookings| && Blocks(bookings[i], companyId, serviceId, start, end) && !OwnedBy(bookings[i], id, email) {
      assert after[i] == bookings[i];
    }
    if i :| 0 <= i < |after| && Blocks(after[i], companyId, serviceId, start, end) {
      assert after[i] == bookings[i] && !OwnedBy(bookings[i], id, email);
    }
  }

  /**
    DELETE has no status precondition: repeating it gives the same reply and the same
    bookings, so an already cancelled booking is answered 200 again, not 404.
   */
  lemma DeleteIdempotent(bookings: seq<Booking>, id: Option<string>, email: Option<string>, accepts: bool)
    ensures var once := ReservationDelete(bookings, id, email, accepts);
      ReservationDelete(once.1, id, email, accepts) == once
  {
    if Present(id) && Present(email) && accepts {
      CancelWhereIdempotent(bookings, id.value, email.value);
    }
  }

  /**
    DELETE answers 400 exactly when the id or the e-mail is missing or empty, and otherwise 404
    exactly when the store refuses the update or no booking has both; a 200 reports that booking as cancelled. Only the matching
    booking's status changes, and an error leaves the table as it was.
   */
  lemma DeleteOutcomes(bookings: seq<Booking>, id: Option<string>, email: Option<string>, accepts: bool)
    requires KeysUnique(bookings, BookingKey)
    ensures var out := ReservationDelete(bookings, id, email, accepts);
      && (out.0.code == BAD_REQUEST <==> !Present(id) || !Present(email))
      && (out.0.code == NOT_FOUND <==>
            (Present(id) && Present(email)
             && (!accepts || !exists i :: 0 <= i < |bookings| && OwnedBy(bookings[i], id.value, email.value))))
      && (out.0.Ok? ==> out.0.code == OK && out.0.body.id == id.value && out.0.body.status == Cancelled)
      && (out.0.Err? ==> out.1 == bookings)
      && |out.1| == |bookings|
      && (forall i :: 0 <= i < |bookings| ==>
            out.1[i] == bookings[i] || (OwnedBy(bookings[i], id.value, email.value) && out.1[i] == bookings[i].(status := Cancelled)))
  {
    if Present(id) && Present(email) && accepts {
      var after := CancelWhere(bookings, id.value, email.value);
      CancelWhereKeepsKeys(bookings, id.value, email.value);
      assert KeysUnique(after, BookingKey) by {
        forall i, j | 0 <= i < j < |after| ensures BookingKey(after[i]) != BookingKey(after[j]) {
          assert BookingKey(bookings[i]) != BookingKey(bookings[j]);
        }
      }
      BookingForFinds(after, id.value, email.value);
      assert (exists i :: 0 <= i < |after| && OwnedBy(after[i], id.value, email.value))
          <==> (exists i :: 0 <= i < |bookings| && OwnedBy(bookings[i], id.value, email.value));
      if !exists i :: 0 <= i < |bookings| && OwnedBy(bookings[i], id.value, email.value) {
        CancelWhereNoMatch(bookings, id.value, email.value);
      }
    }
  }

  /**
    GET answers 400 exactly when the id or the e-mail is missing or empty, 404 exactly when
    no booking has both, and otherwise that booking's details.
   */
  lemma GetOutcomes(companies: seq<Company>, services: seq<Service>, bookings: seq<Booking>,
                    id: Option<string>, email: Option<string>)
    requires KeysUnique(bookings, BookingKey)
    ensures var resp := ReservationGet(companies, services, bookings, id, email);
      && (resp.code == BAD_REQUEST <==> !Present(id) || !Present(email))
      && (resp.code == NOT_FOUND <==>
            (Present(id) && Present(email)
             && !exists i :: 0 <= i < |bookings| && OwnedBy(bookings[i], id.value, email.value)))
      && (resp.Ok? ==>
            && resp.code == OK
            && resp.body.id == id.value && resp.body.customerEmail == email.value
            && resp.body.confirmationNumber == ConfirmationNumber(id.value)
            && exists i :: 0 <= i < |bookings| && OwnedBy(bookings[i], id.value, email.value)
                 && resp.body.startTime == bookings[i].startTime && resp.body.endTime == bookings[i].endTime
                 && resp.body.status == bookings[i].status)
  {
    if Present(id) && Present(email) {
      BookingForFinds(bookings, id.value, email.value);
    }
  }

  /** A booking POST just created is what GET returns for its id and the customer's e-mail. */
  lemma PostThenGet(companies: seq<Company>, services: seq<Service>, bookings: seq<Booking>,
                    req: BookingRequest, newId: string, accepts: bool)
    requires KeysUnique(bookings, BookingKey)
    requires newId != ""
    requires ReservationPost(companies, services, bookings, req, newId, accepts).0.Ok?
    ensures ValidBookingRequest(req)
    ensures var out := ReservationPost(companies, services, bookings, req, newId, accepts);
      var got := ReservationGet(companies, services, out.1, Some(newId), req.customer.value.email);
      && got.Ok? && got.body.id == newId
      && got.body.confirmationNumber == out.0.body.confirmationNumber
      && got.body.startTime == out.0.body.startTime && got.body.endTime == out.0.body.endTime
      && got.body.status == Confirmed && got.body.customerName == out.0.body.customerName
  {
    var out := ReservationPost(companies, services, bookings, req, newId, accepts);
    var b := out.1[|bookings|];
    assert out.1 == bookings + [b];
    LookupFindsInserted(bookings, b);
  }

  /** Two active bookings of the same company and service. */
  predicate Competing(a: Booking, b: Booking)
  {
    a.companyId == b.companyId && a.serviceId == b.serviceId && Active(a.status) && Active(b.status)
  }

  /** No two active bookings of one service share an instant. */
  predicate NoDoubleBooking(bookings: seq<Booking>)
  {
    forall i, j :: 0 <= i < j < |bookings| && Competing(bookings[i], bookings[j]) ==>
      !Overlap(bookings[i].startTime, bookings[i].endTime, bookings[j].startTime, bookings[j].endTime)
  }

  /** POST never creates a double booking (handlers run one at a time). */
  lemma PostKeepsNoDoubleBooking(companies: seq<Company>, services: seq<Service>, bookings: seq<Booking>,
                                 req: BookingRequest, newId: string, accepts: bool)
    requires NoDoubleBooking(bookings)
    ensures NoDoubleBooking(ReservationPost(companies, services, bookings, req, newId, accepts).1)
  {
    var out := ReservationPost(companies, services, bookings, req, newId, accepts);
    if out.0.Ok? {
      var c := CompanyBySlug(companies, req.companySlug.value).value;
      var s := ServiceOf(services, req.serviceId.value, c.id).value;
      PostForCompanyAndService(companies, services, bookings, req, newId, accepts, c, s);
      var b := out.1[|bookings|];
      assert out.1 == bookings + [b];
      forall i | 0 <= i < |bookings| && Competing(bookings[i], b)
        ensures !Overlap(bookings[i].startTime, bookings[i].endTime, b.startTime, b.endTime)
      {
        assert !Blocks(bookings[i], c.id, s.id, b.startTime, b.endTime);
      }
    }
  }

  /** DELETE never creates a double booking. */
  lemma DeleteKeepsNoDoubleBooking(bookings: seq<Booking>, id: Option<string>, email: Option<string>, accepts: bool)
    requires NoDoubleBooking(bookings)
    ensures NoDoubleBooking(ReservationDelete(bookings, id, email, accepts).1)
  {
    var after := ReservationDelete(bookings, id, email, accepts).1;
    if Present(id) && Present(email) && accepts {
      forall i, j | 0 <= i < j < |after| && Competing(after[i], after[j])
        ensures !Overlap(after[i].startTime, after[i].endTime, after[j].startTime, after[j].endTime)
      {
        assert after[i] == bookings[i] && after[j] == bookings[j];
      }
    }
  }
}
