/**
  `POST /ai/medical/reservations` (src/app/api/ai/medical/reservations/route.ts): the general
  booking flow with a patient instead of a customer, a check that the practice is medical,
  and five optional medical fields stored with the booking (an empty one as null).
 */
module MedicalReservations {
  import opened Wrappers
  import opened Store
  import opened Formats
  import opened Reservations
  import opened Slots

  datatype Patient = Patient(
    name: Option<string>, email: Option<string>, phone: Option<string>,
    dateOfBirth: Option<string>, insuranceProvider: Option<string>, reasonForVisit: Option<string>,
    allergies: Option<string>, currentMedications: Option<string>)

  datatype MedicalRequest = MedicalRequest(
    companySlug: Option<string>, serviceId: Option<string>, slot: Option<int>,
    patient: Option<Patient>, notes: Option<string>, agentName: Option<string>)

  /** `MedicalBookingSchema`: the optional medical fields accept any string. */
  predicate ValidMedicalRequest(r: MedicalRequest)
  {
    ValidTarget(r.companySlug, r.serviceId, r.slot)
    && r.patient.Some? && ValidContact(r.patient.value.name, r.patient.value.email)
  }

  /** `company.industry && company.industry !== 'medical'`: a practice of some other industry. */
  predicate OtherIndustry(industry: Option<string>)
  {
    Present(industry) && industry.value != "medical"
  }

  /** Some company with this slug belongs to another industry. */
  predicate SlugOfOtherIndustry(companies: seq<Company>, slug: string)
  {
    exists i :: 0 <= i < |companies| && companies[i].slug == slug && OtherIndustry(companies[i].industry)
  }

  /** `patient.x || null` for each medical field. */
  function MedicalFieldsOf(p: Patient): MedicalFields
  {
    MedicalFields(NullIfEmpty(p.dateOfBirth), NullIfEmpty(p.insuranceProvider), NullIfEmpty(p.reasonForVisit),
                  NullIfEmpty(p.allergies), NullIfEmpty(p.currentMedications))
  }

  const InsurancePrefix := "Please bring your "
  const InsuranceSuffix := " insurance card"
  const NoInsuranceInstruction := "Please bring your insurance information"
  const ArrivalInstruction := "Please arrive 10 minutes early to complete any necessary paperwork"
  const CancellationInstruction := "To cancel or reschedule, please call at least 24 hours in advance"

  function InsuranceInstruction(insuranceProvider: Option<string>): string
  {
    if Present(insuranceProvider) then InsurancePrefix + insuranceProvider.value + InsuranceSuffix
    else NoInsuranceInstruction
  }

  /** The 201 reply. */
  datatype Appointment = Appointment(
    id: string, confirmationNumber: string, practice: string, service: string,
    appointmentTime: int, duration: int, patientName: string, patientEmail: string,
    status: BookingStatus, insuranceOnFile: bool, message: string,
    arrival: string, insurance: string, cancellation: string, agentName: string)

  function AppointmentOf(b: Booking, c: Company, s: Service, p: Patient, agentName: Option<string>): Appointment
  {
    Appointment(b.id, ConfirmationNumber(b.id), c.name, s.name, b.startTime, s.durationMinutes,
                b.customerName, b.customerEmail, b.status, Present(p.insuranceProvider),
                "Medical appointment confirmed! Confirmation number: " + ConfirmationNumber(b.id),
                ArrivalInstruction, InsuranceInstruction(p.insuranceProvider), CancellationInstruction,
                OrElse(agentName, "Unknown"))
  }

  /**
    The reply, and the bookings table afterwards. An error writes nothing; a 201 appends
    exactly one confirmed booking with the new id at the requested slot, carrying the
    patient's medical fields, which no existing booking blocks.
   */
  function MedicalPost(companies: seq<Company>, services: seq<Service>, bookings: seq<Booking>,
                       req: MedicalRequest, newId: string, accepts: bool): (out: (Response<Appointment>, seq<Booking>))
    ensures out.0.Err? ==> out.1 == bookings
    ensures out.0.Ok? ==>
      && ValidMedicalRequest(req) && out.0.code == CREATED
      && |out.1| == |bookings| + 1 && out.1[..|bookings|] == bookings
      && var b := out.1[|bookings|];
      && b.id == newId && b.status == Confirmed && b.startTime == req.slot.value
      && b.medical == MedicalFieldsOf(req.patient.value)
      && accepts && KeyFree(bookings, BookingKey, newId)
      && !SlotTaken(bookings, b.companyId, b.serviceId, b.startTime, b.endTime)
  {
    if !ValidMedicalRequest(req) then (Err(BAD_REQUEST, "Invalid request"), bookings)
    else
      var company := CompanyBySlug(companies, req.companySlug.value);
      if company.None? then (Err(NOT_FOUND, "Medical practice not found"), bookings)
      else
        var c := company.value;
        if OtherIndustry(c.industry) then (Err(BAD_REQUEST, "This endpoint is for medical practices only"), bookings)
        else
          var service := ServiceOf(services, req.serviceId.value, c.id);
          if service.None? then (Err(NOT_FOUND, "Service not found"), bookings)
          else
            var s := service.value;
            var start := req.slot.value;
            var end := EndTime(start, s.durationMinutes);
            if SlotTaken(bookings, c.id, req.serviceId.value, start, end) then
              (Err(CONFLICT, "Time slot no longer available"), bookings)
            else
              var p := req.patient.value;
              var b := NewBooking(newId, c.id, req.serviceId.value, p.name.value, p.email.value, p.phone,
                                  start, end, req.notes, req.agentName, MedicalFieldsOf(p));
              if !(accepts && KeyFree(bookings, BookingKey, newId)) then
                (Err(INTERNAL_ERROR, "Failed to create appointment"), bookings)
              else (Ok(CREATED, AppointmentOf(b, c, s, p, req.agentName)), bookings + [b])
  }

  /** POST /ai/medical/reservations */
  method CreateMedicalReservation(db: Database, req: MedicalRequest, newId: string, accepts: bool)
    returns (resp: Response<Appointment>)
    requires db.Valid()
    modifies db
    ensures db.Valid()
    ensures (resp, db.bookings) == MedicalPost(old(db.companies), old(db.services), old(db.bookings), req, newId, accepts)
    ensures db.companies == old(db.companies) && db.services == old(db.services)
  {
    if !ValidMedicalRequest(req) {
      return Err(BAD_REQUEST, "Invalid request");
    }
    var company := CompanyBySlug(db.companies, req.companySlug.value);
    if company.None? {
      return Err(NOT_FOUND, "Medical practice not found");
    }
    var c := company.value;
    if OtherIndustry(c.industry) {
      return Err(BAD_REQUEST, "This endpoint is for medical practices only");
    }
    var service := ServiceOf(db.services, req.serviceId.value, c.id);
    if service.None? {
      return Err(NOT_FOUND, "Service not found");
    }
    var s := service.value;
    var startTime := req.slot.value;
    var endTime := EndTime(startTime, s.durationMinutes);
    var existingBookings := Filter(db.bookings, BlocksIn(c.id, req.serviceId.value, startTime, endTime));
    if |existingBookings| > 0 {
      return Err(CONFLICT, "Time slot no longer available");
    }
    var p := req.patient.value;
    var booking := NewBooking(newId, c.id, req.serviceId.value, p.name.value, p.email.value, p.phone,
                              startTime, endTime, req.notes, req.agentName, MedicalFieldsOf(p));
    var ok := db.InsertBooking(booking, accepts);
    if !ok {
      return Err(INTERNAL_ERROR, "Failed to create appointment");
    }
    resp := Ok(CREATED, AppointmentOf(booking, c, s, p, req.agentName));
  }

  /** The same request as a general booking request, the patient as the customer. */
  function GeneralRequest(req: MedicalRequest): BookingRequest
  {
    var customer := if req.patient.Some? then
      Some(Customer(req.patient.value.name, req.patient.value.email, req.patient.value.phone))
    else None;
    BookingRequest(req.companySlug, req.serviceId, req.slot, customer, req.notes, req.agentName)
  }

  /**
    Answers 400 exactly for a request the schema rejects or a practice of another industry
    (a practice with no industry is accepted), and 404 exactly when no practice has the slug
    or the practice offers no such service; no error writes anything.
   */
  lemma MedicalRejections(companies: seq<Company>, services: seq<Service>, bookings: seq<Booking>,
                          req: MedicalRequest, newId: string, accepts: bool)
    requires KeysUnique(companies, SlugKey) && KeysUnique(services, ServiceKey)
    ensures var out := MedicalPost(companies, services, bookings, req, newId, accepts);
      var otherIndustry := ValidMedicalRequest(req) && SlugOfOtherIndustry(companies, req.companySlug.value);
      && (out.0.code == BAD_REQUEST <==> !ValidMedicalRequest(req) || otherIndustry)
      && (out.0.code == NOT_FOUND <==>
            (ValidMedicalRequest(req) && !otherIndustry
             && !SlugOffersService(companies, services, req.companySlug.value, req.serviceId.value)))
      && (out.0.Err? ==> out.1 == bookings)
  {
    if ValidMedicalRequest(req) {
      var slug := req.companySlug.value;
      CompanyAndServiceFound(companies, services, slug, req.serviceId.value);
      CompanyBySlugFinds(companies, slug);
      if CompanyBySlug(companies, slug).Some? {
        var c := CompanyBySlug(companies, slug).value;
        var k :| 0 <= k < |companies| && companies[k] == c;
        forall i | 0 <= i < |companies| && companies[i].slug == slug ensures companies[i] == c {
          assert SlugKey(companies[i]) == SlugKey(companies[k]);
        }
      }
    }
  }

  /**
    Past the industry check the medical endpoint answers exactly as the general one would for
    the same request, with the same conflict rule; on success it stores the same booking
    carrying the patient's medical fields, and on failure nothing.
   */
  lemma MedicalMatchesGeneral(companies: seq<Company>, services: seq<Service>, bookings: seq<Booking>,
                              req: MedicalRequest, newId: string, accepts: bool)
    requires !(ValidMedicalRequest(req) && CompanyBySlug(companies, req.companySlug.value).Some?
               && OtherIndustry(CompanyBySlug(companies, req.companySlug.value).value.industry))
    ensures var med := MedicalPost(companies, services, bookings, req, newId, accepts);
      var gen := ReservationPost(companies, services, bookings, GeneralRequest(req), newId, accepts);
      && med.0.code == gen.0.code
      && (med.0.Ok? <==> gen.0.Ok?)
      && (med.0.Ok? ==>
            && |gen.1| == |bookings| + 1
            && med.1 == gen.1[|bookings| := gen.1[|bookings|].(medical := MedicalFieldsOf(req.patient.value))])
      && (!med.0.Ok? ==> med.1 == gen.1)
  {
    assert ValidMedicalRequest(req) <==> ValidBookingRequest(GeneralRequest(req));
  }

  /**
    A 201 reports the service's duration and the requested slot; `insuranceOnFile` is set
    exactly when an insurance provider was given, and then the insurance instruction names
    it. Each stored medical field is null or non-empty, and it is the given value exactly
    when that was non-empty.
   */
  lemma MedicalReply(companies: seq<Company>, services: seq<Service>, bookings: seq<Booking>,
                     req: MedicalRequest, newId: string, accepts: bool)
    requires MedicalPost(companies, services, bookings, req, newId, accepts).0.Ok?
    ensures ValidMedicalRequest(req)
    ensures var out := MedicalPost(companies, services, bookings, req, newId, accepts);
      var p := req.patient.value;
      var a := out.0.body;
      var stored := out.1[|bookings|].medical;
      var s := ServiceOf(services, req.serviceId.value, CompanyBySlug(companies, req.companySlug.value).value.id);
      && s.Some? && a.duration == s.value.durationMinutes && a.appointmentTime == req.slot.value
      && a.status == Confirmed && a.confirmationNumber == ConfirmationNumber(newId)
      && (a.insuranceOnFile <==> Present(p.insuranceProvider))
      && (a.insuranceOnFile ==>
            a.insurance[|InsurancePrefix|..|InsurancePrefix| + |p.insuranceProvider.value|] == p.insuranceProvider.value)
      && (!a.insuranceOnFile ==> a.insurance == NoInsuranceInstruction)
      && (stored.insuranceProvider.Some? <==> Present(p.insuranceProvider))
      && (stored.insuranceProvider.Some? ==> stored.insuranceProvider == p.insuranceProvider)
      && (stored.dateOfBirth.Some? <==> Present(p.dateOfBirth))
      && (stored.dateOfBirth.Some? ==> stored.dateOfBirth == p.dateOfBirth)
      && (stored.reasonForVisit.Some? <==> Present(p.reasonForVisit))
      && (stored.reasonForVisit.Some? ==> stored.reasonForVisit == p.reasonForVisit)
      && (stored.allergies.Some? <==> Present(p.allergies))
      && (stored.allergies.Some? ==> stored.allergies == p.allergies)
      && (stored.currentMedications.Some? <==> Present(p.currentMedications))
      && (stored.currentMedications.Some? ==> stored.currentMedications == p.currentMedications)
  {
    var p := req.patient.value;
    if Present(p.insuranceProvider) {
      var ip := p.insuranceProvider.value;
      var text := InsurancePrefix + ip + InsuranceSuffix;
      assert text[|InsurancePrefix|..|InsurancePrefix| + |ip|] == ip;
    }
  }

  /** The medical endpoint never creates a double booking either (handlers run one at a time). */
  lemma MedicalKeepsNoDoubleBooking(companies: seq<Company>, services: seq<Service>, bookings: seq<Booking>,
                                    req: MedicalRequest, newId: string, accepts: bool)
    requires NoDoubleBooking(bookings)
    ensures NoDoubleBooking(MedicalPost(companies, services, bookings, req, newId, accepts).1)
  {
    var med := MedicalPost(companies, services, bookings, req, newId, accepts);
    if med.0.Ok? {
      MedicalMatchesGeneral(companies, services, bookings, req, newId, accepts);
      var gen := ReservationPost(companies, services, bookings, GeneralRequest(req), newId, accepts);
      PostKeepsNoDoubleBooking(companies, services, bookings, GeneralRequest(req), newId, accepts);
      forall i, j | 0 <= i < j < |med.1| && Competing(med.1[i], med.1[j])
        ensures !Overlap(med.1[i].startTime, med.1[i].endTime, med.1[j].startTime, med.1[j].endTime)
      {
        assert Competing(gen.1[i], gen.1[j]);
      }
    }
  }
}
