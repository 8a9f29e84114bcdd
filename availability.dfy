/**
  `GET /ai/availability` (src/app/api/ai/availability/route.ts): the bookable slots of one
  service of one company, between 9:00 and 17:00 on every day from the start date through
  the end date, that are still in the future and clash with no pending or confirmed booking.

  The query string arrives already parsed: `date` is absent or empty (`Today`), a date the
  `Date` constructor accepts (`OnDate`, as an instant in minutes) or one it rejects
  (`InvalidDate`); `days` is absent or empty (`DefaultDays`), a number `parseInt` reads, or
  something it cannot read (`NotANumber`). The current instant `now` is a parameter.
 */
module Availability {
  import opened Wrappers
  import opened Slots
  import opened Store

  datatype DateParam = Today | OnDate(instant: int) | InvalidDate
  datatype DaysParam = DefaultDays | Days(n: int) | NotANumber

  datatype AvailabilityQuery = AvailabilityQuery(
    company: Option<string>, serviceId: Option<string>, date: DateParam, days: DaysParam)

  /** The JSON reply; `from` and `to` are the midnights of the first and the last day. */
  datatype AvailabilityBody = AvailabilityBody(
    serviceId: string, duration: int, slots: seq<int>, timezone: string,
    totalSlots: int, showing: int, from: int, to: int)

  const OpeningHour := 9
  const ClosingHour := 17
  const DefaultDaysAhead := 7
  const MaxSlotsShown := 50

  function StartDate(date: DateParam, now: int): int
    requires !date.InvalidDate?
  {
    if date.OnDate? then date.instant else now
  }

  function DaysAhead(days: DaysParam): int
    requires !days.NotANumber?
  {
    if days.Days? then days.n else DefaultDaysAhead
  }

  /** The largest time value a JavaScript `Date` can hold, 8.64e15 ms, in minutes. */
  const MaxDateMinutes := 144_000_000_000

  /** A `Date` outside this range is invalid, and `toISOString` throws on it. */
  predicate InDateRange(t: int)
  {
    -MaxDateMinutes <= t <= MaxDateMinutes
  }

  /** Both ends of the queried window are valid dates. */
  predicate WindowInRange(date: DateParam, days: DaysParam, now: int)
    requires !date.InvalidDate? && !days.NotANumber?
  {
    InDateRange(StartDate(date, now)) && InDateRange(EndDate(StartDate(date, now), DaysAhead(days)))
  }

  /** `endDate.setDate(endDate.getDate() + daysAhead)` */
  function EndDate(start: int, daysAhead: int): int
  {
    start + daysAhead * MinutesPerDay
  }

  /** The bookings query: same company and service, pending or confirmed, starting in `[from, to]`. */
  predicate Considered(b: Booking, companyId: string, serviceId: string, from: int, to: int)
  {
    b.companyId == companyId && b.serviceId == serviceId && Active(b.status)
    && from <= b.startTime <= to
  }

  function ConsideredIn(companyId: string, serviceId: string, from: int, to: int): Booking -> bool
  {
    (b: Booking) => Considered(b, companyId, serviceId, from, to)
  }

  function Intervals(bookings: seq<Booking>): seq<Interval>
  {
    seq(|bookings|, i requires 0 <= i < |bookings| => Interval(bookings[i].startTime, bookings[i].endTime))
  }

  /** `bookedSlots` */
  function BookedIntervals(bookings: seq<Booking>, companyId: string, serviceId: string, from: int, to: int): seq<Interval>
  {
    Intervals(Filter(bookings, ConsideredIn(companyId, serviceId, from, to)))
  }

  /** `generateTimeSlots(9, 17, duration, day)` */
  function DaySlots(day: int, duration: int): seq<int>
    requires duration > 0
  {
    SlotSeries(AtHour(day, OpeningHour), AtHour(day, ClosingHour), duration)
  }

  /** The test inside the `forEach`: in the future and clashing with no booked interval. */
  predicate Offerable(slot: int, now: int, booked: seq<Interval>, duration: int)
  {
    slot > now && IsSlotAvailable(slot, booked, duration)
  }

  function OfferableIn(now: int, booked: seq<Interval>, duration: int): int -> bool
  {
    (slot: int) => Offerable(slot, now, booked, duration)
  }

  /** The slots the day loop collects from the day of `current` through the day of `endDate`. */
  function OpenSlotsFrom(current: int, endDate: int, now: int, booked: seq<Interval>, duration: int): seq<int>
    requires duration > 0
    decreases endDate - current
  {
    if current <= endDate then
      Filter(DaySlots(current, duration), OfferableIn(now, booked, duration))
      + OpenSlotsFrom(current + MinutesPerDay, endDate, now, booked, duration)
    else []
  }

  /** The values `currentDate` takes in the day loop. */
  function VisitedDays(start: int, endDate: int): seq<int>
  {
    SlotSeries(start, endDate + 1, MinutesPerDay)
  }

  function Min(a: int, b: int): int
  {
    if a < b then a else b
  }

  /** The reply for the collected slots `open`: the first fifty, and how many there were. */
  function Reply(serviceId: string, duration: int, open: seq<int>, timezone: string, startDate: int, endDate: int): AvailabilityBody
  {
    var showing := Min(|open|, MaxSlotsShown);
    AvailabilityBody(serviceId, duration, open[..showing], timezone, |open|, showing, DayStart(startDate), DayStart(endDate))
  }

  /**
    What the handler answers, in the order it checks things: an error among 400, 404 and 500,
    or 200 with at most fifty slots, `showing` of them out of `totalSlots`.
   */
  function AvailabilitySpec(companies: seq<Company>, services: seq<Service>, bookings: seq<Booking>,
                            q: AvailabilityQuery, now: int): (r: Response<AvailabilityBody>)
    requires PositiveDurations(services)
    ensures r.Err? ==> r.code == BAD_REQUEST || r.code == NOT_FOUND || r.code == INTERNAL_ERROR
    ensures r.Ok? ==>
      && r.code == OK && r.body.duration > 0
      && r.body.showing == |r.body.slots| <= MaxSlotsShown && r.body.showing <= r.body.totalSlots
  {
    if !Present(q.company) || !Present(q.serviceId) then Err(BAD_REQUEST, "Missing required parameters")
    else
      var company := CompanyBySlug(companies, q.company.value);
      if company.None? then Err(NOT_FOUND, "Company not found")
      else
        var service := ServiceOf(services, q.serviceId.value, company.value.id);
        if service.None? then Err(NOT_FOUND, "Service not found")
        // an invalid date, or a window past the range of `Date`, makes `toISOString` throw
        // while the bookings query is built
        else if q.date.InvalidDate? || q.days.NotANumber? || !WindowInRange(q.date, q.days, now) then
          Err(INTERNAL_ERROR, "Internal server error")
        else
          var duration := service.value.durationMinutes;
          var startDate := StartDate(q.date, now);
          var endDate := EndDate(startDate, DaysAhead(q.days));
          var booked := BookedIntervals(bookings, company.value.id, q.serviceId.value, startDate, endDate);
          var open := OpenSlotsFrom(startDate, endDate, now, booked, duration);
          Ok(OK, Reply(q.serviceId.value, duration, open, company.value.timezone, startDate, endDate))
  }

  /** The `forEach` over one day's slots: those that pass its test, in order. */
  method KeepOfferable(daySlots: seq<int>, now: int, booked: seq<Interval>, duration: int)
    returns (kept: seq<int>)
    ensures kept == Filter(daySlots, OfferableIn(now, booked, duration))
  {
    ghost var offerable := OfferableIn(now, booked, duration);
    kept := [];
    var i := 0;
    while i < |daySlots|
      invariant 0 <= i <= |daySlots|
      invariant kept == Filter(daySlots[..i], offerable)
    {
      FilterAppend(daySlots[..i], [daySlots[i]], offerable);
      assert daySlots[..i + 1] == daySlots[..i] + [daySlots[i]];
      assert [daySlots[i]][1..] == [];
      if daySlots[i] > now && IsSlotAvailable(daySlots[i], booked, duration) {
        kept := kept + [daySlots[i]];
      }
      i := i + 1;
    }
    assert daySlots[..i] == daySlots;
  }

  /** One step of the day loop. */
  lemma OpenSlotsFromUnfold(current: int, endDate: int, now: int, booked: seq<Interval>, duration: int)
    requires duration > 0 && current <= endDate
    ensures OpenSlotsFrom(current, endDate, now, booked, duration)
         == Filter(DaySlots(current, duration), OfferableIn(now, booked, duration))
            + OpenSlotsFrom(current + MinutesPerDay, endDate, now, booked, duration)
  {
  }

  /**
    The day loop: for every day from `startDate` through `endDate`, the slots of that day,
    in order, that pass the `forEach` test.
   */
  method CollectOpenSlots(startDate: int, endDate: int, now: int, booked: seq<Interval>, duration: int)
    returns (availableSlots: seq<int>)
    requires duration > 0
    ensures availableSlots == OpenSlotsFrom(startDate, endDate, now, booked, duration)
  {
    availableSlots := [];
    var currentDate := startDate;
    while currentDate <= endDate
      invariant availableSlots + OpenSlotsFrom(currentDate, endDate, now, booked, duration)
             == OpenSlotsFrom(startDate, endDate, now, booked, duration)
      decreases endDate - currentDate
    {
      var daySlots := GenerateTimeSlots(OpeningHour, ClosingHour, duration, currentDate);
      var kept := KeepOfferable(daySlots, now, booked, duration);
      var rest := OpenSlotsFrom(currentDate + MinutesPerDay, endDate, now, booked, duration);
      OpenSlotsFromUnfold(currentDate, endDate, now, booked, duration);
      assert daySlots == DaySlots(currentDate, duration);
      assert availableSlots + (kept + rest) == (availableSlots + kept) + rest;
      availableSlots := availableSlots + kept;
      currentDate := currentDate + MinutesPerDay;
    }
    assert availableSlots + [] == availableSlots;
  }

  /** GET /ai/availability */
  method GetAvailability(db: Database, q: AvailabilityQuery, now: int) returns (resp: Response<AvailabilityBody>)
    requires db.Valid()
    ensures resp == AvailabilitySpec(db.companies, db.services, db.bookings, q, now)
  {
    if !Present(q.company) || !Present(q.serviceId) {
      return Err(BAD_REQUEST, "Missing required parameters");
    }
    var company := CompanyBySlug(db.companies, q.company.value);
    if company.None? {
      return Err(NOT_FOUND, "Company not found");
    }
    var service := ServiceOf(db.services, q.serviceId.value, company.value.id);
    if service.None? {
      return Err(NOT_FOUND, "Service not found");
    }
    if q.date.InvalidDate? || q.days.NotANumber? || !WindowInRange(q.date, q.days, now) {
      return Err(INTERNAL_ERROR, "Internal server error");
    }
    var duration := service.value.durationMinutes;
    var startDate := StartDate(q.date, now);
    var endDate := EndDate(startDate, DaysAhead(q.days));
    var booked := BookedIntervals(db.bookings, company.value.id, q.serviceId.value, startDate, endDate);
    var availableSlots := CollectOpenSlots(startDate, endDate, now, booked, duration);
    resp := Ok(OK, Reply(q.serviceId.value, duration, availableSlots, company.value.timezone, startDate, endDate));
  }

  /** The `k`-th day after `start`, at the same time of day. */
  function NthDay(start: int, k: int): int
  {
    start + k * MinutesPerDay
  }

  /** The day loop runs `daysAhead + 1` times (never, for a negative count), one day apart. */
  lemma VisitedDaysOfWindow(start: int, daysAhead: int)
    ensures var v := VisitedDays(start, EndDate(start, daysAhead));
      && |v| == (if daysAhead >= 0 then daysAhead + 1 else 0)
      && forall k :: 0 <= k < |v| ==> v[k] == NthDay(start, k)
  {
    var e := EndDate(start, daysAhead);
    var v := VisitedDays(start, e);
    SlotSeriesBounds(start, e + 1, MinutesPerDay);
    MultipleOfStep(daysAhead, MinutesPerDay);
    if daysAhead >= 0 {
      SlotSeriesCount(start, e + 1, MinutesPerDay);
      var m := |v|;
      assert (m - 1) * MinutesPerDay - daysAhead * MinutesPerDay == (m - 1 - daysAhead) * MinutesPerDay;
      assert m * MinutesPerDay - daysAhead * MinutesPerDay == (m - daysAhead) * MinutesPerDay;
      MultipleOfStep(m - 1 - daysAhead, MinutesPerDay);
      MultipleOfStep(m - daysAhead, MinutesPerDay);
    }
    forall k | 0 <= k < |v| ensures v[k] == NthDay(start, k) {
      SlotSeriesNth(start, e + 1, MinutesPerDay, k);
    }
  }

  /** An instant is one of a day's slots exactly when it is in business hours and on the grid. */
  lemma DaySlotsMembers(day: int, duration: int, x: int)
    requires duration > 0
    ensures x in DaySlots(day, duration) <==>
      AtHour(day, OpeningHour) <= x < AtHour(day, ClosingHour) && (x - AtHour(day, OpeningHour)) % duration == 0
  {
    SlotSeriesMembers(AtHour(day, OpeningHour), AtHour(day, ClosingHour), duration, x);
  }

  /** `x` is one of the slots generated for one of the days `days`. */
  predicate OnSomeDay(x: int, days: seq<int>, duration: int)
    requires duration > 0
  {
    exists k :: 0 <= k < |days| && x in DaySlots(days[k], duration)
  }

  lemma OnSomeDayCons(x: int, day: int, days: seq<int>, duration: int)
    requires duration > 0
    ensures OnSomeDay(x, [day] + days, duration) <==> x in DaySlots(day, duration) || OnSomeDay(x, days, duration)
  {
    var all := [day] + days;
    if x in DaySlots(day, duration) {
      assert all[0] == day;
    }
    if k :| 0 <= k < |days| && x in DaySlots(days[k], duration) {
      assert all[k + 1] == days[k];
    }
    if k :| 0 <= k < |all| && x in DaySlots(all[k], duration) {
      if k > 0 {
        assert days[k - 1] == all[k];
      }
    }
  }

  /**
    The collected slots are exactly the offerable slots of the visited days: sound (each was
    generated for a visited day and passes the test) and complete (none is missed).
   */
  lemma {:induction false} OpenSlotsFromMembers(current: int, endDate: int, now: int, booked: seq<Interval>, duration: int, x: int)
    requires duration > 0
    ensures x in OpenSlotsFrom(current, endDate, now, booked, duration) <==>
      Offerable(x, now, booked, duration) && OnSomeDay(x, VisitedDays(current, endDate), duration)
    decreases endDate - current
  {
    if current <= endDate {
      var next := current + MinutesPerDay;
      OpenSlotsFromMembers(next, endDate, now, booked, duration, x);
      FilterMembers(DaySlots(current, duration), OfferableIn(now, booked, duration), x);
      assert VisitedDays(current, endDate) == [current] + VisitedDays(next, endDate);
      OnSomeDayCons(x, current, VisitedDays(next, endDate), duration);
    }
  }

  /**
    With the day count of the query: a slot is collected exactly when it is offerable and
    one of the slots of the `k`-th day after the start, for some `0 <= k <= daysAhead`.
   */
  lemma OpenSlotsWithin(start: int, daysAhead: int, now: int, booked: seq<Interval>, duration: int, x: int)
    requires duration > 0
    ensures x in OpenSlotsFrom(start, EndDate(start, daysAhead), now, booked, duration) <==>
      Offerable(x, now, booked, duration)
      && exists k :: 0 <= k <= daysAhead && x in DaySlots(NthDay(start, k), duration)
  {
    var v := VisitedDays(start, EndDate(start, daysAhead));
    OpenSlotsFromMembers(start, EndDate(start, daysAhead), now, booked, duration, x);
    VisitedDaysOfWindow(start, daysAhead);
    assert OnSomeDay(x, v, duration) <==> exists k :: 0 <= k < |v| && x in DaySlots(v[k], duration);
    if k :| 0 <= k <= daysAhead && x in DaySlots(NthDay(start, k), duration) {
      assert v[k] == NthDay(start, k);
    }
    if k :| 0 <= k < |v| && x in DaySlots(v[k], duration) {
      assert v[k] == NthDay(start, k);
    }
  }

  lemma {:induction false} FilterIncreasing(s: seq<int>, keep: int -> bool)
    requires StrictlyIncreasing(s)
    ensures StrictlyIncreasing(Filter(s, keep))
  {
    if s != [] {
      var t := s[1..];
      FilterIncreasing(t, keep);
      var ft := Filter(t, keep);
      forall j | 0 <= j < |ft| ensures s[0] < ft[j] {
        var k :| 0 <= k < |t| && t[k] == ft[j];
        assert s[k + 1] == t[k];
      }
      assert Filter(s, keep) == (if keep(s[0]) then [s[0]] else []) + ft;
    }
  }

  lemma AppendIncreasing(a: seq<int>, b: seq<int>)
    requires StrictlyIncreasing(a) && StrictlyIncreasing(b)
    requires forall i, j :: 0 <= i < |a| && 0 <= j < |b| ==> a[i] < b[j]
    ensures StrictlyIncreasing(a + b)
  {
  }

  /** Every slot collected from the day of `current` on is at or after that day's opening. */
  lemma {:induction false} OpenSlotsFromLowerBound(current: int, endDate: int, now: int, booked: seq<Interval>, duration: int)
    requires duration > 0
    ensures forall i :: 0 <= i < |OpenSlotsFrom(current, endDate, now, booked, duration)| ==>
      AtHour(current, OpeningHour) <= OpenSlotsFrom(current, endDate, now, booked, duration)[i]
    decreases endDate - current
  {
    if current <= endDate {
      var today := Filter(DaySlots(current, duration), OfferableIn(now, booked, duration));
      OpenSlotsFromLowerBound(current + MinutesPerDay, endDate, now, booked, duration);
      AtHourNextDay(current, OpeningHour);
      SlotSeriesBounds(AtHour(current, OpeningHour), AtHour(current, ClosingHour), duration);
      var later := OpenSlotsFrom(current + MinutesPerDay, endDate, now, booked, duration);
      var r := today + later;
      forall i | 0 <= i < |r| ensures AtHour(current, OpeningHour) <= r[i] {
        if i < |today| {
          assert today[i] in DaySlots(current, duration);
        } else {
          assert r[i] == later[i - |today|];
        }
      }
    }
  }

  /** The collected slots are in strictly increasing time order. */
  lemma {:induction false} OpenSlotsFromIncreasing(current: int, endDate: int, now: int, booked: seq<Interval>, duration: int)
    requires duration > 0
    ensures StrictlyIncreasing(OpenSlotsFrom(current, endDate, now, booked, duration))
    decreases endDate - current
  {
    if current <= endDate {
      var next := current + MinutesPerDay;
      var today := Filter(DaySlots(current, duration), OfferableIn(now, booked, duration));
      var later := OpenSlotsFrom(next, endDate, now, booked, duration);
      OpenSlotsFromIncreasing(next, endDate, now, booked, duration);
      OpenSlotsFromLowerBound(next, endDate, now, booked, duration);
      SlotSeriesIncreasing(AtHour(current, OpeningHour), AtHour(current, ClosingHour), duration);
      FilterIncreasing(DaySlots(current, duration), OfferableIn(now, booked, duration));
      SlotSeriesBounds(AtHour(current, OpeningHour), AtHour(current, ClosingHour), duration);
      AtHourNextDay(current, OpeningHour);
      forall i, j | 0 <= i < |today| && 0 <= j < |later| ensures today[i] < later[j] {
        assert today[i] in DaySlots(current, duration);
        assert AtHour(next, OpeningHour) <= later[j];
      }
      AppendIncreasing(today, later);
    }
  }

  /**
    The reply lists the earliest collected slots, at most fifty of them, in order; a
    collected slot left out is later than every listed one, and only when fifty are listed.
   */
  lemma ReplyListsEarliest(serviceId: string, duration: int, open: seq<int>, timezone: string, startDate: int, endDate: int)
    requires StrictlyIncreasing(open)
    ensures var r := Reply(serviceId, duration, open, timezone, startDate, endDate);
      && r.totalSlots == |open| && r.showing == |r.slots| <= MaxSlotsShown
      && StrictlyIncreasing(r.slots)
      && (forall i :: 0 <= i < |r.slots| ==> r.slots[i] in open)
      && (forall j :: 0 <= j < |open| && open[j] !in r.slots ==>
            |r.slots| == MaxSlotsShown && forall i :: 0 <= i < |r.slots| ==> r.slots[i] < open[j])
  {
    var r := Reply(serviceId, duration, open, timezone, startDate, endDate);
    forall j | 0 <= j < |r.slots| ensures open[j] in r.slots {
      assert r.slots[j] == open[j];
    }
  }

  /**
    The answer to each query: 400 exactly when the company or the service id is missing or
    empty, 404 exactly when no company has that slug or it offers no service with that id,
    500 exactly when both exist but the date or the day count cannot be read or the window
    ends outside the range of `Date`, and 200 otherwise.
   */
  lemma AvailabilityErrors(companies: seq<Company>, services: seq<Service>, bookings: seq<Booking>,
                           q: AvailabilityQuery, now: int)
    requires KeysUnique(companies, SlugKey) && KeysUnique(services, ServiceKey)
    requires PositiveDurations(services)
    ensures var resp := AvailabilitySpec(companies, services, bookings, q, now);
      var given := Present(q.company) && Present(q.serviceId);
      var listed := given && SlugOffersService(companies, services, q.company.value, q.serviceId.value);
      var readable := !q.date.InvalidDate? && !q.days.NotANumber? && WindowInRange(q.date, q.days, now);
      && (resp.code == BAD_REQUEST <==> !given)
      && (resp.code == NOT_FOUND <==> given && !listed)
      && (resp.code == INTERNAL_ERROR <==> listed && !readable)
      && (resp.Ok? <==> listed && readable)
      && (resp.Ok? ==> resp.code == OK)
  {
    if Present(q.company) && Present(q.serviceId) {
      CompanyAndServiceFound(companies, services, q.company.value, q.serviceId.value);
    }
  }

  /** A booking outside the query does not block any slot. */
  lemma UnconsideredBookingIgnored(bookings: seq<Booking>, b: Booking, companyId: string, serviceId: string, from: int, to: int)
    requires !Considered(b, companyId, serviceId, from, to)
    ensures BookedIntervals(bookings + [b], companyId, serviceId, from, to) == BookedIntervals(bookings, companyId, serviceId, from, to)
  {
    var keep := ConsideredIn(companyId, serviceId, from, to);
    FilterAppend(bookings, [b], keep);
    assert [b][1..] == [];
    assert Filter([b], keep) == [];
    assert Filter(bookings, keep) + [] == Filter(bookings, keep);
  }

  /**
    Cancelled and completed bookings, and bookings that start before the start date or after
    the end date, do not change the answer, even one still running at the start date, or
    one starting later on the last visited day, when it overlaps a slot that is listed.
   */
  lemma BookingOutsideQueryIgnored(companies: seq<Company>, services: seq<Service>, bookings: seq<Booking>,
                                   q: AvailabilityQuery, now: int, b: Booking)
    requires PositiveDurations(services)
    requires || !Active(b.status)
             || (!q.date.InvalidDate? && b.startTime < StartDate(q.date, now))
             || (!q.date.InvalidDate? && !q.days.NotANumber?
                 && b.startTime > EndDate(StartDate(q.date, now), DaysAhead(q.days)))
    ensures AvailabilitySpec(companies, services, bookings + [b], q, now)
         == AvailabilitySpec(companies, services, bookings, q, now)
  {
    if && Present(q.company) && Present(q.serviceId) && CompanyBySlug(companies, q.company.value).Some?
       && !q.date.InvalidDate? && !q.days.NotANumber?
    {
      var c := CompanyBySlug(companies, q.company.value).value;
      var start := StartDate(q.date, now);
      UnconsideredBookingIgnored(bookings, b, c.id, q.serviceId.value, start, EndDate(start, DaysAhead(q.days)));
    }
  }

  /**
    For a query that finds its company and service, the reply lists, in time order and at
    most fifty at a time, slots that are in the future, clash with no considered booking
    and are one of the slots of the start day or of the next `daysAhead` days; every such
    slot is listed, unless fifty earlier ones already are. `totalSlots` counts the slots the
    day loop collected, and `showing` is the smaller of that count and fifty.
   */
  lemma AvailabilityOffers(companies: seq<Company>, services: seq<Service>, bookings: seq<Booking>,
                           q: AvailabilityQuery, now: int, c: Company, s: Service)
    requires PositiveDurations(services)
    requires Present(q.company) && Present(q.serviceId)
    requires CompanyBySlug(companies, q.company.value) == Some(c)
    requires ServiceOf(services, q.serviceId.value, c.id) == Some(s)
    requires !q.date.InvalidDate? && !q.days.NotANumber? && WindowInRange(q.date, q.days, now)
    ensures var resp := AvailabilitySpec(companies, services, bookings, q, now);
      var start := StartDate(q.date, now);
      var n := DaysAhead(q.days);
      var booked := BookedIntervals(bookings, c.id, s.id, start, EndDate(start, n));
      && resp.Ok? && resp.code == OK
      && resp.body.duration == s.durationMinutes && resp.body.timezone == c.timezone
      && resp.body.totalSlots == |OpenSlotsFrom(start, EndDate(start, n), now, booked, s.durationMinutes)|
      && resp.body.showing == Min(resp.body.totalSlots, MaxSlotsShown)
      && var listed := resp.body.slots;
      && StrictlyIncreasing(listed) && |listed| <= MaxSlotsShown
      && (forall x :: x in listed ==>
            Offerable(x, now, booked, s.durationMinutes)
            && exists k :: 0 <= k <= n && x in DaySlots(NthDay(start, k), s.durationMinutes))
      && (forall x, k ::
            (0 <= k <= n && x in DaySlots(NthDay(start, k), s.durationMinutes)
             && Offerable(x, now, booked, s.durationMinutes) && x !in listed) ==>
            |listed| == MaxSlotsShown && forall i :: 0 <= i < |listed| ==> listed[i] < x)
  {
    var start := StartDate(q.date, now);
    var n := DaysAhead(q.days);
    var end := EndDate(start, n);
    var d := s.durationMinutes;
    var booked := BookedIntervals(bookings, c.id, s.id, start, end);
    var open := OpenSlotsFrom(start, end, now, booked, d);
    var r := Reply(q.serviceId.value, d, open, c.timezone, start, end);
    OpenSlotsFromIncreasing(start, end, now, booked, d);
    ReplyListsEarliest(q.serviceId.value, d, open, c.timezone, start, end);
    forall x | x in r.slots
      ensures Offerable(x, now, booked, d) && exists k :: 0 <= k <= n && x in DaySlots(NthDay(start, k), d)
    {
      OpenSlotsWithin(start, n, now, booked, d, x);
    }
    forall x, k | 0 <= k <= n && x in DaySlots(NthDay(start, k), d) && Offerable(x, now, booked, d) && x !in r.slots
      ensures |r.slots| == MaxSlotsShown && forall i :: 0 <= i < |r.slots| ==> r.slots[i] < x
    {
      OpenSlotsWithin(start, n, now, booked, d, x);
      var j :| 0 <= j < |open| && open[j] == x;
    }
  }

  /**
    Without `days` (or with it empty) the window is a week: eight days are visited, and the
    reply's date range ends seven days after it starts.
   */
  lemma DefaultWindowIsAWeek(start: int)
    ensures |VisitedDays(start, EndDate(start, DaysAhead(DefaultDays)))| == 8
    ensures DayStart(EndDate(start, DaysAhead(DefaultDays))) == DayStart(start) + 7 * MinutesPerDay
  {
    VisitedDaysOfWindow(start, DefaultDaysAhead);
  }
}
