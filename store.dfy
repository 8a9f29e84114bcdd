/**
  The hosted database the route handlers talk to, as an in-memory store: one `seq` per table
  (`companies`, `services`, `bookings`), the query builder's `eq` / `in` / `lte` / `gte`
  filters as a plain `Filter`, and `.single()` as "exactly one row, otherwise nothing".
  Writes either succeed or are refused; a refusal for any reason other than a key clash is
  an input (`accepts`), since it comes from outside the program.
 */
module Store {
  import opened Wrappers

  datatype BookingStatus = Pending | Confirmed | Cancelled | Completed

  /** `booked_via` */
  datatype Channel = Web | AiAgent | Api

  /** `.in('status', ['pending', 'confirmed'])`: the statuses that occupy a slot. */
  predicate Active(s: BookingStatus)
  {
    s == Pending || s == Confirmed
  }

  datatype Company = Company(
    id: string, name: string, slug: string, email: string,
    phone: Option<string>, description: Option<string>, address: Option<string>,
    city: Option<string>, state: Option<string>, postalCode: Option<string>,
    country: string, timezone: string, industry: Option<string>, isActive: bool)

  datatype Service = Service(
    id: string, companyId: string, name: string, durationMinutes: int,
    price: Option<real>, currency: string, isActive: bool)

  /** The optional columns only the medical endpoint fills in. */
  datatype MedicalFields = MedicalFields(
    dateOfBirth: Option<string>, insuranceProvider: Option<string>,
    reasonForVisit: Option<string>, allergies: Option<string>, currentMedications: Option<string>)

  const NoMedicalFields := MedicalFields(None, None, None, None, None)

  /** A booking occupies `[startTime, endTime)`, in minutes. */
  datatype Booking = Booking(
    id: string, companyId: string, serviceId: string,
    customerName: string, customerEmail: string, customerPhone: Option<string>,
    startTime: int, endTime: int, status: BookingStatus, notes: Option<string>,
    bookedVia: Channel, agentName: string, medical: MedicalFields)

  function CompanyKey(c: Company): string { c.id }
  function SlugKey(c: Company): string { c.slug }
  function ServiceKey(s: Service): string { s.id }
  function BookingKey(b: Booking): string { b.id }

  /** No two rows share a key. */
  predicate KeysUnique<T>(rows: seq<T>, key: T -> string)
  {
    forall i, j :: 0 <= i < j < |rows| ==> key(rows[i]) != key(rows[j])
  }

  /** No row has key `k`. */
  predicate KeyFree<T>(rows: seq<T>, key: T -> string, k: string)
  {
    forall i :: 0 <= i < |rows| ==> key(rows[i]) != k
  }

  predicate PositiveDurations(services: seq<Service>)
  {
    forall i :: 0 <= i < |services| ==> services[i].durationMinutes > 0
  }

  /** The rows a filtered query returns, in table order. */
  function Filter<T>(rows: seq<T>, keep: T -> bool): (r: seq<T>)
    ensures |r| <= |rows|
    ensures forall i :: 0 <= i < |r| ==> r[i] in rows && keep(r[i])
    ensures forall i :: 0 <= i < |rows| && keep(rows[i]) ==> rows[i] in r
  {
    if rows == [] then []
    else (if keep(rows[0]) then [rows[0]] else []) + Filter(rows[1..], keep)
  }

  /** A value is in the filtered rows exactly when it is a row that passes the filter. */
  lemma FilterMembers<T>(rows: seq<T>, keep: T -> bool, x: T)
    ensures x in Filter(rows, keep) <==> x in rows && keep(x)
  {
    var r := Filter(rows, keep);
    if x in rows && keep(x) {
      var i :| 0 <= i < |rows| && rows[i] == x;
      assert rows[i] in r;
    }
    if x in r {
      var i :| 0 <= i < |r| && r[i] == x;
      assert r[i] in rows && keep(r[i]);
    }
  }

  /** Filtering a concatenation filters each part. */
  lemma {:induction false} FilterAppend<T>(a: seq<T>, b: seq<T>, keep: T -> bool)
    ensures Filter(a + b, keep) == Filter(a, keep) + Filter(b, keep)
  {
    if a == [] {
      assert a + b == b;
    } else {
      assert (a + b)[0] == a[0] && (a + b)[1..] == a[1..] + b;
      FilterAppend(a[1..], b, keep);
    }
  }

  /** `.single()` */
  function Single<T>(rows: seq<T>): Option<T>
  {
    if |rows| == 1 then Some(rows[0]) else None
  }

  /** At most one row satisfies `keep`. */
  ghost predicate AtMostOne<T>(rows: seq<T>, keep: T -> bool)
  {
    forall i, j :: 0 <= i < |rows| && 0 <= j < |rows| && keep(rows[i]) && keep(rows[j]) ==> i == j
  }

  lemma {:induction false} FilterOfAtMostOne<T>(rows: seq<T>, keep: T -> bool)
    requires AtMostOne(rows, keep)
    ensures |Filter(rows, keep)| <= 1
  {
    if rows != [] {
      var tail := rows[1..];
      assert AtMostOne(tail, keep) by {
        forall i, j | 0 <= i < |tail| && 0 <= j < |tail| && keep(tail[i]) && keep(tail[j])
          ensures i == j
        {
          assert tail[i] == rows[i + 1] && tail[j] == rows[j + 1];
        }
      }
      FilterOfAtMostOne(tail, keep);
      var ft := Filter(tail, keep);
      if |ft| > 0 {
        var j :| 0 <= j < |tail| && tail[j] == ft[0];
        assert rows[j + 1] == ft[0] && keep(rows[j + 1]);
        assert !keep(rows[0]);
      }
      assert Filter(rows, keep) == (if keep(rows[0]) then [rows[0]] else []) + ft;
    }
  }

  /**
    `.single()` over a filter that at most one row can satisfy finds a row exactly when one
    satisfies it, and that row is in the table and satisfies the filter.
   */
  lemma SingleOfAtMostOne<T>(rows: seq<T>, keep: T -> bool)
    requires AtMostOne(rows, keep)
    ensures Single(Filter(rows, keep)).Some? <==> exists i :: 0 <= i < |rows| && keep(rows[i])
    ensures Single(Filter(rows, keep)).Some? ==>
      Single(Filter(rows, keep)).value in rows && keep(Single(Filter(rows, keep)).value)
  {
    FilterOfAtMostOne(rows, keep);
    var f := Filter(rows, keep);
    if i :| 0 <= i < |rows| && keep(rows[i]) {
      assert rows[i] in f;
    }
    if |f| == 1 {
      assert f[0] in f;
    }
  }

  lemma {:induction false} FilterKeepsKeysUnique<T>(rows: seq<T>, keep: T -> bool, key: T -> string)
    requires KeysUnique(rows, key)
    ensures KeysUnique(Filter(rows, keep), key)
  {
    if rows != [] {
      var tail := rows[1..];
      assert KeysUnique(tail, key) by {
        forall i, j | 0 <= i < j < |tail| ensures key(tail[i]) != key(tail[j]) {
          assert tail[i] == rows[i + 1] && tail[j] == rows[j + 1];
        }
      }
      FilterKeepsKeysUnique(tail, keep, key);
      var ft := Filter(tail, keep);
      if keep(rows[0]) {
        forall j | 0 <= j < |ft| ensures key(rows[0]) != key(ft[j]) {
          assert ft[j] in tail;
          var k :| 0 <= k < |tail| && tail[k] == ft[j];
          assert rows[k + 1] == ft[j];
        }
      }
    }
  }

  lemma AppendKeepsKeysUnique<T>(rows: seq<T>, key: T -> string, x: T)
    requires KeysUnique(rows, key)
    requires KeyFree(rows, key, key(x))
    ensures KeysUnique(rows + [x], key)
  {
  }

  /** The filter of a delete by key: keep the rows whose key is not `k`. */
  function KeyIsNot<T>(key: T -> string, k: string): T -> bool
  {
    (y: T) => key(y) != k
  }

  /** Removing, by key, a row just appended with a fresh key gives back the table. */
  lemma {:induction false} FilterOutAppended<T>(rows: seq<T>, key: T -> string, x: T)
    requires KeyFree(rows, key, key(x))
    ensures Filter(rows + [x], KeyIsNot(key, key(x))) == rows
  {
    if rows == [] {
      assert [x][1..] == [];
    } else {
      assert (rows + [x])[1..] == rows[1..] + [x];
      FilterOutAppended(rows[1..], key, x);
      assert rows == [rows[0]] + rows[1..];
    }
  }

  /** `.eq('slug', slug).single()` on companies */
  function CompanyBySlug(companies: seq<Company>, slug: string): (r: Option<Company>)
    ensures r.Some? ==> r.value in companies && r.value.slug == slug
  {
    Single(Filter(companies, (c: Company) => c.slug == slug))
  }

  /** `.eq('id', id).single()` on companies */
  function CompanyById(companies: seq<Company>, id: string): (r: Option<Company>)
    ensures r.Some? ==> r.value in companies && r.value.id == id
  {
    Single(Filter(companies, (c: Company) => c.id == id))
  }

  /** `.eq('id', id).eq('company_id', companyId).single()` on services */
  function ServiceOf(services: seq<Service>, id: string, companyId: string): (r: Option<Service>)
    ensures r.Some? ==> r.value in services && r.value.id == id && r.value.companyId == companyId
  {
    Single(Filter(services, (s: Service) => s.id == id && s.companyId == companyId))
  }

  /** `.eq('id', id)` on services, for the booking lookup's join */
  function ServiceById(services: seq<Service>, id: string): (r: Option<Service>)
    ensures r.Some? ==> r.value in services && r.value.id == id
  {
    Single(Filter(services, (s: Service) => s.id == id))
  }

  predicate OwnedBy(b: Booking, id: string, email: string)
  {
    b.id == id && b.customerEmail == email
  }

  /** `.eq('id', id).eq('customer_email', email).single()` on bookings */
  function BookingFor(bookings: seq<Booking>, id: string, email: string): (r: Option<Booking>)
    ensures r.Some? ==> r.value in bookings && OwnedBy(r.value, id, email)
  {
    Single(Filter(bookings, (b: Booking) => OwnedBy(b, id, email)))
  }

  /** `.update({ status: 'cancelled' }).eq('id', id).eq('customer_email', email)` */
  function CancelWhere(bookings: seq<Booking>, id: string, email: string): seq<Booking>
  {
    seq(|bookings|, i requires 0 <= i < |bookings| =>
      if OwnedBy(bookings[i], id, email) then bookings[i].(status := Cancelled) else bookings[i])
  }

  /** With unique slugs, the slug lookup finds a company exactly when one has that slug. */
  lemma CompanyBySlugFinds(companies: seq<Company>, slug: string)
    requires KeysUnique(companies, SlugKey)
    ensures CompanyBySlug(companies, slug).Some? <==> exists i :: 0 <= i < |companies| && companies[i].slug == slug
    ensures CompanyBySlug(companies, slug).Some? ==>
      CompanyBySlug(companies, slug).value in companies && CompanyBySlug(companies, slug).value.slug == slug
  {
    SingleOfAtMostOne(companies, (c: Company) => c.slug == slug);
  }

  /** With unique service ids, the service lookup finds the service exactly when that company owns it. */
  lemma ServiceOfFinds(services: seq<Service>, id: string, companyId: string)
    requires KeysUnique(services, ServiceKey)
    ensures ServiceOf(services, id, companyId).Some? <==>
      exists i :: 0 <= i < |services| && services[i].id == id && services[i].companyId == companyId
    ensures ServiceOf(services, id, companyId).Some? ==>
      var s := ServiceOf(services, id, companyId).value;
      s in services && s.id == id && s.companyId == companyId
  {
    SingleOfAtMostOne(services, (s: Service) => s.id == id && s.companyId == companyId);
  }

  /** With unique booking ids, the lookup finds a booking exactly when one has that id and e-mail. */
  lemma BookingForFinds(bookings: seq<Booking>, id: string, email: string)
    requires KeysUnique(bookings, BookingKey)
    ensures BookingFor(bookings, id, email).Some? <==>
      exists i :: 0 <= i < |bookings| && OwnedBy(bookings[i], id, email)
    ensures BookingFor(bookings, id, email).Some? ==>
      BookingFor(bookings, id, email).value in bookings && OwnedBy(BookingFor(bookings, id, email).value, id, email)
  {
    SingleOfAtMostOne(bookings, (b: Booking) => OwnedBy(b, id, email));
  }

  /** Some company has slug `slug` and some service with id `serviceId` belongs to it. */
  predicate SlugOffersService(companies: seq<Company>, services: seq<Service>, slug: string, serviceId: string)
  {
    exists i, j :: 0 <= i < |companies| && 0 <= j < |services|
      && companies[i].slug == slug && services[j].id == serviceId && services[j].companyId == companies[i].id
  }

  /**
    The two lookups every booking route makes, company by slug and then the service by id
    within that company, both succeed exactly when the slug names a company offering it.
   */
  lemma CompanyAndServiceFound(companies: seq<Company>, services: seq<Service>, slug: string, serviceId: string)
    requires KeysUnique(companies, SlugKey) && KeysUnique(services, ServiceKey)
    ensures (CompanyBySlug(companies, slug).Some?
             && ServiceOf(services, serviceId, CompanyBySlug(companies, slug).value.id).Some?)
        <==> SlugOffersService(companies, services, slug, serviceId)
  {
    CompanyBySlugFinds(companies, slug);
    var company := CompanyBySlug(companies, slug);
    if company.Some? {
      var c := company.value;
      ServiceOfFinds(services, serviceId, c.id);
      var k :| 0 <= k < |companies| && companies[k] == c;
      forall i | 0 <= i < |companies| && companies[i].slug == slug ensures companies[i] == c {
        assert SlugKey(companies[i]) == SlugKey(companies[k]);
      }
    }
  }

  /** A booking just inserted under a fresh id is what the lookup by its id and e-mail returns. */
  lemma LookupFindsInserted(bookings: seq<Booking>, b: Booking)
    requires KeysUnique(bookings, BookingKey)
    requires KeyFree(bookings, BookingKey, b.id)
    ensures BookingFor(bookings + [b], b.id, b.customerEmail) == Some(b)
  {
    var all := bookings + [b];
    AppendKeepsKeysUnique(bookings, BookingKey, b);
    BookingForFinds(all, b.id, b.customerEmail);
    assert OwnedBy(all[|bookings|], b.id, b.customerEmail);
    var found := BookingFor(all, b.id, b.customerEmail).value;
    var k :| 0 <= k < |all| && all[k] == found;
    assert k == |bookings|;
  }

  /**
    Cancelling changes nothing but the status, and that only of the rows with the id and
    e-mail, which become cancelled; in particular every row keeps its keys and times.
   */
  lemma CancelWhereKeepsKeys(bookings: seq<Booking>, id: string, email: string)
    ensures var r := CancelWhere(bookings, id, email);
      |r| == |bookings| &&
      forall i :: 0 <= i < |r| ==>
        && r[i].(status := bookings[i].status) == bookings[i]
        && r[i].status == (if OwnedBy(bookings[i], id, email) then Cancelled else bookings[i].status)
        && r[i].id == bookings[i].id && r[i].customerEmail == bookings[i].customerEmail
        && r[i].companyId == bookings[i].companyId && r[i].serviceId == bookings[i].serviceId
        && r[i].startTime == bookings[i].startTime && r[i].endTime == bookings[i].endTime
  {
  }

  /** Cancelling twice is cancelling once. */
  lemma CancelWhereIdempotent(bookings: seq<Booking>, id: string, email: string)
    ensures CancelWhere(CancelWhere(bookings, id, email), id, email) == CancelWhere(bookings, id, email)
  {
  }

  /** When no row has that id and e-mail, the update changes nothing. */
  lemma CancelWhereNoMatch(bookings: seq<Booking>, id: string, email: string)
    requires forall i :: 0 <= i < |bookings| ==> !OwnedBy(bookings[i], id, email)
    ensures CancelWhere(bookings, id, email) == bookings
  {
  }

  class Database {
    var companies: seq<Company>
    var services: seq<Service>
    var bookings: seq<Booking>

    /** Primary keys and the slug are unique, and every service has a positive duration. */
    ghost predicate Valid()
      reads this
    {
      && KeysUnique(companies, CompanyKey)
      && KeysUnique(companies, SlugKey)
      && KeysUnique(services, ServiceKey)
      && PositiveDurations(services)
      && KeysUnique(bookings, BookingKey)
    }

    constructor ()
      ensures Valid()
      ensures companies == [] && services == [] && bookings == []
    {
      companies, services, bookings := [], [], [];
    }

    /** `.from('companies').insert(c)`: refused on a clashing id or slug. */
    method InsertCompany(c: Company, accepts: bool) returns (ok: bool)
      requires Valid()
      modifies this
      ensures Valid()
      ensures ok <==> accepts && KeyFree(old(companies), CompanyKey, c.id) && KeyFree(old(companies), SlugKey, c.slug)
      ensures companies == if ok then old(companies) + [c] else old(companies)
      ensures services == old(services) && bookings == old(bookings)
    {
      ok := accepts && KeyFree(companies, CompanyKey, c.id) && KeyFree(companies, SlugKey, c.slug);
      if ok {
        AppendKeepsKeysUnique(companies, CompanyKey, c);
        AppendKeepsKeysUnique(companies, SlugKey, c);
        companies := companies + [c];
      }
    }

    /** `.from('companies').delete().eq('id', id)` */
    method DeleteCompany(id: string)
      requires Valid()
      modifies this
      ensures Valid()
      ensures companies == Filter(old(companies), KeyIsNot(CompanyKey, id))
      ensures services == old(services) && bookings == old(bookings)
    {
      var keep := KeyIsNot(CompanyKey, id);
      FilterKeepsKeysUnique(companies, keep, CompanyKey);
      FilterKeepsKeysUnique(companies, keep, SlugKey);
      companies := Filter(companies, keep);
    }

    /** `.from('services').insert(s)`: refused on a clashing id. */
    method InsertService(s: Service, accepts: bool) returns (ok: bool)
      requires Valid()
      requires s.durationMinutes > 0
      modifies this
      ensures Valid()
      ensures ok <==> accepts && KeyFree(old(services), ServiceKey, s.id)
      ensures services == if ok then old(services) + [s] else old(services)
      ensures companies == old(companies) && bookings == old(bookings)
    {
      ok := accepts && KeyFree(services, ServiceKey, s.id);
      if ok {
        AppendKeepsKeysUnique(services, ServiceKey, s);
        services := services + [s];
      }
    }

    /** `.from('bookings').insert(b)`: refused on a clashing id. */
    method InsertBooking(b: Booking, accepts: bool) returns (ok: bool)
      requires Valid()
      modifies this
      ensures Valid()
      ensures ok <==> accepts && KeyFree(old(bookings), BookingKey, b.id)
      ensures bookings == if ok then old(bookings) + [b] else old(bookings)
      ensures companies == old(companies) && services == old(services)
    {
      ok := accepts && KeyFree(bookings, BookingKey, b.id);
      if ok {
        AppendKeepsKeysUnique(bookings, BookingKey, b);
        bookings := bookings + [b];
      }
    }

    /**
      `.from('bookings').update({ status: 'cancelled' }).eq('id', id).eq('customer_email', email).select()`:
      returns the updated rows. An update the store refuses (`accepts` false) changes nothing
      and returns no row.
     */
    method CancelBookings(id: string, email: string, accepts: bool) returns (updated: seq<Booking>)
      requires Valid()
      modifies this
      ensures Valid()
      ensures bookings == if accepts then CancelWhere(old(bookings), id, email) else old(bookings)
      ensures updated == if accepts then Filter(bookings, (b: Booking) => OwnedBy(b, id, email)) else []
      ensures companies == old(companies) && services == old(services)
    {
      if !accepts {
        return [];
      }
      CancelWhereKeepsKeys(bookings, id, email);
      bookings := CancelWhere(bookings, id, email);
      updated := Filter(bookings, (b: Booking) => OwnedBy(b, id, email));
    }
  }
}
