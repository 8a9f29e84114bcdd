/**
  `POST /api/companies/register` (src/app/api/companies/register/route.ts): validate the
  request, refuse a slug that is already taken, insert the company and its first service,
  and delete the company again when the service cannot be inserted.
 */
module Registration {
  import opened Wrappers
  import opened Store
  import opened Formats
  import opened Slugs
  import SeedGermany

  datatype ServiceInput = ServiceInput(
    name: Option<string>, durationMinutes: Option<int>, price: Option<real>, currency: Option<string>)

  datatype RegisterRequest = RegisterRequest(
    name: Option<string>, slug: Option<string>, email: Option<string>,
    phone: Option<string>, description: Option<string>, address: Option<string>,
    city: Option<string>, state: Option<string>, postalCode: Option<string>,
    country: Option<string>, timezone: Option<string>, service: Option<ServiceInput>)

  const DefaultCountry := "USA"
  const DefaultTimezone := "America/New_York"
  const DefaultCurrency := "USD"
  const DefaultAppUrl := "https://ai-agent-booking-test.vercel.app"
  const MinDuration := 5
  const MaxDuration := 480

  /** `/^[a-z0-9-]+$/` */
  predicate MatchesSlugPattern(s: string)
  {
    |s| > 0 && forall i :: 0 <= i < |s| ==> IsSlugChar(s[i])
  }

  /** The service part of `RegisterSchema`. */
  predicate ValidServiceInput(s: ServiceInput)
  {
    s.name.Some? && Utf16Length(s.name.value) >= 2
    && s.durationMinutes.Some? && MinDuration <= s.durationMinutes.value <= MaxDuration
  }

  /** `RegisterSchema`; `min(2)` counts UTF-16 code units, as JavaScript's `length` does. */
  predicate ValidRegisterRequest(r: RegisterRequest)
  {
    r.name.Some? && Utf16Length(r.name.value) >= 2
    && r.slug.Some? && Utf16Length(r.slug.value) >= 2 && MatchesSlugPattern(r.slug.value)
    && r.email.Some? && IsEmail(r.email.value)
    && r.service.Some? && ValidServiceInput(r.service.value)
  }

  /** A zod `.default(d)`: it replaces a missing value only, not an empty one. */
  function Default(s: Option<string>, d: string): string
  {
    if s.Some? then s.value else d
  }

  /** The company row inserted for a valid request. */
  function NewCompany(id: string, r: RegisterRequest): Company
    requires ValidRegisterRequest(r)
  {
    Company(id, r.name.value, r.slug.value, r.email.value, r.phone, r.description, r.address,
            r.city, r.state, r.postalCode, Default(r.country, DefaultCountry),
            Default(r.timezone, DefaultTimezone), None, true)
  }

  /** The first service row; an empty currency falls back to USD as a missing one does. */
  function NewService(id: string, companyId: string, s: ServiceInput): Service
    requires ValidServiceInput(s)
  {
    Service(id, companyId, s.name.value, s.durationMinutes.value, s.price, OrElse(s.currency, DefaultCurrency), true)
  }

  /** The public booking page of a company: the app's base URL, a '/', and the slug. */
  function BookingUrl(appUrl: Option<string>, slug: string): (r: string)
    ensures |r| > |slug| && r[|r| - |slug| - 1..] == "/" + slug
    ensures r[..|r| - |slug| - 1] == (if Present(appUrl) then appUrl.value else DefaultAppUrl)
  {
    OrElse(appUrl, DefaultAppUrl) + "/" + slug
  }

  /** The 201 reply. */
  datatype Registered = Registered(
    companyId: string, companyName: string, companySlug: string,
    serviceId: string, serviceName: string, bookingUrl: string)

  /**
    The reply, and the companies and services tables afterwards. `companyAccepts` and
    `serviceAccepts` say whether the store accepts each insert; the row ids are the ones the
    store would assign.
   */
  function RegisterPost(companies: seq<Company>, services: seq<Service>, req: RegisterRequest,
                        companyId: string, serviceId: string, companyAccepts: bool, serviceAccepts: bool,
                        appUrl: Option<string>): (out: (Response<Registered>, seq<Company>, seq<Service>))
    ensures out.0.Err? ==> out.1 == companies && out.2 == services
    ensures out.0.Ok? ==>
      && out.0.code == CREATED
      && |out.1| == |companies| + 1 && out.1[..|companies|] == companies
      && |out.2| == |services| + 1 && out.2[..|services|] == services
      && out.1[|companies|].id == companyId && out.2[|services|].id == serviceId
      && out.2[|services|].companyId == companyId
  {
    if !ValidRegisterRequest(req) then (Err(BAD_REQUEST, "Invalid request"), companies, services)
    else if CompanyBySlug(companies, req.slug.value).Some? then
      (Err(CONFLICT, "Company slug already exists. Please choose a different name."), companies, services)
    else
      var c := NewCompany(companyId, req);
      if !(companyAccepts && KeyFree(companies, CompanyKey, companyId) && KeyFree(companies, SlugKey, c.slug)) then
        (Err(INTERNAL_ERROR, "Failed to create company"), companies, services)
      else
        var s := NewService(serviceId, companyId, req.service.value);
        if !(serviceAccepts && KeyFree(services, ServiceKey, serviceId)) then
          FilterOutAppended(companies, CompanyKey, c);
          (Err(INTERNAL_ERROR, "Failed to create service"), Filter(companies + [c], KeyIsNot(CompanyKey, companyId)), services)
        else
          (Ok(CREATED, Registered(c.id, c.name, c.slug, s.id, s.name, BookingUrl(appUrl, c.slug))),
           companies + [c], services + [s])
  }

  /** POST /api/companies/register */
  method Register(db: Database, req: RegisterRequest, companyId: string, serviceId: string,
                  companyAccepts: bool, serviceAccepts: bool, appUrl: Option<string>)
    returns (resp: Response<Registered>)
    requires db.Valid()
    modifies db
    ensures db.Valid()
    ensures (resp, db.companies, db.services)
         == RegisterPost(old(db.companies), old(db.services), req, companyId, serviceId, companyAccepts, serviceAccepts, appUrl)
    ensures db.bookings == old(db.bookings)
  {
    if !ValidRegisterRequest(req) {
      return Err(BAD_REQUEST, "Invalid request");
    }
    var existingCompany := CompanyBySlug(db.companies, req.slug.value);
    if existingCompany.Some? {
      return Err(CONFLICT, "Company slug already exists. Please choose a different name.");
    }
    var company := NewCompany(companyId, req);
    var companyOk := db.InsertCompany(company, companyAccepts);
    if !companyOk {
      return Err(INTERNAL_ERROR, "Failed to create company");
    }
    var service := NewService(serviceId, companyId, req.service.value);
    var serviceOk := db.InsertService(service, serviceAccepts);
    if !serviceOk {
      db.DeleteCompany(companyId);
      return Err(INTERNAL_ERROR, "Failed to create service");
    }
    resp := Ok(CREATED, Registered(company.id, company.name, company.slug, service.id, service.name,
                                   BookingUrl(appUrl, company.slug)));
  }

  /**
    400 exactly for a request the schema rejects, 409 exactly when some company already has
    the slug, 500 exactly when one of the two inserts fails; and every error leaves both
    tables as they were, the rollback included.
   */
  lemma RegisterOutcomes(companies: seq<Company>, services: seq<Service>, req: RegisterRequest,
                         companyId: string, serviceId: string, companyAccepts: bool, serviceAccepts: bool,
                         appUrl: Option<string>)
    requires KeysUnique(companies, SlugKey)
    ensures var out := RegisterPost(companies, services, req, companyId, serviceId, companyAccepts, serviceAccepts, appUrl);
      && (out.0.code == BAD_REQUEST <==> !ValidRegisterRequest(req))
      && (out.0.code == CONFLICT <==>
            ValidRegisterRequest(req) && exists i :: 0 <= i < |companies| && companies[i].slug == req.slug.value)
      && (out.0.code == INTERNAL_ERROR <==>
            (ValidRegisterRequest(req) && KeyFree(companies, SlugKey, req.slug.value)
             && !(companyAccepts && KeyFree(companies, CompanyKey, companyId)
                  && serviceAccepts && KeyFree(services, ServiceKey, serviceId))))
      && (out.0.Err? ==> out.1 == companies && out.2 == services)
  {
    if ValidRegisterRequest(req) {
      CompanyBySlugFinds(companies, req.slug.value);
      var c := NewCompany(companyId, req);
      if CompanyBySlug(companies, req.slug.value).None? && companyAccepts && KeyFree(companies, CompanyKey, companyId)
         && KeyFree(companies, SlugKey, c.slug) {
        FilterOutAppended(companies, CompanyKey, c);
      }
    }
  }

  /**
    A 201 adds exactly one active company, with the requested slug and no industry, and one
    active service linked to it. A missing country or time zone becomes "USA" or
    "America/New_York" (an empty one is kept); a missing or empty currency becomes "USD".
    Afterwards the slug finds that company and the company offers
    that service, and the booking URL ends in the slug.
   */
  lemma RegisterAddsCompanyAndService(companies: seq<Company>, services: seq<Service>, req: RegisterRequest,
                                      companyId: string, serviceId: string, companyAccepts: bool,
                                      serviceAccepts: bool, appUrl: Option<string>)
    requires KeysUnique(companies, SlugKey) && KeysUnique(services, ServiceKey)
    requires RegisterPost(companies, services, req, companyId, serviceId, companyAccepts, serviceAccepts, appUrl).0.Ok?
    ensures ValidRegisterRequest(req)
    ensures var out := RegisterPost(companies, services, req, companyId, serviceId, companyAccepts, serviceAccepts, appUrl);
      && |out.1| == |companies| + 1 && out.1[..|companies|] == companies
      && |out.2| == |services| + 1 && out.2[..|services|] == services
      && var c := out.1[|companies|];
      && var s := out.2[|services|];
      && c.id == companyId && c.slug == req.slug.value && c.isActive && c.industry.None?
      && s.id == serviceId && s.companyId == companyId && s.isActive
      && c.name == req.name.value && c.email == req.email.value
      && c.country == (if req.country.Some? then req.country.value else "USA")
      && c.timezone == (if req.timezone.Some? then req.timezone.value else "America/New_York")
      && s.name == req.service.value.name.value && s.price == req.service.value.price
      && s.durationMinutes == req.service.value.durationMinutes.value
      && MinDuration <= s.durationMinutes <= MaxDuration
      && s.currency == (if Present(req.service.value.currency) then req.service.value.currency.value else "USD")
      && CompanyBySlug(out.1, req.slug.value) == Some(c)
      && ServiceOf(out.2, serviceId, companyId) == Some(s)
      && out.0.body.companySlug == req.slug.value
      && out.0.body.bookingUrl[|out.0.body.bookingUrl| - |c.slug| - 1..] == "/" + c.slug
  {
    var out := RegisterPost(companies, services, req, companyId, serviceId, companyAccepts, serviceAccepts, appUrl);
    var c := NewCompany(companyId, req);
    var s := NewService(serviceId, companyId, req.service.value);
    assert out.1 == companies + [c] && out.2 == services + [s];
    AppendKeepsKeysUnique(companies, SlugKey, c);
    AppendKeepsKeysUnique(services, ServiceKey, s);
    CompanyBySlugFinds(out.1, c.slug);
    assert out.1[|companies|] == c;
    ServiceOfFinds(out.2, serviceId, companyId);
    assert out.2[|services|] == s;
  }

  /** Registering the same slug a second time is refused with 409 and changes nothing. */
  lemma RegisterTwiceConflicts(companies: seq<Company>, services: seq<Service>, req: RegisterRequest,
                               companyId: string, serviceId: string, companyAccepts: bool, serviceAccepts: bool,
                               appUrl: Option<string>, req2: RegisterRequest, companyId2: string,
                               serviceId2: string, companyAccepts2: bool, serviceAccepts2: bool)
    requires KeysUnique(companies, SlugKey) && KeysUnique(services, ServiceKey)
    requires RegisterPost(companies, services, req, companyId, serviceId, companyAccepts, serviceAccepts, appUrl).0.Ok?
    requires ValidRegisterRequest(req2) && req2.slug == req.slug
    ensures var out := RegisterPost(companies, services, req, companyId, serviceId, companyAccepts, serviceAccepts, appUrl);
      var again := RegisterPost(out.1, out.2, req2, companyId2, serviceId2, companyAccepts2, serviceAccepts2, appUrl);
      again.0.code == CONFLICT && again.1 == out.1 && again.2 == out.2
  {
    RegisterAddsCompanyAndService(companies, services, req, companyId, serviceId, companyAccepts, serviceAccepts, appUrl);
  }

  /**
    Every non-empty slug that either slug function produces matches the registration pattern;
    one of two or more characters passes the schema's whole slug check.
   */
  lemma GeneratedSlugsMatchPattern(name: string)
    ensures |GenerateSlug(name)| > 0 ==> MatchesSlugPattern(GenerateSlug(name))
    ensures |GenerateSlug(name)| >= 2 ==> Utf16Length(GenerateSlug(name)) >= 2
    ensures |SeedGermany.CreateSlug(name)| > 0 ==> MatchesSlugPattern(SeedGermany.CreateSlug(name))
    ensures |SeedGermany.CreateSlug(name)| >= 2 ==> Utf16Length(SeedGermany.CreateSlug(name)) >= 2
  {
  }
}
