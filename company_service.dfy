/** Company administration use cases (internal/service/company_service.go,
    responses of internal/domain/company/dto.go).

    Password hashing is a parameter: `hashed` is what hash.HashPassword
    returned for the owner's password, and `check(password, hash)` is
    hash.CheckPasswordHash. `now` is the clock reading in nanoseconds. */
module CompanyService {
  import opened Common
  import opened Collections
  import opened Paging
  import opened Tables
  import Jwt
  import opened CompanyRepository

  /** CompanyResponse, reduced to the columns the model keeps. */
  datatype CompanyResponse = CompanyResponse(
    id: nat, name: string, email: string, phone: string, address: string, timezone: string,
    logoURL: string, colorPalette: Option<ColorPalette>, fontFamily: string, theme: string,
    status: string, createdAt: int, updatedAt: int)

  /** CompanyAdminResponse: no password hash, no company. */
  datatype CompanyAdminResponse = CompanyAdminResponse(
    id: nat, companyID: nat, fullName: string, email: string, phone: string,
    role: string, isActive: bool, createdAt: int, updatedAt: int)

  datatype CompanyWithOwnerResponse = CompanyWithOwnerResponse(company: CompanyResponse, owner: CompanyAdminResponse)

  datatype LoginResponse = LoginResponse(admin: CompanyAdminResponse, token: Jwt.Token)

  datatype PaginatedCompaniesResponse = PaginatedCompaniesResponse(
    companies: seq<CompanyResponse>, totalCount: nat, page: int, limit: int, totalPages: nat)

  /** CreateCompanyRequest: the fields CreateCompany reads. */
  datatype CreateCompanyRequest = CreateCompanyRequest(
    name: string, email: string, phone: string, address: string, timezone: string,
    ownerName: string, ownerEmail: string, ownerPhone: string, ownerPassword: string)

  /** UpdateCompanyRequest: the fields UpdateCompany reads. */
  datatype UpdateCompanyRequest = UpdateCompanyRequest(
    name: string, email: string, phone: string, address: string, timezone: string)

  datatype LoginRequest = LoginRequest(email: string, password: string)

  /** toCompanyResponse: every modelled column but the theme, which the
      response leaves at its zero value. */
  function ToCompanyResponse(c: Company): (r: CompanyResponse)
    ensures r.theme == ""
    ensures r.id == c.id && r.status == c.status
  {
    CompanyResponse(c.id, c.name, c.email, c.phone, c.address, c.timezone,
                    c.logoURL, c.colorPalette, c.fontFamily, "", c.status, c.createdAt, c.updatedAt)
  }

  /** Two companies have the same response exactly when they differ at
      most in their theme. */
  lemma CompanyResponseOmitsOnlyTheme(a: Company, b: Company)
    ensures ToCompanyResponse(a) == ToCompanyResponse(b) <==> a.(theme := b.theme) == b
  {
  }

  /** toAdminResponse */
  function ToAdminResponse(a: CompanyAdmin): (r: CompanyAdminResponse)
    ensures r.id == a.id && r.companyID == a.companyID && r.email == a.email
    ensures r.fullName == a.fullName && r.phone == a.phone
    ensures r.role == a.role && r.isActive == a.isActive
    ensures r.createdAt == a.createdAt && r.updatedAt == a.updatedAt
  {
    CompanyAdminResponse(a.id, a.companyID, a.fullName, a.email, a.phone, a.role, a.isActive, a.createdAt, a.updatedAt)
  }

  /** The admin response never depends on the password hash or the loaded
      company. */
  lemma AdminResponseHidesCredentials(a: CompanyAdmin, hash: string, company: Option<Company>)
    ensures ToAdminResponse(a) == ToAdminResponse(a.(passwordHash := hash, company := company))
  {
  }

  /** Two admins have the same response exactly when they differ at most
      in the password hash and the loaded company. */
  lemma AdminResponseOmitsOnlyCredentials(a: CompanyAdmin, b: CompanyAdmin)
    ensures ToAdminResponse(a) == ToAdminResponse(b) <==> a.(passwordHash := b.passwordHash, company := b.company) == b
  {
  }

  /** UpdateCompany's merge: each non-empty request field replaces the
      column; nothing else changes. */
  function MergeCompany(c: Company, req: UpdateCompanyRequest): (r: Company)
    ensures req.name != "" ==> r.name == req.name
    ensures req.name == "" ==> r.name == c.name
    ensures req.email != "" ==> r.email == req.email
    ensures req.email == "" ==> r.email == c.email
    ensures req.phone != "" ==> r.phone == req.phone
    ensures req.phone == "" ==> r.phone == c.phone
    ensures req.address != "" ==> r.address == req.address
    ensures req.address == "" ==> r.address == c.address
    ensures req.timezone != "" ==> r.timezone == req.timezone
    ensures req.timezone == "" ==> r.timezone == c.timezone
    ensures r.(name := c.name, email := c.email, phone := c.phone, address := c.address, timezone := c.timezone) == c
  {
    c.(name := if req.name != "" then req.name else c.name,
       email := if req.email != "" then req.email else c.email,
       phone := if req.phone != "" then req.phone else c.phone,
       address := if req.address != "" then req.address else c.address,
       timezone := if req.timezone != "" then req.timezone else c.timezone)
  }

  /** Sending the same update twice is sending it once. */
  lemma MergeIdempotent(c: Company, req: UpdateCompanyRequest)
    ensures MergeCompany(MergeCompany(c, req), req) == MergeCompany(c, req)
  {
  }

  /** An update with every field empty changes nothing. */
  lemma EmptyUpdateKeepsCompany(c: Company)
    ensures MergeCompany(c, UpdateCompanyRequest("", "", "", "", "")) == c
  {
  }

  /** Some admin with role owner belongs to the company with this id. */
  ghost predicate OwnedIn(admins: seq<CompanyAdmin>, id: nat)
  {
    exists j :: 0 <= j < |admins| && admins[j].companyID == id && admins[j].role == RoleOwner
  }

  /** Every company has an owner: what CreateCompany sets out to keep. */
  ghost predicate AllOwned(companies: seq<Company>, admins: seq<CompanyAdmin>)
  {
    forall i :: 0 <= i < |companies| ==> OwnedIn(admins, companies[i].id)
  }

  /** Admins refer only to ids already handed out to companies. */
  ghost predicate AdminsReferToIssued(admins: seq<CompanyAdmin>, nextCompanyID: nat)
  {
    forall j :: 0 <= j < |admins| ==> admins[j].companyID < nextCompanyID
  }

  lemma OwnedGrows(companies: seq<Company>, admins: seq<CompanyAdmin>, more: seq<CompanyAdmin>)
    requires AllOwned(companies, admins)
    ensures AllOwned(companies, admins + more)
  {
    forall i | 0 <= i < |companies| ensures OwnedIn(admins + more, companies[i].id) {
      var j :| 0 <= j < |admins| && admins[j].companyID == companies[i].id && admins[j].role == RoleOwner;
      assert (admins + more)[j] == admins[j];
    }
  }

  lemma OwnedAfterDelete(companies: seq<Company>, admins: seq<CompanyAdmin>, p: Company -> bool)
    requires AllOwned(companies, admins)
    ensures AllOwned(Filter(companies, p), admins)
  {
    var kept := Filter(companies, p);
    forall i | 0 <= i < |kept| ensures OwnedIn(admins, kept[i].id) {
      assert kept[i] in companies;
    }
  }

  lemma OwnedAfterUpdate(companies: seq<Company>, admins: seq<CompanyAdmin>, p: Company -> bool, f: Company -> Company)
    requires AllOwned(companies, admins)
    requires forall x :: f(x).id == x.id
    ensures AllOwned(UpdateWhere(companies, p, f), admins)
  {
  }

  /** The steps CreateCompany shares in both versions: the owner email
      check, then the company insert. */
  method CreateCompanyRow(store: CompanyStore, req: CreateCompanyRequest, now: int, companyFault: Option<string>)
    returns (r: Result<Company>)
    requires store.Valid()
    modifies store
    ensures store.Valid()
    ensures store.admins == old(store.admins) && store.nextAdminID == old(store.nextAdminID)
    ensures old(store.GetAdminByEmail(req.ownerEmail)).Ok? ==>
              r == Err(Fail("admin email already exists"))
    ensures old(store.GetAdminByEmail(req.ownerEmail)).Err? && companyFault.Some? ==>
              r == Err(Wrap("failed to create company", Failure(companyFault.value)))
    ensures r.Err? ==> store.companies == old(store.companies) && store.nextCompanyID == old(store.nextCompanyID)
    ensures r.Ok? <==> old(store.GetAdminByEmail(req.ownerEmail)).Err? && companyFault.None?
    ensures r.Ok? ==>
              && r.value.id == old(store.nextCompanyID)
              && r.value.name == req.name && r.value.email == req.email
              && r.value.timezone == (if req.timezone == "" then DefaultTimezone else req.timezone)
              && r.value.status == StatusActive && r.value.theme == ThemeLight
              && store.companies == old(store.companies) + [r.value]
              && store.nextCompanyID == old(store.nextCompanyID) + 1
  {
    var existing := store.GetAdminByEmail(req.ownerEmail);
    if existing.Ok? {
      return Err(Fail("admin email already exists"));
    }
    var c := Company(0, req.name, req.email, req.phone, req.address, req.timezone,
                     "", None, "", "", StatusActive, 0, 0);
    if req.timezone == "" {
      c := c.(timezone := DefaultTimezone);
    }
    var created := store.Create(c, now, companyFault);
    if created.Err? {
      return Err(Wrap("failed to create company", created.error));
    }
    r := created;
  }

  /** The owner CreateCompany inserts. */
  function OwnerOf(companyID: nat, req: CreateCompanyRequest, hash: string): (r: CompanyAdmin)
    ensures r.companyID == companyID && r.role == RoleOwner && r.isActive
    ensures r.fullName == req.ownerName && r.email == req.ownerEmail && r.phone == req.ownerPhone
    ensures r.passwordHash == hash && r.company.None?
  {
    CompanyAdmin(0, companyID, req.ownerName, req.ownerEmail, req.ownerPhone, hash, RoleOwner, true, 0, 0, None)
  }

  /** CreateCompany as written: when hashing fails after the company row
      is in, the error is returned and the company stays, without an
      owner. */
  method CreateCompanyAsWritten(store: CompanyStore, req: CreateCompanyRequest, now: int,
                                companyFault: Option<string>, hashed: Result<string>, adminFault: Option<string>)
    returns (r: Result<CompanyWithOwnerResponse>)
    requires store.Valid()
    modifies store
    ensures store.Valid()
    ensures old(store.GetAdminByEmail(req.ownerEmail)).Err? && companyFault.None? && hashed.Err? ==>
              && r == Err(Wrap("failed to hash password", hashed.error))
              && store.admins == old(store.admins)
              && |store.companies| == |old(store.companies)| + 1
              && (AdminsReferToIssued(old(store.admins), old(store.nextCompanyID)) ==>
                    !OwnedIn(store.admins, store.companies[|store.companies| - 1].id)
                    && !AllOwned(store.companies, store.admins))
  {
    var created := CreateCompanyRow(store, req, now, companyFault);
    if created.Err? {
      return Err(created.error);
    }
    var newCompany := created.value;
    if hashed.Err? {
      assert store.companies[|store.companies| - 1] == newCompany;
      if AdminsReferToIssued(store.admins, newCompany.id) {
        assert !OwnedIn(store.admins, newCompany.id);
      }
      return Err(Wrap("failed to hash password", hashed.error));
    }
    var owner := store.CreateAdmin(OwnerOf(newCompany.id, req, hashed.value), now, adminFault);
    if owner.Err? {
      var _ := store.Delete(newCompany.id, None);
      return Err(Wrap("failed to create owner", owner.error));
    }
    r := Ok(CompanyWithOwnerResponse(ToCompanyResponse(newCompany), ToAdminResponse(owner.value)));
  }

  /** CreateCompany, rolling the company back whenever the owner is not
      created, hashing failures included: the company and its owner are
      created together or not at all, and every company keeps an owner. */
  method CreateCompany(store: CompanyStore, req: CreateCompanyRequest, now: int,
                       companyFault: Option<string>, hashed: Result<string>, adminFault: Option<string>)
    returns (r: Result<CompanyWithOwnerResponse>)
    requires store.Valid()
    modifies store
    ensures store.Valid()
    ensures old(store.GetAdminByEmail(req.ownerEmail)).Ok? ==>
              r == Err(Fail("admin email already exists"))
    ensures old(store.GetAdminByEmail(req.ownerEmail)).Err? && companyFault.Some? ==>
              r == Err(Wrap("failed to create company", Failure(companyFault.value)))
    ensures old(store.GetAdminByEmail(req.ownerEmail)).Err? && companyFault.None? && hashed.Err? ==>
              r == Err(Wrap("failed to hash password", hashed.error))
    ensures old(store.GetAdminByEmail(req.ownerEmail)).Err? && companyFault.None? && hashed.Ok? && adminFault.Some? ==>
              r == Err(Wrap("failed to create owner", Failure(adminFault.value)))
    ensures r.Ok? <==> old(store.GetAdminByEmail(req.ownerEmail)).Err? && companyFault.None? && hashed.Ok? && adminFault.None?
    ensures r.Err? ==> store.companies == old(store.companies) && store.admins == old(store.admins)
    ensures r.Ok? ==>
              && |store.companies| == |old(store.companies)| + 1
              && store.companies == old(store.companies) + [store.companies[|old(store.companies)|]]
              && |store.admins| == |old(store.admins)| + 1
              && store.admins == old(store.admins) + [store.admins[|old(store.admins)|]]
              && r.value.company == ToCompanyResponse(store.companies[|old(store.companies)|])
              && r.value.owner == ToAdminResponse(store.admins[|old(store.admins)|])
              && r.value.owner.companyID == r.value.company.id
              && r.value.owner.role == RoleOwner && r.value.owner.isActive
              && r.value.owner.email == req.ownerEmail
              && store.admins[|old(store.admins)|].passwordHash == hashed.value
    ensures AllOwned(old(store.companies), old(store.admins)) ==> AllOwned(store.companies, store.admins)
  {
    ghost var companies0, admins0 := store.companies, store.admins;
    ghost var next0 := store.nextCompanyID;
    var created := CreateCompanyRow(store, req, now, companyFault);
    if created.Err? {
      return Err(created.error);
    }
    var newCompany := created.value;
    if hashed.Err? {
      var _ := store.Delete(newCompany.id, None);
      DeleteNewest(companies0, CompanyKey, next0, newCompany, NotCompanyID(newCompany.id));
      return Err(Wrap("failed to hash password", hashed.error));
    }
    var owner := store.CreateAdmin(OwnerOf(newCompany.id, req, hashed.value), now, adminFault);
    if owner.Err? {
      var _ := store.Delete(newCompany.id, None);
      DeleteNewest(companies0, CompanyKey, next0, newCompany, NotCompanyID(newCompany.id));
      return Err(Wrap("failed to create owner", owner.error));
    }
    assert store.admins[|admins0|] == owner.value.(company := None);
    if AllOwned(companies0, admins0) {
      OwnedGrows(companies0, admins0, [owner.value.(company := None)]);
      assert OwnedIn(store.admins, newCompany.id);
    }
    r := Ok(CompanyWithOwnerResponse(ToCompanyResponse(newCompany), ToAdminResponse(owner.value)));
  }

  /** GetCompany */
  function GetCompany(store: CompanyStore, id: nat): (r: Result<CompanyResponse>)
    reads store
    ensures r.Ok? <==> store.GetByID(id).Ok?
    ensures r.Ok? ==> r.value == ToCompanyResponse(store.GetByID(id).value)
    ensures r.Err? ==> r.error == Fail("company not found")
  {
    match store.GetByID(id)
    case Ok(c) => Ok(ToCompanyResponse(c))
    case Err(_) => Err(Fail("company not found"))
  }

  /** UpdateCompany: "company not found" for an unknown id; otherwise the
      merged row is saved and returned, and reading it back gives it. */
  method UpdateCompany(store: CompanyStore, id: nat, req: UpdateCompanyRequest, now: int, fault: Option<string>)
    returns (r: Result<CompanyResponse>)
    requires store.Valid()
    modifies store
    ensures store.Valid()
    ensures store.admins == old(store.admins)
    ensures old(store.GetByID(id)).Err? ==> r == Err(Fail("company not found"))
    ensures old(store.GetByID(id)).Ok? && fault.Some? ==> r == Err(Wrap("failed to update company", Failure(fault.value)))
    ensures r.Err? ==> store.companies == old(store.companies)
    ensures r.Ok? <==> old(store.GetByID(id)).Ok? && fault.None?
    ensures r.Ok? ==>
              && store.GetByID(id) == Ok(MergeCompany(old(store.GetByID(id)).value, req).(updatedAt := now))
              && r.value == ToCompanyResponse(store.GetByID(id).value)
              && store.companies == UpdateWhere(old(store.companies), HasCompanyID(id),
                                                Saved(MergeCompany(old(store.GetByID(id)).value, req), now))
    ensures AllOwned(old(store.companies), old(store.admins)) ==> AllOwned(store.companies, store.admins)
  {
    var found := store.GetByID(id);
    if found.Err? {
      return Err(Fail("company not found"));
    }
    var c := MergeCompany(found.value, req);
    ghost var before := store.companies;
    var err := store.Update(c, now, fault);
    if err.Some? {
      return Err(Wrap("failed to update company", err.value));
    }
    FirstAfterUpdate(before, HasCompanyID(id), Saved(c, now));
    if AllOwned(before, store.admins) {
      OwnedAfterUpdate(before, store.admins, HasCompanyID(id), Saved(c, now));
    }
    r := Ok(ToCompanyResponse(c.(updatedAt := now)));
  }

  /** DeleteCompany: "company not found" for an unknown id; otherwise the
      row is deleted, its admins are kept. */
  method DeleteCompany(store: CompanyStore, id: nat, fault: Option<string>) returns (err: Option<Error>)
    requires store.Valid()
    modifies store
    ensures store.Valid()
    ensures store.admins == old(store.admins)
    ensures old(store.GetByID(id)).Err? ==> err == Some(Fail("company not found"))
    ensures old(store.GetByID(id)).Ok? && fault.Some? ==> err == Some(Failure(fault.value))
    ensures err.Some? ==> store.companies == old(store.companies)
    ensures err.None? <==> old(store.GetByID(id)).Ok? && fault.None?
    ensures err.None? ==> store.GetByID(id).Err? && store.companies == Filter(old(store.companies), NotCompanyID(id))
    ensures AllOwned(old(store.companies), old(store.admins)) ==> AllOwned(store.companies, store.admins)
  {
    var found := store.GetByID(id);
    if found.Err? {
      return Some(Fail("company not found"));
    }
    ghost var before := store.companies;
    err := store.Delete(id, fault);
    if AllOwned(before, store.admins) {
      OwnedAfterDelete(before, store.admins, NotCompanyID(id));
    }
    assert forall i :: 0 <= i < |store.companies| ==> store.companies[i] in store.companies;
  }

  /** ListCompanies: the page the repository lists, as responses, with
      the defaults applied to page and limit and the page count. */
  method ListCompanies(store: CompanyStore, q: ListCompaniesQuery) returns (r: PaginatedCompaniesResponse)
    ensures |r.companies| == |store.List(q).0|
    ensures forall i :: 0 <= i < |r.companies| ==> r.companies[i] == ToCompanyResponse(store.List(q).0[i])
    ensures r.totalCount == store.List(q).1
    ensures r.page == NormalizePage(q.page) && r.limit == NormalizeLimit(q.limit)
    ensures r.totalPages * r.limit >= r.totalCount && r.totalPages * r.limit < r.totalCount + r.limit
  {
    var (companies, total) := store.List(q);
    var page, limit := q.page, q.limit;
    if page <= 0 {
      page := DefaultPage;
    }
    if limit <= 0 {
      limit := DefaultLimit;
    }
    var responses := [];
    var i := 0;
    while i < |companies|
      invariant 0 <= i <= |companies|
      invariant |responses| == i
      invariant forall k :: 0 <= k < i ==> responses[k] == ToCompanyResponse(companies[k])
    {
      var next := responses + [ToCompanyResponse(companies[i])];
      assert forall k :: 0 <= k < i ==> next[k] == responses[k];
      responses := next;
      i := i + 1;
    }
    r := PaginatedCompaniesResponse(responses, total, page, limit, TotalPages(total, limit));
  }

  /** UpdateBranding: the repository's error wrapped as a branding failure;
      otherwise the company read back, "company not found" if there is no
      such row. */
  method UpdateBranding(store: CompanyStore, id: nat, b: UpdateBrandingRequest, now: int, fault: Option<string>)
    returns (r: Result<CompanyResponse>)
    requires store.Valid()
    modifies store
    ensures store.Valid()
    ensures store.admins == old(store.admins)
    ensures b.logoURL == "" && b.colorPalette.None? && b.fontFamily == "" ==>
              r == Err(Wrap("failed to update branding", Fail("no branding fields to update")))
    ensures (b.logoURL != "" || b.colorPalette.Some? || b.fontFamily != "") && fault.Some? ==>
              r == Err(Wrap("failed to update branding", Failure(fault.value)))
    ensures (b.logoURL != "" || b.colorPalette.Some? || b.fontFamily != "") && fault.None? && old(store.GetByID(id)).Err? ==>
              r == Err(Fail("company not found"))
    ensures r.Err? ==> store.companies == old(store.companies)
    ensures r.Ok? <==> (b.logoURL != "" || b.colorPalette.Some? || b.fontFamily != "") && fault.None? && old(store.GetByID(id)).Ok?
    ensures r.Ok? ==>
              r.value == ToCompanyResponse(ApplyColumns(BrandingColumns(b), now)(old(store.GetByID(id)).value))
    ensures AllOwned(old(store.companies), old(store.admins)) ==> AllOwned(store.companies, store.admins)
  {
    ghost var before := store.companies;
    var err := store.UpdateBranding(id, b, now, fault);
    if err.Some? {
      return Err(Wrap("failed to update branding", err.value));
    }
    FirstAfterUpdate(before, HasCompanyID(id), ApplyColumns(BrandingColumns(b), now));
    if First(before, HasCompanyID(id)).Err? {
      UpdateWhereNoMatch(before, HasCompanyID(id), ApplyColumns(BrandingColumns(b), now));
    }
    if AllOwned(before, store.admins) {
      OwnedAfterUpdate(before, store.admins, HasCompanyID(id), ApplyColumns(BrandingColumns(b), now));
    }
    r := GetCompany(store, id);
  }

  /** SuspendCompany and ActivateCompany: the status column set on the row
      with that id; an unknown id changes nothing and is not reported. */
  method SetCompanyStatus(store: CompanyStore, id: nat, status: string, now: int, fault: Option<string>)
    returns (err: Option<Error>)
    requires store.Valid()
    modifies store
    ensures store.Valid()
    ensures store.admins == old(store.admins)
    ensures fault.Some? ==> err == Some(Failure(fault.value)) && store.companies == old(store.companies)
    ensures fault.None? ==> err == None
    ensures fault.None? ==> store.companies == UpdateWhere(old(store.companies), HasCompanyID(id), WithStatus(status, now))
    ensures fault.None? && old(store.GetByID(id)).Ok? ==>
              store.GetByID(id) == Ok(old(store.GetByID(id)).value.(status := status, updatedAt := now))
    ensures old(store.GetByID(id)).Err? ==> store.companies == old(store.companies)
    ensures AllOwned(old(store.companies), old(store.admins)) ==> AllOwned(store.companies, store.admins)
  {
    ghost var before := store.companies;
    err := store.UpdateStatus(id, status, now, fault);
    if err.None? {
      FirstAfterUpdate(before, HasCompanyID(id), WithStatus(status, now));
      if First(before, HasCompanyID(id)).Err? {
        UpdateWhereNoMatch(before, HasCompanyID(id), WithStatus(status, now));
      }
      if AllOwned(before, store.admins) {
        OwnedAfterUpdate(before, store.admins, HasCompanyID(id), WithStatus(status, now));
      }
    }
  }

  /** SuspendCompany */
  method SuspendCompany(store: CompanyStore, id: nat, now: int, fault: Option<string>) returns (err: Option<Error>)
    requires store.Valid()
    modifies store
    ensures store.Valid()
    ensures store.admins == old(store.admins)
    ensures fault.None? ==> err == None
    ensures fault.None? && old(store.GetByID(id)).Ok? ==> store.GetByID(id).Ok? && store.GetByID(id).value.status == StatusSuspended
    ensures old(store.GetByID(id)).Err? || fault.Some? ==> store.companies == old(store.companies)
  {
    err := SetCompanyStatus(store, id, StatusSuspended, now, fault);
  }

  /** ActivateCompany */
  method ActivateCompany(store: CompanyStore, id: nat, now: int, fault: Option<string>) returns (err: Option<Error>)
    requires store.Valid()
    modifies store
    ensures store.Valid()
    ensures store.admins == old(store.admins)
    ensures fault.None? ==> err == None
    ensures fault.None? && old(store.GetByID(id)).Ok? ==> store.GetByID(id).Ok? && store.GetByID(id).value.status == StatusActive
    ensures old(store.GetByID(id)).Err? || fault.Some? ==> store.companies == old(store.companies)
  {
    err := SetCompanyStatus(store, id, StatusActive, now, fault);
  }

  /** Suspending and re-activating leaves a company as it was apart from
      the update time; setting a status twice is setting it once. */
  lemma StatusChangesCompose(c: Company, t1: int, t2: int)
    ensures WithStatus(StatusActive, t2)(WithStatus(StatusSuspended, t1)(c)) == c.(status := StatusActive, updatedAt := t2)
    ensures WithStatus(StatusSuspended, t2)(WithStatus(StatusSuspended, t1)(c)) == WithStatus(StatusSuspended, t2)(c)
  {
  }

  /** LoginAdmin: an unknown email or a wrong password is "invalid email
      or password", an inactive account is "account is inactive" (checked
      before the password); otherwise the admin and a fresh admin token. */
  function LoginAdmin(store: CompanyStore, req: LoginRequest, check: (string, string) -> bool, secret: string, now: int)
    : (r: Result<LoginResponse>)
    reads store
    ensures store.GetAdminByEmail(req.email).Err? ==> r == Err(Fail("invalid email or password"))
    ensures store.GetAdminByEmail(req.email).Ok? && !store.GetAdminByEmail(req.email).value.isActive ==>
              r == Err(Fail("account is inactive"))
    ensures store.GetAdminByEmail(req.email).Ok? && store.GetAdminByEmail(req.email).value.isActive
            && !check(req.password, store.GetAdminByEmail(req.email).value.passwordHash) ==>
              r == Err(Fail("invalid email or password"))
    ensures r.Ok? <==> store.GetAdminByEmail(req.email).Ok? && store.GetAdminByEmail(req.email).value.isActive
                       && check(req.password, store.GetAdminByEmail(req.email).value.passwordHash)
    ensures r.Ok? ==> r.value.admin == ToAdminResponse(store.GetAdminByEmail(req.email).value)
                      && r.value.token == Jwt.GenerateToken(store.GetAdminByEmail(req.email).value.id, secret, now)
  {
    match store.GetAdminByEmail(req.email)
    case Err(_) => Err(Fail("invalid email or password"))
    case Ok(admin) =>
      if !admin.isActive then Err(Fail("account is inactive"))
      else if !check(req.password, admin.passwordHash) then Err(Fail("invalid email or password"))
      else Ok(LoginResponse(ToAdminResponse(admin), Jwt.GenerateToken(admin.id, secret, now)))
  }

  /** The token a login hands out identifies the admin to AdminAuth for
      the next day. */
  lemma LoginTokenIdentifiesAdmin(store: CompanyStore, req: LoginRequest, check: (string, string) -> bool,
                                  secret: string, issued: int, now: int)
    requires LoginAdmin(store, req, check, secret, issued).Ok?
    requires LoginAdmin(store, req, check, secret, issued).value.admin.id < Jwt.UintModulus
    requires issued <= now < Jwt.NumericDate(issued + 24 * Jwt.Hour) * Jwt.NsPerSecond
    ensures var login := LoginAdmin(store, req, check, secret, issued).value;
      Jwt.ValidateToken(Jwt.Parse(login.token, secret, now)) == (login.admin.id, None)
  {
    var admin := store.GetAdminByEmail(req.email).value;
    Jwt.AdminIdRoundTrip(admin.id, secret, issued, now);
  }

  /** An inactive account is reported whatever password is sent. */
  lemma InactiveReportedBeforePassword(store: CompanyStore, req: LoginRequest, check: (string, string) -> bool,
                                       secret: string, now: int, password: string)
    requires store.GetAdminByEmail(req.email).Ok? && !store.GetAdminByEmail(req.email).value.isActive
    ensures LoginAdmin(store, req, check, secret, now) == LoginAdmin(store, req.(password := password), check, secret, now)
  {
  }

  /** GetAdminProfile */
  function GetAdminProfile(store: CompanyStore, adminID: nat): (r: Result<CompanyAdminResponse>)
    reads store
    ensures r.Ok? <==> exists i :: 0 <= i < |store.admins| && store.admins[i].id == adminID
    ensures r.Ok? ==> r.value.id == adminID && r.value == ToAdminResponse(store.GetAdminByID(adminID).value)
    ensures r.Err? ==> r.error == Fail("admin not found")
  {
    match store.GetAdminByID(adminID)
    case Ok(a) => Ok(ToAdminResponse(a))
    case Err(_) => Err(Fail("admin not found"))
  }
}
