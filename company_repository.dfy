/** Companies and their administrators (internal/repository/company_repository.go
    over the entities of internal/domain/company/entity.go). */
module CompanyRepository {
  import opened Common
  import opened Text
  import opened Collections
  import opened Sorting
  import opened Paging
  import opened Tables

  const StatusActive: string := "active"
  const StatusSuspended: string := "suspended"
  const RoleOwner: string := "owner"
  const RoleManager: string := "manager"
  const ThemeLight: string := "light"
  const DefaultTimezone: string := "UTC"

  /** ColorPalette, stored as a JSON column. */
  datatype ColorPalette = ColorPalette(primary: string, secondary: string, accent: string)

  /** Company: the columns the services read or write. */
  datatype Company = Company(
    id: nat, name: string, email: string, phone: string, address: string, timezone: string,
    logoURL: string, colorPalette: Option<ColorPalette>, fontFamily: string, theme: string,
    status: string, createdAt: int, updatedAt: int)

  /** CompanyAdmin, with the `Company` relation filled only when preloaded. */
  datatype CompanyAdmin = CompanyAdmin(
    id: nat, companyID: nat, fullName: string, email: string, phone: string,
    passwordHash: string, role: string, isActive: bool, createdAt: int, updatedAt: int,
    company: Option<Company>)

  /** ListCompaniesQuery */
  datatype ListCompaniesQuery = ListCompaniesQuery(page: int, limit: int, status: string, search: string)

  /** UpdateBrandingRequest */
  datatype UpdateBrandingRequest = UpdateBrandingRequest(
    logoURL: string, colorPalette: Option<ColorPalette>, fontFamily: string, theme: string, customCSS: string)

  /** A value in a gorm column map. */
  datatype ColumnValue = TextValue(text: string) | PaletteValue(palette: ColorPalette)

  function CompanyKey(c: Company): nat { c.id }

  function AdminKey(a: CompanyAdmin): nat { a.id }

  /** What gorm's Create writes for a Company: a zero theme, timezone or
      status is replaced by the column's default. */
  function CompanyCreateValues(c: Company): (r: Company)
    ensures r.theme == (if c.theme == "" then ThemeLight else c.theme)
    ensures r.timezone == (if c.timezone == "" then DefaultTimezone else c.timezone)
    ensures r.status == (if c.status == "" then StatusActive else c.status)
    ensures r.(theme := c.theme, timezone := c.timezone, status := c.status) == c
  {
    c.(theme := if c.theme == "" then ThemeLight else c.theme,
       timezone := if c.timezone == "" then DefaultTimezone else c.timezone,
       status := if c.status == "" then StatusActive else c.status)
  }

  /** What gorm's Create writes for a CompanyAdmin: a zero role becomes
      "manager" and a false is_active becomes true (its default). */
  function AdminCreateValues(a: CompanyAdmin): (r: CompanyAdmin)
    ensures r.role == (if a.role == "" then RoleManager else a.role)
    ensures r.isActive
    ensures r.(role := a.role, isActive := a.isActive) == a
  {
    a.(role := if a.role == "" then RoleManager else a.role, isActive := true)
  }

  /** The WHERE clauses List adds: status when given, and the search
      pattern against name, email or phone when given. */
  function MatchesQuery(q: ListCompaniesQuery): (r: Company -> bool)
    ensures forall c :: r(c) && q.status != "" ==> c.status == q.status
    ensures forall c :: r(c) && q.search != "" ==> Like(c.name, q.search) || Like(c.email, q.search) || Like(c.phone, q.search)
    ensures q.status == "" && q.search == "" ==> forall c: Company :: r(c)
    ensures forall c: Company :: c.status == q.status && Like(c.name, q.search) ==> r(c)
  {
    (c: Company) =>
      && (q.status != "" ==> c.status == q.status)
      && (q.search != "" ==> Like(c.name, q.search) || Like(c.email, q.search) || Like(c.phone, q.search))
  }

  /** ORDER BY created_at DESC */
  predicate NewerFirst(a: Company, b: Company)
  {
    a.createdAt >= b.createdAt
  }

  lemma NewerFirstOrders()
    ensures Total(NewerFirst) && Transitive(NewerFirst)
  {
  }

  function HasCompanyID(id: nat): Company -> bool
  {
    (c: Company) => c.id == id
  }

  function NotCompanyID(id: nat): Company -> bool
  {
    (c: Company) => c.id != id
  }

  function HasAdminEmail(email: string): CompanyAdmin -> bool
  {
    (a: CompanyAdmin) => a.email == email
  }

  function HasAdminID(id: nat): CompanyAdmin -> bool
  {
    (a: CompanyAdmin) => a.id == id
  }

  function OfCompany(companyID: nat): CompanyAdmin -> bool
  {
    (a: CompanyAdmin) => a.companyID == companyID
  }

  /** Save: every column of the row replaced, updated_at bumped. */
  function Saved(c: Company, now: int): Company -> Company
  {
    (row: Company) => c.(id := row.id, updatedAt := now)
  }

  /** Update("status", ...): the status set, updated_at bumped. */
  function WithStatus(status: string, now: int): Company -> Company
  {
    (c: Company) => c.(status := status, updatedAt := now)
  }

  /** Updates(map): each column in the map set, updated_at bumped. */
  function ApplyColumns(updates: map<string, ColumnValue>, now: int): Company -> Company
  {
    (c: Company) => c.(
      logoURL := if "logo_url" in updates && updates["logo_url"].TextValue? then updates["logo_url"].text else c.logoURL,
      colorPalette := if "color_palette" in updates && updates["color_palette"].PaletteValue? then Some(updates["color_palette"].palette) else c.colorPalette,
      fontFamily := if "font_family" in updates && updates["font_family"].TextValue? then updates["font_family"].text else c.fontFamily,
      updatedAt := now)
  }

  /** The columns a branding request supplies: the non-empty logo URL and
      font family and the non-nil palette; theme and custom CSS are not
      among them. */
  function BrandingColumns(b: UpdateBrandingRequest): (m: map<string, ColumnValue>)
    ensures "logo_url" in m <==> b.logoURL != ""
    ensures "color_palette" in m <==> b.colorPalette.Some?
    ensures "font_family" in m <==> b.fontFamily != ""
    ensures m.Keys <= {"logo_url", "color_palette", "font_family"}
  {
    var logo := if b.logoURL != "" then map["logo_url" := TextValue(b.logoURL)] else map[];
    var palette := if b.colorPalette.Some? then map["color_palette" := PaletteValue(b.colorPalette.value)] else map[];
    var font := if b.fontFamily != "" then map["font_family" := TextValue(b.fontFamily)] else map[];
    logo + palette + font
  }

  /** A branding request with nothing supplied yields no columns. */
  lemma NoBrandingColumns(b: UpdateBrandingRequest)
    ensures |BrandingColumns(b)| == 0 <==> b.logoURL == "" && b.colorPalette.None? && b.fontFamily == ""
  {
    var m := BrandingColumns(b);
    if b.logoURL != "" {
      assert "logo_url" in m.Keys;
    } else if b.colorPalette.Some? {
      assert "color_palette" in m.Keys;
    } else if b.fontFamily != "" {
      assert "font_family" in m.Keys;
    } else {
      assert m.Keys == {};
    }
  }

  /** Applying a branding request's columns sets exactly the supplied
      branding fields; theme, name, contacts and status stay. */
  lemma BrandingApplied(c: Company, b: UpdateBrandingRequest, now: int)
    ensures var r := ApplyColumns(BrandingColumns(b), now)(c);
      && r.logoURL == (if b.logoURL != "" then b.logoURL else c.logoURL)
      && r.colorPalette == (if b.colorPalette.Some? then b.colorPalette else c.colorPalette)
      && r.fontFamily == (if b.fontFamily != "" then b.fontFamily else c.fontFamily)
      && r.(logoURL := c.logoURL, colorPalette := c.colorPalette, fontFamily := c.fontFamily, updatedAt := c.updatedAt) == c
  {
  }

  /** Admin emails are unique (the uniqueIndex on email). */
  ghost predicate AdminEmailsUnique(admins: seq<CompanyAdmin>)
  {
    forall i, j :: 0 <= i < j < |admins| ==> admins[i].email != admins[j].email
  }

  class CompanyStore {
    /** companies, in id order; deletes are hard (deleted_at is a plain
        *time.Time, not gorm.DeletedAt). */
    var companies: seq<Company>
    /** company_admins, in id order, relations not loaded. */
    var admins: seq<CompanyAdmin>
    var nextCompanyID: nat
    var nextAdminID: nat

    ghost predicate Valid()
      reads this
    {
      && nextCompanyID >= 1 && nextAdminID >= 1
      && KeyOrdered(companies, CompanyKey, nextCompanyID)
      && KeyOrdered(admins, AdminKey, nextAdminID)
      && AdminEmailsUnique(admins)
      && forall i :: 0 <= i < |admins| ==> admins[i].company.None?
    }

    constructor ()
      ensures Valid()
      ensures companies == [] && admins == [] && nextCompanyID == 1 && nextAdminID == 1
    {
      companies := [];
      admins := [];
      nextCompanyID := 1;
      nextAdminID := 1;
    }

    /** Create: the company inserted with the next id, gorm's defaults and
        both timestamps `now`, and returned as Create leaves the struct. */
    method Create(c: Company, now: int, fault: Option<string>) returns (r: Result<Company>)
      requires Valid()
      modifies this
      ensures Valid()
      ensures admins == old(admins) && nextAdminID == old(nextAdminID)
      ensures fault.Some? ==>
                && r == Err(Failure(fault.value))
                && companies == old(companies) && nextCompanyID == old(nextCompanyID)
      ensures fault.None? ==>
                && r == Ok(CompanyCreateValues(c).(id := old(nextCompanyID), createdAt := now, updatedAt := now))
                && companies == old(companies) + [r.value]
                && nextCompanyID == old(nextCompanyID) + 1
    {
      if fault.Some? {
        return Err(Failure(fault.value));
      }
      var row := CompanyCreateValues(c).(id := nextCompanyID, createdAt := now, updatedAt := now);
      AppendKeyOrdered(companies, CompanyKey, nextCompanyID, row);
      companies := companies + [row];
      nextCompanyID := nextCompanyID + 1;
      r := Ok(row);
    }

    /** GetByID */
    function GetByID(id: nat): (r: Result<Company>)
      reads this
      ensures r.Ok? <==> exists i :: 0 <= i < |companies| && companies[i].id == id
      ensures r.Ok? ==> r.value in companies && r.value.id == id
      ensures r.Err? ==> r.error == RecordNotFound
    {
      First(companies, HasCompanyID(id))
    }

    /** Update (Save): the row with the struct's id replaced by the struct,
        updated_at bumped. */
    method Update(c: Company, now: int, fault: Option<string>) returns (err: Option<Error>)
      requires Valid()
      modifies this
      ensures Valid()
      ensures admins == old(admins) && nextCompanyID == old(nextCompanyID) && nextAdminID == old(nextAdminID)
      ensures fault.Some? ==> err == Some(Failure(fault.value)) && companies == old(companies)
      ensures fault.None? ==>
                && err == None
                && companies == UpdateWhere(old(companies), HasCompanyID(c.id), Saved(c, now))
    {
      if fault.Some? {
        return Some(Failure(fault.value));
      }
      UpdateKeyOrdered(companies, CompanyKey, nextCompanyID, HasCompanyID(c.id), Saved(c, now));
      companies := UpdateWhere(companies, HasCompanyID(c.id), Saved(c, now));
      err := None;
    }

    /** Delete: the row with that id removed for good. */
    method Delete(id: nat, fault: Option<string>) returns (err: Option<Error>)
      requires Valid()
      modifies this
      ensures Valid()
      ensures admins == old(admins) && nextCompanyID == old(nextCompanyID) && nextAdminID == old(nextAdminID)
      ensures fault.Some? ==> err == Some(Failure(fault.value)) && companies == old(companies)
      ensures fault.None? ==>
                && err == None
                && companies == Filter(old(companies), NotCompanyID(id))
    {
      if fault.Some? {
        return Some(Failure(fault.value));
      }
      FilterKeyOrdered(companies, CompanyKey, nextCompanyID, NotCompanyID(id));
      companies := Filter(companies, NotCompanyID(id));
      err := None;
    }

    /** List: the requested page of the matching companies, newest first,
        and the number of all matching companies. */
    function List(q: ListCompaniesQuery): (r: (seq<Company>, nat))
      reads this
      ensures r.1 == |Filter(companies, MatchesQuery(q))|
      ensures |r.0| <= NormalizeLimit(q.limit)
      ensures |r.0| == if Offset(q.page, q.limit) >= r.1 then 0
                       else if Offset(q.page, q.limit) + NormalizeLimit(q.limit) <= r.1 then NormalizeLimit(q.limit)
                       else r.1 - Offset(q.page, q.limit)
      ensures forall i :: 0 <= i < |r.0| ==>
                Offset(q.page, q.limit) + i < r.1 && r.0[i] == Sort(NewerFirst, Filter(companies, MatchesQuery(q)))[Offset(q.page, q.limit) + i]
      ensures forall i :: 0 <= i < |r.0| ==> r.0[i] in companies && MatchesQuery(q)(r.0[i])
      ensures Sorted(NewerFirst, r.0)
    {
      NewerFirstOrders();
      Listing(companies, MatchesQuery(q), NewerFirst, q.page, q.limit)
    }

    /** UpdateBranding: "no branding fields to update" when the request
        supplies none; otherwise the supplied columns are set on the row
        with that id (no row is not an error). */
    method UpdateBranding(id: nat, b: UpdateBrandingRequest, now: int, fault: Option<string>) returns (err: Option<Error>)
      requires Valid()
      modifies this
      ensures Valid()
      ensures admins == old(admins) && nextCompanyID == old(nextCompanyID) && nextAdminID == old(nextAdminID)
      ensures b.logoURL == "" && b.colorPalette.None? && b.fontFamily == "" ==>
                err == Some(Fail("no branding fields to update")) && companies == old(companies)
      ensures (b.logoURL != "" || b.colorPalette.Some? || b.fontFamily != "") && fault.Some? ==>
                err == Some(Failure(fault.value))
      ensures err.None? <==> (b.logoURL != "" || b.colorPalette.Some? || b.fontFamily != "") && fault.None?
      ensures err.Some? ==> companies == old(companies)
      ensures err.None? ==> companies == UpdateWhere(old(companies), HasCompanyID(id), ApplyColumns(BrandingColumns(b), now))
    {
      var updates := BuildBrandingUpdates(b);
      NoBrandingColumns(b);
      if |updates| == 0 {
        return Some(Fail("no branding fields to update"));
      }
      if fault.Some? {
        return Some(Failure(fault.value));
      }
      UpdateKeyOrdered(companies, CompanyKey, nextCompanyID, HasCompanyID(id), ApplyColumns(updates, now));
      companies := UpdateWhere(companies, HasCompanyID(id), ApplyColumns(updates, now));
      err := None;
    }

    /** UpdateStatus: the status of the row with that id set. */
    method UpdateStatus(id: nat, status: string, now: int, fault: Option<string>) returns (err: Option<Error>)
      requires Valid()
      modifies this
      ensures Valid()
      ensures admins == old(admins) && nextCompanyID == old(nextCompanyID) && nextAdminID == old(nextAdminID)
      ensures fault.Some? ==> err == Some(Failure(fault.value)) && companies == old(companies)
      ensures fault.None? ==>
                && err == None
                && companies == UpdateWhere(old(companies), HasCompanyID(id), WithStatus(status, now))
    {
      if fault.Some? {
        return Some(Failure(fault.value));
      }
      UpdateKeyOrdered(companies, CompanyKey, nextCompanyID, HasCompanyID(id), WithStatus(status, now));
      companies := UpdateWhere(companies, HasCompanyID(id), WithStatus(status, now));
      err := None;
    }

    /** CreateAdmin: the admin inserted with the next id, gorm's defaults and
        both timestamps `now`; an email already taken is refused by the
        unique index. */
    method CreateAdmin(a: CompanyAdmin, now: int, fault: Option<string>) returns (r: Result<CompanyAdmin>)
      requires Valid()
      modifies this
      ensures Valid()
      ensures companies == old(companies) && nextCompanyID == old(nextCompanyID)
      ensures fault.Some? ==> r == Err(Failure(fault.value))
      ensures fault.None? && old(GetAdminByEmail(a.email)).Ok? ==>
                r == Err(Failure(DuplicateEntry(a.email, "company_admins.email")))
      ensures r.Err? ==> admins == old(admins) && nextAdminID == old(nextAdminID)
      ensures r.Ok? <==> fault.None? && old(GetAdminByEmail(a.email)).Err?
      ensures r.Ok? ==>
                && r.value == AdminCreateValues(a).(id := old(nextAdminID), createdAt := now, updatedAt := now)
                && admins == old(admins) + [r.value.(company := None)]
                && nextAdminID == old(nextAdminID) + 1
    {
      if fault.Some? {
        return Err(Failure(fault.value));
      }
      if GetAdminByEmail(a.email).Ok? {
        return Err(Failure(DuplicateEntry(a.email, "company_admins.email")));
      }
      var row := AdminCreateValues(a).(id := nextAdminID, createdAt := now, updatedAt := now);
      AppendKeyOrdered(admins, AdminKey, nextAdminID, row.(company := None));
      AppendKeepsEmailsUnique(admins, row.(company := None));
      admins := admins + [row.(company := None)];
      nextAdminID := nextAdminID + 1;
      r := Ok(row);
    }

    /** GetAdminByEmail */
    function GetAdminByEmail(email: string): (r: Result<CompanyAdmin>)
      reads this
      ensures r.Ok? <==> exists i :: 0 <= i < |admins| && admins[i].email == email
      ensures r.Ok? ==> r.value in admins && r.value.email == email
      ensures r.Err? ==> r.error == RecordNotFound
    {
      First(admins, HasAdminEmail(email))
    }

    /** GetAdminByID, with the admin's company preloaded. */
    function GetAdminByID(id: nat): (r: Result<CompanyAdmin>)
      reads this
      ensures r.Ok? <==> exists i :: 0 <= i < |admins| && admins[i].id == id
      ensures r.Ok? ==> r.value.id == id
                        && exists i :: 0 <= i < |admins| && admins[i] == r.value.(company := admins[i].company)
      ensures r.Ok? ==> (r.value.company.Some? <==> GetByID(r.value.companyID).Ok?)
      ensures r.Err? ==> r.error == RecordNotFound
    {
      match First(admins, HasAdminID(id))
      case Err(e) => Err(e)
      case Ok(a) =>
        Ok(a.(company := match GetByID(a.companyID) case Ok(c) => Some(c) case Err(_) => None))
    }

    /** ListAdmins: the company's admins in id order. */
    function ListAdmins(companyID: nat): (r: seq<CompanyAdmin>)
      reads this
      ensures forall x :: x in r <==> x in admins && x.companyID == companyID
    {
      Filter(admins, OfCompany(companyID))
    }
  }

  /** Builds UpdateBranding's column map one supplied field at a time. */
  method BuildBrandingUpdates(b: UpdateBrandingRequest) returns (updates: map<string, ColumnValue>)
    ensures updates == BrandingColumns(b)
  {
    updates := map[];
    if b.logoURL != "" {
      updates := updates["logo_url" := TextValue(b.logoURL)];
    }
    if b.colorPalette.Some? {
      updates := updates["color_palette" := PaletteValue(b.colorPalette.value)];
    }
    if b.fontFamily != "" {
      updates := updates["font_family" := TextValue(b.fontFamily)];
    }
  }

  lemma AppendKeepsEmailsUnique(admins: seq<CompanyAdmin>, a: CompanyAdmin)
    requires AdminEmailsUnique(admins)
    requires forall i :: 0 <= i < |admins| ==> admins[i].email != a.email
    ensures AdminEmailsUnique(admins + [a])
  {
    var r := admins + [a];
    forall i, j | 0 <= i < j < |r| ensures r[i].email != r[j].email {
      assert r[i] == admins[i];
    }
  }

  /** With unique emails, the admin found by email is the only one with it. */
  lemma AdminByEmailUnique(admins: seq<CompanyAdmin>, i: int, j: int)
    requires AdminEmailsUnique(admins)
    requires 0 <= i < |admins| && 0 <= j < |admins| && admins[i].email == admins[j].email
    ensures i == j
  {
  }
}
