# my-go-driver, modelled in Dafny

my-go-driver is the back office of a delivery-driver platform, written in Go
on gin and gorm over MySQL. Requests pass from a handler to a service to a
repository. This project models the core of the service and repository
layers, the token package, the response envelope and the two bearer-token
middlewares:

- **Companies** (tenants) and their administrators: creating a company
  together with its owner, partial updates, branding, suspension, listing
  with filters and pages, and the administrators' login.
- **Drivers**: phone numbers unique within a company, partial updates,
  moving a driver to another company, blocking, listing.
- **Driver shifts**: listing with filters and date bounds, and the
  "Xh Ym" duration text.
- **The module catalogue** and the modules each company is assigned.
- **User accounts** of the public API: registration, login, updates,
  soft deletion.
- **JWT** claims and the collapse of the library's errors into two
  sentinels; the `Authorization: Bearer` checks (section 2.1 of RFC 6750).

Each repository is a Dafny `class` holding its table as a `seq` of rows in
primary-key order, plus the next auto-increment id. Reads are functions
over that state, in the terms of SQL: `Filter` is a WHERE, `First` is
gorm's First (the matching row with the lowest id), `UpdateWhere` is an
UPDATE, `Listing` is filter, then ORDER BY, then OFFSET/LIMIT. Writes are
methods whose `modifies` clause names the store. The services are methods
over the stores. The pure parts are functions:
- the response mappers;
- the merges of partial updates;
- the login decisions;
- the header checks;
- the token claims.

What the program takes from outside becomes a parameter:
- the clock is `now`, in nanoseconds;
- a database write failure is `fault: Option<string>`;
- bcrypt's hash output is `hashed: Result<string>` and its comparison is
  `check`;
- time.Parse of a date is `parseDate`;
- the outcome of golang-jwt's parse is `ParseResult`;
- the SQL aggregate of a driver's performance is `performance`.

Module layout, one per source file, plus shared modules:
- `Common`: Option, Result, Error;
- `Text`: prefixes, substrings, lower case, `%d`;
- `Collections`: WHERE and First;
- `Sorting`: ORDER BY;
- `Paging`: page and limit defaults, offsets, page counts;
- `Tables`: key order, UPDATE, the MySQL duplicate-key text.

## Model

| member | source | states |
|---|---|---|
| Collections.Filter | internal/repository/driver_repository.go:56-76 | WHERE: the rows kept are exactly the rows of the table that satisfy the condition, never more rows than the table has |
| Collections.FilterAppend | internal/repository/driver_repository.go:93 | filtering distributes over concatenation, so a WHERE keeps the table's relative order |
| Collections.FilterIdempotent | internal/repository/module_repository.go:58-60 | filtering twice by one condition is filtering once |
| Collections.FilterCongruent | internal/repository/shift_repository.go:21-68 | two conditions that agree on every row keep the same rows |
| Collections.FilterKeepsAll | internal/repository/driver_repository.go:56-76 | a condition every row meets keeps the whole table |
| Collections.First | internal/repository/user_repository.go:36-43 | gorm First: a row is found exactly when some row matches, and it matches; otherwise ErrRecordNotFound |
| Collections.Window | internal/repository/company_repository.go:73 | OFFSET/LIMIT: the exact length of the slice, and row i of the slice is row offset+i of the input |
| Collections.MapSeq | internal/service/module_service.go:28-31 | a slice built element by element: same length, element i is f of input i |
| Sorting.Sort | internal/repository/company_repository.go:73 | ORDER BY returns a permutation of its input (same length, same multiset) |
| Sorting.Insert | internal/repository/company_repository.go:73 | inserting one row gives one more row, and the same rows plus it |
| Sorting.InsertSorted | internal/repository/company_repository.go:73 | inserting into an ordered sequence keeps it ordered, for a total, transitive order |
| Sorting.SortSorted | internal/repository/company_repository.go:73 | for a total, transitive order, the result is in that order |
| Sorting.WindowSorted | internal/repository/shift_repository.go:65 | cutting a page out of an ordered result keeps it ordered |
| Sorting.StrLeTotal | internal/repository/module_repository.go:22 | the string order used for ORDER BY category, name is total |
| Sorting.StrLeTransitive | internal/repository/module_repository.go:22 | that string order is transitive |
| Sorting.StrLeAntisymmetric | internal/repository/module_repository.go:22 | that string order is antisymmetric |
| Paging.NormalizePage | internal/repository/company_repository.go:64-66 | a page of 0 or less becomes 1; any other page is kept |
| Paging.NormalizeLimit | internal/repository/company_repository.go:67-69 | a limit of 0 or less becomes 10; any other limit is kept |
| Paging.Offset | internal/repository/company_repository.go:72 | (page-1)*limit after the defaults: a non-negative multiple of the limit |
| Paging.TotalPages | internal/service/company_service.go:164 | ceil(total/limit) over integers: the least page count whose pages hold every row |
| Paging.PageOf | internal/repository/driver_repository.go:92-93 | OFFSET/LIMIT of a requested page: never more rows than the limit; exactly min(limit, rows - offset) rows, none past the end; row i of the page is row offset+i |
| Paging.RowOnItsPage | internal/repository/driver_repository.go:92-93 | row i appears on page i/limit+1 at position i%limit |
| Paging.PagesWithinTotal | internal/service/driver_service.go:153 | a page is empty exactly when it lies past the page count |
| Paging.NormalizeIdempotent | internal/service/shift_service.go:27-32 | applying the defaults to values that already have them changes nothing |
| Paging.Listing | internal/repository/company_repository.go:42-76 | the total counts all matching rows before paging; the page holds exactly min(limit, total - offset) rows, and row i of it is row (page-1)*limit + i of the matches in the requested order; each is a matching row of the table; the page is in the requested order whenever that order is total and transitive |
| Paging.EarlierPagesFirst | internal/repository/company_repository.go:72-73 | for a total, transitive order, every row of an earlier page comes before every row of a later page, so page 1 holds the first rows of the order |
| Paging.PagesOfSorted | internal/repository/driver_repository.go:92-93 | the same for the pages cut from any ordered sequence |
| Paging.ListingCongruent | internal/repository/shift_repository.go:21-68 | two conditions that agree on every row list alike |
| Paging.PageSorted | internal/repository/shift_repository.go:65 | every page of an ordered listing is ordered |
| Paging.ListingCoversMatches | internal/repository/driver_repository.go:78-93 | every matching row is on some page between 1 and the page count |
| Paging.ListingEndsAtTotalPages | internal/service/shift_service.go:39 | a page is empty exactly when it lies past the page count the service reports |
| Tables.UpdateWhere | internal/repository/company_repository.go:99 | UPDATE ... WHERE: same number of rows; matching rows are transformed and the others are untouched |
| Tables.AppendKeyOrdered | internal/repository/company_repository.go:21-23 | an auto-increment insert keeps the table in key order, with the counter advanced |
| Tables.FilterKeyOrdered | internal/repository/company_repository.go:38-40 | a hard delete keeps the table in key order |
| Tables.FilterAscending | internal/repository/driver_repository.go:46-48 | the rows a delete leaves keep ascending keys |
| Tables.UpdateKeyOrdered | internal/repository/driver_repository.go:98-100 | an update that keeps keys keeps the table in key order |
| Tables.KeyDetermines | internal/repository/driver_repository.go:24-31 | two rows with the same key are the same row |
| Tables.UpdateWhereNoMatch | internal/repository/company_repository.go:98-100 | an update matching no row changes nothing (an unknown id is not an error) |
| Tables.FirstAfterUpdate | internal/repository/user_repository.go:50-53 | reading back by the updated condition finds the updated row |
| Tables.DeleteNewest | internal/service/company_service.go:74-78 | deleting by the id just handed out undoes the insert |
| Tables.DuplicateEntry | internal/service/user_service.go:43-48 | MySQL error 1062's text: the head, the refused value, then the index name, each at its place |
| Tables.DuplicateEntryNamesValue | internal/service/user_service.go:43-48 | for one index, the error text determines the refused value |
| Text.TrimPrefix | internal/middleware/auth.go:38 | strings.TrimPrefix removes exactly one leading copy of the prefix when present, and nothing otherwise |
| Text.Contains | internal/service/user_service.go:45 | strings.Contains holds exactly when the word occurs at some position |
| Text.ToLower | pkg/httputil/response.go:55 | same length; upper-case ASCII letters shifted to lower case; everything else unchanged |
| Text.ToLowerIdempotent | pkg/httputil/response.go:55 | lower-casing twice is lower-casing once |
| Text.Like | internal/repository/company_repository.go:53-55 | LIKE '%search%' holds exactly when the lower-cased search text occurs at some position of the lower-cased column; so a match needs a search text no longer than the column |
| Text.LikeIgnoresCase | internal/repository/driver_repository.go:73-75 | LIKE sees no case on either side; every column matches its own text and the empty pattern |
| Text.NatToDecimal | internal/service/shift_service.go:76 | `%d` writes a non-empty run of digits, with no leading zero except for 0 |
| Text.IntToDecimal | internal/service/shift_service.go:76 | `%d` of any integer: "0" for zero, the numeral of a positive number, and a minus sign before the magnitude's numeral for a negative one |
| Text.DecimalRoundTrip | internal/service/shift_service.go:76 | the numeral `%d` writes reads back as the same number |
| Text.NatToDecimalInjective | internal/service/shift_service.go:76 | different numbers are written differently |
| CompanyRepository.CompanyCreateValues | internal/domain/company/entity.go:157-200 | on Create, an empty theme, timezone or status is stored as light, UTC or active; every other column as given |
| CompanyRepository.AdminCreateValues | internal/domain/company/entity.go:218-219 | on Create, an empty role is stored as manager, and is_active is stored true whatever was sent |
| CompanyRepository.NewerFirstOrders | internal/repository/company_repository.go:73 | ORDER BY created_at DESC is a total, transitive order |
| CompanyRepository.MatchesQuery | internal/repository/company_repository.go:48-56 | a listed company has the status asked for, and matches the search in name, email or phone; an empty query filters nothing |
| CompanyRepository.BrandingColumns | internal/repository/company_repository.go:79-89 | the update set holds logo_url exactly when it is non-empty, color_palette exactly when non-nil, font_family exactly when non-empty, and nothing else |
| CompanyRepository.NoBrandingColumns | internal/repository/company_repository.go:91-93 | the update set is empty exactly when none of the three fields is supplied |
| CompanyRepository.BrandingApplied | internal/repository/company_repository.go:95 | applying the set changes exactly the supplied branding columns and updated_at; theme and every other column stay |
| CompanyRepository.BuildBrandingUpdates | internal/repository/company_repository.go:79-89 | the map filled field by field equals the branding update set |
| CompanyRepository.CompanyStore.constructor | internal/repository/company_repository.go:17-19 | an empty store satisfies the table invariants |
| CompanyRepository.CompanyStore.Create | internal/repository/company_repository.go:21-23 | the company is appended with the next id, gorm's defaults and both timestamps now; a failure changes nothing |
| CompanyRepository.CompanyStore.GetByID | internal/repository/company_repository.go:25-32 | found exactly when a row has the id; otherwise ErrRecordNotFound |
| CompanyRepository.CompanyStore.Update | internal/repository/company_repository.go:34-36 | Save replaces the row with the struct's id and bumps updated_at; nothing else changes |
| CompanyRepository.CompanyStore.Delete | internal/repository/company_repository.go:38-40 | the row with the id is removed for good; the others stay in order |
| CompanyRepository.CompanyStore.List | internal/repository/company_repository.go:42-76 | the total counts every match before paging; the page holds exactly min(limit, total - offset) companies, and company i of it is match (page-1)*limit + i, newest first |
| CompanyRepository.CompanyStore.UpdateBranding | internal/repository/company_repository.go:78-96 | "no branding fields to update" and no change when nothing is supplied; otherwise only the supplied columns of that row are set |
| CompanyRepository.CompanyStore.UpdateStatus | internal/repository/company_repository.go:98-100 | only the status (and updated_at) of the row with that id changes |
| CompanyRepository.CompanyStore.CreateAdmin | internal/repository/company_repository.go:103-105 | the admin is appended with the next id and defaults; a taken email is refused by the unique index with MySQL's duplicate-entry error |
| CompanyRepository.CompanyStore.GetAdminByEmail | internal/repository/company_repository.go:107-114 | found exactly when an admin has exactly that email |
| CompanyRepository.CompanyStore.GetAdminByID | internal/repository/company_repository.go:116-123 | found exactly when an admin has the id; the company relation is filled exactly when that company exists |
| CompanyRepository.CompanyStore.ListAdmins | internal/repository/company_repository.go:125-129 | exactly the admins of the given company |
| CompanyRepository.AppendKeepsEmailsUnique | internal/domain/company/entity.go:215 | inserting an admin whose email no admin has keeps admin emails unique |
| CompanyRepository.AdminByEmailUnique | internal/domain/company/entity.go:215 | with unique emails, one email names at most one admin |
| CompanyService.ToCompanyResponse | internal/service/company_service.go:240-255 | the response copies id and status and leaves the theme empty |
| CompanyService.CompanyResponseOmitsOnlyTheme | internal/service/company_service.go:240-255 | two companies have the same response exactly when they differ at most in the theme |
| CompanyService.ToAdminResponse | internal/service/company_service.go:257-269 | the response copies id, company, full name, email, phone, role, is_active and both timestamps |
| CompanyService.AdminResponseHidesCredentials | internal/service/company_service.go:257-269 | the response never depends on the password hash or on the loaded company |
| CompanyService.AdminResponseOmitsOnlyCredentials | internal/service/company_service.go:257-269 | two admins have the same response exactly when they differ at most in the password hash and the loaded company |
| CompanyService.MergeCompany | internal/service/company_service.go:108-123 | each of name, email, phone, address and timezone is replaced when the request's is non-empty and kept when it is empty; no other column changes |
| CompanyService.MergeIdempotent | internal/service/company_service.go:108-123 | merging the same request twice is merging it once |
| CompanyService.EmptyUpdateKeepsCompany | internal/service/company_service.go:108-123 | a request with every field empty changes nothing |
| CompanyService.OwnedGrows | internal/service/company_service.go:63-78 | adding admins keeps every company owned |
| CompanyService.OwnedAfterDelete | internal/service/company_service.go:133-143 | deleting companies keeps every remaining company owned |
| CompanyService.OwnedAfterUpdate | internal/service/company_service.go:99-131 | an update that keeps ids keeps every company owned |
| CompanyService.CreateCompanyRow | internal/service/company_service.go:30-55 | a taken owner email is "admin email already exists" and nothing is created; otherwise the company is inserted active, with timezone UTC when none is given; a failed insert is wrapped and changes nothing |
| CompanyService.OwnerOf | internal/service/company_service.go:63-71 | the owner built for a new company: of that company, role owner, active, with the request's owner name, email and phone and the password hash |
| CompanyService.CreateCompanyAsWritten | internal/service/company_service.go:57-61 | as written: when hashing fails, the error is returned, the admins are unchanged and the company stays in the table; when every admin belongs to an issued company, the new company has no owner and "every company has an owner" is broken |
| CompanyService.CreateCompany | internal/service/company_service.go:29-84 | corrected: the error cases in order (email taken, company insert, hash, owner insert); on every error both tables are as before; on success the company and an active owner admin of it; every company keeps an owner |
| CompanyService.GetCompany | internal/service/company_service.go:86-97 | the company's response exactly when it exists; otherwise "company not found" |
| CompanyService.UpdateCompany | internal/service/company_service.go:99-131 | "company not found" for an unknown id; a failed save is wrapped and changes nothing; otherwise the merged company is saved and returned |
| CompanyService.DeleteCompany | internal/service/company_service.go:133-143 | "company not found" before anything else; otherwise the company is gone and no other row changes |
| CompanyService.ListCompanies | internal/service/company_service.go:145-173 | one response per listed company in the same order; the total; the page and limit with defaults; the page count is ceil(total/limit) |
| CompanyService.UpdateBranding | internal/service/company_service.go:175-185 | a request with nothing supplied fails and changes nothing; a failure is wrapped as a branding failure; otherwise the updated company is returned |
| CompanyService.SetCompanyStatus | internal/service/company_service.go:187-193 | the table after is the UPDATE of status and updated_at on the row with that id, every other row unchanged; the company reads back with the status; an unknown id changes nothing and is not an error |
| CompanyService.SuspendCompany | internal/service/company_service.go:187-189 | afterwards the company reads as suspended |
| CompanyService.ActivateCompany | internal/service/company_service.go:191-193 | afterwards the company reads as active |
| CompanyService.StatusChangesCompose | internal/service/company_service.go:187-193 | suspending twice is suspending once; suspending then activating restores the status, with only updated_at differing |
| CompanyService.LoginAdmin | internal/service/company_service.go:195-224 | an unknown email or a wrong password gives the same "invalid email or password"; an inactive account gives "account is inactive" before the password is checked; success gives a day-long token for the admin's id and the admin's response |
| CompanyService.LoginTokenIdentifiesAdmin | internal/service/company_service.go:213-217 | the token a login hands out validates to the admin's id within the day |
| CompanyService.InactiveReportedBeforePassword | internal/service/company_service.go:205-212 | for an inactive account the answer does not depend on the password sent |
| CompanyService.GetAdminProfile | internal/service/company_service.go:226-237 | found exactly when an admin has the id, and then the response is toAdminResponse of that admin; otherwise "admin not found" |
| DriverRepository.DriverCreateValues | internal/domain/driver/entity.go:29-31 | on Create, an empty status or online status is stored as active or offline; every other column as given |
| DriverRepository.EmptyQueryMatchesAll | internal/repository/driver_repository.go:56-76 | a query with no filters set filters nothing |
| DriverRepository.NewerFirstOrders | internal/repository/driver_repository.go:93 | ORDER BY created_at DESC is a total, transitive order |
| DriverRepository.MatchesQuery | internal/repository/driver_repository.go:56-76 | a listed driver has the company, store, status and online status asked for, each only when set, and matches the search in name, phone or email; with nothing set every driver matches |
| DriverRepository.DriverStore.constructor | internal/repository/driver_repository.go:16-18 | an empty store satisfies the table invariants |
| DriverRepository.DriverStore.Create | internal/repository/driver_repository.go:20-22 | the driver is appended with the next id, the defaults and both timestamps now; a failure changes nothing |
| DriverRepository.DriverStore.GetByID | internal/repository/driver_repository.go:24-31 | found exactly when a row has the id |
| DriverRepository.DriverStore.GetByPhone | internal/repository/driver_repository.go:33-40 | found exactly when a driver has both that phone and that company |
| DriverRepository.DriverStore.Update | internal/repository/driver_repository.go:42-44 | Save replaces the row with the struct's id and bumps updated_at |
| DriverRepository.DriverStore.Delete | internal/repository/driver_repository.go:46-48 | the row is removed for good and the others stay |
| DriverRepository.DriverStore.List | internal/repository/driver_repository.go:50-96 | the total counts every match before paging; the page holds exactly min(limit, total - offset) drivers, and driver i of it is match (page-1)*limit + i, newest first |
| DriverRepository.DriverStore.UpdateStatus | internal/repository/driver_repository.go:98-100 | only the status (and updated_at) of the row with that id changes |
| DriverRepository.CompanyListing | internal/repository/driver_repository.go:57-59 | with a company id set, a page holds only that company's drivers, and every driver of it appears on some page |
| DriverRepository.FilterIgnoresPaging | internal/repository/driver_repository.go:56-76 | the filters do not depend on page or limit |
| DriverRepository.SamePhoneSameDriver | internal/service/driver_service.go:31-37 | with phones unique per company, a phone and a company identify at most one driver |
| DriverRepository.AppendKeepsPhonesUnique | internal/service/driver_service.go:31-37 | inserting a phone the company does not have keeps phones unique per company |
| DriverRepository.FilterKeepsPhonesUnique | internal/repository/driver_repository.go:46-48 | deleting drivers keeps phones unique per company |
| DriverRepository.StatusKeepsPhonesUnique | internal/repository/driver_repository.go:98-100 | a status change keeps phones unique per company |
| DriverRepository.SaveKeepsPhonesUnique | internal/repository/driver_repository.go:42-44 | a save that takes no phone of another driver of the company keeps phones unique |
| DriverService.ToDriverResponse | internal/service/driver_service.go:211-226 | the response copies id, company, phone and status |
| DriverService.DriverResponseOmitsOnlyHash | internal/service/driver_service.go:211-226 | two drivers have the same response exactly when they differ at most in the password hash |
| DriverService.MergeDriver | internal/service/driver_service.go:89-112 | each of name, phone, email and photo is replaced when the request's is non-empty, and the store when non-nil, and otherwise kept; no other column changes, so company and status stay |
| DriverService.ApplyUpdate | internal/service/driver_service.go:89-112 | the field-by-field overwrite equals the merge |
| DriverService.MergeDriverIdempotent | internal/service/driver_service.go:89-112 | merging the same request twice is merging it once |
| DriverService.OwnPhoneNoConflict | internal/service/driver_service.go:93-103 | re-submitting the driver's own phone is never a conflict |
| DriverService.PhoneConflict | internal/service/driver_service.go:93-103 | an empty phone is never a conflict; a conflict means another driver of the same company holds the phone |
| DriverService.MergedPhoneFree | internal/service/driver_service.go:93-103 | without a conflict, no other driver of the company holds the merged phone |
| DriverService.MergeKeepsPhonesUnique | internal/service/driver_service.go:93-116 | saving a merge that passed the phone check keeps phones unique per company |
| DriverService.CreateDriver | internal/service/driver_service.go:29-65 | a phone already held in the company fails before anything else; a hashing failure and an insert failure are wrapped and insert nothing; otherwise an active, offline driver rated 0 holding the hash; phones stay unique |
| DriverService.GetDriver | internal/service/driver_service.go:67-78 | the driver's response exactly when it exists; otherwise "driver not found" |
| DriverService.UpdateDriver | internal/service/driver_service.go:80-120 | "driver not found"; a phone held by another driver of the company is refused and nothing is saved; otherwise the merge is saved and returned; phones stay unique |
| DriverService.DeleteDriver | internal/service/driver_service.go:122-132 | "driver not found" before anything else; otherwise the driver is gone and the others stay |
| DriverService.ListDrivers | internal/service/driver_service.go:134-162 | one response per listed driver in the same order; the total; page and limit with defaults; the page count is ceil(total/limit) |
| DriverService.AssignToCompany | internal/service/driver_service.go:164-182 | "driver not found"; otherwise company and store are overwritten, a nil store included, with no phone check |
| DriverService.AssignCanSharePhone | internal/service/driver_service.go:173-176 | since no phone is checked, two drivers of one company can end up sharing a phone |
| DriverService.AssignBreaksPhonesUnique | internal/service/driver_service.go:164-182 | for any table: moving a driver into the company of another driver with the same phone leaves two drivers of that company sharing it |
| DriverService.SetDriverStatus | internal/service/driver_service.go:184-190 | the table after is the UPDATE of status and updated_at on the row with that id, every other row unchanged; an unknown id changes nothing and is not an error |
| DriverService.BlockDriver | internal/service/driver_service.go:184-186 | afterwards the driver reads as suspended |
| DriverService.UnblockDriver | internal/service/driver_service.go:188-190 | afterwards the driver reads as active |
| DriverService.StatusChangesCompose | internal/service/driver_service.go:184-190 | blocking twice is blocking once; unblocking after blocking gives active |
| DriverService.GetDriverPerformance | internal/service/driver_service.go:192-208 | "driver not found" for an unknown id before the performance is looked at; otherwise the performance, its failure wrapped |
| ShiftRepository.DateBound | internal/repository/shift_repository.go:36-48 | a bound is set exactly when the text is non-empty and parses, and it is the parsed day |
| ShiftRepository.LaterFirstOrders | internal/repository/shift_repository.go:65 | ORDER BY shift_date DESC, created_at DESC is a total, transitive order |
| ShiftRepository.ShiftMatches | internal/repository/shift_repository.go:25-48 | a listed shift is the driver's, of the company and status asked for when set, and within the dates that parse; with nothing else set every shift of the driver matches |
| ShiftRepository.ShiftStore.constructor | internal/repository/shift_repository.go:17-19 | the store holds the given rows |
| ShiftRepository.ShiftStore.GetByDriverID | internal/repository/shift_repository.go:21-68 | only that driver's shifts that pass the filters; the total counts every match before paging; the page holds exactly min(limit, total - offset) shifts, and shift i of it is match (page-1)*limit + i, latest first |
| ShiftRepository.QueryDriverIgnored | internal/repository/shift_repository.go:25 | the query's own driver id changes nothing; the argument decides |
| ShiftRepository.UnparsableDatesIgnored | internal/repository/shift_repository.go:36-48 | dates that do not parse list as if absent, with no error |
| ShiftRepository.BoundsInclusive | internal/repository/shift_repository.go:39-46 | with start and end on the same day, exactly that day's shifts of the driver pass |
| ShiftService.TruncDiv | internal/service/shift_service.go:73 | Go's integer conversion of a quotient rounds toward zero |
| ShiftService.TruncMod | internal/service/shift_service.go:74 | Go's `%` leaves the remainder with the dividend's sign |
| ShiftService.Hours | internal/service/shift_service.go:73 | int(d.Hours()): the whole hours of the span, rounded toward zero |
| ShiftService.MinutesPastHour | internal/service/shift_service.go:74 | int(d.Minutes()) % 60: between 0 and 59 for a forward span, between -59 and 0 for a backward one |
| ShiftService.DurationText | internal/service/shift_service.go:73-76 | for a forward span, the numeral of the hours, "h ", the numeral of the minutes past the hour, and "m"; for a backward span (end before start) the same shape with each non-zero part written with a minus sign, as Go prints negative ints; never shorter than four characters |
| ShiftService.DurationParts | internal/service/shift_service.go:73-76 | for a span that does not run backwards, hours*60 + minutes is the span's whole minutes, and 0 <= minutes < 60 |
| ShiftService.DurationTextDeterminesMinutes | internal/service/shift_service.go:73-76 | two forward spans with the same text have the same whole minutes |
| ShiftService.DurationExamples | internal/service/shift_service.go:73-76 | ninety minutes reads "1h 30m", and minus ninety reads "-1h -30m" |
| ShiftService.ToShiftResponse | internal/service/shift_service.go:51-80 | the duration is non-empty exactly when both start and end are set, and is then the text of end - start |
| ShiftService.ShiftResponseRoundTrip | internal/service/shift_service.go:52-69 | every column of the shift is copied verbatim: the shift can be read back from its response |
| ShiftService.GetDriverShifts | internal/service/shift_service.go:20-48 | one response per listed shift in the same order, all of the driver; the total; page and limit with defaults; the page count is ceil(total/limit) |
| ModuleRepository.CatalogLeOrders | internal/repository/module_repository.go:22 | ORDER BY category, name is a total, transitive order |
| ModuleRepository.CreateValuesAsWritten | internal/domain/module/entity.go:52 | gorm's Create writes is_enabled as true whatever was sent, and every other column as given |
| ModuleRepository.DisabledAssignmentStoredEnabled | internal/domain/module/entity.go:52 | as written: an assignment sent disabled is stored enabled |
| ModuleRepository.Preload | internal/repository/module_repository.go:41 | Preload("Module") fills the relation exactly when the catalogue has the module, with that module; the row is otherwise unchanged |
| ModuleRepository.ModuleStore.constructor | internal/repository/module_repository.go:16-18 | a store over an id-ordered catalogue with no assignments satisfies the invariants |
| ModuleRepository.ModuleStore.ListAllModules | internal/repository/module_repository.go:20-24 | a permutation of the whole catalogue, ordered by category and then name |
| ModuleRepository.ModuleStore.GetModuleByID | internal/repository/module_repository.go:26-33 | found exactly when the catalogue has the id |
| ModuleRepository.ModuleStore.GetCompanyModules | internal/repository/module_repository.go:39-43 | exactly the company's assignments in id order, each with its module preloaded |
| ModuleRepository.ModuleStore.GetCompanyModule | internal/repository/module_repository.go:45-52 | found exactly when a row matches both company and module; otherwise ErrRecordNotFound |
| ModuleRepository.ModuleStore.AssignModule | internal/repository/module_repository.go:35-37 | inserts the row with the next id and gorm's defaults, so it is stored and handed back enabled; no uniqueness check of its own; a failure changes nothing |
| ModuleRepository.ModuleStore.AssignModuleAsGiven | internal/repository/module_repository.go:35-37 | corrected: inserts the row exactly as given, is_enabled included, with the next id; a failure changes nothing |
| ModuleRepository.ModuleStore.UpdateModuleConfig | internal/repository/module_repository.go:54-56 | only the config (and updated_at) of the row with that id changes |
| ModuleRepository.ModuleStore.RemoveModule | internal/repository/module_repository.go:58-60 | deletes every row of the pair and no other row |
| ModuleRepository.RemovedPairGone | internal/repository/module_repository.go:58-60 | after the delete the pair is absent, and every other assignment is still there |
| ModuleRepository.AppendKeepsPairsUnique | internal/service/module_service.go:46-63 | inserting a pair not yet assigned keeps pairs unique |
| ModuleRepository.FilterKeepsPairsUnique | internal/repository/module_repository.go:58-60 | deleting assignments keeps pairs unique |
| ModuleService.ToModuleResponse | internal/service/module_service.go:101-111 | id, key and category are copied |
| ModuleService.ModuleResponseRoundTrip | internal/service/module_service.go:101-111 | the module can be read back from its response |
| ModuleService.ToCompanyModuleResponse | internal/service/module_service.go:113-128 | copies id, company, is_enabled, config and both timestamps; the module is the loaded module's response, and the zero response when none is loaded |
| ModuleService.UnloadedResponseHidesModule | internal/service/module_service.go:113-128 | without a loaded module, the response does not tell which module is assigned |
| ModuleService.LoadedResponseNamesModule | internal/service/module_service.go:123-125 | with the right module loaded, the response names it |
| ModuleService.ListAllModules | internal/service/module_service.go:22-34 | one response per catalogue row, in the repository's order |
| ModuleService.ListingCoversCatalogue | internal/repository/module_repository.go:20-24 | a module is listed exactly when it is in the catalogue |
| ModuleService.GetCompanyModules | internal/service/module_service.go:73-85 | one response per assignment the repository returns, in its order, all of the company |
| ModuleService.AssignCheck | internal/service/module_service.go:37-54 | "module not found" first, then "module already assigned to company"; otherwise the catalogue module |
| ModuleService.RequestedAssignment | internal/service/module_service.go:56-61 | the assignment built from the request: its company, module, is_enabled and config |
| ModuleService.AssignModuleToCompanyAsWritten | internal/service/module_service.go:36-71 | as written: the two checks with no change; a failed insert is wrapped; otherwise one new row with the request's company, module and config but is_enabled true whatever was asked, answered as stored with the catalogue module; pairs stay unique |
| ModuleService.AssignModuleToCompany | internal/service/module_service.go:36-71 | corrected: the same checks and errors; otherwise one new row with the request's company, module, is_enabled and config, answered with the catalogue module; pairs stay unique |
| ModuleService.AssignVersionsDiffer | internal/domain/module/entity.go:52 | the two versions store the same row exactly when the request asks for the assignment enabled |
| ModuleService.NewPairKeepsPairsUnique | internal/service/module_service.go:46-63 | the pair the duplicate check let through keeps pairs unique once inserted |
| ModuleService.RemoveModuleFromCompany | internal/service/module_service.go:87-98 | "module not assigned to company" with no change; otherwise the pair is gone and every other assignment stays; pairs stay unique |
| UserRepository.UserStore.constructor | internal/repository/user_repository.go:14-16 | an empty store satisfies the invariants |
| UserRepository.UserStore.GetAll | internal/repository/user_repository.go:19-23 | exactly the users not soft-deleted |
| UserRepository.UserStore.GetByID | internal/repository/user_repository.go:26-33 | found exactly when a live user has the id |
| UserRepository.UserStore.GetByEmail | internal/repository/user_repository.go:36-43 | found exactly when a live user has the email |
| UserRepository.UserStore.Create | internal/repository/user_repository.go:46-48 | a user is appended with the next id; an email held by any row, soft-deleted ones included, is refused with MySQL's duplicate-entry error and nothing changes |
| UserRepository.UserStore.Update | internal/repository/user_repository.go:51-53 | Save replaces the live row with the struct's id; an email held by another row is refused |
| UserRepository.UserStore.Delete | internal/repository/user_repository.go:56-58 | a soft delete: deleted_at set on the live row with the id, nothing else |
| UserRepository.SavedUser | internal/repository/user_repository.go:51-53 | Save: every column of the row becomes the struct's, but the id and deleted_at stay and updated_at is now |
| UserRepository.SoftDeleted | internal/repository/user_repository.go:56-58 | a soft delete sets deleted_at, so the row is no longer live, and changes nothing else |
| UserRepository.AppendKeepsEmailsUnique | internal/domain/user/entity.go:16 | inserting an email no row holds keeps emails unique |
| UserRepository.SaveKeepsEmailsUnique | internal/domain/user/entity.go:16 | a save taking no other row's email keeps emails unique |
| UserRepository.SoftDeleteKeepsEmailHeld | internal/domain/user/entity.go:14-16 | a soft-deleted user's email stays taken |
| UserDto.UserResponseOmitsOnlySecrets | internal/domain/user/dto.go:28-36 | two users have the same response exactly when they differ at most in the password hash and the deletion mark |
| UserDto.ToUserResponse | internal/domain/user/dto.go:28-36 | copies id, name, email and both timestamps |
| UserDto.ToUserResponseList | internal/domain/user/dto.go:39-45 | same length; element i is the response of user i; empty gives empty |
| UserService.MapSaveError | internal/service/user_service.go:45-48 | as written: "email already exists" exactly when the text contains "duplicate" or "unique", case-sensitively; any other error passes through |
| UserService.MapSaveErrorIdempotent | internal/service/user_service.go:45-48 | mapping twice is mapping once |
| UserService.DuplicateEntryNotRecognised | internal/service/user_service.go:45-48 | as written: MySQL's "Duplicate entry" error for an email without 'd' or 'q' passes through unmapped |
| UserService.DuplicateEntryRecognisedByEmail | internal/service/user_service.go:45-48 | as written: the same error is mapped only when, for instance, the email itself contains "unique" |
| UserService.MapSaveErrorFolded | internal/service/user_service.go:45-48 | corrected: the same test, ignoring case; it recognises everything the as-written test does |
| UserService.FoldingKeepsLowerCase | internal/service/user_service.go:45 | lower-casing a text keeps every occurrence of a lower-case word |
| UserService.LooksDuplicateFolded | internal/service/user_service.go:45 | corrected: the case-insensitive test holds for everything the as-written test holds for |
| UserService.DuplicateEntryRecognised | internal/service/user_service.go:43-49 | corrected: MySQL's error for a taken email maps to "email already exists" for every email |
| UserService.MapSaveErrorFoldedIdempotent | internal/service/user_service.go:45-48 | the corrected mapping applied twice is applied once |
| UserService.Register | internal/service/user_service.go:28-61 | as written: a hash failure first; a store error goes through the case-sensitive mapping, so a taken email gives MySQL's raw duplicate-entry error whenever the email has no 'd' or 'q'; on error the store is unchanged; on success the new user holds the hash and gets a token for its id and email |
| UserService.LoginDecision | internal/service/user_service.go:66-88 | success exactly when the user is found and the password checks; not found and a wrong password give the same "invalid credentials"; other lookup errors pass through; the token is for the user's id and email |
| UserService.Login | internal/service/user_service.go:64-89 | success exactly when a live user has the email and the password checks against its hash; every failure is "invalid credentials" |
| UserService.LoginAfterRegister | internal/service/user_service.go:43-88 | a user just registered logs in with the password whose hash was stored, and gets what Register gave |
| UserService.CreateUser | internal/service/user_service.go:102-126 | as written: as Register without the token; the stored password is the hash; a taken email goes through the same case-sensitive mapping and comes back raw for an email without 'd' or 'q' |
| UserService.MergeUser | internal/service/user_service.go:140-145 | a non-empty name or email replaces the user's; every other field stays |
| UserService.MergeUserIdempotent | internal/service/user_service.go:140-145 | merging the same request twice is merging it once |
| UserService.UpdateUser | internal/service/user_service.go:129-156 | as written: "user not found" for an id with no live user; an email another row holds is refused with nothing saved, its error through the case-sensitive mapping, raw for an email without 'd' or 'q'; otherwise the merged user is saved and reads back |
| UserService.DeleteUser | internal/service/user_service.go:159-170 | "user not found" and nothing deleted; otherwise the user is soft-deleted and no longer found |
| UserService.DeletedNotFound | internal/repository/user_repository.go:56-58 | after the soft delete no row is a live row with that id |
| UserService.DeletedEmailUnusable | internal/domain/user/entity.go:14-16 | after a user is soft-deleted, no live user holds its email, so it cannot log in, yet the email stays held, so it cannot be registered again |
| Jwt.Narrow | pkg/jwt/jwt.go:80 | uint(x) of a uint64: below 2^64, and x itself when x fits |
| Jwt.NumericDate | pkg/jwt/jwt.go:42-44 | jwt.NewNumericDate truncates to the whole second holding the time |
| Jwt.Generate | pkg/jwt/jwt.go:37-50 | HS256 with the manager's secret; the given id and email; iat = nbf = the issue second; exp the second of now plus the manager's lifetime |
| Jwt.GenerateToken | pkg/jwt/jwt.go:78-91 | HS256 with the given secret; the id narrowed to uint and an empty email; iat = nbf = the issue second; exp 24 hours later |
| Jwt.Parse | pkg/jwt/jwt.go:54-60 | a non-HMAC method is refused; with the right secret the token is expired exactly from its exp second on, and valid with its own claims exactly between nbf and exp |
| Jwt.KeyFunc | pkg/jwt/jwt.go:54-60 | the secret exactly for an HMAC method; ErrInvalidToken for any other |
| Jwt.Validate | pkg/jwt/jwt.go:53-75 | claims exactly when the parse succeeded; otherwise one of the two sentinels, ErrExpiredToken exactly for expiry |
| Jwt.ValidateToken | pkg/jwt/jwt.go:94-115 | the user id with a nil error exactly on success; 0 with every error; ErrExpiredToken exactly for expiry |
| Jwt.GenerateClaims | pkg/jwt/jwt.go:37-46 | the token carries the id and email; iat = nbf = now and exp = now + the manager's lifetime, in whole seconds |
| Jwt.GenerateTokenIsDayLong | pkg/jwt/jwt.go:78-91 | GenerateToken is Generate with a fixed 24-hour lifetime, an empty email and the id narrowed to uint |
| Jwt.IssuersSignWithHS256 | pkg/jwt/jwt.go:48-89 | both issuers sign with HS256 |
| Jwt.EveryHmacVariantAccepted | pkg/jwt/jwt.go:56-59 | HS256, HS384 and HS512 pass the method check; RS256 and none do not |
| Jwt.ValidUntilExpiry | pkg/jwt/jwt.go:37-75 | a token validates with its own claims from issue until its expiry second |
| Jwt.ExpiredAfterExpiry | pkg/jwt/jwt.go:62-65 | from the expiry second on, the same token fails with ErrExpiredToken |
| Jwt.ForeignSecretInvalid | pkg/jwt/jwt.go:62-67 | a token signed with another secret is invalid, never expired |
| Jwt.WrongMethodInvalid | pkg/jwt/jwt.go:54-58 | a non-HMAC token is invalid for Validate, and gives (0, invalid) from ValidateToken |
| Jwt.AdminIdRoundTrip | pkg/jwt/jwt.go:78-115 | an id below 2^64 survives GenerateToken then ValidateToken within the day |
| HttpUtil.ErrorKeys | pkg/httputil/response.go:18-22 | an error envelope always carries its message, even an empty one; errors is omitted exactly when nil, and an empty string is kept |
| HttpUtil.BareSuccessKeys | pkg/httputil/response.go:11-15 | a success with no message and no data is only {"success":true} |
| HttpUtil.GinContext.constructor | internal/middleware/auth.go:20-21 | a fresh context with the given keys, not aborted, nothing written |
| HttpUtil.GinContext.Set | internal/middleware/auth.go:58-59 | c.Set stores the key and changes nothing else |
| HttpUtil.GinContext.Abort | internal/middleware/auth.go:26 | c.Abort marks the chain aborted and changes nothing else |
| HttpUtil.GinContext.Next | internal/middleware/auth.go:61 | c.Next runs the rest of the chain and changes nothing else |
| HttpUtil.GinContext.Json | pkg/httputil/response.go:32 | c.JSON appends one response and changes nothing else |
| HttpUtil.RespondSuccess | pkg/httputil/response.go:31-37 | writes exactly one response, with success true and the message and data unchanged |
| HttpUtil.RespondError | pkg/httputil/response.go:40-46 | writes exactly one response, with success false and the message and errors unchanged |
| HttpUtil.ValidationMessage | pkg/httputil/response.go:65-80 | "Invalid email format" for the email tag; otherwise the field as declared followed by " is required", " must be at least <param> characters", " must not exceed <param> characters", " already exists" or, for any other tag, " is invalid" |
| HttpUtil.TagKind | pkg/httputil/response.go:66-79 | the five tags with a message of their own, and the default kind for every other tag |
| HttpUtil.MessagesTellTagsApart | pkg/httputil/response.go:65-80 | for one field and parameter, tags of different kinds never give the same message |
| HttpUtil.FormatValidationErrors | pkg/httputil/response.go:49-62 | none for an error that is not validator.ValidationErrors; otherwise one entry per field error, in order, with the field lower-cased and its message |
| Middleware.CheckHeader | internal/middleware/auth.go:23-43 | the three checks in order: empty header, then a missing case-sensitive "Bearer " prefix, then an empty token; otherwise the token is the header with one "Bearer " removed |
| Middleware.AuthGate | internal/middleware/auth.go:23-55 | admits exactly a bearer token that parses, with its claims; a refusal carries no errors payload; the message is "Token has expired" exactly for an expired token |
| Middleware.AdminGate | internal/middleware/admin_auth.go:17-45 | admits exactly a bearer token that parses, with its user id; a refusal carries an error text; "Invalid or expired token" with "token has expired" exactly for an expired token |
| Middleware.GatesAgree | internal/middleware/admin_auth.go:17-45 | the two middlewares admit the same requests as the same user, and refuse bad headers with the same messages |
| Middleware.GetUserID | internal/middleware/auth.go:66-73 | the id exactly when it is stored as a uint; (0, false) when absent or of another type |
| Middleware.GetEmail | internal/middleware/auth.go:76-83 | the email exactly when it is stored as a string; ("", false) otherwise |
| Middleware.Auth | internal/middleware/auth.go:20-63 | a refusal writes one 401 with the message, aborts, and sets no key; admission sets user_id and email from the claims and runs the chain, and GetUserID/GetEmail then read them back |
| Middleware.AdminAuth | internal/middleware/admin_auth.go:14-52 | a refusal writes one 401 with the message and the error text, aborts, and sets no key; admission stores the id as a uint64 and runs the chain, which GetUserID then does not read |

## Left out

- HTTP handlers, routing, configuration, logging, the server and request binding are not modelled. Neither is anything under internal/handler, internal/router, internal/config, cmd or pkg/logger.
- Concurrency is not modelled: each call runs alone. The check-then-insert sequences in CreateCompany, CreateDriver, AssignModuleToCompany and Register therefore cannot race.
- bcrypt (pkg/hash/hash.go is not part of this model) is represented by its output `hashed` and its comparison `check`. Salting and timing are not modelled.
- The clock, time.Parse and the outcome of golang-jwt's signing and parsing are parameters. The JWT signing error (SignedString failing) is not modelled, because it cannot happen with an HMAC key.
- Floating point is not modelled. Decimal columns (ratings, distances, earnings) are kept in hundredths. math.Ceil over float64 is integer ceiling division. Duration.Hours()/Minutes() are integer nanosecond arithmetic, truncated toward zero as Go's int conversion does.
- Read errors other than gorm's ErrRecordNotFound (a lost connection during a lookup) are not modelled. The `return nil, err` branches behind them are omitted, and so is the repositories' error return from List and GetByDriverID.
- LIKE search: only the case-insensitive substring test is modelled. `%` and `_` typed inside the search text are not treated as wildcards, and MySQL collation beyond ASCII case is not modelled.
- Rows that tie under ORDER BY come back in id order (a stable sort). MySQL does not promise any tie order.
- gorm Save inserts when the primary key is zero or missing. That fallback is not modelled: the services only save rows they have just loaded.
- Company entity: only the columns the services read or write are kept. The other defaulted settings columns (locale, currency, billing and the like) are left out.
- CompanyService.UpdateBranding: the "company not found" branch after a successful update (internal/service/company_service.go:177-179) cannot be told apart from a vanished row. It is modelled as the read-back failing.
- CompanyService.CreateCompany: the rollback Delete is assumed to succeed; its error is discarded in the source too.
- The SQL aggregate of GetPerformance (internal/repository/driver_repository.go:102-137) is not modelled. DriverService.GetDriverPerformance takes its outcome as the parameter `performance`.
- GetAllUsers and GetUserByID (internal/service/user_service.go:92-99) call the repository directly. They are modelled by UserRepository.UserStore.GetAll and GetByID.
- The key name in MySQL's duplicate-entry text ("users.email") follows MySQL 8; older servers name only the index.
- Middleware.AdminAuth: ValidateToken's uint64 id is stored as is. Handlers that read it with a different type assertion are not modelled.
- UpdateModuleConfig is not called by any service; it is modelled only at the repository.
- MySQL's default collation compares strings without case. The model's ORDER BY on text (Sorting.StrLe, used for the module catalogue) is a binary order, and email equality in lookups and in the unique indexes is exact. Text.ToLower, behind LIKE, lowers the ASCII letters only.
- The index name in the admins' duplicate-entry text ("company_admins.email") is assumed from the table and column. The service never reads it.
- GetCompanyModules (internal/repository/module_repository.go:39-43) has no ORDER BY. The model returns the rows in id order, which MySQL does not promise.
- Jwt.Parse: golang-jwt's checks are reduced to the ones the lemmas rely on: the method, the secret, then exp and nbf. Leeway, audience and issuer are not modelled, and the service sets none of them.

## Findings

| source | as written | input that shows it | evidently intended | confidence | as-written member | corrected member |
|---|---|---|---|---|---|---|
| internal/service/company_service.go:57-61 | when hashing the owner's password fails after the company row is inserted, the error is returned and the company is not rolled back | an owner password bcrypt refuses (longer than 72 bytes) | roll the company back on every failure after its insert, as the owner-insert failure at lines 74-78 does, so every company has an owner | not executed | CompanyService.CreateCompanyAsWritten | CompanyService.CreateCompany |
| internal/domain/module/entity.go:52 with internal/service/module_service.go:56-63 | `is_enabled` carries `default:true`, and gorm writes a zero-valued field with a default as that default, so an assignment requested disabled is stored enabled | AssignModuleRequest with is_enabled false | store the assignment as requested | not executed | ModuleService.AssignModuleToCompanyAsWritten | ModuleService.AssignModuleToCompany |
| internal/service/user_service.go:45, 119, 149 | the duplicate test is case-sensitive, but MySQL reports a taken email as "Duplicate entry ..." (capital D, no "unique"), so the raw database error is returned instead of "email already exists" | registering "a@b.co" twice | report a taken email as "email already exists" | not executed | UserService.Register | UserService.DuplicateEntryRecognised |
