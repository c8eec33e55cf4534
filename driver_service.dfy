/** Driver administration use cases (internal/service/driver_service.go,
    requests and responses of internal/domain/driver/dto.go).

    `hashed` is what hash.HashPassword returned for the request's password;
    `now` is the clock reading in nanoseconds. */
module DriverService {
  import opened Common
  import opened Collections
  import opened Paging
  import opened Tables
  import opened DriverRepository

  const PhoneTaken: string := "driver with this phone already exists in this company"

  /** DriverResponse: every column but the password hash. */
  datatype DriverResponse = DriverResponse(
    id: nat, companyID: nat, storeID: Option<nat>, fullName: string, phone: string, email: string,
    status: string, onlineStatus: string, rating: int, profilePhoto: string, createdAt: int, updatedAt: int)

  datatype CreateDriverRequest = CreateDriverRequest(
    companyID: nat, storeID: Option<nat>, fullName: string, phone: string, email: string,
    password: string, profilePhoto: string)

  datatype UpdateDriverRequest = UpdateDriverRequest(
    fullName: string, phone: string, email: string, storeID: Option<nat>, profilePhoto: string)

  datatype AssignDriverToCompanyRequest = AssignDriverToCompanyRequest(companyID: nat, storeID: Option<nat>)

  datatype PaginatedDriversResponse = PaginatedDriversResponse(
    drivers: seq<DriverResponse>, totalCount: nat, page: int, limit: int, totalPages: nat)

  /** toDriverResponse */
  function ToDriverResponse(d: Driver): (r: DriverResponse)
    ensures r.id == d.id && r.companyID == d.companyID && r.phone == d.phone && r.status == d.status
  {
    DriverResponse(d.id, d.companyID, d.storeID, d.fullName, d.phone, d.email,
                   d.status, d.onlineStatus, d.rating, d.profilePhoto, d.createdAt, d.updatedAt)
  }

  /** The response carries everything but the password hash: two drivers
      have the same response exactly when they differ at most in it. */
  lemma DriverResponseOmitsOnlyHash(a: Driver, b: Driver)
    ensures ToDriverResponse(a) == ToDriverResponse(b) <==> a.(passwordHash := b.passwordHash) == b
  {
  }

  /** UpdateDriver's merge: each non-empty request field, and a non-nil
      store, replaces the column; company, status and the rest stay. */
  function MergeDriver(d: Driver, req: UpdateDriverRequest): (r: Driver)
    ensures r.fullName == (if req.fullName != "" then req.fullName else d.fullName)
    ensures r.phone == (if req.phone != "" then req.phone else d.phone)
    ensures r.email == (if req.email != "" then req.email else d.email)
    ensures r.storeID == (if req.storeID.Some? then req.storeID else d.storeID)
    ensures r.profilePhoto == (if req.profilePhoto != "" then req.profilePhoto else d.profilePhoto)
    ensures r.(fullName := d.fullName, phone := d.phone, email := d.email, storeID := d.storeID,
               profilePhoto := d.profilePhoto) == d
  {
    d.(fullName := if req.fullName != "" then req.fullName else d.fullName,
       phone := if req.phone != "" then req.phone else d.phone,
       email := if req.email != "" then req.email else d.email,
       storeID := if req.storeID.Some? then req.storeID else d.storeID,
       profilePhoto := if req.profilePhoto != "" then req.profilePhoto else d.profilePhoto)
  }

  /** UpdateDriver's field-by-field overwrite of the loaded driver. */
  method ApplyUpdate(d: Driver, req: UpdateDriverRequest) returns (r: Driver)
    ensures r == MergeDriver(d, req)
  {
    r := d;
    if req.fullName != "" {
      r := r.(fullName := req.fullName);
    }
    if req.phone != "" {
      r := r.(phone := req.phone);
    }
    if req.email != "" {
      r := r.(email := req.email);
    }
    if req.storeID.Some? {
      r := r.(storeID := req.storeID);
    }
    if req.profilePhoto != "" {
      r := r.(profilePhoto := req.profilePhoto);
    }
  }

  /** Sending the same update twice is sending it once. */
  lemma MergeDriverIdempotent(d: Driver, req: UpdateDriverRequest)
    ensures MergeDriver(MergeDriver(d, req), req) == MergeDriver(d, req)
  {
  }

  /** UpdateDriver's phone check: the request names a phone that a driver
      other than this one holds in this driver's company (the first such
      row is the one looked at). */
  predicate PhoneConflict(store: DriverStore, d: Driver, req: UpdateDriverRequest)
    reads store
    ensures req.phone == "" ==> !PhoneConflict(store, d, req)
    ensures PhoneConflict(store, d, req) ==>
              exists i :: 0 <= i < |store.drivers| && store.drivers[i].phone == req.phone
                          && store.drivers[i].companyID == d.companyID && store.drivers[i].id != d.id
  {
    req.phone != "" && store.GetByPhone(req.phone, d.companyID).Ok? && store.GetByPhone(req.phone, d.companyID).value.id != d.id
  }

  /** With unique phones, re-submitting a driver's own phone is never a
      conflict. */
  lemma OwnPhoneNoConflict(store: DriverStore, d: Driver, req: UpdateDriverRequest)
    requires PhonesUnique(store.drivers) && d in store.drivers && req.phone == d.phone
    ensures !PhoneConflict(store, d, req)
  {
    if req.phone != "" {
      var found := store.GetByPhone(req.phone, d.companyID).value;
      var i :| 0 <= i < |store.drivers| && store.drivers[i] == d;
      var j :| 0 <= j < |store.drivers| && store.drivers[j] == found;
      SamePhoneSameDriver(store.drivers, i, j);
    }
  }

  /** Without a conflict, no other driver of the company holds the merged
      phone. */
  lemma MergedPhoneFree(rows: seq<Driver>, d: Driver, req: UpdateDriverRequest)
    requires PhonesUnique(rows) && d in rows
    requires req.phone != "" ==>
               First(rows, HasPhoneIn(req.phone, d.companyID)).Err?
               || First(rows, HasPhoneIn(req.phone, d.companyID)).value.id == d.id
    ensures forall i :: 0 <= i < |rows| && rows[i].id != d.id ==>
              !(rows[i].phone == MergeDriver(d, req).phone && rows[i].companyID == MergeDriver(d, req).companyID)
  {
    var m := MergeDriver(d, req);
    forall i | 0 <= i < |rows| && rows[i].id != d.id
      ensures !(rows[i].phone == m.phone && rows[i].companyID == m.companyID)
    {
      if req.phone == "" || First(rows, HasPhoneIn(req.phone, d.companyID)).Ok? {
        var other := if req.phone == "" then d else First(rows, HasPhoneIn(req.phone, d.companyID)).value;
        assert other in rows && other.phone == m.phone && other.companyID == m.companyID && other.id == d.id;
        var k :| 0 <= k < |rows| && rows[k] == other;
        SamePhoneSameDriver(rows, i, k);
      }
    }
  }

  /** Saving a merge that passed the phone check keeps phones unique. */
  lemma MergeKeepsPhonesUnique(rows: seq<Driver>, d: Driver, req: UpdateDriverRequest, now: int)
    requires Ascending(rows, DriverKey) && PhonesUnique(rows) && d in rows
    requires req.phone != "" ==>
               First(rows, HasPhoneIn(req.phone, d.companyID)).Err?
               || First(rows, HasPhoneIn(req.phone, d.companyID)).value.id == d.id
    ensures PhonesUnique(UpdateWhere(rows, HasDriverID(d.id), Saved(MergeDriver(d, req), now)))
  {
    MergedPhoneFree(rows, d, req);
    SaveKeepsPhonesUnique(rows, MergeDriver(d, req), now);
  }

  /** CreateDriver: a phone already held in the company is refused before
      anything else; a hashing failure and an insert failure are wrapped;
      otherwise the new driver, active, offline, rated 0, holding the hash. */
  method CreateDriver(store: DriverStore, req: CreateDriverRequest, hashed: Result<string>, now: int, fault: Option<string>)
    returns (r: Result<DriverResponse>)
    requires store.Valid()
    modifies store
    ensures store.Valid()
    ensures old(store.GetByPhone(req.phone, req.companyID)).Ok? ==> r == Err(Fail(PhoneTaken))
    ensures old(store.GetByPhone(req.phone, req.companyID)).Err? && hashed.Err? ==>
              r == Err(Wrap("failed to hash password", hashed.error))
    ensures old(store.GetByPhone(req.phone, req.companyID)).Err? && hashed.Ok? && fault.Some? ==>
              r == Err(Wrap("failed to create driver", Failure(fault.value)))
    ensures r.Ok? <==> old(store.GetByPhone(req.phone, req.companyID)).Err? && hashed.Ok? && fault.None?
    ensures r.Err? ==> store.drivers == old(store.drivers)
    ensures r.Ok? ==>
              && |store.drivers| == |old(store.drivers)| + 1
              && store.drivers == old(store.drivers) + [store.drivers[|old(store.drivers)|]]
              && r.value == ToDriverResponse(store.drivers[|old(store.drivers)|])
              && r.value.id == old(store.nextID)
              && r.value.companyID == req.companyID && r.value.phone == req.phone && r.value.storeID == req.storeID
              && r.value.status == DriverActive && r.value.onlineStatus == Offline && r.value.rating == 0
              && store.drivers[|old(store.drivers)|].passwordHash == hashed.value
    ensures PhonesUnique(old(store.drivers)) ==> PhonesUnique(store.drivers)
  {
    var existing := store.GetByPhone(req.phone, req.companyID);
    if existing.Ok? {
      return Err(Fail(PhoneTaken));
    }
    if hashed.Err? {
      return Err(Wrap("failed to hash password", hashed.error));
    }
    var d := Driver(0, req.companyID, req.storeID, req.fullName, req.phone, req.email,
                    hashed.value, DriverActive, Offline, 0, req.profilePhoto, 0, 0);
    ghost var before := store.drivers;
    var created := store.Create(d, now, fault);
    if created.Err? {
      return Err(Wrap("failed to create driver", created.error));
    }
    if PhonesUnique(before) {
      AppendKeepsPhonesUnique(before, created.value);
    }
    r := Ok(ToDriverResponse(created.value));
  }

  /** GetDriver */
  function GetDriver(store: DriverStore, id: nat): (r: Result<DriverResponse>)
    reads store
    ensures r.Ok? <==> store.GetByID(id).Ok?
    ensures r.Ok? ==> r.value == ToDriverResponse(store.GetByID(id).value)
    ensures r.Err? ==> r.error == Fail("driver not found")
  {
    match store.GetByID(id)
    case Ok(d) => Ok(ToDriverResponse(d))
    case Err(_) => Err(Fail("driver not found"))
  }

  /** UpdateDriver: "driver not found" for an unknown id; a phone another
      driver of the company holds is refused and nothing is saved; otherwise
      the merged driver is saved and returned. Phones stay unique. */
  method UpdateDriver(store: DriverStore, id: nat, req: UpdateDriverRequest, now: int, fault: Option<string>)
    returns (r: Result<DriverResponse>)
    requires store.Valid()
    modifies store
    ensures store.Valid()
    ensures old(store.GetByID(id)).Err? ==> r == Err(Fail("driver not found"))
    ensures old(store.GetByID(id)).Ok? && old(PhoneConflict(store, store.GetByID(id).value, req)) ==>
              r == Err(Fail(PhoneTaken))
    ensures old(store.GetByID(id)).Ok? && !old(PhoneConflict(store, store.GetByID(id).value, req)) && fault.Some? ==>
              r == Err(Wrap("failed to update driver", Failure(fault.value)))
    ensures r.Ok? <==> old(store.GetByID(id)).Ok? && !old(PhoneConflict(store, store.GetByID(id).value, req)) && fault.None?
    ensures r.Err? ==> store.drivers == old(store.drivers)
    ensures r.Ok? ==>
              && store.drivers == UpdateWhere(old(store.drivers), HasDriverID(id),
                                              Saved(MergeDriver(old(store.GetByID(id)).value, req), now))
              && store.GetByID(id) == Ok(MergeDriver(old(store.GetByID(id)).value, req).(updatedAt := now))
              && r.value == ToDriverResponse(store.GetByID(id).value)
    ensures PhonesUnique(old(store.drivers)) ==> PhonesUnique(store.drivers)
  {
    var found := store.GetByID(id);
    if found.Err? {
      return Err(Fail("driver not found"));
    }
    if req.phone != "" {
      var existing := store.GetByPhone(req.phone, found.value.companyID);
      if existing.Ok? && existing.value.id != id {
        return Err(Fail(PhoneTaken));
      }
    }
    var d := ApplyUpdate(found.value, req);
    ghost var before := store.drivers;
    var err := store.Update(d, now, fault);
    if err.Some? {
      return Err(Wrap("failed to update driver", err.value));
    }
    assert found.value.id == id && d.id == id;
    FirstAfterUpdate(before, HasDriverID(id), Saved(d, now));
    assert store.GetByID(id) == Ok(d.(updatedAt := now));
    if PhonesUnique(before) {
      MergeKeepsPhonesUnique(before, found.value, req, now);
    }
    r := Ok(ToDriverResponse(d.(updatedAt := now)));
  }

  /** DeleteDriver: "driver not found" for an unknown id, before anything
      else; otherwise the row is deleted. */
  method DeleteDriver(store: DriverStore, id: nat, fault: Option<string>) returns (err: Option<Error>)
    requires store.Valid()
    modifies store
    ensures store.Valid()
    ensures old(store.GetByID(id)).Err? ==> err == Some(Fail("driver not found"))
    ensures old(store.GetByID(id)).Ok? && fault.Some? ==> err == Some(Failure(fault.value))
    ensures err.None? <==> old(store.GetByID(id)).Ok? && fault.None?
    ensures err.Some? ==> store.drivers == old(store.drivers)
    ensures err.None? ==> store.GetByID(id).Err? && store.drivers == Filter(old(store.drivers), NotDriverID(id))
    ensures PhonesUnique(old(store.drivers)) ==> PhonesUnique(store.drivers)
  {
    var found := store.GetByID(id);
    if found.Err? {
      return Some(Fail("driver not found"));
    }
    ghost var before := store.drivers;
    err := store.Delete(id, fault);
    if PhonesUnique(before) {
      FilterKeepsPhonesUnique(before, NotDriverID(id));
    }
    assert forall i :: 0 <= i < |store.drivers| ==> store.drivers[i] in store.drivers;
  }

  /** ListDrivers: the page the repository lists, as responses in the same
      order, with the defaults applied to page and limit and the page count. */
  method ListDrivers(store: DriverStore, q: ListDriversQuery) returns (r: PaginatedDriversResponse)
    ensures |r.drivers| == |store.List(q).0|
    ensures forall i :: 0 <= i < |r.drivers| ==> r.drivers[i] == ToDriverResponse(store.List(q).0[i])
    ensures r.totalCount == store.List(q).1
    ensures r.page == NormalizePage(q.page) && r.limit == NormalizeLimit(q.limit)
    ensures r.totalPages * r.limit >= r.totalCount && r.totalPages * r.limit < r.totalCount + r.limit
  {
    var (drivers, total) := store.List(q);
    var page, limit := q.page, q.limit;
    if page <= 0 {
      page := DefaultPage;
    }
    if limit <= 0 {
      limit := DefaultLimit;
    }
    var responses := [];
    var i := 0;
    while i < |drivers|
      invariant 0 <= i <= |drivers|
      invariant |responses| == i
      invariant forall k :: 0 <= k < i ==> responses[k] == ToDriverResponse(drivers[k])
    {
      var next := responses + [ToDriverResponse(drivers[i])];
      assert forall k :: 0 <= k < i ==> next[k] == responses[k];
      responses := next;
      i := i + 1;
    }
    r := PaginatedDriversResponse(responses, total, page, limit, TotalPages(total, limit));
  }

  /** AssignToCompany: "driver not found" for an unknown id; otherwise the
      company and the store are overwritten, a nil store included, without
      any phone check. */
  method AssignToCompany(store: DriverStore, driverID: nat, req: AssignDriverToCompanyRequest, now: int, fault: Option<string>)
    returns (r: Result<DriverResponse>)
    requires store.Valid()
    modifies store
    ensures store.Valid()
    ensures old(store.GetByID(driverID)).Err? ==> r == Err(Fail("driver not found"))
    ensures old(store.GetByID(driverID)).Ok? && fault.Some? ==> r == Err(Wrap("failed to assign driver", Failure(fault.value)))
    ensures r.Ok? <==> old(store.GetByID(driverID)).Ok? && fault.None?
    ensures r.Err? ==> store.drivers == old(store.drivers)
    ensures r.Ok? ==>
              && store.GetByID(driverID) ==
                   Ok(old(store.GetByID(driverID)).value.(companyID := req.companyID, storeID := req.storeID, updatedAt := now))
              && r.value == ToDriverResponse(store.GetByID(driverID).value)
              && store.drivers == UpdateWhere(old(store.drivers), HasDriverID(driverID),
                   Saved(old(store.GetByID(driverID)).value.(companyID := req.companyID, storeID := req.storeID), now))
  {
    var found := store.GetByID(driverID);
    if found.Err? {
      return Err(Fail("driver not found"));
    }
    var d := found.value.(companyID := req.companyID, storeID := req.storeID);
    ghost var before := store.drivers;
    var err := store.Update(d, now, fault);
    if err.Some? {
      return Err(Wrap("failed to assign driver", err.value));
    }
    FirstAfterUpdate(before, HasDriverID(driverID), Saved(d, now));
    r := Ok(ToDriverResponse(d.(updatedAt := now)));
  }

  /** Because AssignToCompany does not check phones, moving a driver into a
      company where another driver has the same phone leaves two drivers of
      one company with one phone. */
  lemma AssignCanSharePhone(now: int)
    ensures var rows := [Driver(1, 1, None, "A", "555", "", "h", DriverActive, Offline, 0, "", 0, 0),
                         Driver(2, 2, None, "B", "555", "", "h", DriverActive, Offline, 0, "", 0, 0)];
      && PhonesUnique(rows)
      && !PhonesUnique(UpdateWhere(rows, HasDriverID(2), Saved(rows[1].(companyID := 1, storeID := None), now)))
  {
    var rows := [Driver(1, 1, None, "A", "555", "", "h", DriverActive, Offline, 0, "", 0, 0),
                 Driver(2, 2, None, "B", "555", "", "h", DriverActive, Offline, 0, "", 0, 0)];
    var after := UpdateWhere(rows, HasDriverID(2), Saved(rows[1].(companyID := 1, storeID := None), now));
    assert after[0] == rows[0];
    assert after[1].companyID == 1 && after[1].phone == "555";
  }

  /** In general: whenever another driver holds the same phone, moving a
      driver into that driver's company with AssignToCompany leaves the
      company with two drivers sharing one phone. */
  lemma {:induction false} AssignBreaksPhonesUnique(rows: seq<Driver>, i: nat, j: nat, storeID: Option<nat>, now: int)
    requires i < |rows| && j < |rows| && rows[i].id != rows[j].id
    requires rows[i].phone == rows[j].phone
    ensures !PhonesUnique(UpdateWhere(rows, HasDriverID(rows[j].id),
                                      Saved(rows[j].(companyID := rows[i].companyID, storeID := storeID), now)))
  {
    var after := UpdateWhere(rows, HasDriverID(rows[j].id),
                             Saved(rows[j].(companyID := rows[i].companyID, storeID := storeID), now));
    assert after[i] == rows[i];
    assert after[j].companyID == rows[i].companyID && after[j].phone == rows[i].phone;
    if i < j {
      assert !(after[i].companyID == after[j].companyID ==> after[i].phone != after[j].phone);
    } else {
      assert !(after[j].companyID == after[i].companyID ==> after[j].phone != after[i].phone);
    }
  }

  /** BlockDriver and UnblockDriver: the status of the driver set; an
      unknown id changes nothing and is not reported. */
  method SetDriverStatus(store: DriverStore, id: nat, status: string, now: int, fault: Option<string>)
    returns (err: Option<Error>)
    requires store.Valid()
    modifies store
    ensures store.Valid()
    ensures fault.Some? ==> err == Some(Failure(fault.value)) && store.drivers == old(store.drivers)
    ensures fault.None? ==> err == None
    ensures fault.None? ==> store.drivers == UpdateWhere(old(store.drivers), HasDriverID(id), WithStatus(status, now))
    ensures fault.None? && old(store.GetByID(id)).Ok? ==>
              store.GetByID(id) == Ok(old(store.GetByID(id)).value.(status := status, updatedAt := now))
    ensures old(store.GetByID(id)).Err? ==> store.drivers == old(store.drivers)
    ensures PhonesUnique(old(store.drivers)) ==> PhonesUnique(store.drivers)
  {
    ghost var before := store.drivers;
    err := store.UpdateStatus(id, status, now, fault);
    if err.None? {
      FirstAfterUpdate(before, HasDriverID(id), WithStatus(status, now));
      if First(before, HasDriverID(id)).Err? {
        UpdateWhereNoMatch(before, HasDriverID(id), WithStatus(status, now));
      }
      if PhonesUnique(before) {
        StatusKeepsPhonesUnique(before, id, status, now);
      }
    }
  }

  /** BlockDriver */
  method BlockDriver(store: DriverStore, id: nat, now: int, fault: Option<string>) returns (err: Option<Error>)
    requires store.Valid()
    modifies store
    ensures store.Valid()
    ensures fault.None? ==> err == None
    ensures fault.None? && old(store.GetByID(id)).Ok? ==> store.GetByID(id).Ok? && store.GetByID(id).value.status == DriverSuspended
    ensures old(store.GetByID(id)).Err? || fault.Some? ==> store.drivers == old(store.drivers)
  {
    err := SetDriverStatus(store, id, DriverSuspended, now, fault);
  }

  /** UnblockDriver */
  method UnblockDriver(store: DriverStore, id: nat, now: int, fault: Option<string>) returns (err: Option<Error>)
    requires store.Valid()
    modifies store
    ensures store.Valid()
    ensures fault.None? ==> err == None
    ensures fault.None? && old(store.GetByID(id)).Ok? ==> store.GetByID(id).Ok? && store.GetByID(id).value.status == DriverActive
    ensures old(store.GetByID(id)).Err? || fault.Some? ==> store.drivers == old(store.drivers)
  {
    err := SetDriverStatus(store, id, DriverActive, now, fault);
  }

  /** Blocking twice is blocking once, apart from the update time;
      unblocking after blocking restores the status "active". */
  lemma StatusChangesCompose(d: Driver, t1: int, t2: int)
    ensures WithStatus(DriverSuspended, t2)(WithStatus(DriverSuspended, t1)(d)) == WithStatus(DriverSuspended, t2)(d)
    ensures WithStatus(DriverActive, t2)(WithStatus(DriverSuspended, t1)(d)).status == DriverActive
  {
  }

  /** GetDriverPerformance: "driver not found" for an unknown id before the
      performance is looked at; otherwise the performance, its failure
      wrapped. The aggregate itself is the parameter `performance`. */
  function GetDriverPerformance<P>(store: DriverStore, driverID: nat, performance: Result<P>): (r: Result<P>)
    reads store
    ensures store.GetByID(driverID).Err? ==> r == Err(Fail("driver not found"))
    ensures store.GetByID(driverID).Ok? && performance.Err? ==>
              r == Err(Wrap("failed to get driver performance", performance.error))
    ensures r.Ok? <==> store.GetByID(driverID).Ok? && performance.Ok?
    ensures r.Ok? ==> r == performance
  {
    if store.GetByID(driverID).Err? then Err(Fail("driver not found"))
    else if performance.Err? then Err(Wrap("failed to get driver performance", performance.error))
    else performance
  }
}
