/** Drivers (internal/repository/driver_repository.go over the entity of
    internal/domain/driver/entity.go). */
module DriverRepository {
  import opened Common
  import opened Text
  import opened Collections
  import opened Sorting
  import opened Paging
  import opened Tables

  const DriverActive: string := "active"
  const DriverOffDuty: string := "off_duty"
  const DriverSuspended: string := "suspended"
  const Online: string := "online"
  const Offline: string := "offline"

  /** Driver. The store is a nullable column; the rating is a decimal(3,2)
      column, kept here in hundredths. */
  datatype Driver = Driver(
    id: nat, companyID: nat, storeID: Option<nat>, fullName: string, phone: string, email: string,
    passwordHash: string, status: string, onlineStatus: string, rating: int, profilePhoto: string,
    createdAt: int, updatedAt: int)

  /** ListDriversQuery: a zero id or an empty string means "no filter". */
  datatype ListDriversQuery = ListDriversQuery(
    page: int, limit: int, companyID: nat, storeID: nat, status: string, onlineStatus: string, search: string)

  function DriverKey(d: Driver): nat { d.id }

  /** What gorm's Create writes for a Driver: a zero status or online status
      is replaced by the column's default (a zero rating already is its
      default). */
  function DriverCreateValues(d: Driver): (r: Driver)
    ensures r.status == (if d.status == "" then DriverActive else d.status)
    ensures r.onlineStatus == (if d.onlineStatus == "" then Offline else d.onlineStatus)
    ensures r.(status := d.status, onlineStatus := d.onlineStatus) == d
  {
    d.(status := if d.status == "" then DriverActive else d.status,
       onlineStatus := if d.onlineStatus == "" then Offline else d.onlineStatus)
  }

  /** The WHERE clauses List adds, each only when its query field is set. */
  function MatchesQuery(q: ListDriversQuery): (r: Driver -> bool)
    ensures forall d :: r(d) && q.companyID > 0 ==> d.companyID == q.companyID
    ensures forall d :: r(d) && q.storeID > 0 ==> d.storeID == Some(q.storeID)
    ensures forall d :: r(d) && q.status != "" ==> d.status == q.status
    ensures forall d :: r(d) && q.onlineStatus != "" ==> d.onlineStatus == q.onlineStatus
    ensures forall d :: r(d) && q.search != "" ==> Like(d.fullName, q.search) || Like(d.phone, q.search) || Like(d.email, q.search)
    ensures forall d: Driver ::
              (q.companyID == 0 && q.storeID == 0 && q.status == "" && q.onlineStatus == "" && Like(d.fullName, q.search)) ==> r(d)
  {
    (d: Driver) =>
      && (q.companyID > 0 ==> d.companyID == q.companyID)
      && (q.storeID > 0 ==> d.storeID == Some(q.storeID))
      && (q.status != "" ==> d.status == q.status)
      && (q.onlineStatus != "" ==> d.onlineStatus == q.onlineStatus)
      && (q.search != "" ==> Like(d.fullName, q.search) || Like(d.phone, q.search) || Like(d.email, q.search))
  }

  /** The empty query filters nothing. */
  lemma EmptyQueryMatchesAll(page: int, limit: int, d: Driver)
    ensures MatchesQuery(ListDriversQuery(page, limit, 0, 0, "", "", ""))(d)
  {
  }

  /** ORDER BY created_at DESC */
  predicate NewerFirst(a: Driver, b: Driver)
  {
    a.createdAt >= b.createdAt
  }

  lemma NewerFirstOrders()
    ensures Total(NewerFirst) && Transitive(NewerFirst)
  {
  }

  function HasDriverID(id: nat): Driver -> bool
  {
    (d: Driver) => d.id == id
  }

  function NotDriverID(id: nat): Driver -> bool
  {
    (d: Driver) => d.id != id
  }

  /** WHERE phone = ? AND company_id = ? */
  function HasPhoneIn(phone: string, companyID: nat): Driver -> bool
  {
    (d: Driver) => d.phone == phone && d.companyID == companyID
  }

  /** Save: every column of the row replaced, updated_at bumped. */
  function Saved(d: Driver, now: int): Driver -> Driver
  {
    (row: Driver) => d.(id := row.id, updatedAt := now)
  }

  /** Update("status", ...): the status set, updated_at bumped. */
  function WithStatus(status: string, now: int): Driver -> Driver
  {
    (d: Driver) => d.(status := status, updatedAt := now)
  }

  /** No two drivers of one company share a phone number. No index enforces
      this; the driver service checks it before it writes. */
  ghost predicate PhonesUnique(rows: seq<Driver>)
  {
    forall i, j :: 0 <= i < j < |rows| && rows[i].companyID == rows[j].companyID ==> rows[i].phone != rows[j].phone
  }

  class DriverStore {
    /** drivers, in id order; deletes are hard (deleted_at is a plain
        *time.Time, not gorm.DeletedAt). */
    var drivers: seq<Driver>
    var nextID: nat

    ghost predicate Valid()
      reads this
    {
      nextID >= 1 && KeyOrdered(drivers, DriverKey, nextID)
    }

    constructor ()
      ensures Valid()
      ensures drivers == [] && nextID == 1
    {
      drivers := [];
      nextID := 1;
    }

    /** Create: the driver inserted with the next id, gorm's defaults and
        both timestamps `now`, and returned as Create leaves the struct. */
    method Create(d: Driver, now: int, fault: Option<string>) returns (r: Result<Driver>)
      requires Valid()
      modifies this
      ensures Valid()
      ensures fault.Some? ==> r == Err(Failure(fault.value)) && drivers == old(drivers) && nextID == old(nextID)
      ensures fault.None? ==>
                && r == Ok(DriverCreateValues(d).(id := old(nextID), createdAt := now, updatedAt := now))
                && drivers == old(drivers) + [r.value]
                && nextID == old(nextID) + 1
    {
      if fault.Some? {
        return Err(Failure(fault.value));
      }
      var row := DriverCreateValues(d).(id := nextID, createdAt := now, updatedAt := now);
      AppendKeyOrdered(drivers, DriverKey, nextID, row);
      drivers := drivers + [row];
      nextID := nextID + 1;
      r := Ok(row);
    }

    /** GetByID */
    function GetByID(id: nat): (r: Result<Driver>)
      reads this
      ensures r.Ok? <==> exists i :: 0 <= i < |drivers| && drivers[i].id == id
      ensures r.Ok? ==> r.value in drivers && r.value.id == id
      ensures r.Err? ==> r.error == RecordNotFound
    {
      First(drivers, HasDriverID(id))
    }

    /** GetByPhone: the driver of that company with that phone, the lowest
        id first when there are several. */
    function GetByPhone(phone: string, companyID: nat): (r: Result<Driver>)
      reads this
      ensures r.Ok? <==> exists i :: 0 <= i < |drivers| && drivers[i].phone == phone && drivers[i].companyID == companyID
      ensures r.Ok? ==> r.value in drivers && r.value.phone == phone && r.value.companyID == companyID
      ensures r.Err? ==> r.error == RecordNotFound
    {
      First(drivers, HasPhoneIn(phone, companyID))
    }

    /** Update (Save): the row with the struct's id replaced by the struct,
        updated_at bumped. */
    method Update(d: Driver, now: int, fault: Option<string>) returns (err: Option<Error>)
      requires Valid()
      modifies this
      ensures Valid()
      ensures nextID == old(nextID)
      ensures fault.Some? ==> err == Some(Failure(fault.value)) && drivers == old(drivers)
      ensures fault.None? ==> err == None && drivers == UpdateWhere(old(drivers), HasDriverID(d.id), Saved(d, now))
    {
      if fault.Some? {
        return Some(Failure(fault.value));
      }
      UpdateKeyOrdered(drivers, DriverKey, nextID, HasDriverID(d.id), Saved(d, now));
      drivers := UpdateWhere(drivers, HasDriverID(d.id), Saved(d, now));
      err := None;
    }

    /** Delete: the row with that id removed for good. */
    method Delete(id: nat, fault: Option<string>) returns (err: Option<Error>)
      requires Valid()
      modifies this
      ensures Valid()
      ensures nextID == old(nextID)
      ensures fault.Some? ==> err == Some(Failure(fault.value)) && drivers == old(drivers)
      ensures fault.None? ==> err == None && drivers == Filter(old(drivers), NotDriverID(id))
    {
      if fault.Some? {
        return Some(Failure(fault.value));
      }
      FilterKeyOrdered(drivers, DriverKey, nextID, NotDriverID(id));
      drivers := Filter(drivers, NotDriverID(id));
      err := None;
    }

    /** List: the requested page of the matching drivers, newest first, and
        the number of all matching drivers. */
    function List(q: ListDriversQuery): (r: (seq<Driver>, nat))
      reads this
      ensures r.1 == |Filter(drivers, MatchesQuery(q))|
      ensures |r.0| <= NormalizeLimit(q.limit)
      ensures |r.0| == if Offset(q.page, q.limit) >= r.1 then 0
                       else if Offset(q.page, q.limit) + NormalizeLimit(q.limit) <= r.1 then NormalizeLimit(q.limit)
                       else r.1 - Offset(q.page, q.limit)
      ensures forall i :: 0 <= i < |r.0| ==>
                Offset(q.page, q.limit) + i < r.1 && r.0[i] == Sort(NewerFirst, Filter(drivers, MatchesQuery(q)))[Offset(q.page, q.limit) + i]
      ensures forall i :: 0 <= i < |r.0| ==> r.0[i] in drivers && MatchesQuery(q)(r.0[i])
      ensures Sorted(NewerFirst, r.0)
    {
      NewerFirstOrders();
      Listing(drivers, MatchesQuery(q), NewerFirst, q.page, q.limit)
    }

    /** UpdateStatus: the status of the row with that id set; no such row
        is not an error. */
    method UpdateStatus(id: nat, status: string, now: int, fault: Option<string>) returns (err: Option<Error>)
      requires Valid()
      modifies this
      ensures Valid()
      ensures nextID == old(nextID)
      ensures fault.Some? ==> err == Some(Failure(fault.value)) && drivers == old(drivers)
      ensures fault.None? ==> err == None && drivers == UpdateWhere(old(drivers), HasDriverID(id), WithStatus(status, now))
    {
      if fault.Some? {
        return Some(Failure(fault.value));
      }
      UpdateKeyOrdered(drivers, DriverKey, nextID, HasDriverID(id), WithStatus(status, now));
      drivers := UpdateWhere(drivers, HasDriverID(id), WithStatus(status, now));
      err := None;
    }
  }

  /** A listed page holds only drivers of the company asked for, and with a
      limit of at least one, every driver of that company is on some page. */
  lemma CompanyListing(store: DriverStore, q: ListDriversQuery, d: Driver)
    requires q.companyID > 0 && q.storeID == 0 && q.status == "" && q.onlineStatus == "" && q.search == ""
    requires q.limit >= 1
    ensures forall i :: 0 <= i < |store.List(q).0| ==> store.List(q).0[i].companyID == q.companyID
    ensures d in store.drivers && d.companyID == q.companyID ==>
              exists page :: 1 <= page <= TotalPages(store.List(q).1, q.limit)
                             && d in store.List(q.(page := page)).0
  {
    if d in store.drivers && d.companyID == q.companyID {
      NewerFirstOrders();
      ListingCoversMatches(store.drivers, MatchesQuery(q), NewerFirst, q.limit, d);
      var page :| 1 <= page <= TotalPages(|Filter(store.drivers, MatchesQuery(q))|, q.limit)
                  && d in Listing(store.drivers, MatchesQuery(q), NewerFirst, page, q.limit).0;
      assert MatchesQuery(q.(page := page)) == MatchesQuery(q);
    }
  }

  /** Rows that pass the filter ignore the query's page and limit. */
  lemma FilterIgnoresPaging(q: ListDriversQuery, page: int, limit: int, d: Driver)
    ensures MatchesQuery(q.(page := page, limit := limit))(d) == MatchesQuery(q)(d)
  {
  }

  /** A phone and a company identify at most one row. */
  lemma SamePhoneSameDriver(rows: seq<Driver>, i: int, k: int)
    requires PhonesUnique(rows)
    requires 0 <= i < |rows| && 0 <= k < |rows|
    ensures rows[i].companyID == rows[k].companyID && rows[i].phone == rows[k].phone ==> i == k
  {
    if i < k {
    } else {
    }
  }

  /** A new row with a phone no driver of its company has keeps phones
      unique. */
  lemma AppendKeepsPhonesUnique(rows: seq<Driver>, d: Driver)
    requires PhonesUnique(rows)
    requires forall i :: 0 <= i < |rows| ==> !(rows[i].phone == d.phone && rows[i].companyID == d.companyID)
    ensures PhonesUnique(rows + [d])
  {
    var r := rows + [d];
    forall i, j | 0 <= i < j < |r| && r[i].companyID == r[j].companyID ensures r[i].phone != r[j].phone {
      assert r[i] == rows[i];
    }
  }

  /** Deleting drivers keeps phones unique. */
  lemma FilterKeepsPhonesUnique(rows: seq<Driver>, p: Driver -> bool)
    requires Ascending(rows, DriverKey) && PhonesUnique(rows)
    ensures PhonesUnique(Filter(rows, p))
  {
    var r := Filter(rows, p);
    FilterAscending(rows, DriverKey, p);
    forall i, j | 0 <= i < j < |r| && r[i].companyID == r[j].companyID ensures r[i].phone != r[j].phone {
      assert r[i] in rows && r[j] in rows;
      var a :| 0 <= a < |rows| && rows[a] == r[i];
      var b :| 0 <= b < |rows| && rows[b] == r[j];
      assert a != b;
    }
  }

  /** A status change keeps phones unique. */
  lemma StatusKeepsPhonesUnique(rows: seq<Driver>, id: nat, status: string, now: int)
    requires PhonesUnique(rows)
    ensures PhonesUnique(UpdateWhere(rows, HasDriverID(id), WithStatus(status, now)))
  {
  }

  /** Saving over the row with `d`'s id keeps phones unique when no other
      row of `d`'s company has `d`'s phone. */
  lemma SaveKeepsPhonesUnique(rows: seq<Driver>, d: Driver, now: int)
    requires Ascending(rows, DriverKey) && PhonesUnique(rows)
    requires forall i :: 0 <= i < |rows| && rows[i].id != d.id ==> !(rows[i].phone == d.phone && rows[i].companyID == d.companyID)
    ensures PhonesUnique(UpdateWhere(rows, HasDriverID(d.id), Saved(d, now)))
  {
    var r := UpdateWhere(rows, HasDriverID(d.id), Saved(d, now));
    forall i, j | 0 <= i < j < |r| && r[i].companyID == r[j].companyID ensures r[i].phone != r[j].phone {
      if rows[i].id == d.id && rows[j].id == d.id {
        KeyDetermines(rows, DriverKey, i, j);
      }
    }
  }
}
