/** Driver shifts (internal/repository/shift_repository.go over the entity
    of internal/domain/shift/entity.go).

    Dates are day numbers. time.Parse with the layout "2006-01-02" is the
    parameter `parseDate`: the day a string names, or None when it does not
    parse. */
module ShiftRepository {
  import opened Common
  import opened Collections
  import opened Sorting
  import opened Paging

  const ShiftScheduled: string := "scheduled"
  const ShiftOngoing: string := "ongoing"
  const ShiftCompleted: string := "completed"
  const ShiftCancelled: string := "cancelled"

  /** DriverShift. Start and end are nullable instants in nanoseconds; the
      decimal columns (distance, earnings, rating) are kept in hundredths. */
  datatype DriverShift = DriverShift(
    id: nat, driverID: nat, companyID: nat, shiftDate: int, startTime: Option<int>, endTime: Option<int>,
    status: string, totalOrders: int, completedOrders: int, cancelledOrders: int,
    totalDistance: int, totalEarnings: int, rating: int, notes: string, createdAt: int, updatedAt: int)

  /** ListShiftsQuery. Its driver id is not among the filters: the driver
      is the separate argument of GetByDriverID. */
  datatype ListShiftsQuery = ListShiftsQuery(
    page: int, limit: int, driverID: nat, companyID: nat, status: string, startDate: string, endDate: string)

  /** A date bound of the query: only a non-empty string that parses sets
      one; anything else sets none, without an error. */
  function DateBound(text: string, parseDate: string -> Option<int>): (r: Option<int>)
    ensures r.Some? <==> text != "" && parseDate(text).Some?
    ensures r.Some? ==> r == parseDate(text)
  {
    if text == "" then None else parseDate(text)
  }

  /** The WHERE clauses GetByDriverID builds: always the driver; the
      company when its id is positive; the status when given; each date
      bound that is set, both inclusive. */
  function ShiftMatches(driverID: nat, q: ListShiftsQuery, parseDate: string -> Option<int>): (r: DriverShift -> bool)
    ensures forall sh :: r(sh) ==> sh.driverID == driverID
    ensures forall sh :: r(sh) && q.companyID > 0 ==> sh.companyID == q.companyID
    ensures forall sh :: r(sh) && q.status != "" ==> sh.status == q.status
    ensures forall sh, day :: r(sh) && q.startDate != "" && parseDate(q.startDate) == Some(day) ==> sh.shiftDate >= day
    ensures forall sh, day :: r(sh) && q.endDate != "" && parseDate(q.endDate) == Some(day) ==> sh.shiftDate <= day
    ensures forall sh: DriverShift ::
              (sh.driverID == driverID && q.companyID == 0 && q.status == ""
               && DateBound(q.startDate, parseDate).None? && DateBound(q.endDate, parseDate).None?) ==> r(sh)
  {
    (sh: DriverShift) =>
      && sh.driverID == driverID
      && (q.companyID > 0 ==> sh.companyID == q.companyID)
      && (q.status != "" ==> sh.status == q.status)
      && (DateBound(q.startDate, parseDate).Some? ==> sh.shiftDate >= DateBound(q.startDate, parseDate).value)
      && (DateBound(q.endDate, parseDate).Some? ==> sh.shiftDate <= DateBound(q.endDate, parseDate).value)
  }

  /** ORDER BY shift_date DESC, created_at DESC */
  predicate LaterFirst(a: DriverShift, b: DriverShift)
  {
    a.shiftDate > b.shiftDate || (a.shiftDate == b.shiftDate && a.createdAt >= b.createdAt)
  }

  lemma LaterFirstOrders()
    ensures Total(LaterFirst) && Transitive(LaterFirst)
  {
  }

  class ShiftStore {
    /** driver_shifts, in id order. */
    var shifts: seq<DriverShift>

    constructor (rows: seq<DriverShift>)
      ensures shifts == rows
    {
      shifts := rows;
    }

    /** GetByDriverID: the requested page of the driver's matching shifts,
        latest first, and the number of all of them. */
    function GetByDriverID(driverID: nat, q: ListShiftsQuery, parseDate: string -> Option<int>): (r: (seq<DriverShift>, nat))
      reads this
      ensures r.1 == |Filter(shifts, ShiftMatches(driverID, q, parseDate))|
      ensures |r.0| <= NormalizeLimit(q.limit)
      ensures |r.0| == if Offset(q.page, q.limit) >= r.1 then 0
                       else if Offset(q.page, q.limit) + NormalizeLimit(q.limit) <= r.1 then NormalizeLimit(q.limit)
                       else r.1 - Offset(q.page, q.limit)
      ensures forall i :: 0 <= i < |r.0| ==>
                Offset(q.page, q.limit) + i < r.1 && r.0[i] == Sort(LaterFirst, Filter(shifts, ShiftMatches(driverID, q, parseDate)))[Offset(q.page, q.limit) + i]
      ensures forall i :: 0 <= i < |r.0| ==>
                && r.0[i] in shifts && r.0[i].driverID == driverID
                && ShiftMatches(driverID, q, parseDate)(r.0[i])
      ensures Sorted(LaterFirst, r.0)
    {
      LaterFirstOrders();
      Listing(shifts, ShiftMatches(driverID, q, parseDate), LaterFirst, q.page, q.limit)
    }
  }

  /** The query's own driver id changes nothing. */
  lemma QueryDriverIgnored(store: ShiftStore, driverID: nat, q: ListShiftsQuery, other: nat, parseDate: string -> Option<int>)
    ensures store.GetByDriverID(driverID, q.(driverID := other), parseDate) == store.GetByDriverID(driverID, q, parseDate)
  {
    LaterFirstOrders();
    ListingCongruent(store.shifts, ShiftMatches(driverID, q.(driverID := other), parseDate),
                     ShiftMatches(driverID, q, parseDate), LaterFirst, q.page, q.limit);
  }

  /** A start or end date that does not parse lists as if it were absent. */
  lemma UnparsableDatesIgnored(store: ShiftStore, driverID: nat, q: ListShiftsQuery, parseDate: string -> Option<int>)
    requires parseDate(q.startDate).None? && parseDate(q.endDate).None?
    ensures store.GetByDriverID(driverID, q, parseDate) == store.GetByDriverID(driverID, q.(startDate := "", endDate := ""), parseDate)
  {
    LaterFirstOrders();
    ListingCongruent(store.shifts, ShiftMatches(driverID, q, parseDate),
                     ShiftMatches(driverID, q.(startDate := "", endDate := ""), parseDate), LaterFirst, q.page, q.limit);
  }

  /** Both bounds are inclusive: with start and end naming the same day,
      exactly that day's shifts of the driver pass the date filters. */
  lemma BoundsInclusive(driverID: nat, q: ListShiftsQuery, parseDate: string -> Option<int>, sh: DriverShift)
    requires q.companyID == 0 && q.status == ""
    requires q.startDate != "" && q.endDate != ""
    requires parseDate(q.startDate).Some? && parseDate(q.startDate) == parseDate(q.endDate)
    ensures ShiftMatches(driverID, q, parseDate)(sh) <==>
              sh.driverID == driverID && sh.shiftDate == parseDate(q.startDate).value
  {
  }
}
