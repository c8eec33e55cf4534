/** Driver shift listing (internal/service/shift_service.go, responses of
    internal/domain/shift/dto.go). */
module ShiftService {
  import opened Common
  import opened Text
  import opened Paging
  import opened ShiftRepository

  const NsPerMinute: int := 60 * 1000000000
  const NsPerHour: int := 60 * NsPerMinute

  /** ShiftResponse: the shift's columns and the duration text, empty
      unless the shift has both a start and an end. */
  datatype ShiftResponse = ShiftResponse(
    id: nat, driverID: nat, companyID: nat, shiftDate: int, startTime: Option<int>, endTime: Option<int>,
    status: string, totalOrders: int, completedOrders: int, cancelledOrders: int,
    totalDistance: int, totalEarnings: int, rating: int, notes: string, duration: string,
    createdAt: int, updatedAt: int)

  datatype PaginatedShiftsResponse = PaginatedShiftsResponse(
    shifts: seq<ShiftResponse>, totalCount: nat, page: int, limit: int, totalPages: nat)

  /** Go's integer conversion of a quotient: division rounding toward zero. */
  function TruncDiv(a: int, b: int): (q: int)
    requires b > 0
    ensures a >= 0 ==> q >= 0 && 0 <= a - q * b < b
    ensures a < 0 ==> q <= 0 && -b < a - q * b <= 0
  {
    if a >= 0 then a / b else -((-a) / b)
  }

  /** Go's `%`: the remainder of TruncDiv, with the sign of the dividend. */
  function TruncMod(a: int, b: int): (r: int)
    requires b > 0
    ensures a == TruncDiv(a, b) * b + r
    ensures a >= 0 ==> 0 <= r < b
    ensures a < 0 ==> -b < r <= 0
  {
    a - TruncDiv(a, b) * b
  }

  /** The whole hours of a span: int(duration.Hours()). */
  function Hours(d: int): (r: int)
    ensures d >= 0 ==> r >= 0 && r * NsPerHour <= d < (r + 1) * NsPerHour
    ensures d < 0 ==> r <= 0 && (r - 1) * NsPerHour < d <= r * NsPerHour
  {
    TruncDiv(d, NsPerHour)
  }

  /** The minutes past the whole hours: int(duration.Minutes()) % 60. */
  function MinutesPastHour(d: int): (r: int)
    ensures d >= 0 ==> 0 <= r < 60
    ensures d < 0 ==> -60 < r <= 0
  {
    TruncMod(TruncDiv(d, NsPerMinute), 60)
  }

  /** fmt.Sprintf("%dh %dm", hours, minutes) */
  function DurationText(d: int): (s: string)
    ensures |s| >= 4
    ensures d >= 0 ==> s == NatToDecimal(Hours(d)) + ("h " + NatToDecimal(MinutesPastHour(d)) + "m")
    ensures d < 0 ==> s == (if Hours(d) < 0 then "-" + NatToDecimal(-Hours(d)) else "0")
                           + ("h " + (if MinutesPastHour(d) < 0 then "-" + NatToDecimal(-MinutesPastHour(d)) else "0") + "m")
  {
    var hours, minutes := IntToDecimal(Hours(d)), IntToDecimal(MinutesPastHour(d));
    assert d >= 0 ==> hours == NatToDecimal(Hours(d)) && minutes == NatToDecimal(MinutesPastHour(d));
    hours + "h " + minutes + "m"
  }

  /** For a span that does not run backwards, the hours and the minutes
      past them make up the span's whole minutes, and the minutes stay
      below 60. */
  lemma DurationParts(d: int)
    requires d >= 0
    ensures Hours(d) >= 0 && 0 <= MinutesPastHour(d) < 60
    ensures Hours(d) * 60 + MinutesPastHour(d) == d / NsPerMinute
  {
    var minutes := d / NsPerMinute;
    assert TruncDiv(d, NsPerMinute) == minutes;
    DivModUnique(d, NsPerHour, minutes / 60, d - (minutes / 60) * NsPerHour);
  }

  /** The position of the first character that is not a decimal digit. */
  function DigitRun(s: string): (n: nat)
    ensures n <= |s|
    ensures forall i :: 0 <= i < n ==> IsDigit(s[i])
  {
    if s == [] || !IsDigit(s[0]) then 0 else 1 + DigitRun(s[1..])
  }

  /** A run of digits followed by a non-digit ends right there. */
  lemma {:induction false} DigitRunOf(digits: string, rest: string)
    requires forall i :: 0 <= i < |digits| ==> IsDigit(digits[i])
    requires rest != [] && !IsDigit(rest[0])
    ensures DigitRun(digits + rest) == |digits|
  {
    if digits != [] {
      assert (digits + rest)[1..] == digits[1..] + rest;
      DigitRunOf(digits[1..], rest);
    }
  }

  /** A numeral followed by a non-digit can be read back off the front of
      the text: equal texts have equal numbers and equal remainders. */
  lemma NumeralPrefix(a: nat, x: string, b: nat, y: string)
    requires x != [] && !IsDigit(x[0]) && y != [] && !IsDigit(y[0])
    requires NatToDecimal(a) + x == NatToDecimal(b) + y
    ensures a == b && x == y
  {
    var s := NatToDecimal(a) + x;
    DigitRunOf(NatToDecimal(a), x);
    DigitRunOf(NatToDecimal(b), y);
    assert NatToDecimal(a) == s[..DigitRun(s)] == NatToDecimal(b);
    NatToDecimalInjective(a, b);
  }

  /** For spans that do not run backwards, the duration text tells the whole
      minutes apart: two spans with the same text have the same whole
      minutes. */
  lemma DurationTextDeterminesMinutes(d1: int, d2: int)
    requires d1 >= 0 && d2 >= 0
    requires DurationText(d1) == DurationText(d2)
    ensures d1 / NsPerMinute == d2 / NsPerMinute
  {
    DurationParts(d1);
    DurationParts(d2);
    var h1, h2 := Hours(d1), Hours(d2);
    var m1, m2 := MinutesPastHour(d1), MinutesPastHour(d2);
    var rest1 := "h " + NatToDecimal(m1) + "m";
    var rest2 := "h " + NatToDecimal(m2) + "m";
    NumeralPrefix(h1, rest1, h2, rest2);
    assert NatToDecimal(m1) + "m" == rest1[2..] == rest2[2..] == NatToDecimal(m2) + "m";
    NumeralPrefix(m1, "m", m2, "m");
  }

  /** What the text reads for a span of an hour and a half, forwards and
      backwards. */
  lemma DurationExamples()
    ensures DurationText(90 * NsPerMinute) == "1h 30m"
    ensures DurationText(-90 * NsPerMinute) == "-1h -30m"
  {
    assert NatToDecimal(1) == "1";
    assert NatToDecimal(30) == NatToDecimal(3) + [DigitChar(0)] == "30";
  }

  /** toShiftResponse */
  function ToShiftResponse(sh: DriverShift): (r: ShiftResponse)
    ensures r.duration != "" <==> sh.startTime.Some? && sh.endTime.Some?
    ensures r.duration != "" ==> r.duration == DurationText(sh.endTime.value - sh.startTime.value)
  {
    ShiftResponse(
      sh.id, sh.driverID, sh.companyID, sh.shiftDate, sh.startTime, sh.endTime,
      sh.status, sh.totalOrders, sh.completedOrders, sh.cancelledOrders,
      sh.totalDistance, sh.totalEarnings, sh.rating, sh.notes,
      if sh.startTime.Some? && sh.endTime.Some? then DurationText(sh.endTime.value - sh.startTime.value) else "",
      sh.createdAt, sh.updatedAt)
  }

  /** The shift a response describes, its duration text set aside. */
  function ShiftOfResponse(r: ShiftResponse): DriverShift
  {
    DriverShift(
      r.id, r.driverID, r.companyID, r.shiftDate, r.startTime, r.endTime,
      r.status, r.totalOrders, r.completedOrders, r.cancelledOrders,
      r.totalDistance, r.totalEarnings, r.rating, r.notes, r.createdAt, r.updatedAt)
  }

  /** Every column of the shift is copied verbatim into the response. */
  lemma ShiftResponseRoundTrip(sh: DriverShift)
    ensures ShiftOfResponse(ToShiftResponse(sh)) == sh
  {
  }

  /** GetDriverShifts: the driver's shifts as the repository lists them,
      one response per shift in the same order, with the defaults applied
      to page and limit and the page count. */
  method GetDriverShifts(store: ShiftStore, driverID: nat, q: ListShiftsQuery, parseDate: string -> Option<int>)
    returns (r: PaginatedShiftsResponse)
    ensures |r.shifts| == |store.GetByDriverID(driverID, q, parseDate).0|
    ensures forall i :: 0 <= i < |r.shifts| ==>
              && r.shifts[i] == ToShiftResponse(store.GetByDriverID(driverID, q, parseDate).0[i])
              && r.shifts[i].driverID == driverID
    ensures r.totalCount == store.GetByDriverID(driverID, q, parseDate).1
    ensures r.page == NormalizePage(q.page) && r.limit == NormalizeLimit(q.limit)
    ensures r.totalPages * r.limit >= r.totalCount && r.totalPages * r.limit < r.totalCount + r.limit
  {
    var (shifts, total) := store.GetByDriverID(driverID, q, parseDate);
    var page, limit := q.page, q.limit;
    if page <= 0 {
      page := DefaultPage;
    }
    if limit <= 0 {
      limit := DefaultLimit;
    }
    var responses := [];
    var i := 0;
    while i < |shifts|
      invariant 0 <= i <= |shifts|
      invariant |responses| == i
      invariant forall k :: 0 <= k < i ==> responses[k] == ToShiftResponse(shifts[k])
    {
      var next := responses + [ToShiftResponse(shifts[i])];
      assert forall k :: 0 <= k < i ==> next[k] == responses[k];
      responses := next;
      i := i + 1;
    }
    r := PaginatedShiftsResponse(responses, total, page, limit, TotalPages(total, limit));
  }
}
