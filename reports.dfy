/** The reports screen: the bookings of a date range, their status counts and
    revenue, revenue grouped by room type, the day-by-day occupancy table and
    the CSV export of that table. Calendar days are day numbers since the
    epoch; a range `start..end` is given as two day numbers. */
module Reports {
  import opened Common
  import opened Hotel

  /** A booking joined with the type of its room: `select('*, rooms(type)')`. */
  datatype ReportRow = ReportRow(booking: Booking, roomType: RoomType)

  // -----------------------------------------------------------------------
  // The range query
  // -----------------------------------------------------------------------

  /** `.gte('check_in', start).lte('check_out', end)`: the dates are compared
      with the midnight that starts each day, so a booking is kept only when it
      lies inside the range and checks out by the start of the end day. */
  predicate InRange(r: ReportRow, start: int, end: int) {
    r.booking.checkIn >= start * DayMs && r.booking.checkOut <= end * DayMs
  }

  function InRangeAt(start: int, end: int): ReportRow -> bool {
    (r: ReportRow) => InRange(r, start, end)
  }

  function Selected(table: seq<ReportRow>, start: int, end: int): (rows: seq<ReportRow>)
    ensures SubsequenceOf(rows, table)
    ensures forall k :: 0 <= k < |rows| ==> rows[k] in table && InRange(rows[k], start, end)
    ensures forall k :: 0 <= k < |table| && InRange(table[k], start, end) ==> table[k] in rows
    ensures forall k :: 0 <= k < |rows| ==>
      Day(rows[k].booking.checkIn) >= start && Day(rows[k].booking.checkOut) <= end
  {
    Filter(table, InRangeAt(start, end))
  }

  // -----------------------------------------------------------------------
  // Status counts and revenue
  // -----------------------------------------------------------------------

  function HasStatus(s: BookingStatus): ReportRow -> bool {
    (r: ReportRow) => r.booking.status == s
  }

  /** Every booking has exactly one of the three statuses. */
  lemma {:induction false} StatusCountsAddUp(rows: seq<ReportRow>)
    ensures Count(rows, HasStatus(Active)) + Count(rows, HasStatus(Completed)) +
            Count(rows, HasStatus(Cancelled)) == |rows|
    decreases |rows|
  {
    if rows != [] {
      StatusCountsAddUp(rows[1..]);
    }
  }

  /** `reduce((sum, b) => sum + (b.total_amount || 0), 0)`, a left fold. */
  function TotalRevenue(rows: seq<ReportRow>): (total: real)
    ensures rows == [] ==> total == 0.0
    ensures (forall k :: 0 <= k < |rows| ==> AmountOrZero(rows[k].booking) >= 0.0) ==> total >= 0.0
    decreases |rows|
  {
    if rows == [] then 0.0
    else TotalRevenue(rows[..|rows| - 1]) + AmountOrZero(rows[|rows| - 1].booking)
  }

  lemma {:induction false} TotalRevenueAppend(a: seq<ReportRow>, b: seq<ReportRow>)
    ensures TotalRevenue(a + b) == TotalRevenue(a) + TotalRevenue(b)
    decreases |b|
  {
    if b == [] {
      assert a + b == a;
    } else {
      var b' := b[..|b| - 1];
      assert (a + b)[..|a + b| - 1] == a + b';
      assert (a + b)[|a + b| - 1] == b[|b| - 1];
      TotalRevenueAppend(a, b');
    }
  }

  /** `bookings.length ? totalRevenue / bookings.length : 0`. */
  function Average(total: real, n: nat): (avg: real)
    ensures n == 0 ==> avg == 0.0
    ensures n > 0 ==> avg * n as real == total
  {
    if n == 0 then 0.0 else total / n as real
  }

  datatype BookingStats = BookingStats(
    totalBookings: nat,
    activeBookings: nat,
    completedBookings: nat,
    cancelledBookings: nat,
    totalRevenue: real,
    averageBookingValue: real)

  /** `setStats({...})` given the report's bookings and their revenue. */
  function StatsOf(rows: seq<ReportRow>, revenue: real): (s: BookingStats)
    ensures s.totalBookings == |rows| && s.totalRevenue == revenue
    ensures s.activeBookings == Count(rows, HasStatus(Active))
    ensures s.completedBookings == Count(rows, HasStatus(Completed))
    ensures s.cancelledBookings == Count(rows, HasStatus(Cancelled))
    ensures s.activeBookings + s.completedBookings + s.cancelledBookings == s.totalBookings
    ensures |rows| == 0 ==> s.averageBookingValue == 0.0
    ensures |rows| > 0 ==> s.averageBookingValue * |rows| as real == revenue
  {
    StatusCountsAddUp(rows);
    BookingStats(|rows|, Count(rows, HasStatus(Active)), Count(rows, HasStatus(Completed)),
                 Count(rows, HasStatus(Cancelled)), revenue, Average(revenue, |rows|))
  }

  // -----------------------------------------------------------------------
  // Revenue by room type
  // -----------------------------------------------------------------------

  /** One entry of `Object.entries(revenueByType)`. */
  datatype TypeRevenue = TypeRevenue(roomType: RoomType, bookings: nat, revenue: real)

  /** One step of the accumulator: the entry of `t` gets one more booking and
      `amount` more revenue; a type seen for the first time is added last,
      the order `Object.entries` gives back. */
  function AddToGroup(acc: seq<TypeRevenue>, t: RoomType, amount: real): (r: seq<TypeRevenue>)
    decreases |acc|
  {
    if acc == [] then [TypeRevenue(t, 1, amount)]
    else if acc[0].roomType == t then [acc[0].(bookings := acc[0].bookings + 1, revenue := acc[0].revenue + amount)] + acc[1..]
    else [acc[0]] + AddToGroup(acc[1..], t, amount)
  }

  /** The accumulator after folding over `rows`. */
  function GroupByType(rows: seq<ReportRow>): seq<TypeRevenue>
    decreases |rows|
  {
    if rows == [] then []
    else
      var last := rows[|rows| - 1];
      AddToGroup(GroupByType(rows[..|rows| - 1]), last.roomType, AmountOrZero(last.booking))
  }

  /** The `reduce` over the report's bookings, with the accumulator updated in place. */
  method RevenueByType(rows: seq<ReportRow>) returns (groups: seq<TypeRevenue>)
    ensures groups == GroupByType(rows)
  {
    groups := [];
    var i := 0;
    while i < |rows|
      invariant 0 <= i <= |rows|
      invariant groups == GroupByType(rows[..i])
    {
      assert rows[..i + 1][..i] == rows[..i];
      groups := AddToGroup(groups, rows[i].roomType, AmountOrZero(rows[i].booking));
      i := i + 1;
    }
    assert rows[..|rows|] == rows;
  }

  predicate DistinctTypes(acc: seq<TypeRevenue>) {
    forall i, j :: 0 <= i < |acc| && 0 <= j < |acc| && acc[i].roomType == acc[j].roomType ==> i == j
  }

  function SumBookings(acc: seq<TypeRevenue>): nat
    decreases |acc|
  {
    if acc == [] then 0 else acc[0].bookings + SumBookings(acc[1..])
  }

  function SumRevenue(acc: seq<TypeRevenue>): real
    decreases |acc|
  {
    if acc == [] then 0.0 else acc[0].revenue + SumRevenue(acc[1..])
  }

  /** The bookings counted under `t`, 0 when `t` has no entry. */
  function BookingsOf(acc: seq<TypeRevenue>, t: RoomType): nat
    decreases |acc|
  {
    if acc == [] then 0 else if acc[0].roomType == t then acc[0].bookings else BookingsOf(acc[1..], t)
  }

  /** The revenue counted under `t`, 0 when `t` has no entry. */
  function RevenueOf(acc: seq<TypeRevenue>, t: RoomType): real
    decreases |acc|
  {
    if acc == [] then 0.0 else if acc[0].roomType == t then acc[0].revenue else RevenueOf(acc[1..], t)
  }

  lemma {:induction false} AddToGroupFacts(acc: seq<TypeRevenue>, t: RoomType, amount: real)
    requires DistinctTypes(acc)
    ensures DistinctTypes(AddToGroup(acc, t, amount))
    ensures forall i :: 0 <= i < |AddToGroup(acc, t, amount)| ==>
      AddToGroup(acc, t, amount)[i].roomType == t || exists j :: 0 <= j < |acc| && acc[j].roomType == AddToGroup(acc, t, amount)[i].roomType
    ensures SumBookings(AddToGroup(acc, t, amount)) == SumBookings(acc) + 1
    ensures SumRevenue(AddToGroup(acc, t, amount)) == SumRevenue(acc) + amount
    ensures forall u :: BookingsOf(AddToGroup(acc, t, amount), u) == BookingsOf(acc, u) + (if u == t then 1 else 0)
    ensures forall u :: RevenueOf(AddToGroup(acc, t, amount), u) == RevenueOf(acc, u) + (if u == t then amount else 0.0)
    decreases |acc|
  {
    var r := AddToGroup(acc, t, amount);
    if acc == [] {
    } else if acc[0].roomType == t {
      assert r[1..] == acc[1..];
      forall u ensures BookingsOf(r, u) == BookingsOf(acc, u) + (if u == t then 1 else 0) {
        if u != t {
          assert BookingsOf(r, u) == BookingsOf(r[1..], u);
        }
      }
      forall u ensures RevenueOf(r, u) == RevenueOf(acc, u) + (if u == t then amount else 0.0) {
        if u != t {
          assert RevenueOf(r, u) == RevenueOf(r[1..], u);
        }
      }
    } else {
      var tail := acc[1..];
      assert DistinctTypes(tail) by {
        forall i, j | 0 <= i < |tail| && 0 <= j < |tail| && tail[i].roomType == tail[j].roomType
          ensures i == j
        {
          assert acc[i + 1].roomType == acc[j + 1].roomType;
        }
      }
      AddToGroupFacts(tail, t, amount);
      var rt := AddToGroup(tail, t, amount);
      assert r == [acc[0]] + rt;
      assert r[1..] == rt;
      assert forall i :: 0 <= i < |rt| ==> rt[i].roomType != acc[0].roomType by {
        forall i | 0 <= i < |rt|
          ensures rt[i].roomType != acc[0].roomType
        {
          if rt[i].roomType != t {
            var j :| 0 <= j < |tail| && tail[j].roomType == rt[i].roomType;
            assert acc[j + 1].roomType == rt[i].roomType;
          }
        }
      }
      forall i | 0 <= i < |r|
        ensures r[i].roomType == t || exists j :: 0 <= j < |acc| && acc[j].roomType == r[i].roomType
      {
        if i == 0 {
          assert acc[0].roomType == r[0].roomType;
        } else if rt[i - 1].roomType != t {
          var j :| 0 <= j < |tail| && tail[j].roomType == rt[i - 1].roomType;
          assert acc[j + 1].roomType == r[i].roomType;
        }
      }
      forall u ensures BookingsOf(r, u) == BookingsOf(acc, u) + (if u == t then 1 else 0) {
        if u != acc[0].roomType {
          assert BookingsOf(r, u) == BookingsOf(rt, u);
        }
      }
      forall u ensures RevenueOf(r, u) == RevenueOf(acc, u) + (if u == t then amount else 0.0) {
        if u != acc[0].roomType {
          assert RevenueOf(r, u) == RevenueOf(rt, u);
        }
      }
    }
  }

  /** Each room type has exactly one entry, and the entries account for every
      booking of the report, its revenue, and per type the bookings of that type. */
  lemma {:induction false} GroupByTypeFacts(rows: seq<ReportRow>)
    ensures DistinctTypes(GroupByType(rows))
    ensures SumBookings(GroupByType(rows)) == |rows|
    ensures SumRevenue(GroupByType(rows)) == TotalRevenue(rows)
    ensures forall t :: BookingsOf(GroupByType(rows), t) == Count(rows, HasType(t))
    ensures forall t :: RevenueOf(GroupByType(rows), t) == TotalRevenue(Filter(rows, HasType(t)))
    decreases |rows|
  {
    if rows != [] {
      var init := rows[..|rows| - 1];
      var last := rows[|rows| - 1];
      GroupByTypeFacts(init);
      AddToGroupFacts(GroupByType(init), last.roomType, AmountOrZero(last.booking));
      assert rows == init + [last];
      forall t ensures BookingsOf(GroupByType(rows), t) == Count(rows, HasType(t)) {
        CountAppend(init, [last], HasType(t));
      }
      forall t ensures RevenueOf(GroupByType(rows), t) == TotalRevenue(Filter(rows, HasType(t))) {
        FilterAppend(init, [last], HasType(t));
        TotalRevenueAppend(Filter(init, HasType(t)), Filter([last], HasType(t)));
        assert [last][1..] == [];
        assert TotalRevenue([last]) == AmountOrZero(last.booking) by {
          assert [last][..0] == [];
        }
      }
    }
  }

  function HasType(t: RoomType): ReportRow -> bool {
    (r: ReportRow) => r.roomType == t
  }

  // -----------------------------------------------------------------------
  // Daily occupancy
  // -----------------------------------------------------------------------

  /** `eachDayOfInterval({start, end})` for `start <= end`: every day, both ends included. */
  function Days(start: int, end: int): (ds: seq<int>)
    ensures |ds| == if end < start then 0 else end - start + 1
    ensures forall i :: 0 <= i < |ds| ==> ds[i] == start + i
    decreases if end < start then 0 else end - start + 1
  {
    if end < start then [] else [start] + Days(start + 1, end)
  }

  /** A booking counts on day `d` from its check-in day to its check-out day,
      both included, unless it is cancelled. */
  predicate Covers(r: ReportRow, d: int) {
    Day(r.booking.checkIn) <= d <= Day(r.booking.checkOut) && r.booking.status != Cancelled
  }

  function CoversDay(d: int): ReportRow -> bool {
    (r: ReportRow) => Covers(r, d)
  }

  /** The bookings counted on day `d`: bookings, not distinct rooms. */
  function Occupied(rows: seq<ReportRow>, d: int): (n: nat)
    ensures n <= |rows|
  {
    Count(rows, CoversDay(d))
  }

  /** Adding a booking raises a day's count by one exactly when it covers that day. */
  lemma OccupiedAdd(rows: seq<ReportRow>, r: ReportRow, d: int)
    ensures Occupied(rows + [r], d) == Occupied(rows, d) + (if Covers(r, d) then 1 else 0)
  {
    CountAppend(rows, [r], CoversDay(d));
  }

  /** `totalRooms ? (occupiedRooms / totalRooms) * 100 : 0`. */
  function Rate(occupied: nat, totalRooms: nat): (rate: real)
    ensures totalRooms == 0 ==> rate == 0.0
    ensures totalRooms > 0 ==> rate * totalRooms as real == occupied as real * 100.0
    ensures occupied <= totalRooms ==> 0.0 <= rate <= 100.0
  {
    if totalRooms == 0 then 0.0 else (occupied as real / totalRooms as real) * 100.0
  }

  datatype OccupancyRow = OccupancyRow(date: int, occupiedRooms: nat, totalRooms: nat, occupancyRate: real)

  function OccupancyOn(rows: seq<ReportRow>, totalRooms: nat, d: int): OccupancyRow {
    OccupancyRow(d, Occupied(rows, d), totalRooms, Rate(Occupied(rows, d), totalRooms))
  }

  /** The occupancy table: one row per day of the range in order, or no table
      at all when the range is reversed (the interval is refused and the
      table keeps its previous contents). */
  function Occupancy(rows: seq<ReportRow>, totalRooms: nat, start: int, end: int): (r: Option<seq<OccupancyRow>>)
    ensures r.None? <==> start > end
    ensures r.Some? ==> |r.value| == end - start + 1
    ensures r.Some? ==> forall i :: 0 <= i < |r.value| ==>
        (r.value[i].date == start + i && r.value[i].totalRooms == totalRooms &&
         r.value[i].occupiedRooms == Occupied(rows, start + i) &&
         r.value[i].occupancyRate == Rate(r.value[i].occupiedRooms, totalRooms))
  {
    if start > end then None
    else
      var days := Days(start, end);
      Some(seq(|days|, i requires 0 <= i < |days| => OccupancyOn(rows, totalRooms, days[i])))
  }

  /** Two live bookings of the only room on the same day count twice: the
      table shows 2 occupied out of 1 room, a rate of 200 %. */
  lemma OverCountExample()
    ensures var b1 := Booking("b1", "r1", "g1", 0, DayMs, None, Active, Unpaid, 0, "s1");
      var b2 := Booking("b2", "r1", "g2", 0, DayMs, None, Completed, Paid, 0, "s1");
      var rows := [ReportRow(b1, Standard), ReportRow(b2, Standard)];
      OccupancyOn(rows, 1, 0) == OccupancyRow(0, 2, 1, 200.0)
  {
    var b1 := Booking("b1", "r1", "g1", 0, DayMs, None, Active, Unpaid, 0, "s1");
    var b2 := Booking("b2", "r1", "g2", 0, DayMs, None, Completed, Paid, 0, "s1");
    OccupiedAdd([ReportRow(b1, Standard)], ReportRow(b2, Standard), 0);
    OccupiedAdd([], ReportRow(b1, Standard), 0);
    assert [] + [ReportRow(b1, Standard)] == [ReportRow(b1, Standard)];
  }

  // -----------------------------------------------------------------------
  // fetchReportData
  // -----------------------------------------------------------------------

  datatype Report = Report(stats: BookingStats, revenueByType: seq<TypeRevenue>, occupancy: Option<seq<OccupancyRow>>)

  /** `fetchReportData`: `table` is the joined bookings table (None when the
      query returns no data, in which case nothing is updated) and `roomIds`
      the result of the rooms query. */
  function ReportData(table: Option<seq<ReportRow>>, roomIds: Option<seq<Id>>, start: int, end: int)
    : (r: Option<Report>)
    ensures r.None? <==> table.None?
    ensures r.Some? ==>
      var rows := Selected(table.value, start, end);
      && r.value.stats == StatsOf(rows, TotalRevenue(rows))
      && r.value.revenueByType == GroupByType(rows)
      && r.value.occupancy == Occupancy(rows, LengthOrZero(roomIds), start, end)
  {
    match table
    case None => None
    case Some(t) =>
      var rows := Selected(t, start, end);
      Some(Report(StatsOf(rows, TotalRevenue(rows)), GroupByType(rows), Occupancy(rows, LengthOrZero(roomIds), start, end)))
  }

  /** The revenue-by-type table adds up to the summary figures. */
  lemma ReportConsistent(table: seq<ReportRow>, roomIds: Option<seq<Id>>, start: int, end: int)
    ensures var r := ReportData(Some(table), roomIds, start, end).value;
      && DistinctTypes(r.revenueByType)
      && SumBookings(r.revenueByType) == r.stats.totalBookings
      && SumRevenue(r.revenueByType) == r.stats.totalRevenue
  {
    GroupByTypeFacts(Selected(table, start, end));
  }

  // -----------------------------------------------------------------------
  // CSV export
  // -----------------------------------------------------------------------

  const Headers: seq<string> := ["Date", "Occupied Rooms", "Total Rooms", "Occupancy Rate"]

  /** A CSV field that neither ends a field nor a line. */
  predicate CleanField(s: string) {
    ',' !in s && '\n' !in s
  }

  /** The fields of one table row. `dateText` renders a day as `yyyy-MM-dd`,
      `rateText` a rate with two decimals; both are outside this model. */
  function CsvFields(row: OccupancyRow, dateText: int -> string, rateText: real -> string): (fs: seq<string>)
    ensures |fs| == 4
    ensures fs[0] == dateText(row.date)
    ensures fs[1] == NatToString(row.occupiedRooms) && DigitsValue(fs[1]) == row.occupiedRooms
    ensures fs[2] == NatToString(row.totalRooms) && DigitsValue(fs[2]) == row.totalRooms
    ensures fs[3] == rateText(row.occupancyRate) + "%" && fs[3][|fs[3]| - 1] == '%'
  {
    NatToStringValue(row.occupiedRooms);
    NatToStringValue(row.totalRooms);
    [dateText(row.date), NatToString(row.occupiedRooms), NatToString(row.totalRooms),
     rateText(row.occupancyRate) + "%"]
  }

  /** `downloadCSV`: the header line, then one comma-joined line per row, joined by newlines. */
  function CsvContent(rows: seq<OccupancyRow>, dateText: int -> string, rateText: real -> string): string {
    Join(CsvLines(rows, dateText, rateText), '\n')
  }

  function CsvLines(rows: seq<OccupancyRow>, dateText: int -> string, rateText: real -> string): (lines: seq<string>)
    ensures |lines| == |rows| + 1
    ensures lines[0] == Join(Headers, ',')
    ensures forall i :: 0 <= i < |rows| ==> lines[i + 1] == Join(CsvFields(rows[i], dateText, rateText), ',')
  {
    [Join(Headers, ',')] + seq(|rows|, i requires 0 <= i < |rows| => Join(CsvFields(rows[i], dateText, rateText), ','))
  }

  lemma DigitsClean(n: nat)
    ensures CleanField(NatToString(n))
  {
  }

  /** Reading the file back: split on newlines it gives the header and one
      line per row, and each row line split on commas gives its four fields,
      whenever the rendered dates and rates hold no comma or newline. */
  lemma {:induction false} CsvRoundTrip(rows: seq<OccupancyRow>, dateText: int -> string, rateText: real -> string)
    requires forall i :: 0 <= i < |rows| ==>
      CleanField(dateText(rows[i].date)) && CleanField(rateText(rows[i].occupancyRate))
    ensures Split(CsvContent(rows, dateText, rateText), '\n') == CsvLines(rows, dateText, rateText)
    ensures forall i :: 0 <= i < |rows| ==>
      Split(CsvLines(rows, dateText, rateText)[i + 1], ',') == CsvFields(rows[i], dateText, rateText)
  {
    var lines := CsvLines(rows, dateText, rateText);
    forall i | 0 <= i < |rows|
      ensures forall j :: 0 <= j < 4 ==> CleanField(CsvFields(rows[i], dateText, rateText)[j])
    {
      var fs := CsvFields(rows[i], dateText, rateText);
      DigitsClean(rows[i].occupiedRooms);
      DigitsClean(rows[i].totalRooms);
      assert ',' !in "%" && '\n' !in "%";
      assert fs[3] == rateText(rows[i].occupancyRate) + "%";
    }
    forall j | 0 <= j < |lines|
      ensures '\n' !in lines[j]
    {
      if j == 0 {
        JoinWithout(Headers, ',', '\n');
      } else {
        JoinWithout(CsvFields(rows[j - 1], dateText, rateText), ',', '\n');
      }
    }
    SplitJoin(lines, '\n');
    forall i | 0 <= i < |rows|
      ensures Split(lines[i + 1], ',') == CsvFields(rows[i], dateText, rateText)
    {
      SplitJoin(CsvFields(rows[i], dateText, rateText), ',');
    }
  }
}
