/** The dashboard: room and booking counts, the occupancy-rate card and the
    five most recent bookings. */
module Dashboard {
  import opened Common
  import opened Hotel

  // -----------------------------------------------------------------------
  // The five newest bookings
  // -----------------------------------------------------------------------

  predicate NewestFirst(s: seq<Booking>) {
    forall i, j :: 0 <= i < j < |s| ==> s[i].createdAt >= s[j].createdAt
  }

  /** Everything in `rest`, which holds `b` and the tail of `s`, is no newer
      than the head of `s`. */
  lemma {:induction false} HeadBoundsRest(b: Booking, s: seq<Booking>, rest: seq<Booking>)
    requires s != [] && NewestFirst(s) && b.createdAt <= s[0].createdAt
    requires multiset(rest) == multiset(s[1..]) + multiset{b}
    ensures forall k :: 0 <= k < |rest| ==> rest[k].createdAt <= s[0].createdAt
  {
    forall k | 0 <= k < |rest|
      ensures rest[k].createdAt <= s[0].createdAt
    {
      var x := rest[k];
      assert x in multiset(rest);
      if x != b {
        assert x in multiset(s[1..]);
        var m :| 0 <= m < |s[1..]| && s[1..][m] == x;
        assert s[m + 1] == x;
      }
    }
  }

  function InsertByDate(b: Booking, s: seq<Booking>): (r: seq<Booking>)
    requires NewestFirst(s)
    ensures NewestFirst(r)
    ensures multiset(r) == multiset(s) + multiset{b}
    decreases |s|
  {
    if s == [] || b.createdAt >= s[0].createdAt then [b] + s
    else
      var rest := InsertByDate(b, s[1..]);
      HeadBoundsRest(b, s, rest);
      assert s == [s[0]] + s[1..];
      [s[0]] + rest
  }

  /** `.order('created_at', { ascending: false })`. */
  function SortNewestFirst(s: seq<Booking>): (r: seq<Booking>)
    ensures NewestFirst(r)
    ensures multiset(r) == multiset(s)
    decreases |s|
  {
    if s == [] then []
    else
      assert s == [s[0]] + s[1..];
      InsertByDate(s[0], SortNewestFirst(s[1..]))
  }

  /** `.order('created_at', { ascending: false }).limit(5)`. */
  function RecentQuery(table: seq<Booking>): (r: seq<Booking>)
    ensures |r| == if |table| < 5 then |table| else 5
  {
    var sorted := SortNewestFirst(table);
    assert |sorted| == |multiset(sorted)| == |table|;
    if |sorted| < 5 then sorted else sorted[..5]
  }

  /** The first `n` of a newest-first list are newest first, are taken from
      it, and no entry left behind is newer than any of them. */
  lemma {:induction false} TakeNewest(sorted: seq<Booking>, n: nat)
    requires NewestFirst(sorted) && n <= |sorted|
    ensures NewestFirst(sorted[..n])
    ensures multiset(sorted[..n]) <= multiset(sorted)
    ensures forall b :: b in multiset(sorted) - multiset(sorted[..n]) ==>
      forall i :: 0 <= i < n ==> b.createdAt <= sorted[i].createdAt
  {
    var r := sorted[..n];
    var rest := sorted[n..];
    assert sorted == r + rest;
    assert multiset(sorted) == multiset(r) + multiset(rest);
    forall b | b in multiset(sorted) - multiset(r)
      ensures forall i :: 0 <= i < n ==> b.createdAt <= sorted[i].createdAt
    {
      assert b in multiset(rest);
      var m :| 0 <= m < |rest| && rest[m] == b;
      assert sorted[n + m] == b;
    }
  }

  /** The recent list holds at most five bookings of the table, newest first,
      and no booking left out is newer than any listed one. */
  lemma {:induction false} RecentAreNewest(table: seq<Booking>)
    ensures var r := RecentQuery(table);
      && |r| <= 5
      && NewestFirst(r)
      && multiset(r) <= multiset(table)
      && forall b :: b in multiset(table) - multiset(r) ==>
           forall i :: 0 <= i < |r| ==> b.createdAt <= r[i].createdAt
  {
    var sorted := SortNewestFirst(table);
    assert |sorted| == |multiset(sorted)| == |table|;
    var n := if |sorted| < 5 then |sorted| else 5;
    assert sorted[..|sorted|] == sorted;
    assert RecentQuery(table) == sorted[..n];
    TakeNewest(sorted, n);
  }

  // -----------------------------------------------------------------------
  // The figures
  // -----------------------------------------------------------------------

  function IsOccupied(r: Room): bool { r.status == Occupied }

  function IsActive(b: Booking): bool { b.status == Active }

  /** `.from('bookings').select('*').eq('status', 'active')`. */
  function ActiveQuery(table: seq<Booking>): (r: seq<Booking>)
    ensures forall k :: 0 <= k < |r| ==> r[k].status == Active && r[k] in table
    ensures forall k :: 0 <= k < |table| && table[k].status == Active ==> table[k] in r
  {
    Filter(table, IsActive)
  }

  datatype DashboardStats = DashboardStats(
    totalRooms: nat,
    occupiedRooms: nat,
    totalGuests: nat,
    activeBookings: nat,
    recentBookings: seq<Booking>,
    totalRevenue: real,
    averageBookingValue: real)

  /** `fetchDashboardStats`: each query result is None when it returned no data. */
  function Stats(rooms: Option<seq<Room>>, guestCount: Option<nat>, active: Option<seq<Booking>>,
                 recent: Option<seq<Booking>>): (s: DashboardStats)
    ensures s.totalRooms == LengthOrZero(rooms)
    ensures rooms.None? ==> s.occupiedRooms == 0
    ensures rooms.Some? ==> s.occupiedRooms == Count(rooms.value, IsOccupied)
    ensures s.occupiedRooms <= s.totalRooms
    ensures s.totalGuests == (if guestCount.None? then 0 else guestCount.value)
    ensures s.activeBookings == LengthOrZero(active)
    ensures s.recentBookings == (if recent.None? then [] else recent.value)
    ensures s.totalRevenue == 0.0 && s.averageBookingValue == 0.0
  {
    DashboardStats(
      LengthOrZero(rooms),
      if rooms.None? then 0 else Count(rooms.value, IsOccupied),
      if guestCount.None? then 0 else guestCount.value,
      LengthOrZero(active),
      if recent.None? then [] else recent.value,
      0.0,
      0.0)
  }

  /** With every query answered from the tables, the card shows the number of
      active bookings and the newest five of all bookings. */
  lemma StatsFromTables(rooms: seq<Room>, guests: nat, bookings: seq<Booking>)
    ensures var s := Stats(Some(rooms), Some(guests), Some(ActiveQuery(bookings)), Some(RecentQuery(bookings)));
      && s.activeBookings == Count(bookings, IsActive)
      && s.totalGuests == guests
      && |s.recentBookings| <= 5 && NewestFirst(s.recentBookings)
  {
    RecentAreNewest(bookings);
  }

  /** Euclidean division of `n` by `d`, as bounds on the quotient. */
  lemma QuotientBounds(n: int, d: int, q: int)
    requires d > 0 && q == n / d
    ensures d * q <= n < d * q + d
  {
  }

  /** A positive factor keeps a strict order. */
  lemma CancelFactor(d: int, a: int, b: int)
    requires d > 0 && d * a < d * b
    ensures a < b
  {
  }

  /** Bounds of the rounded percentage `q` of `occupied` out of `total`. */
  lemma RoundedPercentBounds(occupied: nat, total: nat, q: int)
    requires total > 0 && q == (200 * occupied + total) / (2 * total)
    ensures (2 * q - 1) * total <= 200 * occupied < (2 * q + 1) * total
    ensures occupied <= total ==> 0 <= q <= 100
  {
    var n := 200 * occupied + total;
    var d := 2 * total;
    QuotientBounds(n, d, q);
    assert d * q == 2 * q * total;
    assert (2 * q - 1) * total == d * q - total;
    assert (2 * q + 1) * total == d * q + total;
    if occupied <= total {
      assert n < d * 101 by {
        assert 200 * occupied <= 200 * total;
        assert d * 101 == 202 * total;
      }
      CancelFactor(d, q, 101);
      assert d * -1 < n;
      CancelFactor(d, -1, q);
    }
  }

  /** The occupancy card: `Math.round(occupied / total * 100)`, and 0 with no
      rooms. Halves round up. */
  function OccupancyCard(occupied: nat, total: nat): (pct: int)
    ensures total == 0 ==> pct == 0
    ensures total > 0 ==> (2 * pct - 1) * total <= 200 * occupied < (2 * pct + 1) * total
    ensures occupied <= total ==> 0 <= pct <= 100
  {
    if total == 0 then 0
    else
      var q := (200 * occupied + total) / (2 * total);
      RoundedPercentBounds(occupied, total, q);
      q
  }

  /** The card always shows a value between 0 and 100: occupied rooms are
      counted among the rooms returned. */
  lemma CardWithinPercent(rooms: Option<seq<Room>>, guestCount: Option<nat>, active: Option<seq<Booking>>,
                          recent: Option<seq<Booking>>)
    ensures var s := Stats(rooms, guestCount, active, recent);
      0 <= OccupancyCard(s.occupiedRooms, s.totalRooms) <= 100
  {
  }
}
