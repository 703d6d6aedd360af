/** The auto-checkout sweep: select the active bookings whose check-out time
    has passed, mark them completed, then mark their rooms available. Each of
    the three store calls may fail; a failure ends the sweep and is only
    logged, never raised to the caller. */
module AutoCheckout {
  import opened Common
  import opened Hotel

  /** `.eq('status', 'active').lte('check_out', now)`: the comparison is inclusive. */
  predicate Expired(b: Booking, now: int) {
    b.status == Active && b.checkOut <= now
  }

  function ExpiredAt(now: int): Booking -> bool {
    b => Expired(b, now)
  }

  /** The rows the sweep's query returns, in table order. */
  function SelectExpired(bs: seq<Booking>, now: int): (r: seq<Booking>)
    ensures forall i :: 0 <= i < |r| ==> r[i] in bs && Expired(r[i], now)
    ensures forall i :: 0 <= i < |bs| && Expired(bs[i], now) ==> bs[i] in r
  {
    Filter(bs, ExpiredAt(now))
  }

  /** `expiredBookings.map(booking => booking.id)` (as the set the `.in` filter uses). */
  function IdsOf(sel: seq<Booking>): set<Id> {
    set b | b in sel :: b.id
  }

  /** `expiredBookings.map(booking => booking.room_id)`. */
  function RoomIdsOf(sel: seq<Booking>): set<Id> {
    set b | b in sel :: b.roomId
  }

  /** `.update({ status: 'completed' }).in('id', ids)`. */
  function CompleteBookings(bs: seq<Booking>, ids: set<Id>): (r: seq<Booking>)
    ensures |r| == |bs|
    ensures forall k :: 0 <= k < |r| ==>
      r[k] == if bs[k].id in ids then bs[k].(status := Completed) else bs[k]
  {
    seq(|bs|, k requires 0 <= k < |bs| =>
      if bs[k].id in ids then bs[k].(status := Completed) else bs[k])
  }

  /** Which of the three store calls fail on this run. */
  datatype Failures = Failures(select: bool, bookingUpdate: bool, roomUpdate: bool)

  const NoFailures: Failures := Failures(false, false, false)

  /** What the sweep writes to the console; it is never raised. */
  datatype SweepLog = SelectFailed | NothingExpired | BookingUpdateFailed | RoomUpdateFailed | Swept

  datatype Tables = Tables(rooms: seq<Room>, bookings: seq<Booking>)

  /** One sweep, as a function of the tables it starts from. */
  function Sweep(t: Tables, now: int, f: Failures): (Tables, SweepLog) {
    if f.select then (t, SelectFailed)
    else
      var sel := SelectExpired(t.bookings, now);
      if |sel| == 0 then (t, NothingExpired)
      else if f.bookingUpdate then (t, BookingUpdateFailed)
      else
        var bs := CompleteBookings(t.bookings, IdsOf(sel));
        if f.roomUpdate then (Tables(t.rooms, bs), RoomUpdateFailed)
        else (Tables(SetRoomStatus(t.rooms, RoomIdsOf(sel), Available), bs), Swept)
  }

  /** The select query: scans the bookings table in order. */
  method SelectExpiredRows(bs: seq<Booking>, now: int) returns (selected: seq<Booking>)
    ensures selected == SelectExpired(bs, now)
  {
    selected := [];
    var i := 0;
    while i < |bs|
      invariant 0 <= i <= |bs|
      invariant selected == Filter(bs[..i], ExpiredAt(now))
    {
      var b := bs[i];
      assert bs[..i + 1] == bs[..i] + [b];
      FilterSnoc(bs[..i], b, ExpiredAt(now));
      if b.status == Active && b.checkOut <= now {
        selected := selected + [b];
      }
      i := i + 1;
    }
    assert bs[..i] == bs;
  }

  /** The bulk booking update, row by row. */
  method CompleteRows(db: Store, ids: set<Id>)
    modifies db`bookings
    ensures db.bookings == CompleteBookings(old(db.bookings), ids)
  {
    ghost var b0 := db.bookings;
    var j := 0;
    while j < |db.bookings|
      invariant |db.bookings| == |b0| && 0 <= j <= |b0|
      invariant forall k :: 0 <= k < j ==>
        db.bookings[k] == if b0[k].id in ids then b0[k].(status := Completed) else b0[k]
      invariant forall k :: j <= k < |b0| ==> db.bookings[k] == b0[k]
    {
      if db.bookings[j].id in ids {
        db.bookings := db.bookings[j := db.bookings[j].(status := Completed)];
      }
      j := j + 1;
    }
  }

  /** The bulk room update, row by row. */
  method FreeRoomRows(db: Store, roomIds: set<Id>)
    modifies db`rooms
    ensures db.rooms == SetRoomStatus(old(db.rooms), roomIds, Available)
  {
    ghost var r0 := db.rooms;
    var j := 0;
    while j < |db.rooms|
      invariant |db.rooms| == |r0| && 0 <= j <= |r0|
      invariant forall k :: 0 <= k < j ==>
        db.rooms[k] == if r0[k].id in roomIds then r0[k].(status := Available) else r0[k]
      invariant forall k :: j <= k < |r0| ==> db.rooms[k] == r0[k]
    {
      if db.rooms[j].id in roomIds {
        db.rooms := db.rooms[j := db.rooms[j].(status := Available)];
      }
      j := j + 1;
    }
  }

  /** `checkAndUpdateRoomStatus`, run once against the store at time `now`. */
  method CheckAndUpdateRoomStatus(db: Store, now: int, f: Failures) returns (log: SweepLog)
    modifies db`rooms, db`bookings
    ensures (Tables(db.rooms, db.bookings), log) == Sweep(Tables(old(db.rooms), old(db.bookings)), now, f)
  {
    if f.select {
      return SelectFailed;
    }
    var selected := SelectExpiredRows(db.bookings, now);
    if |selected| == 0 {
      return NothingExpired;
    }
    if f.bookingUpdate {
      return BookingUpdateFailed;
    }
    var ids := set b | b in selected :: b.id;
    var roomIds := set b | b in selected :: b.roomId;
    CompleteRows(db, ids);
    if f.roomUpdate {
      return RoomUpdateFailed;
    }
    FreeRoomRows(db, roomIds);
    return Swept;
  }

  // -----------------------------------------------------------------------
  // Properties of one sweep
  // -----------------------------------------------------------------------

  /** With unique booking ids, a booking's id is among those the sweep
      completes exactly when the booking is active and due. */
  lemma SelectedIff(bs: seq<Booking>, now: int, k: int)
    requires UniqueBookingIds(bs) && 0 <= k < |bs|
    ensures bs[k].id in IdsOf(SelectExpired(bs, now)) <==> Expired(bs[k], now)
  {
    var sel := SelectExpired(bs, now);
    if bs[k].id in IdsOf(sel) {
      var b :| b in sel && b.id == bs[k].id;
      var m :| 0 <= m < |bs| && bs[m] == b;
    }
  }

  /** After a sweep whose booking update succeeded, every booking that was
      active and due is completed, and only the status column changed. */
  lemma {:induction false} SweepCompletesExpired(t: Tables, now: int, f: Failures)
    requires !f.select && !f.bookingUpdate
    ensures |Sweep(t, now, f).0.bookings| == |t.bookings|
    ensures forall k :: 0 <= k < |t.bookings| && Expired(t.bookings[k], now) ==>
      Sweep(t, now, f).0.bookings[k] == t.bookings[k].(status := Completed)
  {
    var sel := SelectExpired(t.bookings, now);
    forall k | 0 <= k < |t.bookings| && Expired(t.bookings[k], now)
      ensures t.bookings[k].id in IdsOf(sel)
    {
      assert t.bookings[k] in sel;
    }
  }

  /** After a fully successful sweep every room referenced by a due booking is
      available, whatever other bookings still point at it. */
  lemma {:induction false} SweepFreesRooms(t: Tables, now: int)
    ensures |Sweep(t, now, NoFailures).0.rooms| == |t.rooms|
    ensures forall k, m ::
      (0 <= k < |t.bookings| && Expired(t.bookings[k], now) &&
       0 <= m < |t.rooms| && t.rooms[m].id == t.bookings[k].roomId) ==>
      Sweep(t, now, NoFailures).0.rooms[m] == t.rooms[m].(status := Available)
  {
    var sel := SelectExpired(t.bookings, now);
    forall k | 0 <= k < |t.bookings| && Expired(t.bookings[k], now)
      ensures t.bookings[k].roomId in RoomIdsOf(sel)
    {
      assert t.bookings[k] in sel;
    }
  }

  /** Nothing except the status of selected rows changes: bookings that were
      not due (ids being unique) and rooms not referenced by a due booking keep
      their rows, and every other column of every row is kept. */
  lemma {:induction false} SweepFrame(t: Tables, now: int, f: Failures)
    requires UniqueBookingIds(t.bookings)
    ensures var t' := Sweep(t, now, f).0;
      && |t'.bookings| == |t.bookings| && |t'.rooms| == |t.rooms|
      && (forall k :: 0 <= k < |t.bookings| ==> t'.bookings[k] == t.bookings[k].(status := t'.bookings[k].status))
      && (forall k :: 0 <= k < |t.bookings| && !Expired(t.bookings[k], now) ==> t'.bookings[k] == t.bookings[k])
      && (forall m :: 0 <= m < |t.rooms| ==> t'.rooms[m] == t.rooms[m].(status := t'.rooms[m].status))
      && (forall m :: 0 <= m < |t.rooms| &&
            (forall k :: 0 <= k < |t.bookings| && Expired(t.bookings[k], now) ==> t.bookings[k].roomId != t.rooms[m].id)
            ==> t'.rooms[m] == t.rooms[m])
  {
    var sel := SelectExpired(t.bookings, now);
    forall k | 0 <= k < |t.bookings|
      ensures t.bookings[k].id in IdsOf(sel) <==> Expired(t.bookings[k], now)
    {
      SelectedIff(t.bookings, now, k);
    }
    forall m | 0 <= m < |t.rooms| && t.rooms[m].id in RoomIdsOf(sel)
      ensures exists k :: 0 <= k < |t.bookings| && Expired(t.bookings[k], now) && t.bookings[k].roomId == t.rooms[m].id
    {
      var b :| b in sel && b.roomId == t.rooms[m].id;
      var k :| 0 <= k < |t.bookings| && t.bookings[k] == b;
    }
  }

  /** When no booking is due, neither table is written. */
  lemma NothingDueNoChange(t: Tables, now: int, f: Failures)
    requires forall k :: 0 <= k < |t.bookings| ==> !Expired(t.bookings[k], now)
    ensures Sweep(t, now, f).0 == t
    ensures !f.select ==> Sweep(t, now, f).1 == NothingExpired
  {
    FilterNone(t.bookings, ExpiredAt(now));
  }

  /** Partial failure: a failed booking update leaves both tables as they
      were; a failed room update leaves the bookings completed and the rooms
      as they were. Neither is reported to the caller. */
  lemma PartialFailure(t: Tables, now: int, f: Failures)
    requires !f.select
    ensures f.bookingUpdate ==> Sweep(t, now, f).0 == t
    ensures !f.bookingUpdate && f.roomUpdate ==>
      Sweep(t, now, f).0 == Tables(t.rooms, Sweep(t, now, NoFailures).0.bookings)
  {
  }

  /** Idempotence: once a sweep has succeeded, a second sweep at the same time
      finds nothing due and changes nothing, whichever of its calls fail. */
  lemma {:induction false} SweepIdempotent(t: Tables, now: int, f: Failures)
    ensures var t1 := Sweep(t, now, NoFailures).0;
      Sweep(t1, now, f).0 == t1 && Sweep(t1, now, f).1 in {SelectFailed, NothingExpired}
  {
    var (t1, log) := Sweep(t, now, NoFailures);
    var sel := SelectExpired(t.bookings, now);
    forall k | 0 <= k < |t.bookings| && Expired(t.bookings[k], now)
      ensures t.bookings[k].id in IdsOf(sel)
    {
      assert t.bookings[k] in sel;
    }
    assert forall k :: 0 <= k < |t1.bookings| ==> !Expired(t1.bookings[k], now);
    NothingDueNoChange(t1, now, f);
  }

  /** Freeing a room ignores other bookings: here one of two active bookings of
      room "R1" is due, the other is not, and the room ends up available while
      the second booking is still active. */
  lemma RoomFreedUnderStillActiveBooking()
    ensures var due := Booking("b1", "R1", "g1", 0, 100, Some(10.0), Active, Unpaid, 0, "s");
      var later := Booking("b2", "R1", "g2", 0, 500, Some(10.0), Active, Unpaid, 0, "s");
      var room := Room("R1", "101", Standard, 10.0, Occupied);
      var t1 := Sweep(Tables([room], [due, later]), 200, NoFailures).0;
      t1.rooms[0].status == Available && t1.bookings[1].status == Active
  {
    var due := Booking("b1", "R1", "g1", 0, 100, Some(10.0), Active, Unpaid, 0, "s");
    var later := Booking("b2", "R1", "g2", 0, 500, Some(10.0), Active, Unpaid, 0, "s");
    var room := Room("R1", "101", Standard, 10.0, Occupied);
    var sel := SelectExpired([due, later], 200);
    assert [due, later][1..] == [later];
    assert [later][1..] == [];
    assert sel == [due];
    assert IdsOf(sel) == {"b1"};
    assert RoomIdsOf(sel) == {"R1"};
  }
}
