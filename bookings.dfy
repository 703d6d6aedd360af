/** The bookings screen: the price of a stay, the save sequence (booking
    insert or update, then the room forced to occupied), the list filter and
    the edit form. */
module Bookings {
  import opened Common
  import opened Hotel

  // -----------------------------------------------------------------------
  // Pricing
  // -----------------------------------------------------------------------

  /** ceil(a / b) for b > 0, written with Dafny's floor division. */
  function CeilDiv(a: int, b: int): (q: int)
    requires b > 0
    ensures (q - 1) * b < a <= q * b
  {
    -((-a) / b)
  }

  /** `Math.ceil((end - start) / (1000 * 60 * 60 * 24))`. */
  function Nights(checkIn: int, checkOut: int): (n: int)
    ensures (n - 1) * DayMs < checkOut - checkIn <= n * DayMs
  {
    CeilDiv(checkOut - checkIn, DayMs)
  }

  /** `calculateTotalAmount`: the rate of the first loaded room with that id
      times the nights, and 0 when no loaded room has that id. */
  function CalculateTotalAmount(rooms: seq<Room>, roomId: Id, checkIn: int, checkOut: int): (total: real)
    ensures (forall k :: 0 <= k < |rooms| ==> rooms[k].id != roomId) ==> total == 0.0
    ensures forall k :: (0 <= k < |rooms| && rooms[k].id == roomId &&
                         (forall j :: 0 <= j < k ==> rooms[j].id != roomId)) ==>
      total == rooms[k].rate * Nights(checkIn, checkOut) as real
  {
    match FindRoom(rooms, roomId)
    case None => 0.0
    case Some(room) => room.rate * Nights(checkIn, checkOut) as real
  }

  /** `fetchRooms`: the screen loads only the rooms that are available. */
  function LoadedRooms(table: seq<Room>): (r: seq<Room>)
    ensures forall k :: 0 <= k < |r| ==> r[k].status == Available && r[k] in table
    ensures forall k :: 0 <= k < |table| && table[k].status == Available ==> table[k] in r
  {
    Filter(table, (room: Room) => room.status == Available)
  }

  /** Check-in and check-out at the same instant cost nothing. */
  lemma SameInstantIsFree(rooms: seq<Room>, roomId: Id, t: int)
    ensures Nights(t, t) == 0
    ensures CalculateTotalAmount(rooms, roomId, t, t) == 0.0
  {
  }

  /** A non-negative rate times a non-positive count is non-positive. */
  lemma RateTimesNonPositive(rate: real, n: int)
    requires rate >= 0.0 && n <= 0
    ensures rate * n as real <= 0.0
  {
    assert rate * (-n) as real >= 0.0;
    assert rate * n as real == -(rate * (-n) as real);
  }

  /** No date check exists: a check-out before the check-in gives a
      non-positive number of nights, so a non-negative rate gives a total <= 0. */
  lemma ReversedDatesNonPositive(rooms: seq<Room>, roomId: Id, checkIn: int, checkOut: int)
    requires checkOut < checkIn
    requires forall k :: 0 <= k < |rooms| ==> rooms[k].rate >= 0.0
    ensures Nights(checkIn, checkOut) <= 0
    ensures CalculateTotalAmount(rooms, roomId, checkIn, checkOut) <= 0.0
  {
    var n := Nights(checkIn, checkOut);
    MulMonotone(n - 1, 0);
    match FindRoom(rooms, roomId)
    case None =>
    case Some(room) =>
      assert room in rooms;
      RateTimesNonPositive(room.rate, n);
  }

  /** Any started day is a whole night. */
  lemma PartialDayIsOneNight(checkIn: int, checkOut: int)
    requires checkIn < checkOut <= checkIn + DayMs
    ensures Nights(checkIn, checkOut) == 1
  {
  }

  /** Rate 20,000 from 2024-01-01 to 2024-01-03 (days 19723 and 19725 since the epoch): 40,000. */
  lemma TwoNightScenario()
    ensures CalculateTotalAmount([Room("r1", "101", Standard, 20000.0, Available)], "r1",
                                 19723 * DayMs, 19725 * DayMs) == 40000.0
  {
    assert Nights(19723 * DayMs, 19725 * DayMs) == 2;
  }

  /** The loaded list holds only available rooms, so a booking whose room is
      occupied or in maintenance is priced at 0 when its edit form is saved. */
  lemma UnavailableRoomPricedZero(table: seq<Room>, roomId: Id, checkIn: int, checkOut: int)
    requires forall k :: 0 <= k < |table| && table[k].id == roomId ==> table[k].status != Available
    ensures CalculateTotalAmount(LoadedRooms(table), roomId, checkIn, checkOut) == 0.0
  {
    var loaded := LoadedRooms(table);
    forall k | 0 <= k < |loaded|
      ensures loaded[k].id != roomId
    {
      assert loaded[k] in table;
    }
  }

  // -----------------------------------------------------------------------
  // The save sequence
  // -----------------------------------------------------------------------

  datatype BookingForm = BookingForm(roomId: Id, guestId: Id, checkIn: int, checkOut: int, status: BookingStatus)

  /** The columns of a booking that the form edits. */
  function FormFields(b: Booking): BookingForm {
    BookingForm(b.roomId, b.guestId, b.checkIn, b.checkOut, b.status)
  }

  /** Payment status the bookings table gives a new row. */
  const DefaultPaymentStatus: PaymentStatus := Unpaid

  /** `.update({...formData, total_amount, created_by})` applied to one row. */
  function ApplyForm(b: Booking, form: BookingForm, total: real, user: Id): (r: Booking)
    ensures FormFields(r) == form && r.totalAmount == Some(total) && r.createdBy == user
    ensures r.id == b.id && r.paymentStatus == b.paymentStatus && r.createdAt == b.createdAt
  {
    b.(roomId := form.roomId, guestId := form.guestId, checkIn := form.checkIn,
       checkOut := form.checkOut, status := form.status, totalAmount := Some(total), createdBy := user)
  }

  /** `.insert([{...formData, total_amount, created_by}])`: the store adds the
      id, the creation time and the payment status. */
  function NewBooking(id: Id, form: BookingForm, total: real, user: Id, now: int): (r: Booking)
    ensures FormFields(r) == form && r.totalAmount == Some(total) && r.createdBy == user
    ensures r.id == id && r.createdAt == now && r.paymentStatus == DefaultPaymentStatus
  {
    Booking(id, form.roomId, form.guestId, form.checkIn, form.checkOut, Some(total),
            form.status, DefaultPaymentStatus, now, user)
  }

  /** `.update(bookingData).eq('id', id)` on the whole table. */
  function UpdateBookingRows(bs: seq<Booking>, id: Id, form: BookingForm, total: real, user: Id): (r: seq<Booking>)
    ensures |r| == |bs|
    ensures forall k :: 0 <= k < |bs| ==>
      r[k] == if bs[k].id == id then ApplyForm(bs[k], form, total, user) else bs[k]
  {
    seq(|bs|, k requires 0 <= k < |bs| =>
      if bs[k].id == id then ApplyForm(bs[k], form, total, user) else bs[k])
  }

  datatype SaveError = NoAuthenticatedUser | StaffRecordNotFound | StoreError

  /** The toast shown for each refusal; for a store error this is the text
      used when the store's error carries no message of its own. Each text
      belongs to exactly one refusal. */
  function ErrorMessage(e: SaveError): (m: string)
    ensures m == "No authenticated user found" <==> e == NoAuthenticatedUser
    ensures m == "Staff record not found. Please contact administrator." <==> e == StaffRecordNotFound
    ensures m == "Error saving booking. Please try again." <==> e == StoreError
  {
    match e
    case NoAuthenticatedUser => "No authenticated user found"
    case StaffRecordNotFound => "Staff record not found. Please contact administrator."
    case StoreError => "Error saving booking. Please try again."
  }

  /** `handleSubmit`. `editing` is the id of the booking whose edit form is
      open (None for a new booking); `user` the signed-in principal; `staff`
      the ids that have a staff record; `newId` and `now` what the store gives
      an inserted row. The room update's error is not checked by the screen:
      a failed room write leaves the rooms as they were and still reports
      success. */
  method HandleSubmit(db: Store, loadedRooms: seq<Room>, form: BookingForm, editing: Option<Id>,
                      user: Option<Id>, staff: set<Id>, newId: Id, now: int,
                      bookingWriteFails: bool, roomWriteFails: bool)
    returns (r: Result<(), SaveError>)
    modifies db`bookings, db`rooms
    ensures user.None? ==>
      r == Failure(NoAuthenticatedUser) && db.bookings == old(db.bookings) && db.rooms == old(db.rooms)
    ensures user.Some? && user.value !in staff ==>
      r == Failure(StaffRecordNotFound) && db.bookings == old(db.bookings) && db.rooms == old(db.rooms)
    ensures user.Some? && user.value in staff && bookingWriteFails ==>
      r == Failure(StoreError) && db.bookings == old(db.bookings) && db.rooms == old(db.rooms)
    ensures user.Some? && user.value in staff && !bookingWriteFails ==>
      var total := CalculateTotalAmount(loadedRooms, form.roomId, form.checkIn, form.checkOut);
      && r == Success(())
      && db.bookings == (match editing
                         case Some(id) => UpdateBookingRows(old(db.bookings), id, form, total, user.value)
                         case None => old(db.bookings) + [NewBooking(newId, form, total, user.value, now)])
      && db.rooms == (if roomWriteFails then old(db.rooms)
                      else SetRoomStatus(old(db.rooms), {form.roomId}, Occupied))
  {
    var totalAmount := CalculateTotalAmount(loadedRooms, form.roomId, form.checkIn, form.checkOut);
    if user.None? {
      return Failure(NoAuthenticatedUser);
    }
    var uid := user.value;
    if uid !in staff {
      return Failure(StaffRecordNotFound);
    }
    if bookingWriteFails {
      return Failure(StoreError);
    }
    match editing {
      case Some(id) =>
        db.bookings := UpdateBookingRows(db.bookings, id, form, totalAmount, uid);
      case None =>
        db.bookings := db.bookings + [NewBooking(newId, form, totalAmount, uid, now)];
    }
    if !roomWriteFails {
      db.rooms := SetRoomStatus(db.rooms, {form.roomId}, Occupied);
    }
    return Success(());
  }

  /** Whatever status the form chose, a successful save leaves every row of
      the booked room occupied (unless that last write failed). */
  lemma SavedRoomOccupied(rooms: seq<Room>, roomId: Id, k: int)
    requires 0 <= k < |rooms| && rooms[k].id == roomId
    ensures SetRoomStatus(rooms, {roomId}, Occupied)[k].status == Occupied
    ensures forall m :: 0 <= m < |rooms| && rooms[m].id != roomId ==>
      SetRoomStatus(rooms, {roomId}, Occupied)[m] == rooms[m]
  {
  }

  // -----------------------------------------------------------------------
  // List filter and edit form
  // -----------------------------------------------------------------------

  /** A listed booking with its joined guest name and room number. */
  datatype BookingListRow = BookingListRow(booking: Booking, guestName: string, roomNumber: string)

  predicate BookingListed(row: BookingListRow, search: string, status: Option<BookingStatus>) {
    && (MatchesSearch(row.guestName, search) || MatchesSearch(row.roomNumber, search))
    && (status.None? || row.booking.status == status.value)
  }

  /** `filteredBookings`. */
  function FilteredBookings(rows: seq<BookingListRow>, search: string, status: Option<BookingStatus>)
    : (r: seq<BookingListRow>)
    ensures SubsequenceOf(r, rows)
    ensures forall k :: 0 <= k < |rows| ==>
      (rows[k] in r <==> (MatchesSearch(rows[k].guestName, search) || MatchesSearch(rows[k].roomNumber, search)) &&
                         (status.None? || rows[k].booking.status == status.value))
  {
    Filter(rows, (row: BookingListRow) => BookingListed(row, search, status))
  }

  /** `booking.check_in.split('T')[0]`: the start of the timestamp's day. */
  function TruncateToDay(t: int): (d: int)
    ensures d <= t < d + DayMs
    ensures d % DayMs == 0
  {
    Day(t) * DayMs
  }

  /** `openEditModal`: the form shows the booking's columns with both dates
      cut to their day. */
  function EditForm(b: Booking): (form: BookingForm)
    ensures form.roomId == b.roomId && form.guestId == b.guestId && form.status == b.status
    ensures form.checkIn == TruncateToDay(b.checkIn) && form.checkOut == TruncateToDay(b.checkOut)
  {
    BookingForm(b.roomId, b.guestId, TruncateToDay(b.checkIn), TruncateToDay(b.checkOut), b.status)
  }

  /** Scaling by a day keeps the strict order of whole numbers both ways. */
  lemma MulMonotone(a: int, b: int)
    ensures a < b <==> a * DayMs < b * DayMs
  {
    if a < b {
      assert (b - a) * DayMs > 0;
    } else {
      assert (a - b) * DayMs >= 0;
    }
  }

  /** Dates taken from the edit form are whole days apart, so the nights are
      exactly the difference of the calendar days. */
  lemma {:induction false} EditFormNights(b: Booking)
    ensures Nights(EditForm(b).checkIn, EditForm(b).checkOut) == Day(b.checkOut) - Day(b.checkIn)
  {
    var dd := Day(b.checkOut) - Day(b.checkIn);
    var n := Nights(EditForm(b).checkIn, EditForm(b).checkOut);
    assert EditForm(b).checkOut - EditForm(b).checkIn == dd * DayMs;
    assert (n - 1) * DayMs < dd * DayMs <= n * DayMs;
    MulMonotone(n - 1, dd);
    MulMonotone(dd, n);
  }

  /** Saving an edit form unchanged can only reprice the stay, move both
      dates to the start of their day and restamp the author; when the room
      is no longer available the new price is 0. */
  lemma ResaveEditForm(table: seq<Room>, b: Booking, user: Id)
    requires forall k :: 0 <= k < |table| && table[k].id == b.roomId ==> table[k].status != Available
    ensures var form := EditForm(b);
      var total := CalculateTotalAmount(LoadedRooms(table), form.roomId, form.checkIn, form.checkOut);
      ApplyForm(b, form, total, user) ==
        b.(checkIn := TruncateToDay(b.checkIn), checkOut := TruncateToDay(b.checkOut),
           totalAmount := Some(0.0), createdBy := user)
  {
    var form := EditForm(b);
    UnavailableRoomPricedZero(table, b.roomId, form.checkIn, form.checkOut);
  }
}
