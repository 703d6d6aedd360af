/** The entities of the hosted database and the two tables that the booking
    screen and the auto-checkout sweep write: rooms and bookings.
    Timestamps are milliseconds since the epoch; money is exact. */
module Hotel {
  import opened Common

  type Id = string

  /** Milliseconds in a day: 1000 * 60 * 60 * 24. */
  const DayMs: int := 86400000

  /** The calendar day (UTC) a timestamp falls on. */
  function Day(t: int): (d: int)
    ensures d * DayMs <= t < d * DayMs + DayMs
  {
    t / DayMs
  }

  datatype RoomType = Standard | Deluxe | Suite | Executive

  datatype RoomStatus = Available | Occupied | Maintenance

  datatype BookingStatus = Active | Completed | Cancelled

  datatype PaymentStatus = Paid | Unpaid

  datatype Room = Room(id: Id, roomNumber: string, roomType: RoomType, rate: real, status: RoomStatus)

  /** A row of the bookings table. A missing `totalAmount` is a null column. */
  datatype Booking = Booking(
    id: Id,
    roomId: Id,
    guestId: Id,
    checkIn: int,
    checkOut: int,
    totalAmount: Option<real>,
    status: BookingStatus,
    paymentStatus: PaymentStatus,
    createdAt: int,
    createdBy: Id)

  /** `total_amount || 0`. */
  function AmountOrZero(b: Booking): (a: real)
    ensures b.totalAmount.None? ==> a == 0.0
    ensures b.totalAmount.Some? ==> a == b.totalAmount.value
  {
    match b.totalAmount
    case None => 0.0
    case Some(v) => v
  }

  /** `rooms.find(r => r.id === id)`. */
  function FindRoom(rooms: seq<Room>, id: Id): Option<Room> {
    Find(rooms, (r: Room) => r.id == id)
  }

  /** Rows of `rooms` with id `id` get the new status; everything else is kept. */
  function SetRoomStatus(rooms: seq<Room>, ids: set<Id>, status: RoomStatus): (r: seq<Room>)
    ensures |r| == |rooms|
    ensures forall k :: 0 <= k < |r| ==>
      r[k] == if rooms[k].id in ids then rooms[k].(status := status) else rooms[k]
  {
    seq(|rooms|, k requires 0 <= k < |rooms| =>
      if rooms[k].id in ids then rooms[k].(status := status) else rooms[k])
  }

  /** A table whose primary key is `id`. */
  predicate UniqueBookingIds(bs: seq<Booking>) {
    forall i, j :: 0 <= i < |bs| && 0 <= j < |bs| && bs[i].id == bs[j].id ==> i == j
  }

  /** The joined row the bar and kitchen screens load for every active booking:
      `id, payment_status, guests(full_name), rooms(room_number)`. */
  datatype ActiveBooking = ActiveBooking(id: Id, paymentStatus: PaymentStatus, guestName: string, roomNumber: string)

  /** `activeBookings.find(b => b.id === id)`. */
  function FindActiveBooking(bs: seq<ActiveBooking>, id: string): Option<ActiveBooking> {
    Find(bs, (b: ActiveBooking) => b.id == id)
  }

  datatype GuestType = Lodged | WalkIn

  datatype BillingType = RoomBill | Separate

  /** The rooms and bookings tables of the hosted store, held in memory. */
  class Store {
    var rooms: seq<Room>
    var bookings: seq<Booking>

    constructor (rooms: seq<Room>, bookings: seq<Booking>)
      ensures this.rooms == rooms && this.bookings == bookings
    {
      this.rooms := rooms;
      this.bookings := bookings;
    }
  }
}
