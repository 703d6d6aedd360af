/** The kitchen orders screen: how a new order resolves its guest, room and
    billing, the one-step-forward status buttons and the list filter. Unlike
    the bar, the form has no guest type and the price is typed in. */
module KitchenOrders {
  import opened Common
  import opened Hotel

  // -----------------------------------------------------------------------
  // Status buttons
  // -----------------------------------------------------------------------

  datatype KitchenStatus = Pending | Preparing | Ready | Delivered | Completed

  /** Position of a status in the order's life. */
  function Rank(s: KitchenStatus): (n: nat)
    ensures n <= 4
    ensures n == 0 <==> s == Pending
    ensures n == 4 <==> s == KitchenStatus.Completed
  {
    match s
    case Pending => 0
    case Preparing => 1
    case Ready => 2
    case Delivered => 3
    case Completed => 4
  }

  /** The status the one action button of a row moves it to; a completed
      order shows no button. */
  function Next(s: KitchenStatus): (r: Option<KitchenStatus>)
    ensures r.None? <==> s == KitchenStatus.Completed
    ensures r.Some? ==> Rank(r.value) == Rank(s) + 1
  {
    match s
    case Pending => Some(Preparing)
    case Preparing => Some(Ready)
    case Ready => Some(Delivered)
    case Delivered => Some(KitchenStatus.Completed)
    case Completed => None
  }

  /** The statuses an order passes through from `s` by pressing the button
      until none is left. */
  function Lifecycle(s: KitchenStatus): (p: seq<KitchenStatus>)
    ensures |p| == 5 - Rank(s) && p[0] == s && p[|p| - 1] == KitchenStatus.Completed
    ensures forall i :: 0 <= i < |p| - 1 ==> Next(p[i]) == Some(p[i + 1])
    decreases 4 - Rank(s)
  {
    match Next(s)
    case None => [s]
    case Some(t) => [s] + Lifecycle(t)
  }

  /** The only path offered: pending, preparing, ready, delivered, completed. */
  lemma FullLifecycle()
    ensures Lifecycle(Pending) == [Pending, Preparing, Ready, Delivered, KitchenStatus.Completed]
  {
  }

  // -----------------------------------------------------------------------
  // Creating an order
  // -----------------------------------------------------------------------

  /** The order form; `price` is the number the staff member typed. */
  datatype KitchenForm = KitchenForm(bookingId: string, guestName: string, foodName: string,
                                     price: real, quantity: int, notes: string)

  /** The row `handleSubmit` sends to the kitchen orders table. */
  datatype KitchenOrderData = KitchenOrderData(
    bookingId: Option<Id>,
    roomNumber: Option<string>,
    guestName: string,
    foodName: string,
    price: real,
    quantity: int,
    notes: string,
    billingType: BillingType,
    createdBy: Id)

  datatype OrderError = NoAuthenticatedUser | StoreError

  /** The toast of each refusal: the thrown text, and for a store error the
      fallback text shown when the store's error has no message. Each text
      belongs to exactly one refusal. */
  function Message(e: OrderError): (m: string)
    ensures m == "No authenticated user found" <==> e == NoAuthenticatedUser
    ensures m == "Error creating kitchen order" <==> e == StoreError
  {
    match e
    case NoAuthenticatedUser => "No authenticated user found"
    case StoreError => "Error creating kitchen order"
  }

  /** The order row a submitted form produces, or the error it is refused with. */
  function OrderData(form: KitchenForm, bookings: seq<ActiveBooking>, user: Option<Id>)
    : (r: Result<KitchenOrderData, OrderError>)
    ensures r.Failure? <==> user.None?
    ensures r.Failure? ==> r.error == NoAuthenticatedUser
    ensures r.Success? ==>
      var found := FindActiveBooking(bookings, form.bookingId);
      var d := r.value;
      && (d.billingType == RoomBill <==> found.Some? && found.value.paymentStatus == Unpaid)
      && (found.Some? ==>
            d.guestName == found.value.guestName && d.roomNumber == NullIfEmpty(found.value.roomNumber))
      && (found.None? ==> d.guestName == form.guestName && d.roomNumber.None?)
      && d.bookingId == NullIfEmpty(form.bookingId)
      && d.price == form.price && d.quantity == form.quantity
      && d.foodName == form.foodName && d.notes == form.notes && d.createdBy == user.value
  {
    if user.None? then Failure(NoAuthenticatedUser)
    else
      var booking := FindActiveBooking(bookings, form.bookingId);
      var billing := if booking.Some? && booking.value.paymentStatus == Unpaid then RoomBill else Separate;
      var roomNumber := if booking.Some? then booking.value.roomNumber else "";
      var guestName := if booking.Some? then booking.value.guestName else form.guestName;
      Success(KitchenOrderData(NullIfEmpty(form.bookingId), NullIfEmpty(roomNumber), guestName,
                               form.foodName, form.price, form.quantity, form.notes, billing, user.value))
  }

  /** Without a matching active booking the order is billed separately and
      carries the name typed in the form, whatever id the form holds. */
  lemma UnknownBookingBilledSeparately(form: KitchenForm, bookings: seq<ActiveBooking>, user: Id)
    requires forall k :: 0 <= k < |bookings| ==> bookings[k].id != form.bookingId
    ensures var d := OrderData(form, bookings, Some(user)).value;
      d.billingType == Separate && d.guestName == form.guestName && d.roomNumber.None?
  {
  }

  /** A stored kitchen order. The table fills in the id, the creation time,
      the pending status and `total_amount = price * quantity`. */
  datatype KitchenOrder = KitchenOrder(id: Id, data: KitchenOrderData, totalAmount: real,
                                       status: KitchenStatus, createdAt: int)

  function Stored(id: Id, data: KitchenOrderData, now: int): (o: KitchenOrder)
    ensures o.id == id && o.data == data && o.status == Pending && o.createdAt == now
    ensures o.totalAmount == data.price * data.quantity as real
  {
    KitchenOrder(id, data, data.price * data.quantity as real, Pending, now)
  }

  /** `.update({ status }).eq('id', id)` on the whole table: the kitchen
      screen's own copy of the bar screen's update, mirrored by
      `BarOrders.SetStatus` over bar orders. */
  function SetStatus(orders: seq<KitchenOrder>, id: Id, status: KitchenStatus): (r: seq<KitchenOrder>)
    ensures |r| == |orders|
    ensures forall k :: 0 <= k < |orders| ==>
      r[k] == if orders[k].id == id then orders[k].(status := status) else orders[k]
  {
    seq(|orders|, k requires 0 <= k < |orders| =>
      if orders[k].id == id then orders[k].(status := status) else orders[k])
  }

  predicate UniqueOrderIds(orders: seq<KitchenOrder>) {
    forall i, j :: 0 <= i < |orders| && 0 <= j < |orders| && orders[i].id == orders[j].id ==> i == j
  }

  /** Pressing the button of row `k` moves that order exactly one status
      forward and leaves every other order as it was. */
  lemma ButtonAdvancesOne(orders: seq<KitchenOrder>, k: int)
    requires UniqueOrderIds(orders)
    requires 0 <= k < |orders| && orders[k].status != KitchenStatus.Completed
    ensures var r := SetStatus(orders, orders[k].id, Next(orders[k].status).value);
      && Rank(r[k].status) == Rank(orders[k].status) + 1
      && r[k] == orders[k].(status := r[k].status)
      && forall m :: 0 <= m < |orders| && m != k ==> r[m] == orders[m]
  {
  }

  /** The kitchen orders table. */
  class KitchenOrderTable {
    var orders: seq<KitchenOrder>

    constructor (orders: seq<KitchenOrder>)
      ensures this.orders == orders
    {
      this.orders := orders;
    }

    /** `handleSubmit`: `newId` and `now` are what the table gives the new row,
        `insertFails` whether the insert is refused. */
    method HandleSubmit(form: KitchenForm, bookings: seq<ActiveBooking>, user: Option<Id>,
                        newId: Id, now: int, insertFails: bool)
      returns (r: Result<KitchenOrder, OrderError>)
      modifies this
      ensures user.None? ==> r == Failure(NoAuthenticatedUser) && orders == old(orders)
      ensures user.Some? && insertFails ==> r == Failure(StoreError) && orders == old(orders)
      ensures user.Some? && !insertFails ==>
        var d := OrderData(form, bookings, user).value;
        r == Success(Stored(newId, d, now)) && orders == old(orders) + [Stored(newId, d, now)]
    {
      if user.None? {
        return Failure(NoAuthenticatedUser);
      }
      var selectedBooking := FindActiveBooking(bookings, form.bookingId);
      var billingType := Separate;
      var roomNumber := "";
      var guestName := form.guestName;
      if selectedBooking.Some? {
        billingType := if selectedBooking.value.paymentStatus == Unpaid then RoomBill else Separate;
        roomNumber := selectedBooking.value.roomNumber;
        guestName := selectedBooking.value.guestName;
      }
      var data := KitchenOrderData(NullIfEmpty(form.bookingId), NullIfEmpty(roomNumber), guestName,
                                   form.foodName, form.price, form.quantity, form.notes,
                                   billingType, user.value);
      if insertFails {
        return Failure(StoreError);
      }
      var order := Stored(newId, data, now);
      orders := orders + [order];
      r := Success(order);
    }

    /** `updateOrderStatus`: a refused update leaves the table as it was. */
    method UpdateOrderStatus(orderId: Id, newStatus: KitchenStatus, updateFails: bool)
      modifies this
      ensures orders == if updateFails then old(orders) else SetStatus(old(orders), orderId, newStatus)
    {
      if !updateFails {
        orders := SetStatus(orders, orderId, newStatus);
      }
    }
  }

  // -----------------------------------------------------------------------
  // List filter
  // -----------------------------------------------------------------------

  /** `order.room_number?.toLowerCase().includes(...)`: a null room number never matches. */
  predicate RoomMatches(roomNumber: Option<string>, search: string) {
    roomNumber.Some? && MatchesSearch(roomNumber.value, search)
  }

  predicate OrderListed(o: KitchenOrder, search: string, status: Option<KitchenStatus>) {
    && (MatchesSearch(o.data.guestName, search) || MatchesSearch(o.data.foodName, search) ||
        RoomMatches(o.data.roomNumber, search))
    && (status.None? || o.status == status.value)
  }

  /** `filteredOrders`; None stands for the empty status select. */
  function FilteredOrders(orders: seq<KitchenOrder>, search: string, status: Option<KitchenStatus>)
    : (r: seq<KitchenOrder>)
    ensures SubsequenceOf(r, orders)
    ensures forall k :: 0 <= k < |orders| ==>
      (orders[k] in r <==>
        (MatchesSearch(orders[k].data.guestName, search) || MatchesSearch(orders[k].data.foodName, search) ||
         (orders[k].data.roomNumber.Some? && MatchesSearch(orders[k].data.roomNumber.value, search))) &&
        (status.None? || orders[k].status == status.value))
  {
    Filter(orders, (o: KitchenOrder) => OrderListed(o, search, status))
  }

  /** Narrowing the status filter only removes orders: what a status filter
      lists is listed with no status filter too. */
  lemma {:induction false} StatusFilterNarrows(orders: seq<KitchenOrder>, search: string, status: KitchenStatus)
    ensures forall k :: 0 <= k < |FilteredOrders(orders, search, Some(status))| ==>
      FilteredOrders(orders, search, Some(status))[k] in FilteredOrders(orders, search, None)
  {
    var narrow := FilteredOrders(orders, search, Some(status));
    var wide := FilteredOrders(orders, search, None);
    forall k | 0 <= k < |narrow|
      ensures narrow[k] in wide
    {
      var o := narrow[k];
      assert o in orders && OrderListed(o, search, Some(status));
      var m :| 0 <= m < |orders| && orders[m] == o;
      assert OrderListed(orders[m], search, None);
    }
  }
}
