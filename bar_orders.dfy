/** The bar orders screen: how a new order resolves its guest, room and
    billing, the one-step-forward status buttons, whether a customer receipt
    is printed, and the list filter. */
module BarOrders {
  import opened Common
  import opened Hotel
  import BarReceipt

  // -----------------------------------------------------------------------
  // Status buttons
  // -----------------------------------------------------------------------

  datatype BarStatus = Pending | Preparing | Ready | Served | Completed

  /** Position of a status in the order's life. */
  function Rank(s: BarStatus): (n: nat)
    ensures n <= 4
    ensures n == 0 <==> s == Pending
    ensures n == 4 <==> s == BarStatus.Completed
  {
    match s
    case Pending => 0
    case Preparing => 1
    case Ready => 2
    case Served => 3
    case Completed => 4
  }

  /** The status the one action button of a row moves it to; a completed
      order shows no button. */
  function Next(s: BarStatus): (r: Option<BarStatus>)
    ensures r.None? <==> s == BarStatus.Completed
    ensures r.Some? ==> Rank(r.value) == Rank(s) + 1
  {
    match s
    case Pending => Some(Preparing)
    case Preparing => Some(Ready)
    case Ready => Some(Served)
    case Served => Some(BarStatus.Completed)
    case Completed => None
  }

  /** The statuses an order passes through from `s` by pressing the button
      until none is left. */
  function Lifecycle(s: BarStatus): (p: seq<BarStatus>)
    ensures |p| == 5 - Rank(s) && p[0] == s && p[|p| - 1] == BarStatus.Completed
    ensures forall i :: 0 <= i < |p| - 1 ==> Next(p[i]) == Some(p[i + 1])
    decreases 4 - Rank(s)
  {
    match Next(s)
    case None => [s]
    case Some(t) => [s] + Lifecycle(t)
  }

  /** The only path offered: pending, preparing, ready, served, completed. */
  lemma FullLifecycle()
    ensures Lifecycle(Pending) == [Pending, Preparing, Ready, Served, BarStatus.Completed]
  {
  }

  /** A status shows up at most once along the buttons' path: no button leads back. */
  lemma {:induction false} LifecycleNoRepeat(s: BarStatus, i: int, j: int)
    requires 0 <= i < j < |Lifecycle(s)|
    ensures Lifecycle(s)[i] != Lifecycle(s)[j]
    ensures Rank(Lifecycle(s)[j]) == Rank(s) + j
    decreases 4 - Rank(s)
  {
    var p := Lifecycle(s);
    var t := Next(s).value;
    assert p[1..] == Lifecycle(t);
    if i == 0 {
      if j > 1 {
        LifecycleNoRepeat(t, 0, j - 1);
      }
    } else {
      LifecycleNoRepeat(t, i - 1, j - 1);
    }
  }

  // -----------------------------------------------------------------------
  // Creating an order
  // -----------------------------------------------------------------------

  /** A drink as loaded: only available drinks are offered. */
  datatype Drink = Drink(id: Id, name: string, price: real)

  /** `drinks.find(d => d.id === id)`. */
  function FindDrink(drinks: seq<Drink>, id: Id): Option<Drink> {
    Find(drinks, (d: Drink) => d.id == id)
  }

  /** The order form. `bookingId` is "" until a lodged guest is picked. */
  datatype BarForm = BarForm(bookingId: string, guestName: string, guestType: GuestType,
                             drinkId: Id, quantity: int, notes: string)

  /** The row `handleSubmit` sends to the bar orders table. */
  datatype BarOrderData = BarOrderData(
    bookingId: Option<Id>,
    roomNumber: Option<string>,
    guestName: string,
    guestType: GuestType,
    drinkId: Id,
    quantity: int,
    unitPrice: real,
    notes: string,
    billingType: BillingType,
    createdBy: Id)

  datatype OrderError = NoAuthenticatedUser | NoDrinkSelected | StoreError

  /** The toast of each refusal: the thrown text, and for a store error the
      fallback text shown when the store's error has no message. Each text
      belongs to exactly one refusal. */
  function Message(e: OrderError): (m: string)
    ensures m == "No authenticated user found" <==> e == NoAuthenticatedUser
    ensures m == "Please select a drink" <==> e == NoDrinkSelected
    ensures m == "Error creating bar order" <==> e == StoreError
  {
    match e
    case NoAuthenticatedUser => "No authenticated user found"
    case NoDrinkSelected => "Please select a drink"
    case StoreError => "Error creating bar order"
  }

  /** The order row a submitted form produces, or the error it is refused with. */
  function OrderData(form: BarForm, drinks: seq<Drink>, bookings: seq<ActiveBooking>, user: Option<Id>)
    : (r: Result<BarOrderData, OrderError>)
    ensures user.None? ==> r == Failure(NoAuthenticatedUser)
    ensures user.Some? && (forall k :: 0 <= k < |drinks| ==> drinks[k].id != form.drinkId) ==>
      r == Failure(NoDrinkSelected)
    ensures r.Success? <==> user.Some? && exists k :: 0 <= k < |drinks| && drinks[k].id == form.drinkId
    ensures r.Success? ==>
      var found := FindActiveBooking(bookings, form.bookingId);
      var d := r.value;
      && (d.billingType == RoomBill <==>
            form.guestType == Lodged && found.Some? && found.value.paymentStatus == Unpaid)
      && (form.guestType == Lodged && found.Some? ==>
            d.guestName == found.value.guestName && d.roomNumber == NullIfEmpty(found.value.roomNumber))
      && (!(form.guestType == Lodged && found.Some?) ==>
            d.guestName == form.guestName && d.roomNumber.None?)
      && d.bookingId == NullIfEmpty(form.bookingId)
      && d.unitPrice == FindDrink(drinks, form.drinkId).value.price
      && d.guestType == form.guestType && d.drinkId == form.drinkId
      && d.quantity == form.quantity && d.notes == form.notes && d.createdBy == user.value
  {
    if user.None? then Failure(NoAuthenticatedUser)
    else
      var drink := FindDrink(drinks, form.drinkId);
      var booking := FindActiveBooking(bookings, form.bookingId);
      if drink.None? then Failure(NoDrinkSelected)
      else
        var resolved := form.guestType == Lodged && booking.Some?;
        var billing := if resolved && booking.value.paymentStatus == Unpaid then RoomBill else Separate;
        var roomNumber := if resolved then booking.value.roomNumber else "";
        var guestName := if resolved then booking.value.guestName else form.guestName;
        Success(BarOrderData(NullIfEmpty(form.bookingId), NullIfEmpty(roomNumber), guestName,
                             form.guestType, form.drinkId, form.quantity, drink.value.price,
                             form.notes, billing, user.value))
  }

  /** A walk-in customer is always billed separately, whatever booking id the form holds. */
  lemma WalkInBilledSeparately(form: BarForm, drinks: seq<Drink>, bookings: seq<ActiveBooking>, user: Option<Id>)
    requires form.guestType == WalkIn
    requires OrderData(form, drinks, bookings, user).Success?
    ensures OrderData(form, drinks, bookings, user).value.billingType == Separate
    ensures OrderData(form, drinks, bookings, user).value.roomNumber.None?
  {
  }

  /** `formData.guest_type === 'walk_in' || billingType === 'separate'`. */
  predicate PrintsCustomerReceipt(guestType: GuestType, billing: BillingType) {
    guestType == WalkIn || billing == Separate
  }

  /** Since walk-in orders are always separate, a customer receipt is printed
      exactly when the order is not put on the room bill. */
  lemma ReceiptIffSeparate(form: BarForm, drinks: seq<Drink>, bookings: seq<ActiveBooking>, user: Option<Id>)
    requires OrderData(form, drinks, bookings, user).Success?
    ensures var d := OrderData(form, drinks, bookings, user).value;
      PrintsCustomerReceipt(form.guestType, d.billingType) <==> d.billingType == Separate
  {
  }

  /** A stored bar order. The table fills in the id, the creation time, the
      pending status and `total_amount = unit_price * quantity`. */
  datatype BarOrder = BarOrder(id: Id, data: BarOrderData, totalAmount: real, status: BarStatus, createdAt: int)

  function Stored(id: Id, data: BarOrderData, now: int): (o: BarOrder)
    ensures o.id == id && o.data == data && o.status == Pending && o.createdAt == now
    ensures o.totalAmount == data.unitPrice * data.quantity as real
  {
    BarOrder(id, data, data.unitPrice * data.quantity as real, Pending, now)
  }

  /** `.update({ status }).eq('id', id)` on the whole table. */
  function SetStatus(orders: seq<BarOrder>, id: Id, status: BarStatus): (r: seq<BarOrder>)
    ensures |r| == |orders|
    ensures forall k :: 0 <= k < |orders| ==>
      r[k] == if orders[k].id == id then orders[k].(status := status) else orders[k]
  {
    seq(|orders|, k requires 0 <= k < |orders| =>
      if orders[k].id == id then orders[k].(status := status) else orders[k])
  }

  predicate UniqueOrderIds(orders: seq<BarOrder>) {
    forall i, j :: 0 <= i < |orders| && 0 <= j < |orders| && orders[i].id == orders[j].id ==> i == j
  }

  /** Pressing the button of row `k` moves that order exactly one status
      forward and leaves every other order as it was. */
  lemma ButtonAdvancesOne(orders: seq<BarOrder>, k: int)
    requires UniqueOrderIds(orders)
    requires 0 <= k < |orders| && orders[k].status != BarStatus.Completed
    ensures var r := SetStatus(orders, orders[k].id, Next(orders[k].status).value);
      && Rank(r[k].status) == Rank(orders[k].status) + 1
      && r[k] == orders[k].(status := r[k].status)
      && forall m :: 0 <= m < |orders| && m != k ==> r[m] == orders[m]
  {
  }

  /** The bar orders table. */
  class BarOrderTable {
    var orders: seq<BarOrder>

    constructor (orders: seq<BarOrder>)
      ensures this.orders == orders
    {
      this.orders := orders;
    }

    /** `handleSubmit`: `newId` and `now` are what the table gives the new row,
        `insertFails` whether the insert is refused. `receipt` is the
        customer receipt printed after the bar ticket, if any, rendered from
        the submitted form. */
    method HandleSubmit(form: BarForm, drinks: seq<Drink>, bookings: seq<ActiveBooking>, user: Option<Id>,
                        newId: Id, now: int, insertFails: bool)
      returns (r: Result<BarOrder, OrderError>, receipt: Option<BarReceipt.ReceiptOrder>)
      modifies this
      ensures OrderData(form, drinks, bookings, user).Failure? ==>
        r == Failure(OrderData(form, drinks, bookings, user).error) && orders == old(orders) && receipt.None?
      ensures OrderData(form, drinks, bookings, user).Success? && insertFails ==>
        r == Failure(StoreError) && orders == old(orders) && receipt.None?
      ensures OrderData(form, drinks, bookings, user).Success? && !insertFails ==>
        var d := OrderData(form, drinks, bookings, user).value;
        && r == Success(Stored(newId, d, now))
        && orders == old(orders) + [Stored(newId, d, now)]
        && (receipt.Some? <==> PrintsCustomerReceipt(form.guestType, d.billingType))
        && (receipt.Some? ==> receipt.value == FormReceipt(form, drinks))
    {
      if user.None? {
        return Failure(NoAuthenticatedUser), None;
      }
      var selectedDrink := FindDrink(drinks, form.drinkId);
      var selectedBooking := FindActiveBooking(bookings, form.bookingId);
      if selectedDrink.None? {
        return Failure(NoDrinkSelected), None;
      }
      var billingType := Separate;
      var roomNumber := "";
      var guestName := form.guestName;
      if form.guestType == Lodged && selectedBooking.Some? {
        billingType := if selectedBooking.value.paymentStatus == Unpaid then RoomBill else Separate;
        roomNumber := selectedBooking.value.roomNumber;
        guestName := selectedBooking.value.guestName;
      }
      var data := BarOrderData(NullIfEmpty(form.bookingId), NullIfEmpty(roomNumber), guestName,
                               form.guestType, form.drinkId, form.quantity, selectedDrink.value.price,
                               form.notes, billingType, user.value);
      if insertFails {
        return Failure(StoreError), None;
      }
      var order := Stored(newId, data, now);
      orders := orders + [order];
      receipt := if form.guestType == WalkIn || billingType == Separate then Some(FormReceipt(form, drinks)) else None;
      r := Success(order);
    }

    /** `updateOrderStatus`: a refused update leaves the table as it was. */
    method UpdateOrderStatus(orderId: Id, newStatus: BarStatus, updateFails: bool)
      modifies this
      ensures orders == if updateFails then old(orders) else SetStatus(old(orders), orderId, newStatus)
    {
      if !updateFails {
        orders := SetStatus(orders, orderId, newStatus);
      }
    }
  }

  // -----------------------------------------------------------------------
  // Customer receipt of a new order
  // -----------------------------------------------------------------------

  /** The order the customer receipt is printed from, built from the form:
      the drink's name and price, or "" and 0 when no loaded drink matches. */
  function FormReceipt(form: BarForm, drinks: seq<Drink>): (o: BarReceipt.ReceiptOrder)
    ensures o.totalAmount == o.unitPrice * form.quantity as real
    ensures FindDrink(drinks, form.drinkId).None? ==> o.unitPrice == 0.0 && o.totalAmount == 0.0 && o.drinkName == ""
    ensures FindDrink(drinks, form.drinkId).Some? ==>
      o.unitPrice == FindDrink(drinks, form.drinkId).value.price &&
      o.drinkName == FindDrink(drinks, form.drinkId).value.name
    ensures o.guestName == form.guestName && o.guestType == form.guestType && o.quantity == form.quantity
  {
    var drink := FindDrink(drinks, form.drinkId);
    var price := if drink.Some? then drink.value.price else 0.0;
    var name := if drink.Some? then drink.value.name else "";
    BarReceipt.ReceiptOrder("NEW-ORDER", form.guestName, form.guestType, name, price, form.quantity,
                            price * form.quantity as real, Some(form.notes))
  }

  /** The receipt printed for a new order charges the stored unit price times
      the quantity, plus 7.5 % VAT. */
  lemma ReceiptChargesOrder(form: BarForm, drinks: seq<Drink>, bookings: seq<ActiveBooking>, user: Option<Id>)
    requires OrderData(form, drinks, bookings, user).Success?
    ensures var d := OrderData(form, drinks, bookings, user).value;
      var v := BarReceipt.Render(FormReceipt(form, drinks));
      v.subtotal == d.unitPrice * d.quantity as real && v.total == d.unitPrice * d.quantity as real * 1.075
  {
  }

  /** The form as `handleSubmit` leaves it: `setFormData` resets every field. */
  const ResetForm: BarForm := BarForm("", "", WalkIn, "", 1, "")

  /** The receipt as the source prints it: the print runs one second after
      the form has been reset, so it renders the reset form, not the order. */
  function DelayedReceipt(drinks: seq<Drink>): BarReceipt.ReceiptView {
    BarReceipt.Render(FormReceipt(ResetForm, drinks))
  }

  /** The delayed receipt charges nothing and names nobody, whatever was
      ordered, while the stored order costs its unit price times the quantity. */
  lemma DelayedReceiptChargesNothing(form: BarForm, drinks: seq<Drink>, bookings: seq<ActiveBooking>,
                                     user: Option<Id>)
    requires forall k :: 0 <= k < |drinks| ==> drinks[k].id != ""
    requires OrderData(form, drinks, bookings, user).Success?
    ensures var v := DelayedReceipt(drinks);
      v.subtotal == 0.0 && v.total == 0.0 && v.customer == "" && v.quantity == 1 && v.item == ""
    ensures var d := OrderData(form, drinks, bookings, user).value;
      d.unitPrice > 0.0 && d.quantity > 0 ==> d.unitPrice * d.quantity as real != DelayedReceipt(drinks).subtotal
  {
    var d := OrderData(form, drinks, bookings, user).value;
    if d.unitPrice > 0.0 && d.quantity > 0 {
      assert d.unitPrice * d.quantity as real > 0.0;
    }
  }

  /** The receipt names the customer from the form, not from the booking: a
      lodged guest's receipt does not show the name stored on the order. */
  lemma LodgedReceiptUsesFormName()
    ensures var form := BarForm("b1", "", Lodged, "d1", 2, "");
      var drinks := [Drink("d1", "Chapman", 1500.0)];
      var bookings := [ActiveBooking("b1", Paid, "Ada Obi", "204")];
      OrderData(form, drinks, bookings, Some("u1")).value.guestName == "Ada Obi" &&
      PrintsCustomerReceipt(form.guestType, OrderData(form, drinks, bookings, Some("u1")).value.billingType) &&
      BarReceipt.Render(FormReceipt(form, drinks)).customer == ""
  {
  }

  // -----------------------------------------------------------------------
  // List filter
  // -----------------------------------------------------------------------

  /** A listed order with the name of its joined drink. */
  datatype BarOrderRow = BarOrderRow(order: BarOrder, drinkName: string)

  /** `order.room_number?.toLowerCase().includes(...)`: a null room number never matches. */
  predicate RoomMatches(roomNumber: Option<string>, search: string) {
    roomNumber.Some? && MatchesSearch(roomNumber.value, search)
  }

  predicate OrderListed(row: BarOrderRow, search: string, status: Option<BarStatus>, guestType: Option<GuestType>) {
    && (MatchesSearch(row.order.data.guestName, search) || MatchesSearch(row.drinkName, search) ||
        RoomMatches(row.order.data.roomNumber, search))
    && (status.None? || row.order.status == status.value)
    && (guestType.None? || row.order.data.guestType == guestType.value)
  }

  /** `filteredOrders`; None stands for an empty filter select. */
  function FilteredOrders(rows: seq<BarOrderRow>, search: string, status: Option<BarStatus>, guestType: Option<GuestType>)
    : (r: seq<BarOrderRow>)
    ensures SubsequenceOf(r, rows)
    ensures forall k :: 0 <= k < |rows| ==>
      (rows[k] in r <==>
        (MatchesSearch(rows[k].order.data.guestName, search) || MatchesSearch(rows[k].drinkName, search) ||
         (rows[k].order.data.roomNumber.Some? && MatchesSearch(rows[k].order.data.roomNumber.value, search))) &&
        (status.None? || rows[k].order.status == status.value) &&
        (guestType.None? || rows[k].order.data.guestType == guestType.value))
  {
    Filter(rows, (row: BarOrderRow) => OrderListed(row, search, status, guestType))
  }

  /** With no search and no filter every order is listed. */
  lemma {:induction false} UnfilteredListsAll(rows: seq<BarOrderRow>)
    ensures FilteredOrders(rows, "", None, None) == rows
  {
    forall k | 0 <= k < |rows|
      ensures OrderListed(rows[k], "", None, None)
    {
      EmptySearchMatches(rows[k].order.data.guestName);
    }
    FilterAll(rows, (row: BarOrderRow) => OrderListed(row, "", None, None));
  }
}
