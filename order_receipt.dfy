/** The restaurant order receipt: the subtotal fold over the order's items,
    VAT and total, and what the header and footer show. */
module OrderReceipt {
  import opened Common

  datatype OrderItem = OrderItem(name: string, quantity: int, unitPrice: real, notes: Option<string>)

  /** The joined booking of a room-service order: guest name and room number. */
  datatype BookingRef = BookingRef(guestName: string, roomNumber: string)

  datatype Order = Order(
    id: string,
    orderType: string,
    tableNumber: Option<string>,
    bookings: Option<BookingRef>,
    items: seq<OrderItem>)

  /** The amount shown on an item's line: `item.quantity * item.unit_price`. */
  function LineAmount(item: OrderItem): (a: real)
    ensures item.quantity >= 0 && item.unitPrice >= 0.0 ==> a >= 0.0
    ensures item.quantity == 0 || item.unitPrice == 0.0 ==> a == 0.0
  {
    item.quantity as real * item.unitPrice
  }

  predicate NonNegative(items: seq<OrderItem>) {
    forall i :: 0 <= i < |items| ==> items[i].quantity >= 0 && items[i].unitPrice >= 0.0
  }

  /** `order_items.reduce((sum, item) => sum + item.quantity * item.unit_price, 0)`:
      a left fold, so the last item is added last. */
  function Subtotal(items: seq<OrderItem>): (s: real)
    ensures items == [] ==> s == 0.0
    ensures NonNegative(items) ==> s >= 0.0
    decreases |items|
  {
    if items == [] then 0.0
    else Subtotal(items[..|items| - 1]) + LineAmount(items[|items| - 1])
  }

  /** The subtotal of two item lists put together is the sum of their subtotals. */
  lemma {:induction false} SubtotalAppend(a: seq<OrderItem>, b: seq<OrderItem>)
    ensures Subtotal(a + b) == Subtotal(a) + Subtotal(b)
    decreases |b|
  {
    if b == [] {
      assert a + b == a;
    } else {
      var b' := b[..|b| - 1];
      assert (a + b)[..|a + b| - 1] == a + b';
      assert (a + b)[|a + b| - 1] == b[|b| - 1];
      SubtotalAppend(a, b');
    }
  }

  /** One item's subtotal is its line amount. */
  lemma SubtotalSingle(item: OrderItem)
    ensures Subtotal([item]) == LineAmount(item)
  {
    assert [item][..0] == [];
  }

  /** The subtotal is the sum of the amounts shown on the lines, added from
      the first item: `Subtotal` agrees with a fold taken the other way round. */
  function SumFromFront(items: seq<OrderItem>): real
    decreases |items|
  {
    if items == [] then 0.0 else LineAmount(items[0]) + SumFromFront(items[1..])
  }

  lemma {:induction false} SubtotalIsSumFromFront(items: seq<OrderItem>)
    ensures Subtotal(items) == SumFromFront(items)
    decreases |items|
  {
    if items != [] {
      SubtotalIsSumFromFront(items[1..]);
      SubtotalAppend([items[0]], items[1..]);
      assert [items[0]] + items[1..] == items;
      SubtotalSingle(items[0]);
    }
  }

  /** `showPaid = true` as a default parameter: only an explicit `false` hides the marker. */
  function ShowsPaid(showPaid: Option<bool>): (shown: bool)
    ensures shown <==> showPaid != Some(false)
  {
    match showPaid
    case None => true
    case Some(b) => b
  }

  /** `order.id.slice(0, 8)`. */
  function ShortId(id: string): (r: string)
    ensures |r| == if |id| < 8 then |id| else 8
    ensures IsPrefix(r, id)
  {
    if |id| < 8 then id else id[..8]
  }

  /** `s.indexOf(c)`: the first position holding `c`, None for -1. */
  function IndexOf(s: string, c: char): (r: Option<nat>)
    ensures r.None? <==> c !in s
    ensures r.Some? ==> r.value < |s| && s[r.value] == c && forall j :: 0 <= j < r.value ==> s[j] != c
    decreases |s|
  {
    if s == [] then None
    else if s[0] == c then Some(0)
    else match IndexOf(s[1..], c)
      case None => None
      case Some(i) => Some(i + 1)
  }

  /** `s.replace(from, to)` with a one-character string pattern: only the
      first occurrence is replaced. */
  function ReplaceFirst(s: string, from: char, to: char): (r: string)
    ensures |r| == |s|
    ensures from !in s ==> r == s
    ensures from in s ==> exists i :: 0 <= i < |s| && s[i] == from &&
                                     (forall j :: 0 <= j < i ==> s[j] != from) &&
                                     r == s[..i] + [to] + s[i + 1..]
  {
    match IndexOf(s, from)
    case None => s
    case Some(i) => s[..i] + [to] + s[i + 1..]
  }

  /** With no `c` in `w`, the first `c` after `w` is the one replaced and any
      later `c` in `t` stays: "dine_in_late" prints as "dine in_late". */
  lemma {:induction false} ReplaceFirstAfter(w: string, t: string, c: char, d: char)
    requires c !in w
    ensures ReplaceFirst(w + [c] + t, c, d) == w + [d] + t
  {
    var s := w + [c] + t;
    assert s[|w|] == c;
    assert forall j :: 0 <= j < |w| ==> s[j] == w[j];
    assert IndexOf(s, c) == Some(|w|);
    assert s[..|w|] == w;
    assert s[|w| + 1..] == t;
  }

  /** One item line as printed. */
  datatype LineView = LineView(name: string, note: Option<string>, quantity: int, amount: real)

  /** What the receipt shows, with dates and number formatting left out. */
  datatype ReceiptView = ReceiptView(
    shortId: string,
    typeText: string,
    placeLabel: string,
    placeValue: Option<string>,
    guestLine: Option<string>,
    lines: seq<LineView>,
    subtotal: real,
    tax: real,
    total: real,
    paidMarker: bool)

  function RenderLine(item: OrderItem): (v: LineView)
    ensures v.name == item.name && v.quantity == item.quantity && v.amount == LineAmount(item)
    ensures v.note.Some? <==> item.notes.Some? && item.notes.value != ""
    ensures v.note.Some? ==> v.note.value == item.notes.value
  {
    LineView(item.name, NoteLine(item.notes), item.quantity, LineAmount(item))
  }

  function SumLines(lines: seq<LineView>): real
    decreases |lines|
  {
    if lines == [] then 0.0 else lines[0].amount + SumLines(lines[1..])
  }

  /** The receipt of `o`, with `showPaid` None when the caller leaves it out. */
  function Render(o: Order, showPaid: Option<bool>): (v: ReceiptView)
    ensures v.subtotal == Subtotal(o.items)
    ensures v.tax * 40.0 == v.subtotal * 3.0
    ensures v.total == v.subtotal + v.tax && v.total == v.subtotal * 1.075
    ensures NonNegative(o.items) ==> v.total >= v.subtotal >= 0.0
    ensures |v.lines| == |o.items| &&
            forall i :: 0 <= i < |o.items| ==> v.lines[i].amount == LineAmount(o.items[i])
    ensures forall i :: 0 <= i < |o.items| ==> v.lines[i] == RenderLine(o.items[i])
    ensures o.bookings.Some? ==> v.placeLabel == "Room" && v.placeValue == Some(o.bookings.value.roomNumber)
    ensures o.bookings.None? ==> v.placeLabel == "Table" && v.placeValue == o.tableNumber
    ensures v.guestLine.Some? <==> o.bookings.Some?
    ensures v.guestLine.Some? ==> v.guestLine.value == o.bookings.value.guestName
    ensures v.paidMarker <==> showPaid != Some(false)
    ensures v.shortId == ShortId(o.id) && v.typeText == ReplaceFirst(o.orderType, '_', ' ')
  {
    var subtotal := Subtotal(o.items);
    ReceiptView(
      ShortId(o.id),
      ReplaceFirst(o.orderType, '_', ' '),
      if o.bookings.Some? then "Room" else "Table",
      if o.bookings.Some? then Some(o.bookings.value.roomNumber) else o.tableNumber,
      if o.bookings.Some? then Some(o.bookings.value.guestName) else None,
      seq(|o.items|, i requires 0 <= i < |o.items| => RenderLine(o.items[i])),
      subtotal,
      Vat(subtotal),
      WithVat(subtotal),
      ShowsPaid(showPaid))
  }

  /** The subtotal printed is the sum of the amounts printed on the lines. */
  lemma {:induction false} SubtotalMatchesLines(o: Order, showPaid: Option<bool>)
    ensures Render(o, showPaid).subtotal == SumLines(Render(o, showPaid).lines)
  {
    SubtotalIsSumFromFront(o.items);
    LinesSum(o.items, Render(o, showPaid).lines);
  }

  lemma {:induction false} LinesSum(items: seq<OrderItem>, lines: seq<LineView>)
    requires |lines| == |items|
    requires forall i :: 0 <= i < |items| ==> lines[i].amount == LineAmount(items[i])
    ensures SumLines(lines) == SumFromFront(items)
    decreases |items|
  {
    if items != [] {
      LinesSum(items[1..], lines[1..]);
    }
  }

  /** Three of an item at 1,500: subtotal 4,500, VAT 337.5, total 4,837.5. */
  lemma ScenarioReceipt()
    ensures var v := Render(Order("3f2a9c1e-77", "room_service", None, Some(BookingRef("Ada", "204")),
                                  [OrderItem("Jollof rice", 3, 1500.0, None)]), None);
      v.subtotal == 4500.0 && v.tax == 337.5 && v.total == 4837.5 &&
      v.shortId == "3f2a9c1e" && v.placeLabel == "Room" && v.paidMarker
  {
    SubtotalSingle(OrderItem("Jollof rice", 3, 1500.0, None));
  }
}
