/** The bar receipt: one drink line, its VAT and grand total, and the labels. */
module BarReceipt {
  import opened Common
  import opened Hotel

  /** The `order` the receipt is given. */
  datatype ReceiptOrder = ReceiptOrder(
    id: string,
    guestName: string,
    guestType: GuestType,
    drinkName: string,
    unitPrice: real,
    quantity: int,
    totalAmount: real,
    notes: Option<string>)

  /** What the receipt shows, with dates and number formatting left out. */
  datatype ReceiptView = ReceiptView(
    receiptId: string,
    customer: string,
    typeLabel: string,
    item: string,
    noteLine: Option<string>,
    quantity: int,
    price: real,
    lineTotal: real,
    subtotal: real,
    vat: real,
    total: real,
    paidMarker: bool)

  function TypeLabel(t: GuestType): (text: string)
    ensures text == "Lodged Guest" <==> t == Lodged
    ensures text == "Walk-in Customer" <==> t == WalkIn
  {
    match t
    case Lodged => assert "Lodged Guest"[0] != "Walk-in Customer"[0]; "Lodged Guest"
    case WalkIn => assert "Lodged Guest"[0] != "Walk-in Customer"[0]; "Walk-in Customer"
  }

  /** The receipt of `o`. The line total and the subtotal are the order's
      `total_amount` as given; the unit price is shown beside it unchecked. */
  function Render(o: ReceiptOrder): (v: ReceiptView)
    ensures v.lineTotal == o.totalAmount && v.subtotal == o.totalAmount
    ensures v.vat * 40.0 == o.totalAmount * 3.0
    ensures v.total == o.totalAmount + v.vat && v.total == o.totalAmount * 1.075
    ensures o.totalAmount >= 0.0 ==> v.total >= o.totalAmount
    ensures v.paidMarker
    ensures v.typeLabel == "Lodged Guest" <==> o.guestType == Lodged
    ensures v.typeLabel == "Walk-in Customer" <==> o.guestType == WalkIn
    ensures v.noteLine.Some? <==> o.notes.Some? && o.notes.value != ""
    ensures v.noteLine.Some? ==> v.noteLine.value == o.notes.value
    ensures v.receiptId == o.id && v.customer == o.guestName && v.item == o.drinkName
    ensures v.quantity == o.quantity && v.price == o.unitPrice
  {
    ReceiptView(o.id, o.guestName, TypeLabel(o.guestType), o.drinkName, NoteLine(o.notes),
                o.quantity, o.unitPrice, o.totalAmount, o.totalAmount,
                Vat(o.totalAmount), WithVat(o.totalAmount), true)
  }

  /** 1,500 x 3 = 4,500: VAT 337.5 and total 4,837.5. */
  lemma ScenarioReceipt()
    ensures var v := Render(ReceiptOrder("NEW-ORDER", "Ada", WalkIn, "Chapman", 1500.0, 3, 4500.0, Some("")));
      v.vat == 337.5 && v.total == 4837.5 && v.typeLabel == "Walk-in Customer" && v.noteLine.None?
  {
  }
}
