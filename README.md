# Hotel front desk: a Dafny model

This project models the core of a small hotel front-desk application. Staff use it to:

- manage rooms and guests;
- book guests into rooms;
- take kitchen and bar orders, which go on a guest's room bill or are paid separately;
- print receipts;
- read a dashboard and a date-range report.

A periodic auto-checkout sweep closes bookings whose check-out time has passed and frees their rooms.

All data lives in a hosted store. In the model, the store's tables are sequences of rows:

- the `Hotel.Store` class holds the rooms and bookings tables;
- `BarOrders.BarOrderTable` holds the bar orders;
- `KitchenOrders.KitchenOrderTable` holds the kitchen orders.

Every store call that can fail takes a boolean parameter saying whether it fails on this run. The signed-in user, the clock and the ids the store assigns are also parameters.

Modules, one per source file of the core, plus two shared ones:

| module | file | models |
|---|---|---|
| `Common` | common.dfy | Option/Result; ASCII lower-casing; `includes`; JavaScript's `filter`, `find` and `filter(...).length`; the receipt note rule; join/split; the 7.5 % VAT; decimal digits |
| `Hotel` | hotel.dfy | rooms, bookings and their enums; lookups by id; bulk status update; the `Store` class |
| `AutoCheckout` | auto_checkout.dfy | `checkAndUpdateRoomStatus` |
| `Bookings` | bookings.dfy | pricing, the save sequence, the list filter and the edit form of the bookings screen |
| `BarOrders` | bar_orders.dfy | the bar screen's order creation, status buttons, receipt decision and list filter |
| `KitchenOrders` | kitchen_orders.dfy | the same for the kitchen screen |
| `Reports` | reports.dfy | the range query, stats, revenue by room type, daily occupancy and the CSV export |
| `Dashboard` | dashboard.dfy | the card figures, the occupancy-rate card and the five newest bookings |
| `Rooms` | rooms.dfy | the five-way room filter, form values and save |
| `Guests` | guests.dfy | the name/email/phone search, edit-form defaults and save |
| `OrderReceipt` | order_receipt.dfy | the restaurant receipt |
| `BarReceipt` | bar_receipt.dfy | the bar receipt |

Conventions:

- Money is an exact `real`.
- Timestamps are whole milliseconds since the epoch.
- A calendar day is `t / 86400000` (UTC).
- Strings are `seq<char>`.

## Model

| member | source | states |
|---|---|---|
| `Common.NullIfEmpty` | src/pages/BarOrders.tsx:188-189 | the null default: None exactly for the empty string, otherwise the string itself |
| `Common.LengthOrZero` | src/pages/Dashboard.tsx:35 | `rows?.length`, defaulting to 0: 0 for a missing result, else its length |
| `Common.Lower` | src/pages/Rooms.tsx:59 | `toLowerCase` (ASCII): same length, each upper-case letter mapped to its lower case, every other character kept |
| `Common.MatchesSearchIgnoresCase` | src/pages/Guests.tsx:51-55 | a search matches regardless of the letter case of the field or of the search |
| `Common.EmptySearchMatches` | src/pages/Rooms.tsx:59 | the empty search matches every field |
| `Common.ContainsAt` | src/pages/Rooms.tsx:59 | `includes` holds exactly when the search occurs at some position of the field |
| `Common.Filter` | src/pages/Rooms.tsx:58 | `filter`: keeps exactly the elements meeting the predicate, each as many times as it occurs, as an order-preserving subsequence |
| `Common.Find` | src/pages/Bookings.tsx:141 | `find`: None iff no element meets the predicate, otherwise the first element that does; rooms, drinks and active bookings are looked up by id through it |
| `Common.NoteLine` | src/components/OrderReceipt.tsx:98-102 | both receipts print a note only when it is present and non-empty, and then print it as stored |
| `Common.Count` | src/pages/Reports.tsx:62-64 | `filter(...).length`: the number of positions whose element meets the predicate, at most the length |
| `Common.CountAppend` | src/pages/Reports.tsx:108-112 | counting over two lists put together adds the counts |
| `Common.Vat` | src/components/OrderReceipt.tsx:36 | `amount * 0.075`: tax × 40 = amount × 3 |
| `Common.WithVat` | src/components/OrderReceipt.tsx:37 | `amount + tax` = amount × 1.075, and at least the amount when the amount is non-negative |
| `Common.NatToStringValue` | src/pages/Reports.tsx:140-141 | the decimal text of a count reads back as that count |
| `Common.SplitJoin` | src/pages/Reports.tsx:145-148 | splitting a separator-joined list of separator-free parts gives the parts back |
| `Hotel.Day` | src/pages/Reports.tsx:107-110 | the calendar day of a timestamp: its day start is at most the timestamp and less than a day before it |
| `Hotel.AmountOrZero` | src/pages/Reports.tsx:65 | `total_amount`, defaulting to 0: the amount when present, 0 otherwise |
| `Hotel.SetRoomStatus` | src/lib/autoCheckout.ts:25-28 | `.update({status}).in('id', ids)`: rows whose id is in the set get the status, every other row and column is kept |
| `Hotel.Store.constructor` | src/lib/autoCheckout.ts:7-30 | the rooms and bookings tables the writes act on |
| `AutoCheckout.SelectExpired` | src/lib/autoCheckout.ts:7-11 | the rows returned are exactly the bookings that are active and whose check-out is at or before now |
| `AutoCheckout.CompleteBookings` | src/lib/autoCheckout.ts:17-20 | rows whose id was selected become completed; everything else is kept |
| `AutoCheckout.SelectExpiredRows` | src/lib/autoCheckout.ts:7-11 | the scanning loop returns exactly the selected rows, in table order |
| `AutoCheckout.CompleteRows` | src/lib/autoCheckout.ts:17-22 | the row-by-row booking update leaves the table equal to the bulk update |
| `AutoCheckout.FreeRoomRows` | src/lib/autoCheckout.ts:25-30 | the row-by-row room update leaves the table equal to the bulk update to available |
| `AutoCheckout.CheckAndUpdateRoomStatus` | src/lib/autoCheckout.ts:3-35 | each call's failure is the early exit that leaves later tables untouched, and nothing is raised: the new tables and the log are those of `Sweep` |
| `AutoCheckout.SelectedIff` | src/lib/autoCheckout.ts:10-11 | with unique ids, a booking's id is completed iff the booking is active and due |
| `AutoCheckout.SweepCompletesExpired` | src/lib/autoCheckout.ts:17-22 | after a successful booking update every due booking is completed, with only its status changed |
| `AutoCheckout.SweepFreesRooms` | src/lib/autoCheckout.ts:25-28 | after a successful sweep every room of a due booking is available, whatever other active bookings still point at it |
| `AutoCheckout.SweepFrame` | src/lib/autoCheckout.ts:17-28 | only status columns change; bookings not due and rooms of no due booking are unchanged |
| `AutoCheckout.NothingDueNoChange` | src/lib/autoCheckout.ts:15 | with nothing due no table is written |
| `AutoCheckout.PartialFailure` | src/lib/autoCheckout.ts:22-34 | a failed booking update leaves both tables; a failed room update leaves the bookings completed and the rooms untouched |
| `AutoCheckout.SweepIdempotent` | src/lib/autoCheckout.ts:7-31 | a second sweep at the same time finds nothing due and changes nothing |
| `AutoCheckout.RoomFreedUnderStillActiveBooking` | src/lib/autoCheckout.ts:25-28 | concrete case: a room is freed while a second active booking of it is still running |
| `Bookings.CeilDiv` | src/pages/Bookings.tsx:146 | `Math.ceil(a / b)`: the least whole q with a ≤ q·b |
| `Bookings.Nights` | src/pages/Bookings.tsx:144-146 | the nights are the number of started 24-hour periods between the two instants |
| `Bookings.CalculateTotalAmount` | src/pages/Bookings.tsx:140-149 | 0 when no loaded room has the id, else the first such room's rate times the nights |
| `Bookings.LoadedRooms` | src/pages/Bookings.tsx:103-115 | the screen loads exactly the available rooms |
| `Bookings.SameInstantIsFree` | src/pages/Bookings.tsx:146-148 | the same check-in and check-out cost nothing |
| `Bookings.ReversedDatesNonPositive` | src/pages/Bookings.tsx:144-148 | no date check: reversed dates give a non-positive number of nights and total |
| `Bookings.PartialDayIsOneNight` | src/pages/Bookings.tsx:146 | any part of a day is charged as a whole night |
| `Bookings.TwoNightScenario` | src/pages/Bookings.tsx:140-149 | 2024-01-01 to 2024-01-03 at 20,000 costs 40,000 |
| `Bookings.UnavailableRoomPricedZero` | src/pages/Bookings.tsx:105-108 | a booking whose room is not available is priced 0 |
| `Bookings.ApplyForm` | src/pages/Bookings.tsx:177-187 | the update writes the form's columns, the total and the author, keeping id, payment status and creation time |
| `Bookings.NewBooking` | src/pages/Bookings.tsx:177-193 | the insert writes the form's columns, the total and the author; the store adds id, creation time and unpaid status |
| `Bookings.UpdateBookingRows` | src/pages/Bookings.tsx:184-187 | `.update(...).eq('id', id)`: exactly the rows with that id are rewritten |
| `Bookings.HandleSubmit` | src/pages/Bookings.tsx:151-219 | missing user, then missing staff record, then a refused booking write each stop before any write; on success the booking is inserted or updated with the computed total and the room is set occupied (unchecked write) |
| `Bookings.ErrorMessage` | src/pages/Bookings.tsx:163-217 | each refusal's toast text (no user, no staff record, the store fallback) is shown for exactly that refusal |
| `Bookings.SavedRoomOccupied` | src/pages/Bookings.tsx:198-202 | the booked room becomes occupied whatever status the form chose, and other rooms are untouched |
| `Bookings.FilteredBookings` | src/pages/Bookings.tsx:130-138 | listed iff (guest name or room number contains the search, ignoring case) and (no status filter or equal status), in order |
| `Bookings.TruncateToDay` | src/pages/Bookings.tsx:226-227 | `split('T')[0]`: the start of the timestamp's day |
| `Bookings.EditForm` | src/pages/Bookings.tsx:221-231 | the edit form copies room, guest and status and cuts both dates to their day |
| `Bookings.MulMonotone` | src/pages/Bookings.tsx:146 | scaling by a day's length keeps the order of whole numbers both ways |
| `Bookings.EditFormNights` | src/pages/Bookings.tsx:221-231 | nights of an edit form are exactly the difference of the calendar days |
| `Bookings.ResaveEditForm` | src/pages/Bookings.tsx:141-142 | re-saving an unchanged edit form of a booking whose room is no longer available sets its total to 0 and moves its dates to day starts |
| `BarOrders.Rank` | src/pages/BarOrders.tsx:449-484 | the position of a status along the button path |
| `BarOrders.Next` | src/pages/BarOrders.tsx:449-484 | the button moves exactly one status forward; none is shown for completed |
| `BarOrders.Lifecycle` | src/pages/BarOrders.tsx:449-484 | pressing the button repeatedly walks to completed, one rank per press |
| `BarOrders.FullLifecycle` | src/pages/BarOrders.tsx:449-484 | pending, preparing, ready, served, completed |
| `BarOrders.LifecycleNoRepeat` | src/pages/BarOrders.tsx:449-484 | no status repeats along the path: no button leads back |
| `BarOrders.OrderData` | src/pages/BarOrders.tsx:165-198 | missing user, then unknown drink, refuse; room bill iff lodged, booking found and unpaid; name and room from the booking only for a lodged guest with a found booking, else the form name and no room |
| `BarOrders.WalkInBilledSeparately` | src/pages/BarOrders.tsx:177-185 | a walk-in order is billed separately and has no room |
| `BarOrders.ReceiptIffSeparate` | src/pages/BarOrders.tsx:219-226 | the customer receipt is printed iff the order is billed separately |
| `BarOrders.Stored` | src/pages/BarOrders.tsx:200-212 | the stored row is the order data, pending, with total = unit price × quantity |
| `BarOrders.SetStatus` | src/pages/BarOrders.tsx:244-251 | only the status of rows with the id changes |
| `BarOrders.ButtonAdvancesOne` | src/pages/BarOrders.tsx:449-484 | pressing a row's button moves that order one rank forward and leaves the rest alone |
| `BarOrders.BarOrderTable.constructor` | src/pages/BarOrders.tsx:200-202 | the bar orders table |
| `BarOrders.BarOrderTable.HandleSubmit` | src/pages/BarOrders.tsx:165-242 | a refused order or insert leaves the table and prints no receipt; otherwise the stored order is appended, and a receipt is printed exactly for walk-in or separate billing, rendered from the submitted form (the intended receipt, see Findings) |
| `BarOrders.BarOrderTable.UpdateOrderStatus` | src/pages/BarOrders.tsx:244-257 | the status update, or no change when refused |
| `BarOrders.FormReceipt` | src/pages/BarOrders.tsx:642-655 | the receipt order built from the form: drink name and price, or "" and 0 without a loaded drink, total = price × quantity |
| `BarOrders.ReceiptChargesOrder` | src/pages/BarOrders.tsx:642-655 | the receipt rendered from the submitted form charges the stored unit price × quantity plus 7.5 % VAT |
| `BarOrders.DelayedReceiptChargesNothing` | src/pages/BarOrders.tsx:221-237 | the receipt printed one second after the form reset shows subtotal and total 0, no customer, no drink and quantity 1, unlike the stored order |
| `BarOrders.LodgedReceiptUsesFormName` | src/pages/BarOrders.tsx:647 | concrete case: the receipt rendered from the submitted form shows the typed name, not the booking's name stored with the order |
| `BarOrders.Message` | src/pages/BarOrders.tsx:169-240 | each refusal's toast text ("No authenticated user found", "Please select a drink", the store fallback) is shown for exactly that refusal |
| `BarOrders.FilteredOrders` | src/pages/BarOrders.tsx:276-288 | listed iff (name, drink or non-null room contains the search) and each of the status and guest-type filters is empty or equal, in order |
| `BarOrders.UnfilteredListsAll` | src/pages/BarOrders.tsx:276-288 | no search and no filter lists every order |
| `KitchenOrders.Rank` | src/pages/KitchenOrders.tsx:370-405 | the position of a status along the button path |
| `KitchenOrders.Next` | src/pages/KitchenOrders.tsx:370-405 | one status forward; none for completed |
| `KitchenOrders.Lifecycle` | src/pages/KitchenOrders.tsx:370-405 | the button path walks to completed, one rank per press |
| `KitchenOrders.FullLifecycle` | src/pages/KitchenOrders.tsx:370-405 | pending, preparing, ready, delivered, completed |
| `KitchenOrders.OrderData` | src/pages/KitchenOrders.tsx:119-147 | refused only without a user; room bill iff a found active booking is unpaid, with no guest-type check; name and room from the booking when found |
| `KitchenOrders.Message` | src/pages/KitchenOrders.tsx:123-174 | each refusal's toast text (no user, the store fallback) is shown for exactly that refusal |
| `KitchenOrders.UnknownBookingBilledSeparately` | src/pages/KitchenOrders.tsx:126-135 | without a matching active booking: separate, typed name, no room |
| `KitchenOrders.Stored` | src/pages/KitchenOrders.tsx:149-155 | the stored row is the order data, pending, with total = price × quantity |
| `KitchenOrders.SetStatus` | src/pages/KitchenOrders.tsx:178-184 | only the status of rows with the id changes |
| `KitchenOrders.ButtonAdvancesOne` | src/pages/KitchenOrders.tsx:370-405 | a row's button moves that order one rank forward and leaves the rest alone |
| `KitchenOrders.KitchenOrderTable.constructor` | src/pages/KitchenOrders.tsx:149-151 | the kitchen orders table |
| `KitchenOrders.KitchenOrderTable.HandleSubmit` | src/pages/KitchenOrders.tsx:119-176 | no user or a refused insert leaves the table; otherwise the stored order is appended |
| `KitchenOrders.KitchenOrderTable.UpdateOrderStatus` | src/pages/KitchenOrders.tsx:178-191 | the status update, or no change when refused |
| `KitchenOrders.FilteredOrders` | src/pages/KitchenOrders.tsx:210-221 | listed iff (name, food or non-null room contains the search) and (no status filter or equal), in order |
| `KitchenOrders.StatusFilterNarrows` | src/pages/KitchenOrders.tsx:218-220 | what a status filter lists is listed without it |
| `Reports.Selected` | src/pages/Reports.tsx:54-58 | exactly the bookings checking in at or after the start day and out by the start of the end day |
| `Reports.StatusCountsAddUp` | src/pages/Reports.tsx:62-64 | active + completed + cancelled counts = number of bookings |
| `Reports.TotalRevenue` | src/pages/Reports.tsx:65 | the left fold of `total_amount`, defaulting to 0: 0 for no bookings, non-negative for non-negative amounts |
| `Reports.TotalRevenueAppend` | src/pages/Reports.tsx:65 | the revenue of two lists put together is the sum of their revenues |
| `Reports.Average` | src/pages/Reports.tsx:73 | 0 for no bookings, else average × count = total |
| `Reports.StatsOf` | src/pages/Reports.tsx:67-74 | counts per status adding up to the total, revenue, and the guarded average |
| `Reports.RevenueByType` | src/pages/Reports.tsx:77-93 | the in-place accumulator loop computes `GroupByType` |
| `Reports.AddToGroupFacts` | src/pages/Reports.tsx:79-83 | one step keeps types distinct and adds one booking and the amount to that type's entry, leaving every other type's count and revenue unchanged |
| `Reports.GroupByTypeFacts` | src/pages/Reports.tsx:77-93 | each type appears once; per-type bookings sum to the booking count, revenues to the total revenue; per type, the count of its bookings and the revenue of its bookings |
| `Reports.Days` | src/pages/Reports.tsx:101-104 | every day of the range, both ends included, in order |
| `Reports.Occupied` | src/pages/Reports.tsx:108-112 | the bookings (not rooms) covering the day, at most the number of bookings |
| `Reports.OccupiedAdd` | src/pages/Reports.tsx:108-112 | one more booking adds one to a day exactly when it is not cancelled and covers it |
| `Reports.Rate` | src/pages/Reports.tsx:118 | 0 without rooms, else rate × rooms = occupied × 100, within [0,100] when occupied ≤ rooms |
| `Reports.Occupancy` | src/pages/Reports.tsx:101-120 | one row per day in order with its count and rate; none for a reversed range |
| `Reports.OverCountExample` | src/pages/Reports.tsx:108-118 | two bookings of the only room on one day show 2 of 1 rooms, 200 % |
| `Reports.ReportData` | src/pages/Reports.tsx:51-129 | no update without bookings data; else stats, revenue by type and occupancy over the selected bookings, with 0 rooms for a missing rooms result |
| `Reports.ReportConsistent` | src/pages/Reports.tsx:67-93 | the revenue-by-type table adds up to the summary's booking count and revenue |
| `Reports.CsvFields` | src/pages/Reports.tsx:138-143 | four fields per row: the rendered date, the occupied and total counts as decimal text that reads back as the counts, and the rendered rate followed by "%" |
| `Reports.CsvLines` | src/pages/Reports.tsx:145-148 | the header line, then one comma-joined line per row |
| `Reports.DigitsClean` | src/pages/Reports.tsx:140-141 | a decimal count holds no comma or newline |
| `Reports.CsvRoundTrip` | src/pages/Reports.tsx:135-148 | splitting the file on newlines gives its lines back, and each row line split on commas gives its four fields |
| `Dashboard.InsertByDate` | src/pages/Dashboard.tsx:57 | inserting into a newest-first list keeps it newest first and adds exactly that booking |
| `Dashboard.SortNewestFirst` | src/pages/Dashboard.tsx:57 | `.order('created_at', desc)`: newest first, a permutation of the table |
| `Dashboard.RecentQuery` | src/pages/Dashboard.tsx:50-58 | `.limit(5)`: five rows, or all of them when fewer |
| `Dashboard.TakeNewest` | src/pages/Dashboard.tsx:57-58 | a prefix of a newest-first list is newest first and nothing left behind is newer |
| `Dashboard.RecentAreNewest` | src/pages/Dashboard.tsx:50-58 | at most five bookings of the table, newest first, none omitted newer than a listed one |
| `Dashboard.ActiveQuery` | src/pages/Dashboard.tsx:44-47 | exactly the active bookings |
| `Dashboard.Stats` | src/pages/Dashboard.tsx:35-67 | rooms returned, occupied among them (never more), guests, active bookings and recent list each defaulting to 0/empty; revenue fields 0 |
| `Dashboard.StatsFromTables` | src/pages/Dashboard.tsx:44-65 | answered from the tables, the active figure is the active count and the recent list at most five, newest first |
| `Dashboard.RoundedPercentBounds` | src/pages/Dashboard.tsx:103 | the rounded percentage is within half a point of the exact one, and within [0,100] for occupied ≤ total |
| `Dashboard.OccupancyCard` | src/pages/Dashboard.tsx:103 | 0 without rooms, else `Math.round(occupied / total × 100)` |
| `Dashboard.CardWithinPercent` | src/pages/Dashboard.tsx:36-103 | the card always shows a value in [0,100] |
| `Rooms.FilteredRooms` | src/pages/Rooms.tsx:58-66 | listed iff search, type, status, minimum and maximum rate all pass, empty filters passing, in order |
| `Rooms.NoFiltersListAll` | src/pages/Rooms.tsx:59-63 | an empty search and no filter list every room |
| `Rooms.BoundsInclusive` | src/pages/Rooms.tsx:62-63 | a room priced exactly at both bounds passes them |
| `Rooms.CrossedBoundsListNothing` | src/pages/Rooms.tsx:62-63 | a minimum above the maximum lists nothing |
| `Rooms.ClearingTypeWidens` | src/pages/Rooms.tsx:60 | clearing the type filter only adds rooms |
| `Rooms.Values` | src/pages/Rooms.tsx:71-76 | the written values are the form's four fields |
| `Rooms.EditForm` | src/pages/Rooms.tsx:107-116 | the edit form copies the room's four fields |
| `Rooms.ApplyValues` | src/pages/Rooms.tsx:79-82 | an update rewrites the four columns, keeping the id |
| `Rooms.EditRoundTrip` | src/pages/Rooms.tsx:71-116 | saving an unchanged edit form writes the room back unchanged |
| `Rooms.SaveRoom` | src/pages/Rooms.tsx:68-105 | refusal changes nothing; with a selected room its rows are updated, else a new row is appended |
| `Rooms.SaveUnchangedEdit` | src/pages/Rooms.tsx:78-116 | with unique ids, saving a room's unchanged edit form leaves the table as it was |
| `Guests.FilteredGuests` | src/pages/Guests.tsx:50-57 | listed iff name, email when present, or phone contains the search, ignoring case, in order |
| `Guests.EmptySearchListsAll` | src/pages/Guests.tsx:50-57 | the empty search lists every guest |
| `Guests.MissingEmail` | src/pages/Guests.tsx:54 | without an email a guest is listed iff name or phone matches |
| `Guests.OrEmpty` | src/pages/Guests.tsx:95-97 | the `''` default: "" for a null column, else its value |
| `Guests.EditForm` | src/pages/Guests.tsx:91-100 | the edit form copies name and phone and maps a null email or address to "" |
| `Guests.ApplyForm` | src/pages/Guests.tsx:63-66 | an update writes all four form fields, keeping id and creation time |
| `Guests.SaveGuest` | src/pages/Guests.tsx:59-89 | refusal changes nothing; with a selected guest its rows are updated, else a new row is appended |
| `Guests.EditKeepsListing` | src/pages/Guests.tsx:50-100 | saving an unchanged edit form keeps the guest listed for exactly the same searches |
| `Guests.LowerEmptyOnlyMatchesEmpty` | src/pages/Guests.tsx:54 | only the empty search is found in an empty field |
| `Guests.NullEmailBecomesEmpty` | src/pages/Guests.tsx:95 | saving an unchanged edit form turns a null email into "" |
| `OrderReceipt.LineAmount` | src/components/OrderReceipt.tsx:106 | quantity × unit price, non-negative for non-negative inputs |
| `OrderReceipt.Subtotal` | src/components/OrderReceipt.tsx:32-35 | the left fold of the line amounts: 0 for no items, non-negative for non-negative items |
| `OrderReceipt.SubtotalAppend` | src/components/OrderReceipt.tsx:32-35 | the subtotal of two item lists put together is the sum of the subtotals |
| `OrderReceipt.SubtotalSingle` | src/components/OrderReceipt.tsx:32-35 | one item's subtotal is its line amount |
| `OrderReceipt.SubtotalIsSumFromFront` | src/components/OrderReceipt.tsx:32-35 | the fold agrees with the sum taken from the first item |
| `OrderReceipt.ShowsPaid` | src/components/OrderReceipt.tsx:31 | only an explicit `false` hides the PAID marker |
| `OrderReceipt.ShortId` | src/components/OrderReceipt.tsx:56 | `slice(0, 8)`: a prefix of length min(8, length) |
| `OrderReceipt.IndexOf` | src/components/OrderReceipt.tsx:63 | the first position of the character, None when absent |
| `OrderReceipt.ReplaceFirst` | src/components/OrderReceipt.tsx:63 | `replace('_', ' ')`: only the first occurrence is replaced, nothing without one |
| `OrderReceipt.ReplaceFirstAfter` | src/components/OrderReceipt.tsx:63 | later occurrences after the first stay |
| `OrderReceipt.RenderLine` | src/components/OrderReceipt.tsx:94-108 | one line: the item's name, quantity and quantity × unit price, and its stored note text exactly when the note is present and non-empty |
| `OrderReceipt.Render` | src/components/OrderReceipt.tsx:30-137 | subtotal, 7.5 % tax and total; Room with the booking's room or Table with the table number; guest line iff a booking; PAID iff not hidden; one printed line per item, line i showing item i's name, note (only when non-empty), quantity and quantity × unit price; short id and type text |
| `OrderReceipt.SubtotalMatchesLines` | src/components/OrderReceipt.tsx:32-106 | the printed subtotal is the sum of the printed line amounts |
| `OrderReceipt.LinesSum` | src/components/OrderReceipt.tsx:94-108 | lines with the items' amounts sum to the items' front sum |
| `OrderReceipt.ScenarioReceipt` | src/components/OrderReceipt.tsx:32-37 | 3 × 1,500: subtotal 4,500, VAT 337.5, total 4,837.5 |
| `BarReceipt.TypeLabel` | src/components/BarReceipt.tsx:60-62 | "Lodged Guest" iff lodged, "Walk-in Customer" iff walk-in |
| `BarReceipt.Render` | src/components/BarReceipt.tsx:18-121 | line total and subtotal are the order's total; VAT 7.5 % and grand total; PAID always; "Lodged Guest" for a lodged guest and "Walk-in Customer" for a walk-in; the stored note text as a note line exactly when present and non-empty |
| `BarReceipt.ScenarioReceipt` | src/components/BarReceipt.tsx:20-21 | 4,500: VAT 337.5, total 4,837.5 |

## Left out

- Network and authentication calls are parameters: the store, the auth lookup and the staff lookup. Each store call's failure is a boolean, and the signed-in user is an `Option`.
- React state, the display of toasts, modals, loading flags and the refetch after each write are left out. They are UI state with no effect on the stored data. The refusal texts of the booking, bar and kitchen forms are modelled; the fixed store-error toasts of the rooms and guests screens are not.
- The bar screen's form reset and one-second print delay are modelled only through their effect on the customer receipt (see Findings). The `receiptRef` check before a receipt prints is left out: it is a DOM reference.
- `BarOrders.BarOrderTable.HandleSubmit`: returns the receipt rendered from the submitted form, the evidently intended one. The receipt the screen actually prints is `BarOrders.DelayedReceipt`, stated in `BarOrders.DelayedReceiptChargesNothing`.
- The auto-checkout timer in the app shell is left out. The model is one sweep at a given `now`.
- Date formatting ('yyyy-MM-dd', receipt dates) and `toFixed(2)` are left out. In the CSV export they are function parameters (`dateText`, `rateText`) that are assumed free of commas and newlines.
- Money is an exact `real`. JavaScript floating-point rounding in totals, VAT and rates, and `toLocaleString`, are not modelled.
- `Number(...)` and `parseInt(...)` are not modelled. The room form's rate, the kitchen form's price, the quantity box of both the bar and the kitchen order forms, and the rooms screen's minimum and maximum rate filters hold the parsed number. An emptied box becoming 0 (`Number`) or `NaN` (`parseInt`), and what `NaN` does to a total or a comparison, are out of scope.
- `Common.Lower`: lower-cases ASCII letters only, because the screens' searches run on names, numbers and phone numbers, and full Unicode case mapping is out of scope.
- Calendar days are UTC day numbers. Time zones and the browser's local-time parsing of the report range and the edit form dates are out of scope.
- Reports assume every booking joins a room, whose type the row carries. A booking whose room is missing would make the screen throw; that path is not modelled.
- `Reports.Occupancy`: a reversed date range gives None, with the occupancy table left as it was. This assumes the behaviour of date-fns version 2, whose `eachDayOfInterval` throws a RangeError when the start is after the end; the screen catches it after the stats and the revenue by type are already set. Later date-fns versions do not throw for a reversed interval, and the version in use is not part of this model.
- `Dashboard.SortNewestFirst`: bookings with equal `created_at` may come back in any order from the store. The model fixes one order, and its stated properties hold for any newest-first order.
- The store's defaults are stated as the model's assumptions:
  - a new booking is unpaid;
  - a new bar or kitchen order gets an id, a creation time, status pending and `total_amount` = unit price × quantity;
  - a new guest or room gets an id.
- The query results the screens start from are inputs: the loaded drinks (`is_available`), the active bookings joined with guest and room, and the joined report rows.
- `Bookings.ErrorMessage`: a store error's toast shows the store's own message when it has one. The model keeps the fallback text only.
- The printable components BookingReceipt, BarOrderPrint, KitchenOrderPrint and printOrder are not part of this model, nor are the Settings page and the Layout. They only lay out fields already modelled.

## Findings

| source | as written | input that shows it | evidently intended | confidence | as-written member | corrected member |
|---|---|---|---|---|---|---|
| src/pages/BarOrders.tsx:221-237 | the customer receipt is printed by a one-second timer, after `setFormData` has reset the form, so the hidden receipt renders the reset form | a walk-in order of 3 × a 1,500 drink: the order stores 1,500 × 3, the printed receipt shows no customer, no drink, quantity 1 and total 0 | the receipt of the order just submitted: the submitted form's guest, drink, quantity and price × quantity plus 7.5 % VAT | not executed | `BarOrders.DelayedReceiptChargesNothing` | `BarOrders.ReceiptChargesOrder` |
