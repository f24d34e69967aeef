# Order lifecycle and stock of the `ventas` shop

This project models the order and stock core of a Django shop in which customers fill a cart (`Carrito`
with `ItemCarrito` lines), check out in one of several ways, and staff then move the resulting orders
(`Pedido`) through their statuses, deliver them or delete them. Every status change and administrative
action leaves a row in an append-only history (`HistorialPedido`) or action log (`PedidoLog`). The model
covers:

- the stock guard `descontar_stock` and the two audit recorders;
- the order and cart records with their derived totals and the unit-price snapshot;
- the cart handlers: add, remove and adjust a line, and the cart checkout that stores "Pagado" orders;
- the payment paths: the amount due, the choice of method (Mercado Pago, which only builds a payment
  preference, or an immediate method that places "pendiente" orders and takes stock), the return page
  that places "pagado" orders line by line, and the provider's webhook;
- order administration: mark as delivered, status update, delete, and the owner-or-staff access test;
- the order form validator;
- the text of the older `ventas/views.py` module, which no URL reaches (see below);
- the read-only pages: the customer's order list and statistics, the purchase summary, the staff panel,
  the cart badge, the catalogue filters, the related products and the five-cover upload limit.

The database is one `Shop.Store` object. Each table is a field: the catalogue is a map from product key
to `Product`; carts, cart lines, orders, history, log and covers are sequences of rows in key order. Each
request handler is one method of `Store`. It states its whole new state in terms of pure functions
(`Checkout.PlacedOrders`, `Checkout.Discounted`, `Checkout.StockAfter`, `Tables.WithoutCart`,
`Carts.AddLine`, `Payments.Webhook`, `Administration.DeliveredStock`, and so on), and the properties the
shop promises are proved as lemmas about those functions. `Store.Valid()` holds in every state that a
handler can produce. It requires:

- one cart per user;
- increasing keys below the next-key counters;
- no two lines of a cart for the same product;
- every line and order naming a catalogue product;
- every history and log row belonging to an existing order.

Money is an integer number of cents (`DecimalField(decimal_places=2)`). Timestamps are a `now` parameter
in seconds of local time; the calendar day is `now / 86400`.

Quirks of the code are modelled as written:

- The cart checkout stores the status "Pagado" with a capital P. None of the five choices is spelled that
  way, so status counts miss such orders (`Statistics.MisspelledStateUncounted`).
- The payment preference sends the user's key as `external_reference`. The webhook then looks that value
  up as an order key, so an approved payment pays whichever order carries the customer's user number
  (`Payments.ApprovalPaysOrderNumberedAfterUser`).
- Marking an order delivered takes its units off the stock again, even when the immediate payment path
  already took them at checkout (`Administration.DeliveryTakesStockAgain`).
- Deleting an order gives no stock back. The "eliminado" log row written just before the deletion is
  itself removed by the `on_delete=CASCADE` of the log's foreign key (`Administration.DeletionLogCascades`).
- The status forms read the "previous" status from the form's instance after form validation has already
  copied the posted status into it. Every history row they write, and the log row of
  `PedidoEstadoUpdateView`, therefore goes from the posted status to itself
  (`OrderViews.AsWrittenHistoryLosesPreviousState`). `Shop.Store.UpdateState` and
  `Shop.Store.LegacyUpdateState`, the copy in the unreachable `ventas/views.py`, write these rows. `OrderViews.StateChange` is the intended row, and
  `OrderViews.UpdateHistoryChains` proves that intended rows chain; see "## Findings".
- The confirmation page does not roll back. After a short line it keeps the orders and the stock already
  written for the lines before it (`Shop.Store.ConfirmPayment`, `Shop.Store.PlacePaidUntilShort`).

Some behaviour one might expect of an order system is absent from the code, and the model does not add it:

- There is no status machine. The status forms accept any of the five statuses from any status, and an
  update never touches stock, not even on cancellation.
- A checkout that meets a short line does not roll back. The cart checkout and the confirmation page keep
  the orders they placed before it.
- Deleting an order never gives its units back to the stock.
- The webhook never creates an order. It only saves a status on an order that already exists.

The older `ventas/views.py` module is dead code. Every URL module imports the `ventas/views/` package
(`ventas/urls.py:2`, `ventas/urls_pagos.py:2`, `ventas/urls_pedidos.py:4`), and that package shadows the
module of the same name, so no request reaches `ventas/views.py`. Its members are modelled as text only.
Inside the file, the second `def finalizar_compra` (line 228) rebinds the first (lines 111-136). So the
second, all-or-nothing checkout (`Shop.Store.LegacyFinishPurchase`) is the effective definition. The
first, unchecked one (`Shop.Store.LegacyFinishPurchaseUnchecked`, `Checkout.UncheckedCheckoutOversells`)
is unreachable even within the module.

The module repeats `agregar_al_carrito`, `eliminar_item` and `eliminar_pedido`.
Each changes the tables exactly as the `ventas/views/` version does, so `Shop.Store.AddToCart`,
`Shop.Store.RemoveItem` and `Shop.Store.DeleteOrder` model both copies. Its status form differs (no log
row) and is `Shop.Store.LegacyUpdateState`.

## Model

| member | source | states |
|---|---|---|
| Ledger.Discount | ventas/views/helpers.py:4-15 | Succeeds exactly when 0 <= quantity <= stock, and then stock left plus quantity is the old stock; a negative quantity is refused as such, and a quantity above the stock is refused with the units available |
| Ledger.DiscountZero | ventas/views/helpers.py:9-15 | Taking zero units always succeeds and leaves the stock as it was |
| Ledger.DiscountAgreesWithHasStock | productos/models.py:32-33 | The guard of `descontar_stock` accepts exactly the non-negative quantities `hay_stock` accepts |
| Ledger.Serve | ventas/views/helpers.py:11-15 | Serving requests one after another against one product grants at most as many requests as there are |
| Ledger.ServeConserves | ventas/views/helpers.py:11-15 | Stock left plus units granted equals the stock there was, for any sequence of requests |
| Ledger.NeverOversold | ventas/views/helpers.py:11-12 | No sequence of requests is granted more units than the stock held; with one-unit requests at most `stock` succeed |
| Shop.Store.DiscountStock | ventas/views/helpers.py:4-15 | The catalogue loses exactly the quantity from that product when the guard passes, and is unchanged when it refuses; no other table changes |
| Shop.Store.RecordHistory | ventas/views/helpers.py:18-27 | Exactly one history row (order, previous, next, user, time) is appended; earlier rows and every other table are unchanged |
| Shop.Store.RecordLog | ventas/views/helpers.py:30-38 | Exactly one log row (order, user, action, time) is appended and nothing else changes |
| Sales.Draft | ventas/models.py:7-23 | An order built with only some fields has unit price 0 (the column default) and no delivery date yet |
| Sales.DraftDefaults | ventas/models.py:14-23 | A new order defaults to status "pendiente", one of the five choices, and quantity 1, with no payment method |
| Sales.Save | ventas/models.py:28-36 | The first save takes the product's current price as the unit price; a save of an order with a key returns it unchanged; no field but the unit price is ever touched |
| Sales.ResaveKeepsSnapshot | ventas/models.py:34-41 | After creation, no later save or price change moves the unit price, so the order total stays price at creation times quantity |
| Sales.Created | ventas/models.py:28-36 | The row `objects.create` inserts carries the given key, product, user, time, quantity, method and status, and the product's current price |
| Sales.Total | ventas/models.py:38-41 | An order of no units totals zero and one of one unit totals its unit price; a non-negative price never totals less than one unit's worth, and a non-positive price never totals above zero |
| Sales.Subtotal | ventas/models.py:67-70 | A one-unit line costs the product's current price, and a line at a non-negative price never costs less than one unit |
| Sales.CartTotal | ventas/models.py:56-59 | The cart total is zero for a cart with no lines |
| Sales.CartTotalFollowsPriceChange | ventas/models.py:67-70 | A price change moves the cart total by the price difference times the units of that product in the cart: subtotals use today's price, not a snapshot |
| Catalog.NewProduct | productos/models.py:6-13 | A product created without a stock has stock 0 and therefore no stock |
| Catalog.HasStock | productos/models.py:32-33 | A request for no units is always in stock; a positive request in stock means the product is not sold out; a refusal means fewer units than asked are left |
| Catalog.HasStockDefault | productos/models.py:32-33 | `hay_stock()` with its default argument holds exactly when at least one unit is left |
| Catalog.HasStockMonotone | productos/models.py:32-33 | Enough stock for a larger quantity is enough for any smaller one |
| Carts.OpenCart | ventas/views/carrito.py:16-32 | `get_or_create` adds a cart with the next key exactly when the user has none, and otherwise leaves the table alone; the returned cart is the user's |
| Carts.OpenCartValid | ventas/models.py:50-51 | Opening a cart keeps at most one cart per user and increasing keys, and the user then has a cart |
| Carts.AddLine | ventas/views/carrito.py:39-42 | A new line of one unit with the next key is added exactly when the cart has no line for the product; otherwise no line is added |
| Carts.AddLineUnits | ventas/views/carrito.py:39-42 | Adding gives the chosen cart and product exactly one more unit and leaves every other (cart, product) pair as it was |
| Carts.AddLineCount | ventas/views/carrito.py:39-42 | The cart's line count grows by one for a new product and stays put for a product already in the cart |
| Carts.AddLineValid | ventas/views/carrito.py:39-42 | Adding a catalogue product keeps one line per product per cart, increasing keys and quantities of at least one |
| Carts.RemoveAt | ventas/views/carrito.py:60-61 | Deleting a line leaves one row fewer, all of them old rows |
| Carts.RemoveAtExactly | ventas/views/carrito.py:60-61 | After the deletion, the rows are exactly the old rows other than the deleted one, and the line table stays consistent |
| Carts.RemoveAtUnits | ventas/views/carrito.py:60-61 | The deletion takes exactly that line's units out of its cart and one line off its count; every other cart is untouched |
| Carts.Adjust | ventas/views/carrito.py:121-136 | "sumar" adds a unit exactly when stock exceeds the quantity; "restar" removes one exactly when the quantity exceeds one; any other action changes nothing |
| Carts.AdjustStaysInRange | ventas/views/carrito.py:121-136 | A quantity in [1, stock] stays in [1, stock]; the quantity never drops below one and only grows by one within the stock |
| Shop.Store.AddToCart | ventas/views/carrito.py:20-46 | A GET changes nothing; a POST first opens the user's cart, then a missing product is a 404, a product with no stock leaves the lines alone, and otherwise the line table becomes `AddLine`'s, without comparing the line with the stock |
| Shop.Store.RemoveItem | ventas/views/carrito.py:49-64 | A GET changes nothing; on a POST a line that is not in the caller's cart is a 404, and the caller's line is removed with nothing else changed |
| Shop.Store.ChangeQuantity | ventas/views/carrito.py:113-138 | A line outside the caller's cart is a 404; otherwise only that line's quantity changes, to what `Adjust` gives for its product's stock |
| Shop.Store.ClearCart | ventas/views/carrito.py:99 | Every line of the cart is deleted and the lines of other carts stay in order |
| Checkout.Served | ventas/views/carrito.py:86-97 | The number of lines a walk that stops at the first short line gets through: every earlier line is in stock and the line where it stops is not |
| Checkout.ServedStopsAt | ventas/views/carrito.py:86-90 | A short line after only served lines is exactly where the walk stops |
| Shop.Store.PlaceUntilShort | ventas/views/carrito.py:86-97 | The loop creates one order per line, in order, for exactly the first `Served` lines, and writes no stock |
| Shop.Store.FinishPurchase | ventas/views/carrito.py:67-101 | A GET, a missing cart (404) and an empty cart change nothing; otherwise the served lines become "Pagado" orders with no stock taken, the cart is emptied only when every line got through, and a short line keeps the earlier orders |
| Checkout.PlacedOrders | ventas/views/pagos.py:100-111 | A checkout creates one order per cart line |
| Checkout.PlacedOrdersRows | ventas/views/pagos.py:100-111 | Order i has key firstId + i, the line's product, quantity and the product's price, the given method and status, and the caller as its user |
| Checkout.PlacedOrdersChargeCartTotal | ventas/views/pagos.py:100-111 | The totals of a checkout's orders add up to exactly the cart total |
| Checkout.PlacedOrdersUnits | ventas/views/pagos.py:100-111 | For each product, a checkout's orders stand for exactly the units the cart held of it |
| Checkout.FirstShort | ventas/views/pagos.py:49-53 | The first line its product cannot cover, if any; none exactly when every line is in stock |
| Checkout.Discounted | ventas/views/pagos.py:110 | The catalogue after `descontar_stock` for each line in turn keeps every product key |
| Checkout.DiscountedUntouched | ventas/views/pagos.py:101-110 | With one line per product, the product of the next line still has its row as it was before the walk |
| Checkout.DiscountedIsStockAfter | ventas/views/pagos.py:101-111 | When every line is in stock, calling `descontar_stock` per line ends in exactly the catalogue with each line's units taken off its product |
| Checkout.StockAfter | ventas/views.py:255-265 | Taking each line's units off its product keeps every product key |
| Checkout.CheckoutConserves | ventas/views.py:255-265 | No unit is lost or invented: stock left plus units ordered equals the stock there was, for every product |
| Checkout.UncheckedCheckoutOversells | ventas/views.py:124-131 | A checkout that creates the order before it takes the stock, and stops at the first short line, leaves units ordered plus stock left exceeding the old stock by exactly that line's quantity |
| Payments.LeftSumIsCartTotal | ventas/views/pagos.py:26-29 | The page's `sum` over the lines equals `Carrito.total` |
| Payments.AmountDue | ventas/views/pagos.py:21-34 | The amount to pay is 0 for a user without a cart |
| Payments.AmountDueIsCartTotal | ventas/views/pagos.py:23-30 | With a cart, the amount to pay is the sum of price times quantity over its lines at today's prices |
| Payments.IsMercadoPago | ventas/views/pagos.py:56 | The choice is Mercado Pago exactly when it has eleven characters that spell "mercadopago" once lower-cased |
| Payments.MercadoPagoSpellings | ventas/views/pagos.py:56 | The method test ignores letter case and rejects the other methods |
| Payments.PreferenceFor | ventas/views/pagos.py:60-78 | One item per cart line with its name, quantity, price and "ARS"; the three return URLs under the site URL; auto-return "approved"; and an external reference that reads back as the user's key |
| Payments.PreferenceChargesCartTotal | ventas/views/pagos.py:60-78 | The preference charges exactly the cart total |
| Payments.Redirection | ventas/views/pagos.py:80-97 | The customer is sent to the gateway exactly when its reply carries a non-empty `init_point`, and then to that URL |
| Shop.Store.ChoosePaymentMethod | ventas/views/pagos.py:36-117 | No method, no cart (404), an empty cart or any short line change nothing; Mercado Pago builds `PreferenceFor` and writes nothing; any other method places one "pendiente" order per line with that method, takes each line's units through `descontar_stock` and empties the cart; a method longer than its column fails the insert on a database that checks lengths |
| Shop.Store.PlacePending | ventas/views/pagos.py:100-111 | The loop ends with the `PlacedOrders` of every line as "pendiente" orders and the catalogue `Discounted` by every line |
| Shop.Store.ConfirmPayment | ventas/views/pagos.py:125-157 | A status other than "approved" changes nothing and shows the session's method or "No definido"; "approved" with a non-empty cart places "pagado" orders by "MercadoPago" and takes stock for the first `Served` lines, keeps them after a short line, and empties the cart only when every line got through |
| Shop.Store.PlacePaidUntilShort | ventas/views/pagos.py:135-150 | The loop stops at the first short line, having placed and discounted exactly the lines before it |
| Payments.WebhookState | ventas/views/pagos.py:179 | "approved" is stored as "pagado", and any other status as the provider spelled it |
| Payments.WebhookStateChoices | ventas/views/pagos.py:179 | The stored status is one of the five choices iff the provider said "approved" or already used a choice, so "pending" and "rejected" are stored outside the choices |
| Payments.WebhookTarget | ventas/views/pagos.py:173-178 | A missing reference finds nothing; a reference is an order key exactly when it is a decimal numeral, and then it is the numeral's value |
| Payments.WebhookTargetsUserNumberedOrder | ventas/views/pagos.py:77-178 | The reference the preference sends is read back by the webhook as the order key equal to the user's key |
| Payments.Webhook | ventas/views/pagos.py:160-189 | Non-POST is 405; an unreadable body, a raising lookup, a bad reference or a missing status are 400; no payment id, a lookup not answered 200 and a missing order are acknowledged with 200; a record happens exactly when all checks pass, on the order with that key and with the mapped status |
| Payments.ApprovalPaysOrderNumberedAfterUser | ventas/views/pagos.py:77-181 | An approved payment for a customer's cart marks "pagado" the order whose key equals the customer's user key |
| Shop.Store.SaveOrder | ventas/views/pagos.py:181 | Saving an order replaces its row at the same position, keeping key and product, and nothing else changes |
| Shop.Store.PaymentWebhook | ventas/views/pagos.py:160-189 | The answer is `Webhook`'s; on a record the order at that position gets the mapped status and "MercadoPago" as its method, and any other request writes nothing |
| Text.DecimalRoundTrip | ventas/views/pagos.py:77-178 | Reading back the `str` of a key with `int` gives the same key |
| Text.Contains | ventas/views/pedidos.py:70 | The substring test holds exactly when the needle occurs at some position of the text |
| Text.ContainsIgnoringCase | ventas/views/pedidos.py:70 | `icontains` holds exactly when, at some position, every character of the needle equals the text's character once both are lower-cased |
| Text.ExactMatchIgnoresCase | ventas/views/panel.py:27-30 | A text that holds the needle verbatim, or holds its lower-cased form, matches it under `icontains` |
| Administration.CheckDelivery | ventas/views/pedidos.py:164-170 | An order already "entregado" is refused first; otherwise an order whose product has fewer units is refused; otherwise delivery can go ahead |
| Administration.DeliveredStock | ventas/views/pedidos.py:174-175 | The order's product loses exactly the order's units, and every other product and field is unchanged |
| Administration.DeliveryHappensOnce | ventas/views/pedidos.py:164-166 | Once delivered, an order is refused by the first check, so a second request changes nothing |
| Administration.DeliveryTakesStockAgain | ventas/views/pedidos.py:172-175 | An order placed by the immediate payment path, when delivered, leaves its product short of twice its units |
| Shop.Store.MarkDelivered | ventas/views/pedidos.py:156-186 | Non-staff and missing orders change nothing; a delivered order and one whose product is short change nothing; otherwise the stock loses the order's units, one history row (old status to "entregado") and one "entregado" log row are appended, and the order becomes "entregado" |
| Shop.Store.Deliver | ventas/views/pedidos.py:172-183 | The four writes of a delivery, in the order the view makes them |
| OrderViews.StateChangeAsWritten | ventas/views/pedidos.py:132-140 | As written, the history row and log row name the order, the caller, the time and the posted status, with the log action built from the history row's two statuses |
| OrderViews.AsWrittenHistoryLosesPreviousState | ventas/views/pedidos.py:132-138 | As written, the recorded previous status is always the posted one, never the order's earlier status when the update changes it |
| OrderViews.AsWrittenHistoryExample | ventas/views/pedidos.py:132-138 | A "pendiente" order moved to "enviado" is recorded as going from "enviado" to "enviado" |
| OrderViews.AsWrittenHistoryBreaksChain | ventas/views/pedidos.py:132-138 | As written, any update that changes the status breaks the order's history chain |
| OrderViews.StateChange | ventas/views/pedidos.py:132-140 | The intended rows: history from the order's status to the posted one, and the log action "estado:old→new" |
| OrderViews.UpdateHistory | ventas/views/pedidos.py:132-140 | A series of updates writes one history row per posted status |
| OrderViews.UpdateHistoryChains | ventas/views/pedidos.py:132-140 | With the intended rows, an order's history starts at its first status, each row starts where the last ended, and the last row ends at the current status |
| Shop.Store.UpdateState | ventas/views/pedidos.py:123-140 | Non-staff, a missing order and a status outside the five choices change nothing; otherwise the order gets the posted status whatever it had, one history row and one log row of `StateChangeAsWritten` are appended, both from the posted status to itself, and stock is untouched |
| Shop.Store.LegacyUpdateState | ventas/views.py:180-199 | The same checks and save, then only the history row of `StateChangeAsWritten`, from the posted status to itself; the log is untouched |
| Shop.Store.DeleteOrderRows | ventas/models.py:80-91 | The order row goes, and its history and log rows go with it; the catalogue is untouched |
| Shop.Store.DeleteOrder | ventas/views/pedidos.py:143-153 | Non-staff and missing orders change nothing; otherwise the "eliminado" row is logged and then the order is deleted with its cascade, and no stock is given back |
| Administration.DeletionLogCascades | ventas/views/pedidos.py:148-151 | The "eliminado" row written before the deletion is removed by the cascade, together with every other row of that order |
| Administration.DeleteRemovesOneOrder | ventas/views/pedidos.py:148-151 | Deleting an existing order removes exactly one row and keeps every other order |
| Tables.OrdersDelete | ventas/models.py:80-91 | After the deletion and its cascade, every remaining history and log row still belongs to an existing order |
| OrderViews.CanAccess | ventas/views/pedidos.py:31-33 | Staff may open every order; anyone else only the orders they own |
| OrderViews.ListedOrdersAccessible | ventas/views/pedidos.py:31-33 | Every order in a customer's list is one the access test lets that customer open, and no other customer |
| OrderViews.UserOrders | ventas/views/pedidos.py:62-72 | Exactly the caller's orders that satisfy the status and product-name filters, newest first, each as often as in the table |
| OrderViews.UnfilteredListIsAllOwnOrders | ventas/views/pedidos.py:62-72 | With no filter, the list holds exactly the caller's orders |
| OrderViews.UserStats | ventas/views/pedidos.py:74-90 | The caller's total and the counts of the five statuses over the caller's orders, whatever the filters |
| OrderForm.Clean | ventas/forms.py:19-31 | An existing order, a missing product or a missing or zero quantity is accepted; accepted data is returned unchanged; only a new order with both fields can be rejected |
| OrderForm.CleanAgreesWithStockGuard | ventas/forms.py:25-30 | For a new order, the form accepts exactly when `hay_stock` holds for the quantity, which is exactly when `descontar_stock` would succeed |
| Shop.Store.WriteLineStock | ventas/views.py:264-265 | The unchecked stock write of a line succeeds exactly when the line is in stock, and otherwise writes nothing |
| Shop.Store.LegacyFinishPurchase | ventas/views.py:228-269 | A GET, no cart and an empty cart change nothing, and a short line anywhere changes nothing; otherwise every line becomes a "pendiente" order at its price, every product loses its lines' units, and the lines are deleted |
| Shop.Store.PlaceAndWrite | ventas/views.py:255-265 | The second loop places exactly the `PlacedOrders` of every line and ends with the catalogue `Discounted` by every line |
| Shop.Store.LegacyFinishPurchaseUnchecked | ventas/views.py:111-136 | A GET, no cart (404) and an empty cart change nothing; otherwise orders and stock writes go line by line; the first short line leaves its order behind and fails with the cart kept, and a full walk empties the cart |
| Shop.Store.PlaceAndWriteUnchecked | ventas/views.py:124-131 | The loop creates an order for every line it reaches, including the one whose write fails, and takes stock only for the served lines |
| Shop.Store.PlaceThenWrite | ventas/views.py:125-131 | One step of the first legacy loop: the order is always created, and the stock is written only when the line is in stock |
| Statistics.CountState | ventas/views/resumen.py:28 | The count of a status never exceeds the number of orders, and is zero exactly when no order has that status |
| Statistics.StateCounts | ventas/views/resumen.py:28 | One count for each of the given statuses |
| Statistics.CountsPartition | ventas/views/resumen.py:27-28 | The counts of distinct statuses plus the orders in none of them add up to all the orders |
| Statistics.MisspelledStateUncounted | ventas/views/carrito.py:96 | An order stored as "Pagado" adds to no status count, so the counts fall short of the total |
| Summary.Reported | ventas/views/resumen.py:18-25 | Exactly the caller's orders with the given status, on or after the first day and on or before the last |
| Summary.Names | ventas/views/resumen.py:31-33 | Each product name of the orders, once |
| Summary.Groups | ventas/views/resumen.py:31-33 | One group per name with the units of that name's orders |
| Summary.TopProducts | ventas/views/resumen.py:31-35 | Exactly five groups, or every group when there are fewer; by units descending; a sub-multiset of the groups, and all of them when there are five or fewer |
| Sorting.Top | ventas/views/resumen.py:31-35 | `order_by("-key")[:n]` yields exactly `n` rows, or all when there are fewer, in non-increasing key order, as a sub-multiset of the input and the whole input when it fits |
| Sorting.TopRowsDominate | ventas/views/resumen.py:31-35 | A row left out of the top `n` has a key no greater than any row kept |
| Summary.TopProductsDominate | ventas/views/resumen.py:31-35 | A name left out of the top five sold no more units than any name in it |
| Summary.GroupsShareVolume | ventas/views/resumen.py:31-40 | The units of the groups add up to exactly the volume |
| Summary.TopWithinVolume | ventas/views/resumen.py:31-40 | No best seller accounts for more units than the volume |
| Summary.Resumen | ventas/views/resumen.py:9-52 | The total, the five status counts, the top five and the volume (units, not money) of the filtered orders; no orders means volume 0 and an empty top |
| Panel.PanelOrders | ventas/views/panel.py:18-34 | Exactly the orders satisfying every given filter (status, product name, username, day), newest first, each as often as in the table |
| Panel.NoFilterShowsAll | ventas/views/panel.py:18-34 | With no filter the panel lists every order once |
| Panel.PanelStats | ventas/views/panel.py:36-58 | The total and the per-status counts are over all orders, whatever the filters |
| Panel.StatisticsAddUp | ventas/views/panel.py:43-49 | The counts per status fall short of the total by exactly the orders stored under no chosen status |
| Panel.ListedWithinTotal | ventas/views/panel.py:18-49 | No filter lists more rows than the total the panel shows |
| CartBadge.CartCount | ventas/context_processors.py:3-10 | 0 for an anonymous user and for a user without a cart; otherwise the number of lines in the cart |
| CartBadge.BadgeAtMostUnits | ventas/context_processors.py:7 | The badge counts lines, which is never more than the units in the cart |
| CatalogViews.ListProducts | productos/views.py:18-37 | Exactly the products matching every given parameter; `ListKeepsOrder` states the catalogue order and no repeats |
| CatalogViews.ListKeepsOrder | productos/models.py:25 | Any relation that holds between every earlier and later catalogue row, such as the name order of `ordering = ['nombre']`, holds between the listed products |
| CatalogViews.ListHasNoRepeats | productos/views.py:18-37 | Over a catalogue in any order whose products have distinct keys, such as the name-ordered one the page lists, no product is listed twice |
| CatalogViews.NoQueryListsAll | productos/views.py:18-37 | With no parameter the list is the whole catalogue |
| CatalogViews.EachParameterNarrows | productos/views.py:26-35 | Dropping any one parameter never removes a product from the list |
| CatalogViews.Related | productos/views.py:65-69 | Exactly four products of the same category other than the product itself, or every candidate when there are fewer; by key descending; a sub-multiset of the candidates; none without a category |
| CatalogViews.RelatedAreNewest | productos/views.py:65-68 | A candidate not shown has a lower key than every product shown |
| CatalogViews.CoversFor | productos/views.py:87-93 | One cover per uploaded file, in upload order, at most five |
| CatalogViews.CoversKeepFirstFive | productos/views.py:108-114 | More than five uploads keep exactly the first five |
| Shop.Store.AttachCovers | productos/views.py:87-93 | The cover table grows by exactly `CoversFor` the uploaded files, and no other table changes |
| Tables.CartIndex | ventas/models.py:50-51 | The position of the user's cart, or none when no cart belongs to the user |
| Tables.CartIndexIsLast | ventas/views/pagos.py:23 | No cart after the position found belongs to the user |
| Tables.CartIndexIsFirst | ventas/views/pagos.py:23 | Under one cart per user the cart found is the user's only one, so it is the one `.first()` returns |
| Tables.OwnedItemIndex | ventas/views/carrito.py:60 | The position of the line with that key in one of the caller's carts, or none when no such line exists |
| Tables.LinesOf | ventas/models.py:62-65 | The lines of one cart, exactly the table's lines of that cart |
| Tables.WithoutCart | ventas/views/carrito.py:99 | Exactly the lines of the other carts |
| Shop.Store.PlaceOrder | ventas/models.py:28-36 | One order row appended under the next key with the product's current price, and nothing else changes |
| Shop.Store.Valid | ventas/models.py:50-65 | In a consistent shop no two orders, lines or carts share a key, no user owns two carts, and every order names a catalogue row under its own key |
| Tables.KeyIndex | ventas/views/pedidos.py:162 | The lookup by primary key returns a position holding that key, or none exactly when no row holds it |
| Shop.Store.constructor | ventas/models.py:7-23 | An empty shop over a catalogue satisfies every table invariant |

## Left out

- The Mercado Pago SDK calls (`sdk.preference().create`, `sdk.payment().get`) are network I/O. Their answers
  are parameters (`GatewayReply`, `PaymentLookup`), and the request body of the webhook arrives already
  parsed (`Notification`).
- Payments.PreferenceFor: keeps the unit price exact in cents instead of modelling `float(precio)`.
- `transaction.atomic`, row locking and concurrent requests. Each handler is one sequential step.
  Exceptions are modelled only where they change what is stored, and then as the view leaves things
  without an enclosing transaction.
- Messages, redirects, session writes, `HTTP_REFERER`, templates, pagination and `print` output. The
  handlers return a `Reply`; the session's method is a parameter of `Shop.Store.ConfirmPayment`.
- The clock. `auto_now_add` becomes the `now` parameter; a day is `now / 86400` in the shop's local time
  zone. Date strings of the filters are taken as day numbers.
- Payments.WebhookTarget: accepts only plain decimal digits. Python's `int` would also take surrounding
  blanks, a sign or underscores.
- Payments.Webhook: a provider status that is not a string, and the bodies of the 400 and 405 answers,
  are not modelled. A missing status is refused like a failed save.
- Text.ContainsIgnoringCase: lower-cases ASCII letters only, not the full Unicode case folding of the
  database.
- Summary.TopProducts: which of several names with equal units is listed first is left to the sort; the
  database does not fix that order either. The same holds for equal timestamps in
  `OrderViews.UserOrders` and `Panel.PanelOrders`.
- The lengths of the history and log text columns. On a database that checks lengths, a long custom
  status in the log action would fail the insert; only `metodo_pago` (50) and `estado` (20) are checked.
- The product form's `form.save()` before the covers are attached, and the image files themselves. Only
  the five-file cap and the cover rows are modelled.
- `PedidoCreateView`, `PedidoUpdateView` and the history list views, which are generic Django
  create, update and list views. Only their access test is modelled.
- Malformed query parameters. The catalogue filters `categoria`, `min_precio`, `max_precio` and
  `stock_min` (productos/views.py:26-35), the summary's `desde` and `hasta` (ventas/views/resumen.py:22-25)
  and the panel's `fecha` (ventas/views/panel.py:31-32) make Django raise `ValueError` or
  `ValidationError` on a value it cannot convert. The model takes these parameters as already converted
  (`Option<int>`, `Option<Cents>`), so it cannot express a malformed value or the error page it causes.
- The order of cart lines. The checkouts and the payment page walk `carrito.items` with no `ORDER BY`
  (ventas/views/carrito.py:86, ventas/views/pagos.py:49, 101 and 135, ventas/views.py:124 and 240). The
  model walks the lines in key order. Which lines become orders before the first short line depends on
  the order the database returns them in, and the model fixes one such order.
- User accounts. Deleting a user (`SET_NULL` on history and log) is not modelled.

## Findings

| source | as written | input that shows it | evidently intended | confidence | as-written member | corrected member |
|---|---|---|---|---|---|---|
| ventas/views/pedidos.py:132-140 | `estado_anterior` is read from `form.instance` after form validation has already copied the posted status into it, so history and log record (new, new) | a "pendiente" order updated to "enviado" is recorded as "enviado" to "enviado" | record the status the order had before the update | high, by reading Django's `ModelForm._post_clean`; not executed | OrderViews.AsWrittenHistoryExample | OrderViews.UpdateHistoryChains |
