/**
 * The shop's database and its request handlers. `Store` holds every table the
 * `ventas` handlers touch; each handler is one method that changes those
 * tables as the view does, and states its new state in terms of the
 * functions of `Checkout`, `Carts`, `Payments` and `OrderViews`. What the
 * handlers only show (messages, redirects, templates) is reduced to a
 * `Reply`; calls to Mercado Pago are parameters.
 */
module Shop {
  import opened Util
  import opened Catalog
  import opened Ledger
  import opened Sales
  import opened Tables
  import opened Checkout
  import opened Carts
  import opened OrderViews
  import opened Payments
  import opened CatalogViews
  import opened Administration
  import opened Sorting

  /** The status `finalizar_compra` of the cart views stores, capitalised unlike the five choices. */
  const CapitalPaid: string := "Pagado"

  const DeletedAction: string := "eliminado"
  const DeliveredAction: string := "entregado"

  /** What the confirmation page shows when the session holds no method. */
  const UndefinedMethod: string := "No definido"

  /** How a handler ends, without its message text. */
  datatype Reply =
    | NotPost                     // a GET on a view that only acts on POST: a warning, nothing saved
    | NotFound                    // `get_object_or_404` found nothing
    | NotStaff                    // `staff_member_required` sends the caller to the login page
    | NoStock(product: ProductId) // the product, or the first cart line that cannot be served
    | EmptyCart
    | NoMethod                    // no payment method was chosen
    | Adjusted(change: Adjustment)
    | RedirectTo(url: string)     // to Mercado Pago's checkout
    | GatewayError                // the preference could not be created
    | AlreadyDelivered
    | InvalidState                // the posted status is not one of the choices; the form is shown again
    | ServerError                 // an exception escapes the view
    | Done

  class Store {
    var products: map<ProductId, Product>
    var carts: seq<Cart>
    var items: seq<CartItem>
    var orders: seq<Order>
    var history: seq<HistoryEntry>
    var logs: seq<LogEntry>
    var covers: seq<Cover>
    var nextCart: nat
    var nextItem: nat
    var nextOrder: nat
    /**
     * Whether the database refuses text longer than a column's `max_length`
     * (PostgreSQL does; SQLite, the default `DATABASE_URL`, does not).
     */
    const boundedText: bool

    ghost predicate Valid(): (b: bool)
      reads this
      ensures b ==> forall i, j :: 0 <= i < j < |orders| ==> orders[i].id != orders[j].id
      ensures b ==> forall i, j :: 0 <= i < j < |items| ==> items[i].id != items[j].id
      ensures b ==> forall i, j :: 0 <= i < j < |carts| ==> carts[i].id != carts[j].id && carts[i].owner != carts[j].owner
      ensures b ==> forall i :: 0 <= i < |orders| ==> orders[i].product in products && products[orders[i].product].id == orders[i].product
    {
      && ProductsKeyed(products)
      && CartsValid(carts, nextCart)
      && ItemsValid(items, products, nextItem)
      && OrdersValid(orders, products, nextOrder)
      && Anchored(history, logs, orders)
    }

    ghost function CartTables(): (seq<Cart>, nat, seq<CartItem>, nat)
      reads this
    {
      (carts, nextCart, items, nextItem)
    }

    ghost function OrderTables(): (seq<Order>, nat, seq<HistoryEntry>, seq<LogEntry>)
      reads this
    {
      (orders, nextOrder, history, logs)
    }

    /** The whole database. */
    ghost function Snapshot(): (map<ProductId, Product>, (seq<Cart>, nat, seq<CartItem>, nat),
                                (seq<Order>, nat, seq<HistoryEntry>, seq<LogEntry>), seq<Cover>)
      reads this
    {
      (products, CartTables(), OrderTables(), covers)
    }

    /** The key of `user`'s cart, if there is one. */
    ghost function CartOf(user: UserId): Option<CartId>
      reads this
    {
      match CartIndex(carts, user)
      case None => None
      case Some(i) => Some(carts[i].id)
    }

    /** `carrito.items.all()` for `user`'s cart; nothing without a cart. */
    ghost function LinesFor(user: UserId): (r: seq<CartItem>)
      reads this
      ensures ItemsValid(items, products, nextItem) ==>
                PricedBy(r, products) && DistinctProducts(r) && forall i :: 0 <= i < |r| ==> r[i].quantity >= 1
    {
      match CartOf(user)
      case None => []
      case Some(c) =>
        LinesOfValid(items, products, nextItem, c);
        LinesOf(items, c)
    }

    constructor (catalogue: map<ProductId, Product>, boundedText: bool)
      requires ProductsKeyed(catalogue)
      ensures Valid()
      ensures products == catalogue && carts == [] && items == [] && orders == [] && history == [] && logs == [] && covers == []
      ensures this.boundedText == boundedText
    {
      products := catalogue;
      carts, items, orders, history, logs, covers := [], [], [], [], [], [];
      nextCart, nextItem, nextOrder := 1, 1, 1;
      this.boundedText := boundedText;
    }

    /**
     * `descontar_stock`: a negative quantity and a quantity above the stock
     * are refused (the `ValueError`) and leave the product as it was;
     * otherwise exactly the quantity is taken off, and nothing else changes.
     */
    method DiscountStock(pid: ProductId, quantity: int) returns (r: Outcome)
      requires Valid() && pid in products
      modifies this
      ensures Valid()
      ensures r == Discount(old(products[pid].stock), quantity)
      ensures r.Deducted? ==> products == old(products)[pid := old(products[pid]).(stock := old(products[pid].stock) - quantity)]
      ensures r.Refused? ==> products == old(products)
      ensures CartTables() == old(CartTables()) && OrderTables() == old(OrderTables()) && covers == old(covers)
    {
      r := Discount(products[pid].stock, quantity);
      if r.Deducted? {
        products := products[pid := products[pid].(stock := r.remaining)];
      }
    }

    /** `registrar_historial`: one entry appended for an existing order, earlier entries untouched. */
    method RecordHistory(order: OrderId, previous: string, next: string, user: UserId, now: nat)
      requires Valid() && Refers(orders, order)
      modifies this
      ensures Valid()
      ensures history == old(history) + [HistoryEntry(order, previous, next, user, now)]
      ensures products == old(products) && CartTables() == old(CartTables()) && covers == old(covers)
      ensures orders == old(orders) && nextOrder == old(nextOrder) && logs == old(logs)
    {
      history := history + [HistoryEntry(order, previous, next, user, now)];
    }

    /** `registrar_log`: one entry appended for an existing order, and nothing else changes. */
    method RecordLog(order: OrderId, user: UserId, action: string, now: nat)
      requires Valid() && Refers(orders, order)
      modifies this
      ensures Valid()
      ensures logs == old(logs) + [LogEntry(order, user, action, now)]
      ensures products == old(products) && CartTables() == old(CartTables()) && covers == old(covers)
      ensures orders == old(orders) && nextOrder == old(nextOrder) && history == old(history)
    {
      logs := logs + [LogEntry(order, user, action, now)];
    }

    /**
     * `agregar_al_carrito`. On a POST the caller's cart is fetched or created
     * first, and stays created whatever follows. An unknown product is a 404;
     * a product with no stock leaves the lines alone; otherwise the line of
     * that product gains a unit, or a new line of one unit is added. Only
     * `stock >= 1` is checked, not the line's quantity against the stock.
     */
    method AddToCart(user: UserId, pid: ProductId, isPost: bool) returns (reply: Reply)
      requires Valid()
      modifies this
      ensures Valid()
      ensures products == old(products) && OrderTables() == old(OrderTables()) && covers == old(covers)
      ensures !isPost ==> reply == NotPost && CartTables() == old(CartTables())
      ensures isPost ==> carts == OpenCart(old(carts), old(nextCart), user).carts
                         && nextCart == OpenCart(old(carts), old(nextCart), user).nextCart
      ensures isPost && pid !in products ==> reply == NotFound && items == old(items) && nextItem == old(nextItem)
      ensures isPost && pid in products && products[pid].stock < 1 ==>
                reply == NoStock(pid) && items == old(items) && nextItem == old(nextItem)
      ensures isPost && pid in products && products[pid].stock >= 1 ==>
                && reply == Done
                && items == AddLine(old(items), old(nextItem), OpenCart(old(carts), old(nextCart), user).cart, pid).items
                && nextItem == AddLine(old(items), old(nextItem), OpenCart(old(carts), old(nextCart), user).cart, pid).nextItem
    {
      if !isPost {
        return NotPost;
      }
      var cartRow := OpenCart(carts, nextCart, user);
      OpenCartValid(carts, nextCart, user);
      carts, nextCart := cartRow.carts, cartRow.nextCart;
      if pid !in products {
        return NotFound;
      }
      if products[pid].stock < 1 {
        return NoStock(pid);
      }
      var added := AddLine(items, nextItem, cartRow.cart, pid);
      AddLineValid(items, products, nextItem, cartRow.cart, pid);
      items, nextItem := added.items, added.nextItem;
      reply := Done;
    }

    /**
     * `eliminar_item`: on a POST, the line with that key is removed if it sits
     * in the caller's cart; a line of another user's cart is a 404, exactly
     * like a missing one.
     */
    method RemoveItem(user: UserId, itemId: ItemId, isPost: bool) returns (reply: Reply)
      requires Valid()
      modifies this
      ensures Valid()
      ensures products == old(products) && OrderTables() == old(OrderTables()) && covers == old(covers)
      ensures carts == old(carts) && nextCart == old(nextCart) && nextItem == old(nextItem)
      ensures !isPost ==> reply == NotPost && items == old(items)
      ensures isPost && OwnedItemIndex(old(carts), old(items), user, itemId).None? ==> reply == NotFound && items == old(items)
      ensures isPost && OwnedItemIndex(old(carts), old(items), user, itemId).Some? ==>
                reply == Done && items == RemoveAt(old(items), OwnedItemIndex(old(carts), old(items), user, itemId).value)
    {
      if !isPost {
        return NotPost;
      }
      var found := OwnedItemIndex(carts, items, user, itemId);
      if found.None? {
        return NotFound;
      }
      RemoveAtExactly(items, products, nextItem, found.value);
      items := RemoveAt(items, found.value);
      reply := Done;
    }

    /**
     * `modificar_cantidad` (any HTTP method): the caller's line gains a unit
     * while its product has more stock than the line holds, or loses one
     * while it holds more than one; any other action changes nothing.
     */
    method ChangeQuantity(user: UserId, itemId: ItemId, action: string) returns (reply: Reply)
      requires Valid()
      modifies this
      ensures Valid()
      ensures products == old(products) && OrderTables() == old(OrderTables()) && covers == old(covers)
      ensures carts == old(carts) && nextCart == old(nextCart) && nextItem == old(nextItem)
      ensures OwnedItemIndex(old(carts), old(items), user, itemId).None? ==> reply == NotFound && items == old(items)
      ensures OwnedItemIndex(old(carts), old(items), user, itemId).Some? ==>
                var k := OwnedItemIndex(old(carts), old(items), user, itemId).value;
                var adjusted := Adjust(old(items)[k].quantity, products[old(items)[k].product].stock, action);
                reply == Adjusted(adjusted.1) && items == old(items)[k := old(items)[k].(quantity := adjusted.0)]
    {
      var found := OwnedItemIndex(carts, items, user, itemId);
      if found.None? {
        return NotFound;
      }
      var k := found.value;
      var line := items[k];
      var adjusted := Adjust(line.quantity, products[line.product].stock, action);
      AdjustStaysInRange(line.quantity, products[line.product].stock, action);
      var updated := items[k := line.(quantity := adjusted.0)];
      assert Pairwise(updated, ItemBefore) && Pairwise(updated, DistinctLines) by {
        forall i, j | 0 <= i < j < |updated| ensures ItemBefore(updated[i], updated[j]) && DistinctLines(updated[i], updated[j]) {
          assert ItemBefore(items[i], items[j]) && DistinctLines(items[i], items[j]);
        }
      }
      items := updated;
      reply := Adjusted(adjusted.1);
    }

    /** `carrito.items.all().delete()`: every line of that cart goes, the other lines stay in order. */
    method ClearCart(cart: CartId)
      requires Valid()
      modifies this
      ensures Valid()
      ensures items == WithoutCart(old(items), cart)
      ensures products == old(products) && OrderTables() == old(OrderTables()) && covers == old(covers)
      ensures carts == old(carts) && nextCart == old(nextCart) && nextItem == old(nextItem)
    {
      WithoutCartValid(items, products, nextItem, cart);
      items := WithoutCart(items, cart);
    }

    /**
     * `Pedido.objects.create(...)` for one product: the next key, the
     * product's current price as unit price, and nothing else changes.
     */
    method PlaceOrder(pid: ProductId, user: UserId, quantity: nat, payment: Option<string>, state: string, now: nat)
      returns (id: OrderId)
      requires Valid() && pid in products
      modifies this
      ensures Valid()
      ensures products == old(products) && CartTables() == old(CartTables())
      ensures id == old(nextOrder)
      ensures orders == old(orders) + [Created(id, products[pid], user, now, quantity, payment, state)]
      ensures nextOrder == old(nextOrder) + 1
      ensures history == old(history) && logs == old(logs) && covers == old(covers)
    {
      id := nextOrder;
      var o := Created(id, products[pid], user, now, quantity, payment, state);
      OrdersGrow(orders, products, nextOrder, history, logs, o);
      orders := orders + [o];
      nextOrder := nextOrder + 1;
    }

    /**
     * The order for line `i` of a checkout, created while the product of
     * that line still has the row it had when the checkout started: the
     * orders so far grow by exactly the order `PlacedOrders` gives that line.
     */
    method PlaceLine(lines: seq<CartItem>, i: nat, user: UserId, payment: Option<string>, state: string, now: nat,
                     ghost p0: map<ProductId, Product>, ghost o0: seq<Order>, ghost n0: nat)
      requires Valid() && PricedBy(lines, p0) && i < |lines|
      requires lines[i].product in products && products[lines[i].product] == p0[lines[i].product]
      requires orders == o0 + PlacedOrders(lines[..i], p0, user, n0, now, payment, state) && nextOrder == n0 + i
      modifies this
      ensures Valid()
      ensures products == old(products) && CartTables() == old(CartTables())
      ensures history == old(history) && logs == old(logs) && covers == old(covers)
      ensures orders == o0 + PlacedOrders(lines[..i + 1], p0, user, n0, now, payment, state)
      ensures nextOrder == n0 + i + 1
    {
      ghost var placed := PlacedOrders(lines[..i], p0, user, n0, now, payment, state);
      PlacedOrdersStep(lines, p0, user, n0, now, payment, state, i);
      AppendGrouping(o0, placed, Created(n0 + i, p0[lines[i].product], user, now, lines[i].quantity, payment, state));
      var _ := PlaceOrder(lines[i].product, user, lines[i].quantity, payment, state, now);
    }

    /**
     * `descontar_stock` for line `i` of a checkout: the catalogue goes from
     * the state after the calls for the earlier lines to the state after
     * this one.
     */
    method DiscountLineStock(lines: seq<CartItem>, i: nat, ghost p0: map<ProductId, Product>)
      requires Valid() && PricedBy(lines, p0) && i < |lines|
      requires PricedBy(lines[..i], p0) && products == Discounted(p0, lines[..i])
      modifies this
      ensures Valid()
      ensures PricedBy(lines[..i + 1], p0) && products == Discounted(p0, lines[..i + 1])
      ensures CartTables() == old(CartTables()) && OrderTables() == old(OrderTables()) && covers == old(covers)
    {
      DiscountedStep(p0, lines, i);
      var _ := DiscountStock(lines[i].product, lines[i].quantity);
    }

    /**
     * `producto.stock = stock; producto.save()` without a guard: the
     * `PositiveIntegerField` check of the database refuses a negative value
     * (an `IntegrityError`) and the row keeps its stock.
     */
    method WriteStock(pid: ProductId, stock: int) returns (saved: bool)
      requires Valid() && pid in products
      modifies this
      ensures Valid()
      ensures saved <==> stock >= 0
      ensures saved ==> products == old(products)[pid := old(products[pid]).(stock := stock)]
      ensures !saved ==> products == old(products)
      ensures CartTables() == old(CartTables()) && OrderTables() == old(OrderTables()) && covers == old(covers)
    {
      saved := stock >= 0;
      if saved {
        products := products[pid := products[pid].(stock := stock)];
      }
    }

    /**
     * `finalizar_compra` of the cart views. After the checks for a POST, a
     * cart (404 without one) and at least one line, it walks the lines in
     * order: the first line whose product has fewer units than it asks for
     * stops the walk, and the orders already created stay. Every line before
     * it becomes an order with status "Pagado". No stock is taken, and the
     * cart is emptied only when every line got through.
     */
    method FinishPurchase(user: UserId, isPost: bool, now: nat) returns (reply: Reply)
      requires Valid()
      modifies this
      ensures Valid()
      ensures products == old(products) && carts == old(carts) && nextCart == old(nextCart) && nextItem == old(nextItem)
      ensures history == old(history) && logs == old(logs) && covers == old(covers)
      ensures !isPost ==> reply == NotPost
      ensures isPost && old(CartOf(user)).None? ==> reply == NotFound
      ensures isPost && old(CartOf(user)).Some? && old(LinesFor(user)) == [] ==> reply == EmptyCart
      ensures !isPost || old(CartOf(user)).None? || old(LinesFor(user)) == [] ==>
                orders == old(orders) && nextOrder == old(nextOrder) && items == old(items)
      ensures isPost && old(CartOf(user)).Some? && old(LinesFor(user)) != [] ==>
                var lines := old(LinesFor(user));
                var k := Served(lines, products);
                && orders == old(orders) + PlacedOrders(lines[..k], products, user, old(nextOrder), now, None, CapitalPaid)
                && nextOrder == old(nextOrder) + k
                && (k == |lines| ==> reply == Done && items == WithoutCart(old(items), old(CartOf(user)).value))
                && (k < |lines| ==> reply == NoStock(lines[k].product) && items == old(items))
    {
      if !isPost {
        return NotPost;
      }
      var found := CartIndex(carts, user);
      if found.None? {
        return NotFound;
      }
      var cart := carts[found.value].id;
      var lines := LinesOf(items, cart);
      assert lines == LinesFor(user);
      if |lines| == 0 {
        return EmptyCart;
      }
      var k := PlaceUntilShort(lines, user, None, CapitalPaid, now);
      if k < |lines| {
        return NoStock(lines[k].product);
      }
      assert lines[..k] == lines;
      assert items == old(items) && cart == old(CartOf(user)).value;
      ClearCart(cart);
      reply := Done;
    }

    /**
     * The loop of `finalizar_compra` (cart views): one order per line, in
     * order, until the first line whose product has fewer units than the line
     * asks for. Returns how many lines became orders.
     */
    method PlaceUntilShort(lines: seq<CartItem>, user: UserId, payment: Option<string>, state: string, now: nat)
      returns (k: nat)
      requires Valid() && PricedBy(lines, products)
      modifies this
      ensures Valid()
      ensures products == old(products) && CartTables() == old(CartTables())
      ensures history == old(history) && logs == old(logs) && covers == old(covers)
      ensures k == Served(lines, products)
      ensures orders == old(orders) + PlacedOrders(lines[..k], products, user, old(nextOrder), now, payment, state)
      ensures nextOrder == old(nextOrder) + k
    {
      var i := 0;
      while i < |lines|
        invariant 0 <= i <= |lines|
        invariant Valid()
        invariant products == old(products) && CartTables() == old(CartTables())
        invariant history == old(history) && logs == old(logs) && covers == old(covers)
        invariant forall j :: 0 <= j < i ==> InStock(lines[j], products)
        invariant orders == old(orders) + PlacedOrders(lines[..i], products, user, old(nextOrder), now, payment, state)
        invariant nextOrder == old(nextOrder) + i
      {
        var line := lines[i];
        if products[line.product].stock < line.quantity {
          ServedStopsAt(lines, products, i);
          return i;
        }
        PlaceLine(lines, i, user, payment, state, now, products, old(orders), old(nextOrder));
        i := i + 1;
      }
      ServedStopsAt(lines, products, i);
      return i;
    }

    /**
     * `MetodoPagoView.post`. No method re-shows the page; no cart is a 404;
     * an empty cart, or any line short of stock, stops before anything is
     * written. "mercadopago" in any letter case only builds the preference
     * (returned in `sent`) and follows the gateway's answer, writing nothing.
     * Any other method turns every line into a "pendiente" order with that
     * method, takes each line's units off its product through
     * `descontar_stock`, and empties the cart. A method longer than the
     * column makes the first insert fail when the database checks lengths.
     */
    method ChoosePaymentMethod(user: UserId, choice: string, siteUrl: string, gateway: GatewayReply, now: nat)
      returns (reply: Reply, sent: Option<Preference>)
      requires Valid()
      modifies this
      ensures Valid()
      ensures carts == old(carts) && nextCart == old(nextCart) && nextItem == old(nextItem)
      ensures history == old(history) && logs == old(logs) && covers == old(covers)
      ensures choice == "" ==> reply == NoMethod
      ensures choice != "" && old(CartOf(user)).None? ==> reply == NotFound
      ensures choice != "" && old(CartOf(user)).Some? && old(LinesFor(user)) == [] ==> reply == EmptyCart
      ensures choice != "" && old(CartOf(user)).Some? && old(LinesFor(user)) != [] ==>
                var lines := old(LinesFor(user));
                && (FirstShort(lines, old(products)).Some? ==> reply == NoStock(lines[FirstShort(lines, old(products)).value].product))
                && (FirstShort(lines, old(products)).None? && IsMercadoPago(choice) ==>
                      && sent == Some(PreferenceFor(lines, old(products), user, siteUrl))
                      && reply == (if Redirection(gateway).Some? then RedirectTo(Redirection(gateway).value) else GatewayError))
                && (FirstShort(lines, old(products)).None? && !IsMercadoPago(choice) ==>
                      reply == (if boundedText && |choice| > MethodLength then ServerError else Done))
      ensures reply != Done ==> Snapshot() == old(Snapshot())
      ensures reply == Done ==>
                var lines := old(LinesFor(user));
                && sent == None
                && old(CartOf(user)).Some? && lines != []
                && products == Discounted(old(products), lines)
                && orders == old(orders) + PlacedOrders(lines, old(products), user, old(nextOrder), now, Some(choice), Pending)
                && nextOrder == old(nextOrder) + |lines|
                && items == WithoutCart(old(items), old(CartOf(user)).value)
    {
      sent := None;
      if choice == "" {
        return NoMethod, None;
      }
      var found := CartIndex(carts, user);
      if found.None? {
        return NotFound, None;
      }
      var cart := carts[found.value].id;
      var lines := LinesOf(items, cart);
      assert lines == LinesFor(user);
      if |lines| == 0 {
        return EmptyCart, None;
      }
      var short := FirstShort(lines, products);
      if short.Some? {
        return NoStock(lines[short.value].product), None;
      }
      if IsMercadoPago(choice) {
        sent := Some(PreferenceFor(lines, products, user, siteUrl));
        var url := Redirection(gateway);
        reply := if url.Some? then RedirectTo(url.value) else GatewayError;
        return;
      }
      if boundedText && |choice| > MethodLength {
        return ServerError, None;
      }
      PlacePending(lines, user, choice, now);
      assert items == old(items) && cart == old(CartOf(user)).value;
      ClearCart(cart);
      reply := Done;
    }

    /**
     * The loop of `MetodoPagoView.post`: for each line in turn, one
     * "pendiente" order with the chosen method, then `descontar_stock` of the
     * line's units.
     */
    method PlacePending(lines: seq<CartItem>, user: UserId, choice: string, now: nat)
      requires Valid() && PricedBy(lines, products) && DistinctProducts(lines)
      modifies this
      ensures Valid()
      ensures CartTables() == old(CartTables()) && history == old(history) && logs == old(logs) && covers == old(covers)
      ensures products == Discounted(old(products), lines)
      ensures orders == old(orders) + PlacedOrders(lines, old(products), user, old(nextOrder), now, Some(choice), Pending)
      ensures nextOrder == old(nextOrder) + |lines|
    {
      assert lines[..0] == [];
      var i := 0;
      while i < |lines|
        invariant 0 <= i <= |lines|
        invariant Valid()
        invariant CartTables() == old(CartTables())
        invariant history == old(history) && logs == old(logs) && covers == old(covers)
        invariant PricedBy(lines[..i], old(products)) && products == Discounted(old(products), lines[..i])
        invariant orders == old(orders) + PlacedOrders(lines[..i], old(products), user, old(nextOrder), now, Some(choice), Pending)
        invariant nextOrder == old(nextOrder) + i
      {
        DiscountedUntouched(old(products), lines, i);
        PlaceLine(lines, i, user, Some(choice), Pending, now, old(products), old(orders), old(nextOrder));
        DiscountLineStock(lines, i, old(products));
        i := i + 1;
      }
      assert lines[..i] == lines;
    }

    /**
     * `ConfirmacionPagoView.get_context_data`, where Mercado Pago sends the
     * customer back. Only the status "approved" with a cart that has lines
     * writes anything: each line in turn, unless its product has fewer units
     * than it asks for, becomes a "pagado" order paid by "MercadoPago" and
     * then goes through `descontar_stock`. A short line ends the walk, and the
     * orders and the stock taken so far stay; the cart is emptied only when
     * every line got through. The page shows "MercadoPago" whenever the
     * status is "approved", and otherwise the method kept in the session.
     */
    method ConfirmPayment(user: UserId, status: string, sessionMethod: Option<string>, now: nat)
      returns (shown: string)
      requires Valid()
      modifies this
      ensures Valid()
      ensures carts == old(carts) && nextCart == old(nextCart) && nextItem == old(nextItem)
      ensures history == old(history) && logs == old(logs) && covers == old(covers)
      ensures status == "approved" ==> shown == MercadoPago
      ensures status != "approved" ==> shown == (if sessionMethod.Some? then sessionMethod.value else UndefinedMethod)
      ensures status != "approved" || old(CartOf(user)).None? || old(LinesFor(user)) == [] ==> Snapshot() == old(Snapshot())
      ensures status == "approved" && old(CartOf(user)).Some? && old(LinesFor(user)) != [] ==>
                var lines := old(LinesFor(user));
                var k := Served(lines, old(products));
                && products == Discounted(old(products), lines[..k])
                && orders == old(orders) + PlacedOrders(lines[..k], old(products), user, old(nextOrder), now, Some(MercadoPago), Paid)
                && nextOrder == old(nextOrder) + k
                && items == (if k == |lines| then WithoutCart(old(items), old(CartOf(user)).value) else old(items))
    {
      if status != "approved" {
        return if sessionMethod.Some? then sessionMethod.value else UndefinedMethod;
      }
      shown := MercadoPago;
      var found := CartIndex(carts, user);
      if found.None? {
        return;
      }
      var cart := carts[found.value].id;
      var lines := LinesOf(items, cart);
      assert lines == LinesFor(user);
      if |lines| == 0 {
        return;
      }
      var k := PlacePaidUntilShort(lines, user, Some(MercadoPago), Paid, now);
      if k == |lines| {
        assert items == old(items) && cart == old(CartOf(user)).value;
        ClearCart(cart);
      }
    }

    /**
     * The loop of the confirmation page: for each line in turn, the stock
     * check on the product as the walk finds it, one "pagado" order paid by
     * "MercadoPago", then `descontar_stock` of the line's units. Returns how
     * many lines went through.
     */
    method PlacePaidUntilShort(lines: seq<CartItem>, user: UserId, payment: Option<string>, state: string, now: nat)
      returns (k: nat)
      requires Valid() && PricedBy(lines, products) && DistinctProducts(lines)
      modifies this
      ensures Valid()
      ensures CartTables() == old(CartTables()) && history == old(history) && logs == old(logs) && covers == old(covers)
      ensures k == Served(lines, old(products))
      ensures products == Discounted(old(products), lines[..k])
      ensures orders == old(orders) + PlacedOrders(lines[..k], old(products), user, old(nextOrder), now, payment, state)
      ensures nextOrder == old(nextOrder) + k
    {
      assert lines[..0] == [];
      var i := 0;
      while i < |lines|
        invariant 0 <= i <= |lines|
        invariant Valid()
        invariant CartTables() == old(CartTables())
        invariant history == old(history) && logs == old(logs) && covers == old(covers)
        invariant i <= Served(lines, old(products))
        invariant PricedBy(lines[..i], old(products)) && products == Discounted(old(products), lines[..i])
        invariant orders == old(orders) + PlacedOrders(lines[..i], old(products), user, old(nextOrder), now, payment, state)
        invariant nextOrder == old(nextOrder) + i
      {
        var served := ServePaidLine(lines, i, user, payment, state, now, old(products), old(orders), old(nextOrder));
        if !served {
          ServedStopsAt(lines, old(products), i);
          return i;
        }
        ServedPast(lines, old(products), i);
        i := i + 1;
      }
      ServedStopsAt(lines, old(products), i);
      return i;
    }

    /**
     * One step of the confirmation loop: the stock check on line `i`, then
     * its "pagado" order and `descontar_stock`. A short line writes nothing.
     */
    method ServePaidLine(lines: seq<CartItem>, i: nat, user: UserId, payment: Option<string>, state: string, now: nat,
                         ghost p0: map<ProductId, Product>, ghost o0: seq<Order>, ghost n0: nat) returns (served: bool)
      requires Valid() && PricedBy(lines, p0) && DistinctProducts(lines) && i < |lines|
      requires PricedBy(lines[..i], p0) && products == Discounted(p0, lines[..i])
      requires orders == o0 + PlacedOrders(lines[..i], p0, user, n0, now, payment, state) && nextOrder == n0 + i
      modifies this
      ensures Valid()
      ensures CartTables() == old(CartTables()) && history == old(history) && logs == old(logs) && covers == old(covers)
      ensures served <==> InStock(lines[i], p0)
      ensures !served ==> products == old(products) && orders == old(orders) && nextOrder == old(nextOrder)
      ensures served ==>
                && PricedBy(lines[..i + 1], p0) && products == Discounted(p0, lines[..i + 1])
                && orders == o0 + PlacedOrders(lines[..i + 1], p0, user, n0, now, payment, state)
                && nextOrder == n0 + i + 1
    {
      DiscountedUntouched(p0, lines, i);
      if products[lines[i].product].stock < lines[i].quantity {
        return false;
      }
      PlaceLine(lines, i, user, payment, state, now, p0, o0, n0);
      DiscountLineStock(lines, i, p0);
      served := true;
    }

    /** `pedido.save()` of an existing order: the row at `k` is replaced, keeping its key and product. */
    method SaveOrder(k: nat, o: Order)
      requires Valid() && k < |orders| && o.id == orders[k].id && o.product == orders[k].product
      modifies this
      ensures Valid()
      ensures orders == old(orders)[k := o]
      ensures products == old(products) && CartTables() == old(CartTables()) && covers == old(covers)
      ensures nextOrder == old(nextOrder) && history == old(history) && logs == old(logs)
    {
      OrdersResave(orders, products, nextOrder, history, logs, k, o);
      orders := orders[k := o];
    }

    /**
     * `mercado_pago_webhook`, with the provider's answer as a parameter. When
     * `Webhook` decides to record, the order at that position gets the mapped
     * status and "MercadoPago" as its method; every other request answers
     * without writing.
     */
    method PaymentWebhook(isPost: bool, body: Notification, lookup: PaymentLookup) returns (code: int)
      requires Valid()
      modifies this
      ensures Valid()
      ensures products == old(products) && CartTables() == old(CartTables()) && covers == old(covers)
      ensures nextOrder == old(nextOrder) && history == old(history) && logs == old(logs)
      ensures Webhook(isPost, body, lookup, old(orders), boundedText).Answer? ==>
                code == Webhook(isPost, body, lookup, old(orders), boundedText).code && orders == old(orders)
      ensures Webhook(isPost, body, lookup, old(orders), boundedText).Record? ==>
                var a := Webhook(isPost, body, lookup, old(orders), boundedText);
                && code == 200
                && orders == old(orders)[a.index := old(orders)[a.index].(state := a.state, paymentMethod := Some(MercadoPago))]
    {
      var action := Webhook(isPost, body, lookup, orders, boundedText);
      match action
      case Answer(c) =>
        code := c;
      case Record(k, st) =>
        SaveOrder(k, orders[k].(state := st, paymentMethod := Some(MercadoPago)));
        code := 200;
    }

    /**
     * `marcar_como_entregado` (staff only; a missing order is a 404). An
     * order already "entregado", or one whose product has fewer units than it
     * holds, changes nothing. Otherwise the order's units are taken off its
     * product, whether or not they were taken when it was placed; one history
     * row from the order's status to "entregado" and one "entregado" log row
     * are appended; and the order becomes "entregado".
     */
    method MarkDelivered(isStaff: bool, caller: UserId, pk: OrderId, now: nat) returns (reply: Reply)
      requires Valid()
      modifies this
      ensures Valid()
      ensures CartTables() == old(CartTables()) && covers == old(covers) && nextOrder == old(nextOrder)
      ensures !isStaff ==> reply == NotStaff
      ensures isStaff && OrderIndex(old(orders), pk).None? ==> reply == NotFound
      ensures isStaff && OrderIndex(old(orders), pk).Some? ==>
                var k := OrderIndex(old(orders), pk).value;
                var o := old(orders)[k];
                && o.product in old(products)
                && (CheckDelivery(o, old(products)[o.product].stock) == WasDelivered ==> reply == AlreadyDelivered)
                && (CheckDelivery(o, old(products)[o.product].stock) == CannotCover ==> reply == NoStock(o.product))
                && (CheckDelivery(o, old(products)[o.product].stock) == CanDeliver ==>
                      && reply == Done
                      && products == DeliveredStock(old(products), o)
                      && history == old(history) + [HistoryEntry(pk, o.state, Delivered, caller, now)]
                      && logs == old(logs) + [LogEntry(pk, caller, DeliveredAction, now)]
                      && orders == old(orders)[k := o.(state := Delivered)])
      ensures reply != Done ==> Snapshot() == old(Snapshot())
    {
      if !isStaff {
        return NotStaff;
      }
      var found := OrderIndex(orders, pk);
      if found.None? {
        return NotFound;
      }
      var k := found.value;
      var o := orders[k];
      var check := CheckDelivery(o, products[o.product].stock);
      if check == WasDelivered {
        return AlreadyDelivered;
      }
      if check == CannotCover {
        return NoStock(o.product);
      }
      Deliver(k, caller, now);
      reply := Done;
    }

    /** The writes of `marcar_como_entregado` once both checks have passed, in the order the view makes them. */
    method Deliver(k: nat, caller: UserId, now: nat)
      requires Valid() && k < |orders| && CheckDelivery(orders[k], products[orders[k].product].stock) == CanDeliver
      modifies this
      ensures Valid()
      ensures CartTables() == old(CartTables()) && covers == old(covers) && nextOrder == old(nextOrder)
      ensures products == DeliveredStock(old(products), old(orders)[k])
      ensures history == old(history) + [HistoryEntry(old(orders)[k].id, old(orders)[k].state, Delivered, caller, now)]
      ensures logs == old(logs) + [LogEntry(old(orders)[k].id, caller, DeliveredAction, now)]
      ensures orders == old(orders)[k := old(orders)[k].(state := Delivered)]
    {
      var o := orders[k];
      var _ := WriteStock(o.product, products[o.product].stock - o.quantity);
      RecordHistory(o.id, o.state, Delivered, caller, now);
      RecordLog(o.id, caller, DeliveredAction, now);
      SaveOrder(k, o.(state := Delivered));
    }

    /**
     * `PedidoEstadoUpdateView` (staff only; a missing order is a 404). The
     * form accepts any of the five choices, whatever the current status, and
     * shows itself again for anything else. A valid post saves the status,
     * then appends the history row and the log row of `StateChangeAsWritten`:
     * form validation has already put the posted status into the instance the
     * view reads the previous status from, so both rows go from the posted
     * status to itself. Stock is not touched.
     */
    method UpdateState(isStaff: bool, caller: UserId, pk: OrderId, posted: string, now: nat) returns (reply: Reply)
      requires Valid()
      modifies this
      ensures Valid()
      ensures products == old(products) && CartTables() == old(CartTables()) && covers == old(covers)
      ensures nextOrder == old(nextOrder)
      ensures !isStaff ==> reply == NotStaff
      ensures isStaff && OrderIndex(old(orders), pk).None? ==> reply == NotFound
      ensures isStaff && OrderIndex(old(orders), pk).Some? && posted !in States ==> reply == InvalidState
      ensures isStaff && OrderIndex(old(orders), pk).Some? && posted in States ==>
                var k := OrderIndex(old(orders), pk).value;
                var o := old(orders)[k];
                && reply == Done
                && orders == old(orders)[k := o.(state := posted)]
                && history == old(history) + [StateChangeAsWritten(o, posted, caller, now).0]
                && logs == old(logs) + [StateChangeAsWritten(o, posted, caller, now).1]
      ensures reply != Done ==> OrderTables() == old(OrderTables())
    {
      if !isStaff {
        return NotStaff;
      }
      var found := OrderIndex(orders, pk);
      if found.None? {
        return NotFound;
      }
      if posted !in States {
        return InvalidState;
      }
      var k := found.value;
      var o := orders[k];
      var rows := StateChangeAsWritten(o, posted, caller, now);
      SaveOrder(k, o.(state := posted));
      assert orders[k].id == pk;
      RecordHistory(rows.0.order, rows.0.previous, rows.0.next, rows.0.user, rows.0.at);
      RecordLog(rows.1.order, rows.1.user, rows.1.action, rows.1.at);
      reply := Done;
    }

    /**
     * The status form of the cart-era views module: the same checks and the
     * same save, then only the history row of `StateChangeAsWritten`, from the
     * posted status to itself; no log row is written.
     */
    method LegacyUpdateState(isStaff: bool, caller: UserId, pk: OrderId, posted: string, now: nat) returns (reply: Reply)
      requires Valid()
      modifies this
      ensures Valid()
      ensures products == old(products) && CartTables() == old(CartTables()) && covers == old(covers)
      ensures nextOrder == old(nextOrder) && logs == old(logs)
      ensures !isStaff ==> reply == NotStaff
      ensures isStaff && OrderIndex(old(orders), pk).None? ==> reply == NotFound
      ensures isStaff && OrderIndex(old(orders), pk).Some? && posted !in States ==> reply == InvalidState
      ensures isStaff && OrderIndex(old(orders), pk).Some? && posted in States ==>
                var k := OrderIndex(old(orders), pk).value;
                var o := old(orders)[k];
                && reply == Done
                && orders == old(orders)[k := o.(state := posted)]
                && history == old(history) + [StateChangeAsWritten(o, posted, caller, now).0]
      ensures reply != Done ==> OrderTables() == old(OrderTables())
    {
      if !isStaff {
        return NotStaff;
      }
      var found := OrderIndex(orders, pk);
      if found.None? {
        return NotFound;
      }
      if posted !in States {
        return InvalidState;
      }
      var k := found.value;
      var o := orders[k];
      var entry := StateChangeAsWritten(o, posted, caller, now).0;
      SaveOrder(k, o.(state := posted));
      assert orders[k].id == pk;
      RecordHistory(entry.order, entry.previous, entry.next, entry.user, entry.at);
      reply := Done;
    }

    /** `pedido.delete()`: the order goes, and its history and log rows go with it (`on_delete=CASCADE`). */
    method DeleteOrderRows(pk: OrderId)
      requires Valid()
      modifies this
      ensures Valid()
      ensures orders == Filter(old(orders), OtherOrder(pk))
      ensures history == Filter(old(history), OtherHistory(pk))
      ensures logs == Filter(old(logs), OtherLog(pk))
      ensures products == old(products) && CartTables() == old(CartTables()) && covers == old(covers)
      ensures nextOrder == old(nextOrder)
    {
      OrdersDelete(orders, products, nextOrder, history, logs, pk);
      orders, history, logs := Filter(orders, OtherOrder(pk)), Filter(history, OtherHistory(pk)), Filter(logs, OtherLog(pk));
    }

    /**
     * `eliminar_pedido` (staff only; a missing order is a 404): one
     * "eliminado" log row, then the deletion with its cascade. The stock the
     * order took is not given back.
     */
    method DeleteOrder(isStaff: bool, caller: UserId, pk: OrderId, now: nat) returns (reply: Reply)
      requires Valid()
      modifies this
      ensures Valid()
      ensures products == old(products) && CartTables() == old(CartTables()) && covers == old(covers)
      ensures nextOrder == old(nextOrder)
      ensures !isStaff ==> reply == NotStaff && OrderTables() == old(OrderTables())
      ensures isStaff && OrderIndex(old(orders), pk).None? ==> reply == NotFound && OrderTables() == old(OrderTables())
      ensures isStaff && OrderIndex(old(orders), pk).Some? ==>
                && reply == Done
                && orders == Filter(old(orders), OtherOrder(pk))
                && history == Filter(old(history), OtherHistory(pk))
                && logs == Filter(old(logs) + [LogEntry(pk, caller, DeletedAction, now)], OtherLog(pk))
    {
      if !isStaff {
        return NotStaff;
      }
      var found := OrderIndex(orders, pk);
      if found.None? {
        return NotFound;
      }
      assert orders[found.value].id == pk;
      RecordLog(pk, caller, DeletedAction, now);
      DeleteOrderRows(pk);
      reply := Done;
    }

    /**
     * `producto.stock -= item.cantidad; producto.save()` for line `i` of a
     * legacy checkout, on the product row as it was before the walk. The
     * save fails exactly when the line asks for more than the stock (the
     * database's check on the unsigned column), and then nothing is written.
     */
    method WriteLineStock(lines: seq<CartItem>, i: nat, ghost p0: map<ProductId, Product>) returns (saved: bool)
      requires Valid() && PricedBy(lines, p0) && DistinctProducts(lines) && i < |lines|
      requires PricedBy(lines[..i], p0) && products == Discounted(p0, lines[..i])
      modifies this
      ensures Valid()
      ensures saved <==> InStock(lines[i], p0)
      ensures saved ==> PricedBy(lines[..i + 1], p0) && products == Discounted(p0, lines[..i + 1])
      ensures !saved ==> products == old(products)
      ensures CartTables() == old(CartTables()) && OrderTables() == old(OrderTables()) && covers == old(covers)
    {
      DiscountedUntouched(p0, lines, i);
      DiscountedStep(p0, lines, i);
      saved := WriteStock(lines[i].product, products[lines[i].product].stock - lines[i].quantity);
    }

    /**
     * The effective `finalizar_compra` of the cart-era views module. A GET,
     * no cart and a cart with no lines end before anything is written, and
     * so does a line short of stock: every line is checked first. Then each
     * line becomes a "pendiente" order at the product's price and the
     * product's stock drops by the line's units, and the lines are deleted.
     */
    method LegacyFinishPurchase(user: UserId, isPost: bool, now: nat) returns (reply: Reply)
      requires Valid()
      modifies this
      ensures Valid()
      ensures carts == old(carts) && nextCart == old(nextCart) && nextItem == old(nextItem)
      ensures history == old(history) && logs == old(logs) && covers == old(covers)
      ensures !isPost ==> reply == NotPost
      ensures isPost && (old(CartOf(user)).None? || old(LinesFor(user)) == []) ==> reply == EmptyCart
      ensures isPost && old(CartOf(user)).Some? && old(LinesFor(user)) != [] ==>
                var lines := old(LinesFor(user));
                && (FirstShort(lines, old(products)).Some? ==> reply == NoStock(lines[FirstShort(lines, old(products)).value].product))
                && (FirstShort(lines, old(products)).None? ==> reply == Done)
      ensures reply != Done ==> Snapshot() == old(Snapshot())
      ensures reply == Done ==>
                var lines := old(LinesFor(user));
                && old(CartOf(user)).Some? && lines != []
                && Coverable(old(products), lines)
                && products == StockAfter(old(products), lines)
                && orders == old(orders) + PlacedOrders(lines, old(products), user, old(nextOrder), now, None, Pending)
                && nextOrder == old(nextOrder) + |lines|
                && items == WithoutCart(old(items), old(CartOf(user)).value)
    {
      if !isPost {
        return NotPost;
      }
      var found := CartIndex(carts, user);
      if found.None? {
        return EmptyCart;
      }
      var cart := carts[found.value].id;
      var lines := LinesOf(items, cart);
      assert lines == LinesFor(user);
      if |lines| == 0 {
        return EmptyCart;
      }
      var short := FirstShort(lines, products);
      if short.Some? {
        return NoStock(lines[short.value].product);
      }
      DiscountedIsStockAfter(products, lines);
      PlaceAndWrite(lines, user, now);
      assert items == old(items) && cart == old(CartOf(user)).value;
      ClearCart(cart);
      reply := Done;
    }

    /** The second loop of the legacy checkout: for each line, its order, then the stock write. */
    method PlaceAndWrite(lines: seq<CartItem>, user: UserId, now: nat)
      requires Valid() && PricedBy(lines, products) && DistinctProducts(lines)
      requires forall j :: 0 <= j < |lines| ==> InStock(lines[j], products)
      modifies this
      ensures Valid()
      ensures CartTables() == old(CartTables()) && history == old(history) && logs == old(logs) && covers == old(covers)
      ensures products == Discounted(old(products), lines)
      ensures orders == old(orders) + PlacedOrders(lines, old(products), user, old(nextOrder), now, None, Pending)
      ensures nextOrder == old(nextOrder) + |lines|
    {
      assert lines[..0] == [];
      var i := 0;
      while i < |lines|
        invariant 0 <= i <= |lines|
        invariant Valid()
        invariant CartTables() == old(CartTables())
        invariant history == old(history) && logs == old(logs) && covers == old(covers)
        invariant PricedBy(lines[..i], old(products)) && products == Discounted(old(products), lines[..i])
        invariant orders == old(orders) + PlacedOrders(lines[..i], old(products), user, old(nextOrder), now, None, Pending)
        invariant nextOrder == old(nextOrder) + i
      {
        DiscountedUntouched(old(products), lines, i);
        PlaceLine(lines, i, user, None, Pending, now, old(products), old(orders), old(nextOrder));
        var _ := WriteLineStock(lines, i, old(products));
        i := i + 1;
      }
      assert lines[..i] == lines;
    }

    /**
     * The first `finalizar_compra` of the cart-era views module, which the
     * second one replaces: a GET changes nothing, no cart is a 404, and a
     * cart with no lines changes nothing. Each line then becomes a
     * "pendiente" order before its stock is written with no check; the first
     * line asking for more than its product has makes that write fail, and
     * the error escapes the view with that line's order already created and
     * the cart left as it was.
     */
    method LegacyFinishPurchaseUnchecked(user: UserId, isPost: bool, now: nat) returns (reply: Reply)
      requires Valid()
      modifies this
      ensures Valid()
      ensures carts == old(carts) && nextCart == old(nextCart) && nextItem == old(nextItem)
      ensures history == old(history) && logs == old(logs) && covers == old(covers)
      ensures !isPost ==> reply == NotPost
      ensures isPost && old(CartOf(user)).None? ==> reply == NotFound
      ensures isPost && old(CartOf(user)).Some? && old(LinesFor(user)) == [] ==> reply == EmptyCart
      ensures !isPost || old(CartOf(user)).None? || old(LinesFor(user)) == [] ==> Snapshot() == old(Snapshot())
      ensures isPost && old(CartOf(user)).Some? && old(LinesFor(user)) != [] ==>
                var lines := old(LinesFor(user));
                var k := Served(lines, old(products));
                && products == Discounted(old(products), lines[..k])
                && (k == |lines| ==>
                      && reply == Done
                      && orders == old(orders) + PlacedOrders(lines, old(products), user, old(nextOrder), now, None, Pending)
                      && nextOrder == old(nextOrder) + |lines|
                      && items == WithoutCart(old(items), old(CartOf(user)).value))
                && (k < |lines| ==>
                      && reply == ServerError
                      && orders == old(orders) + PlacedOrders(lines[..k + 1], old(products), user, old(nextOrder), now, None, Pending)
                      && nextOrder == old(nextOrder) + k + 1
                      && items == old(items))
    {
      if !isPost {
        return NotPost;
      }
      var found := CartIndex(carts, user);
      if found.None? {
        return NotFound;
      }
      var cart := carts[found.value].id;
      var lines := LinesOf(items, cart);
      assert lines == LinesFor(user);
      if |lines| == 0 {
        return EmptyCart;
      }
      var k := PlaceAndWriteUnchecked(lines, user, now);
      if k < |lines| {
        return ServerError;
      }
      assert lines[..k] == lines;
      assert items == old(items) && cart == old(CartOf(user)).value;
      ClearCart(cart);
      reply := Done;
    }

    /** The loop of the first legacy checkout: order first, then the unchecked stock write; a failed write ends the walk. */
    method PlaceAndWriteUnchecked(lines: seq<CartItem>, user: UserId, now: nat) returns (k: nat)
      requires Valid() && PricedBy(lines, products) && DistinctProducts(lines)
      modifies this
      ensures Valid()
      ensures CartTables() == old(CartTables()) && history == old(history) && logs == old(logs) && covers == old(covers)
      ensures k == Served(lines, old(products))
      ensures products == Discounted(old(products), lines[..k])
      ensures k == |lines| ==>
                && orders == old(orders) + PlacedOrders(lines, old(products), user, old(nextOrder), now, None, Pending)
                && nextOrder == old(nextOrder) + |lines|
      ensures k < |lines| ==>
                && orders == old(orders) + PlacedOrders(lines[..k + 1], old(products), user, old(nextOrder), now, None, Pending)
                && nextOrder == old(nextOrder) + k + 1
    {
      assert lines[..0] == [];
      var i := 0;
      while i < |lines|
        invariant 0 <= i <= |lines|
        invariant Valid()
        invariant CartTables() == old(CartTables())
        invariant history == old(history) && logs == old(logs) && covers == old(covers)
        invariant i <= Served(lines, old(products))
        invariant PricedBy(lines[..i], old(products)) && products == Discounted(old(products), lines[..i])
        invariant orders == old(orders) + PlacedOrders(lines[..i], old(products), user, old(nextOrder), now, None, Pending)
        invariant nextOrder == old(nextOrder) + i
      {
        var saved := PlaceThenWrite(lines, i, user, now, old(products), old(orders), old(nextOrder));
        if !saved {
          ServedStopsAt(lines, old(products), i);
          return i;
        }
        ServedPast(lines, old(products), i);
        i := i + 1;
      }
      ServedStopsAt(lines, old(products), i);
      assert lines[..i] == lines;
      return i;
    }

    /** One step of the first legacy checkout: the order of line `i`, then the unchecked write of its stock. */
    method PlaceThenWrite(lines: seq<CartItem>, i: nat, user: UserId, now: nat,
                          ghost p0: map<ProductId, Product>, ghost o0: seq<Order>, ghost n0: nat) returns (saved: bool)
      requires Valid() && PricedBy(lines, p0) && DistinctProducts(lines) && i < |lines|
      requires PricedBy(lines[..i], p0) && products == Discounted(p0, lines[..i])
      requires orders == o0 + PlacedOrders(lines[..i], p0, user, n0, now, None, Pending) && nextOrder == n0 + i
      modifies this
      ensures Valid()
      ensures CartTables() == old(CartTables()) && history == old(history) && logs == old(logs) && covers == old(covers)
      ensures orders == o0 + PlacedOrders(lines[..i + 1], p0, user, n0, now, None, Pending) && nextOrder == n0 + i + 1
      ensures saved <==> InStock(lines[i], p0)
      ensures saved ==> PricedBy(lines[..i + 1], p0) && products == Discounted(p0, lines[..i + 1])
      ensures !saved ==> products == old(products)
    {
      DiscountedUntouched(p0, lines, i);
      PlaceLine(lines, i, user, None, Pending, now, p0, o0, n0);
      saved := WriteLineStock(lines, i, p0);
    }

    /**
     * The cover loop of the product create and update views: one cover row
     * per uploaded file, in upload order, for at most the first five files.
     */
    method AttachCovers(pid: ProductId, files: seq<string>)
      requires Valid()
      modifies this
      ensures Valid()
      ensures covers == old(covers) + CoversFor(pid, files)
      ensures products == old(products) && CartTables() == old(CartTables()) && OrderTables() == old(OrderTables())
    {
      var chosen := Take(files, CoverLimit);
      var i := 0;
      while i < |chosen|
        invariant 0 <= i <= |chosen|
        invariant products == old(products) && CartTables() == old(CartTables()) && OrderTables() == old(OrderTables())
        invariant |covers| == |old(covers)| + i && covers[..|old(covers)|] == old(covers)
        invariant forall j :: 0 <= j < i ==> covers[|old(covers)| + j] == Cover(pid, chosen[j])
      {
        covers := covers + [Cover(pid, chosen[i])];
        i := i + 1;
      }
      assert covers == old(covers) + CoversFor(pid, files);
    }
}
}
