/**
 * The database as the handlers see it: each table a sequence of rows in
 * primary-key order (keys are handed out by a counter and only grow), the
 * products a map from key to row. The lookups are the ORM queries the
 * handlers issue (`get`, `filter(...).first()`, `get_or_create`), and the
 * consistency predicates are the invariants the schema and the handlers keep.
 */
module Tables {
  import opened Util
  import opened Catalog
  import opened Sales

  predicate CartBefore(a: Cart, b: Cart) { a.id < b.id }
  predicate ItemBefore(a: CartItem, b: CartItem) { a.id < b.id }
  predicate OrderBefore(a: Order, b: Order) { a.id < b.id }
  /** Two lines never hold the same product in the same cart (`get_or_create` on `(carrito, producto)`). */
  predicate DistinctLines(a: CartItem, b: CartItem) { a.cart != b.cart || a.product != b.product }

  ghost predicate ProductsKeyed(products: map<ProductId, Product>)
  {
    forall pid :: pid in products ==> products[pid].id == pid
  }

  ghost predicate CartsValid(carts: seq<Cart>, nextCart: nat)
  {
    && Pairwise(carts, CartBefore)
    && (forall i :: 0 <= i < |carts| ==> carts[i].id < nextCart)
    && OneCartPerUser(carts)
  }

  ghost predicate ItemsValid(items: seq<CartItem>, products: map<ProductId, Product>, nextItem: nat)
  {
    && Pairwise(items, ItemBefore)
    && Pairwise(items, DistinctLines)
    && (forall i :: 0 <= i < |items| ==> items[i].id < nextItem)
    && (forall i :: 0 <= i < |items| ==> items[i].product in products && items[i].quantity >= 1)
  }

  ghost predicate OrdersValid(orders: seq<Order>, products: map<ProductId, Product>, nextOrder: nat)
  {
    && Pairwise(orders, OrderBefore)
    && (forall i :: 0 <= i < |orders| ==> orders[i].id < nextOrder)
    && (forall i :: 0 <= i < |orders| ==> orders[i].product in products)
  }

  /**
   * `Carrito.objects.filter(usuario=user).first()`, as a position in the table.
   * The search runs from the end, so it finds the user's last cart
   * (`CartIndexIsLast`); under one cart per user that is also the first
   * (`CartIndexIsFirst`).
   */
  function CartIndex(carts: seq<Cart>, user: UserId): (r: Option<nat>)
    ensures r.Some? ==> r.value < |carts| && carts[r.value].owner == user
    ensures r.None? ==> forall i :: 0 <= i < |carts| ==> carts[i].owner != user
  {
    if |carts| == 0 then None
    else if carts[|carts| - 1].owner == user then Some(|carts| - 1)
    else CartIndex(carts[..|carts| - 1], user)
  }

  /** No cart after the one found belongs to the user. */
  lemma {:induction false} CartIndexIsLast(carts: seq<Cart>, user: UserId)
    requires CartIndex(carts, user).Some?
    ensures forall i :: CartIndex(carts, user).value < i < |carts| ==> carts[i].owner != user
  {
    if carts[|carts| - 1].owner != user {
      var init := carts[..|carts| - 1];
      CartIndexIsLast(init, user);
      assert forall i :: CartIndex(init, user).value < i < |init| ==> carts[i].owner != user;
    }
  }

  /** With one cart per user, the cart found is the user's only one, hence the lowest key `.first()` returns. */
  lemma CartIndexIsFirst(carts: seq<Cart>, user: UserId)
    requires OneCartPerUser(carts) && CartIndex(carts, user).Some?
    ensures forall i :: 0 <= i < |carts| && carts[i].owner == user ==> i == CartIndex(carts, user).value
  {
    CartIndexIsLast(carts, user);
  }

  /** `Model.objects.get(pk=id)` on any of the keyed tables, as a position in that table. */
  function KeyIndex<T>(rows: seq<T>, key: T -> nat, id: nat): (r: Option<nat>)
    ensures r.Some? ==> r.value < |rows| && key(rows[r.value]) == id
    ensures r.None? ==> forall i :: 0 <= i < |rows| ==> key(rows[i]) != id
  {
    if |rows| == 0 then None
    else if key(rows[|rows| - 1]) == id then Some(|rows| - 1)
    else KeyIndex(rows[..|rows| - 1], key, id)
  }

  /** `Carrito.objects.get(pk=id)`. */
  function CartById(carts: seq<Cart>, id: CartId): (r: Option<nat>)
    ensures r.Some? ==> r.value < |carts| && carts[r.value].id == id
    ensures r.None? ==> forall i :: 0 <= i < |carts| ==> carts[i].id != id
  {
    KeyIndex(carts, (c: Cart) => c.id, id)
  }

  /** `ItemCarrito.objects.get(carrito=cart, producto=product)`, as a position in the table. */
  function LineIndex(items: seq<CartItem>, cart: CartId, product: ProductId): (r: Option<nat>)
    ensures r.Some? ==> r.value < |items| && items[r.value].cart == cart && items[r.value].product == product
    ensures r.None? ==> forall i :: 0 <= i < |items| ==> !(items[i].cart == cart && items[i].product == product)
  {
    if |items| == 0 then None
    else if items[|items| - 1].cart == cart && items[|items| - 1].product == product then Some(|items| - 1)
    else LineIndex(items[..|items| - 1], cart, product)
  }

  /** `ItemCarrito.objects.get(pk=id)`. */
  function ItemIndex(items: seq<CartItem>, id: ItemId): (r: Option<nat>)
    ensures r.Some? ==> r.value < |items| && items[r.value].id == id
    ensures r.None? ==> forall i :: 0 <= i < |items| ==> items[i].id != id
  {
    KeyIndex(items, (l: CartItem) => l.id, id)
  }

  /** `Pedido.objects.get(pk=id)`. */
  function OrderIndex(orders: seq<Order>, id: OrderId): (r: Option<nat>)
    ensures r.Some? ==> r.value < |orders| && orders[r.value].id == id
    ensures r.None? ==> forall i :: 0 <= i < |orders| ==> orders[i].id != id
  {
    KeyIndex(orders, (o: Order) => o.id, id)
  }

  /** The cart line `item` belongs to a cart of `user`. */
  predicate OwnedBy(carts: seq<Cart>, item: CartItem, user: UserId)
  {
    exists c :: 0 <= c < |carts| && carts[c].id == item.cart && carts[c].owner == user
  }

  /**
   * `ItemCarrito.objects.get(id=item_id, carrito__usuario=user)`: the line with
   * that key, provided it sits in a cart of the caller; nothing otherwise.
   */
  function OwnedItemIndex(carts: seq<Cart>, items: seq<CartItem>, user: UserId, id: ItemId): (r: Option<nat>)
    requires Pairwise(items, ItemBefore) && Pairwise(carts, CartBefore)
    ensures r.Some? ==> r.value < |items| && items[r.value].id == id && OwnedBy(carts, items[r.value], user)
    ensures r.None? ==> forall i :: 0 <= i < |items| && items[i].id == id ==> !OwnedBy(carts, items[i], user)
  {
    match ItemIndex(items, id)
    case None => None
    case Some(k) =>
      match CartById(carts, items[k].cart)
      case None => None
      case Some(c) =>
        if carts[c].owner == user then Some(k)
        else
          assert forall i :: 0 <= i < |items| && i != k ==> items[i].id != items[k].id by {
            forall i | 0 <= i < |items| && i != k ensures items[i].id != items[k].id {
              if i < k { assert ItemBefore(items[i], items[k]); } else { assert ItemBefore(items[k], items[i]); }
            }
          }
          assert forall d :: 0 <= d < |carts| && d != c ==> carts[d].id != carts[c].id by {
            forall d | 0 <= d < |carts| && d != c ensures carts[d].id != carts[c].id {
              if d < c { assert CartBefore(carts[d], carts[c]); } else { assert CartBefore(carts[c], carts[d]); }
            }
          }
          None
  }

  /** `carrito.items.all()`: the lines of one cart, in key order. */
  function LinesOf(items: seq<CartItem>, cart: CartId): (r: seq<CartItem>)
    ensures forall x :: x in r <==> x in items && x.cart == cart
  {
    Filter(items, (l: CartItem) => l.cart == cart)
  }

  /** `carrito.items.all().delete()`: every line of that cart removed, the other carts' lines kept in order. */
  function WithoutCart(items: seq<CartItem>, cart: CartId): (r: seq<CartItem>)
    ensures forall x :: x in r <==> x in items && x.cart != cart
  {
    Filter(items, (l: CartItem) => l.cart != cart)
  }

  /** No product appears twice among `lines`. */
  predicate DistinctProducts(lines: seq<CartItem>)
  {
    forall i, j :: 0 <= i < j < |lines| ==> lines[i].product != lines[j].product
  }

  /** One line per product in the table means one line per product in every cart. */
  lemma LinesOfDistinct(items: seq<CartItem>, cart: CartId)
    requires Pairwise(items, DistinctLines)
    ensures DistinctProducts(LinesOf(items, cart))
  {
    var p := (l: CartItem) => l.cart == cart;
    FilterPairwise(items, p, DistinctLines);
    var lines := LinesOf(items, cart);
    forall i, j | 0 <= i < j < |lines| ensures lines[i].product != lines[j].product {
      assert DistinctLines(lines[i], lines[j]);
      assert lines[i] in lines && lines[j] in lines;
    }
  }

  /** Every line of a valid table names a known product with at least one unit. */
  lemma LinesOfPriced(items: seq<CartItem>, products: map<ProductId, Product>, cart: CartId)
    requires forall i :: 0 <= i < |items| ==> items[i].product in products && items[i].quantity >= 1
    ensures PricedBy(LinesOf(items, cart), products)
    ensures forall i :: 0 <= i < |LinesOf(items, cart)| ==> LinesOf(items, cart)[i].quantity >= 1
  {
    var lines := LinesOf(items, cart);
    forall i | 0 <= i < |lines| ensures lines[i].product in products && lines[i].quantity >= 1 {
      assert lines[i] in items;
    }
  }

  /** Some order row has key `id`: what a foreign key to `Pedido` points at. */
  ghost predicate Refers(orders: seq<Order>, id: OrderId)
  {
    exists k :: 0 <= k < |orders| && orders[k].id == id
  }

  /** Every history row and every log row belongs to an existing order. */
  ghost predicate Anchored(history: seq<HistoryEntry>, logs: seq<LogEntry>, orders: seq<Order>)
  {
    && (forall i :: 0 <= i < |history| ==> Refers(orders, history[i].order))
    && (forall i :: 0 <= i < |logs| ==> Refers(orders, logs[i].order))
  }

  /** `DELETE ... WHERE id = id` on the order table, and its cascade to the history and the log. */
  function OtherOrder(id: OrderId): Order -> bool { (o: Order) => o.id != id }
  function OtherHistory(id: OrderId): HistoryEntry -> bool { (h: HistoryEntry) => h.order != id }
  function OtherLog(id: OrderId): LogEntry -> bool { (l: LogEntry) => l.order != id }

  /** A new order row gets the next key and names a known product. */
  lemma OrdersGrow(orders: seq<Order>, products: map<ProductId, Product>, nextOrder: nat,
                   history: seq<HistoryEntry>, logs: seq<LogEntry>, o: Order)
    requires OrdersValid(orders, products, nextOrder) && Anchored(history, logs, orders)
    requires o.id == nextOrder && o.product in products
    ensures OrdersValid(orders + [o], products, nextOrder + 1) && Anchored(history, logs, orders + [o])
  {
    PairwiseAppend(orders, o, OrderBefore);
    var r := orders + [o];
    forall i | 0 <= i < |history| ensures Refers(r, history[i].order) {
      var k :| 0 <= k < |orders| && orders[k].id == history[i].order;
      assert r[k] == orders[k];
    }
    forall i | 0 <= i < |logs| ensures Refers(r, logs[i].order) {
      var k :| 0 <= k < |orders| && orders[k].id == logs[i].order;
      assert r[k] == orders[k];
    }
  }

  /** Saving an existing order again keeps its key and its product, so every invariant survives. */
  lemma OrdersResave(orders: seq<Order>, products: map<ProductId, Product>, nextOrder: nat,
                     history: seq<HistoryEntry>, logs: seq<LogEntry>, k: nat, o: Order)
    requires OrdersValid(orders, products, nextOrder) && Anchored(history, logs, orders)
    requires k < |orders| && o.id == orders[k].id && o.product == orders[k].product
    ensures OrdersValid(orders[k := o], products, nextOrder) && Anchored(history, logs, orders[k := o])
  {
    var r := orders[k := o];
    forall i, j | 0 <= i < j < |r| ensures OrderBefore(r[i], r[j]) {
      assert OrderBefore(orders[i], orders[j]);
    }
    forall i | 0 <= i < |history| ensures Refers(r, history[i].order) {
      var m :| 0 <= m < |orders| && orders[m].id == history[i].order;
      assert r[m].id == orders[m].id;
    }
    forall i | 0 <= i < |logs| ensures Refers(r, logs[i].order) {
      var m :| 0 <= m < |orders| && orders[m].id == logs[i].order;
      assert r[m].id == orders[m].id;
    }
  }

  /** Deleting an order together with its history and log rows leaves every remaining row anchored. */
  lemma OrdersDelete(orders: seq<Order>, products: map<ProductId, Product>, nextOrder: nat,
                     history: seq<HistoryEntry>, logs: seq<LogEntry>, id: OrderId)
    requires OrdersValid(orders, products, nextOrder) && Anchored(history, logs, orders)
    ensures OrdersValid(Filter(orders, OtherOrder(id)), products, nextOrder)
    ensures Anchored(Filter(history, OtherHistory(id)), Filter(logs, OtherLog(id)), Filter(orders, OtherOrder(id)))
  {
    var r := Filter(orders, OtherOrder(id));
    FilterPairwise(orders, OtherOrder(id), OrderBefore);
    forall i | 0 <= i < |r| ensures r[i].id < nextOrder && r[i].product in products {
      assert r[i] in orders;
    }
    var h := Filter(history, OtherHistory(id));
    forall i | 0 <= i < |h| ensures Refers(r, h[i].order) {
      assert h[i] in history;
      RefersKept(orders, id, h[i].order);
    }
    var l := Filter(logs, OtherLog(id));
    forall i | 0 <= i < |l| ensures Refers(r, l[i].order) {
      assert l[i] in logs;
      RefersKept(orders, id, l[i].order);
    }
  }

  /** A row that belongs to an order other than the deleted one still finds its order. */
  lemma RefersKept(orders: seq<Order>, id: OrderId, x: OrderId)
    requires Refers(orders, x) && x != id
    ensures Refers(Filter(orders, OtherOrder(id)), x)
  {
    var r := Filter(orders, OtherOrder(id));
    var m :| 0 <= m < |orders| && orders[m].id == x;
    assert orders[m] in r;
    var n :| 0 <= n < |r| && r[n] == orders[m];
  }

  /** In a consistent line table, the lines of any cart name known products, hold a unit or more, and never repeat a product. */
  lemma LinesOfValid(items: seq<CartItem>, products: map<ProductId, Product>, nextItem: nat, cart: CartId)
    ensures ItemsValid(items, products, nextItem) ==>
              && PricedBy(LinesOf(items, cart), products)
              && DistinctProducts(LinesOf(items, cart))
              && (forall i :: 0 <= i < |LinesOf(items, cart)| ==> LinesOf(items, cart)[i].quantity >= 1)
  {
    if ItemsValid(items, products, nextItem) {
      LinesOfPriced(items, products, cart);
      LinesOfDistinct(items, cart);
    }
  }

  /** Emptying one cart keeps the line table consistent. */
  lemma WithoutCartValid(items: seq<CartItem>, products: map<ProductId, Product>, nextItem: nat, cart: CartId)
    requires ItemsValid(items, products, nextItem)
    ensures ItemsValid(WithoutCart(items, cart), products, nextItem)
  {
    var p := (l: CartItem) => l.cart != cart;
    FilterPairwise(items, p, ItemBefore);
    FilterPairwise(items, p, DistinctLines);
    var r := WithoutCart(items, cart);
    forall i | 0 <= i < |r| ensures r[i].id < nextItem && r[i].product in products && r[i].quantity >= 1 {
      assert r[i] in items;
    }
  }
}
