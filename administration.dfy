/**
 * The state changes of `ventas/views/pedidos.py`, as functions of the rows
 * they read: the two checks of `marcar_como_entregado` and the stock it
 * takes, and what `eliminar_pedido` leaves once the foreign keys of the
 * history and the log have cascaded.
 */
module Administration {
  import opened Util
  import opened Catalog
  import opened Sales
  import opened Tables
  import opened Checkout

  /** The outcome of the two checks `marcar_como_entregado` makes before writing anything. */
  datatype DeliveryCheck = WasDelivered | CannotCover | CanDeliver

  /** First "already delivered", then "not enough stock for the order's units". */
  function CheckDelivery(o: Order, stock: nat): (c: DeliveryCheck)
    ensures c == WasDelivered <==> o.state == Delivered
    ensures c == CannotCover <==> o.state != Delivered && stock < o.quantity
    ensures c == CanDeliver <==> o.state != Delivered && stock >= o.quantity
  {
    if o.state == Delivered then WasDelivered
    else if stock < o.quantity then CannotCover
    else CanDeliver
  }

  /** `pedido.producto.stock -= pedido.cantidad`: the order's units leave its product, however it was paid. */
  function DeliveredStock(products: map<ProductId, Product>, o: Order): (r: map<ProductId, Product>)
    requires o.product in products && products[o.product].stock >= o.quantity
    ensures r.Keys == products.Keys
    ensures r[o.product].stock + o.quantity == products[o.product].stock
    ensures r[o.product] == products[o.product].(stock := r[o.product].stock)
    ensures forall pid :: pid in products && pid != o.product ==> r[pid] == products[pid]
  {
    products[o.product := products[o.product].(stock := products[o.product].stock - o.quantity)]
  }

  /** Once delivered, an order passes the first check no more: a second request changes nothing. */
  lemma DeliveryHappensOnce(o: Order, stock: nat)
    ensures CheckDelivery(o.(state := Delivered), stock) == WasDelivered
  {
  }

  /**
   * An order of the immediate payment path already had its units taken when
   * it was placed; delivering it takes them a second time, so its product
   * ends with twice the order's units missing.
   */
  lemma DeliveryTakesStockAgain(products: map<ProductId, Product>, lines: seq<CartItem>, user: UserId,
                                firstId: nat, now: nat, choice: string, i: nat)
    requires PricedBy(lines, products) && ProductsKeyed(products) && DistinctProducts(lines) && i < |lines|
    requires forall j :: 0 <= j < |lines| ==> InStock(lines[j], products)
    requires products[lines[i].product].stock >= 2 * lines[i].quantity
    ensures var o := PlacedOrders(lines, products, user, firstId, now, Some(choice), Pending)[i];
            var placed := Discounted(products, lines);
            && o.product in placed
            && CheckDelivery(o, placed[o.product].stock) == CanDeliver
            && DeliveredStock(placed, o)[o.product].stock == products[o.product].stock - 2 * o.quantity
  {
    PlacedOrdersRows(lines, products, user, firstId, now, Some(choice), Pending);
    DiscountedIsStockAfter(products, lines);
    QuantityOfDistinct(lines, i);
  }

  /**
   * The log row `eliminado` is written for the order about to be deleted, so
   * the cascade removes it with the order: the log keeps no row of it.
   */
  lemma DeletionLogCascades(logs: seq<LogEntry>, id: OrderId, entry: LogEntry)
    requires entry.order == id
    ensures Filter(logs + [entry], OtherLog(id)) == Filter(logs, OtherLog(id))
    ensures forall l :: l in Filter(logs + [entry], OtherLog(id)) ==> l.order != id
  {
    FilterAppend(logs, entry, OtherLog(id));
  }

  /** Keys are unique, so deleting an existing order removes exactly one row and keeps every other. */
  lemma DeleteRemovesOneOrder(orders: seq<Order>, id: OrderId)
    requires Pairwise(orders, OrderBefore) && OrderIndex(orders, id).Some?
    ensures |Filter(orders, OtherOrder(id))| == |orders| - 1
    ensures forall o :: o in orders && o.id != id ==> o in Filter(orders, OtherOrder(id))
  {
    var k := OrderIndex(orders, id).value;
    var rest := orders[..k] + orders[k + 1..];
    forall i | 0 <= i < |rest| ensures OtherOrder(id)(rest[i]) {
      if i < k {
        assert rest[i] == orders[i] && OrderBefore(orders[i], orders[k]);
      } else {
        assert rest[i] == orders[i + 1] && OrderBefore(orders[k], orders[i + 1]);
      }
    }
    FilterAll(rest, OtherOrder(id));
    FilterRemoveLength(orders, k, OtherOrder(id));
  }
}
