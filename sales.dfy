/**
 * The records of `ventas/models.py`: orders (`Pedido`) with their unit-price
 * snapshot and derived total, carts (`Carrito`) and cart lines
 * (`ItemCarrito`) with their derived totals, and the append-only history
 * (`HistorialPedido`) and action log (`PedidoLog`).
 */
module Sales {
  import opened Util
  import opened Catalog

  type UserId = nat
  type OrderId = nat
  type CartId = nat
  type ItemId = nat

  /** The values of `Pedido.ESTADOS`, in the order the model lists them. */
  const Pending: string := "pendiente"
  const Paid: string := "pagado"
  const Shipped: string := "enviado"
  const Delivered: string := "entregado"
  const Cancelled: string := "cancelado"
  const States: seq<string> := [Pending, Paid, Shipped, Delivered, Cancelled]

  const DefaultState: string := Pending
  const DefaultQuantity: nat := 1

  /**
   * A stored `Pedido`. The status is the raw column: `objects.create` does not
   * check it against the choices, so values such as "Pagado" can be stored.
   */
  datatype Order = Order(
    id: OrderId,
    product: ProductId,
    user: UserId,
    placedAt: nat,
    deliveryDate: Option<int>,
    paymentMethod: Option<string>,
    unitPrice: Cents,
    quantity: nat,
    state: string)

  /** A `Pedido(...)` built with only the given fields, before its first `save()`: every other field has its default. */
  function Draft(product: ProductId, user: UserId, now: nat, quantity: nat := DefaultQuantity,
                 payment: Option<string> := None, state: string := DefaultState): (o: Order)
    ensures o.unitPrice == 0 && o.deliveryDate == None
  {
    Order(0, product, user, now, None, payment, 0, quantity, state)
  }

  /** What a `Pedido` created with no status and no quantity holds. */
  lemma DraftDefaults(product: ProductId, user: UserId, now: nat)
    ensures Draft(product, user, now).state == Pending && Pending in States
    ensures Draft(product, user, now).quantity == 1
    ensures Draft(product, user, now).paymentMethod == None
  {
  }

  /**
   * `Pedido.save()`: an order without a primary key takes the product's
   * current price as its unit price; an order that already has one keeps
   * the unit price it has, whatever the product costs now.
   */
  function Save(o: Order, hasPk: bool, currentPrice: Cents): (r: Order)
    ensures !hasPk ==> r.unitPrice == currentPrice
    ensures hasPk ==> r == o
    ensures r.(unitPrice := o.unitPrice) == o
  {
    if !hasPk then o.(unitPrice := currentPrice) else o
  }

  /** Saving again, after any price change, never moves the snapshot taken on creation. */
  lemma ResaveKeepsSnapshot(o: Order, priceAtCreation: Cents, priceNow: Cents)
    ensures Save(Save(o, false, priceAtCreation), true, priceNow).unitPrice == priceAtCreation
    ensures Total(Save(Save(o, false, priceAtCreation), true, priceNow)) == priceAtCreation * o.quantity
  {
  }

  /** The order row `Pedido.objects.create(...)` inserts under primary key `id`. */
  function Created(id: OrderId, product: Product, user: UserId, now: nat, quantity: nat,
                   payment: Option<string>, state: string): (o: Order)
    ensures o.id == id && o.product == product.id && o.user == user && o.placedAt == now
    ensures o.unitPrice == product.price && o.quantity == quantity
    ensures o.paymentMethod == payment && o.state == state && o.deliveryDate == None
  {
    Save(Draft(product.id, user, now, quantity, payment, state), false, product.price).(id := id)
  }

  /** `Pedido.total`: unit price times quantity (both columns are NOT NULL, so no `None` to default). */
  function Total(o: Order): (t: Cents)
    ensures o.quantity == 0 ==> t == 0
    ensures o.quantity == 1 ==> t == o.unitPrice
    ensures o.unitPrice >= 0 ==> t >= o.unitPrice || o.quantity == 0
    ensures o.unitPrice <= 0 ==> t <= 0
  {
    o.unitPrice * o.quantity
  }

  /** `Carrito`: `usuario` is a `OneToOneField`, so no user owns two carts. */
  datatype Cart = Cart(id: CartId, owner: UserId)

  /** `ItemCarrito`; `cantidad` defaults to one. */
  datatype CartItem = CartItem(id: ItemId, cart: CartId, product: ProductId, quantity: nat)

  ghost predicate OneCartPerUser(carts: seq<Cart>)
  {
    forall i, j :: 0 <= i < j < |carts| ==> carts[i].owner != carts[j].owner
  }

  predicate PricedBy(lines: seq<CartItem>, products: map<ProductId, Product>)
  {
    forall i :: 0 <= i < |lines| ==> lines[i].product in products
  }

  /** `ItemCarrito.subtotal`: the product's price as it is now (no snapshot) times the line quantity. */
  function Subtotal(line: CartItem, products: map<ProductId, Product>): (t: Cents)
    requires line.product in products
    ensures line.quantity == 1 ==> t == products[line.product].price
    ensures products[line.product].price >= 0 ==> t >= products[line.product].price || line.quantity == 0
  {
    products[line.product].price * line.quantity
  }

  /** `Carrito.total`: the sum of the line subtotals. */
  function CartTotal(lines: seq<CartItem>, products: map<ProductId, Product>): (t: Cents)
    requires PricedBy(lines, products)
    ensures lines == [] ==> t == 0
  {
    if |lines| == 0 then 0
    else CartTotal(lines[..|lines| - 1], products) + Subtotal(lines[|lines| - 1], products)
  }

  /** A cart total moves with the catalogue: a price change shows up in every line of that product. */
  lemma {:induction false} CartTotalFollowsPriceChange(lines: seq<CartItem>, products: map<ProductId, Product>,
                                                       pid: ProductId, newPrice: Cents)
    requires PricedBy(lines, products) && pid in products
    ensures PricedBy(lines, products[pid := products[pid].(price := newPrice)])
    ensures CartTotal(lines, products[pid := products[pid].(price := newPrice)])
            == CartTotal(lines, products) + (newPrice - products[pid].price) * QuantityOf(lines, pid)
  {
    var changed := products[pid := products[pid].(price := newPrice)];
    assert PricedBy(lines, changed);
    if |lines| > 0 {
      var init := lines[..|lines| - 1];
      var last := lines[|lines| - 1];
      var d := newPrice - products[pid].price;
      assert PricedBy(init, products);
      CartTotalFollowsPriceChange(init, products, pid, newPrice);
      var extra := if last.product == pid then last.quantity else 0;
      assert Subtotal(last, changed) == Subtotal(last, products) + d * extra by {
        if last.product == pid {
          Distribute(last.quantity, products[pid].price, d);
        }
      }
      assert QuantityOf(lines, pid) == QuantityOf(init, pid) + extra;
      Distribute(d, QuantityOf(init, pid), extra);
    }
  }

  lemma Distribute(a: int, b: int, c: int)
    ensures a * b + a * c == a * (b + c)
    ensures b * a + c * a == (b + c) * a
  {
  }

  /** The units of product `pid` across `lines`. */
  function QuantityOf(lines: seq<CartItem>, pid: ProductId): nat
  {
    if |lines| == 0 then 0
    else QuantityOf(lines[..|lines| - 1], pid) + (if lines[|lines| - 1].product == pid then lines[|lines| - 1].quantity else 0)
  }

  lemma {:induction false} QuantityOfAbsent(lines: seq<CartItem>, pid: ProductId)
    requires forall i :: 0 <= i < |lines| ==> lines[i].product != pid
    ensures QuantityOf(lines, pid) == 0
  {
    if |lines| > 0 {
      QuantityOfAbsent(lines[..|lines| - 1], pid);
    }
  }

  /** `HistorialPedido`: one status change of one order. */
  datatype HistoryEntry = HistoryEntry(order: OrderId, previous: string, next: string, user: UserId, at: nat)

  /** `PedidoLog`: one action on one order. */
  datatype LogEntry = LogEntry(order: OrderId, user: UserId, action: string, at: nat)
}
