/**
 * What every checkout path of the shop does with a cart: it walks the cart
 * lines in order, turns each line into one order row, and (on the paths that
 * take stock) takes the line quantity off the product. The functions here
 * describe the result after the first `k` lines; the handlers in `Shop` are
 * proved to end in exactly these states.
 */
module Checkout {
  import opened Util
  import opened Catalog
  import opened Sales
  import opened Tables
  import opened Ledger

  /** The product of `line` has at least the units the line asks for (`producto.stock >= item.cantidad`). */
  predicate InStock(line: CartItem, products: map<ProductId, Product>)
    requires line.product in products
  {
    products[line.product].stock >= line.quantity
  }

  /** The position of the first line that cannot be served from the stock on hand, if any. */
  function FirstShort(lines: seq<CartItem>, products: map<ProductId, Product>): (r: Option<nat>)
    requires PricedBy(lines, products)
    ensures r.Some? ==> r.value < |lines| && !InStock(lines[r.value], products)
    ensures r.Some? ==> forall i :: 0 <= i < r.value ==> InStock(lines[i], products)
    ensures r.None? <==> forall i :: 0 <= i < |lines| ==> InStock(lines[i], products)
  {
    if |lines| == 0 then None
    else if !InStock(lines[0], products) then Some(0)
    else
      var rest := lines[1..];
      assert forall i :: 0 <= i < |rest| ==> rest[i] == lines[i + 1];
      match FirstShort(rest, products)
      case None => None
      case Some(k) => Some(k + 1)
  }

  /** How many lines a checkout that stops at the first short line gets through. */
  function Served(lines: seq<CartItem>, products: map<ProductId, Product>): (k: nat)
    requires PricedBy(lines, products)
    ensures k <= |lines|
    ensures forall i :: 0 <= i < k ==> InStock(lines[i], products)
    ensures k < |lines| ==> !InStock(lines[k], products)
  {
    match FirstShort(lines, products)
    case None => |lines|
    case Some(k) => k
  }

  /** The walk stops at the first short line: a short line after only served ones is where it stops. */
  lemma ServedStopsAt(lines: seq<CartItem>, products: map<ProductId, Product>, i: nat)
    requires PricedBy(lines, products) && i <= |lines|
    requires forall j :: 0 <= j < i ==> InStock(lines[j], products)
    requires i < |lines| ==> !InStock(lines[i], products)
    ensures Served(lines, products) == i
  {
  }

  /** A line in stock right where the walk has got to lets it go one line further. */
  lemma ServedPast(lines: seq<CartItem>, products: map<ProductId, Product>, i: nat)
    requires PricedBy(lines, products) && i < |lines| && i <= Served(lines, products)
    requires InStock(lines[i], products)
    ensures i + 1 <= Served(lines, products)
  {
  }

  /**
   * The orders `Pedido.objects.create(...)` inserts for `lines`, one per line
   * and in line order, under consecutive keys from `firstId`.
   */
  function PlacedOrders(lines: seq<CartItem>, products: map<ProductId, Product>, user: UserId,
                        firstId: nat, now: nat, payment: Option<string>, state: string): (r: seq<Order>)
    requires PricedBy(lines, products)
    ensures |r| == |lines|
  {
    if |lines| == 0 then []
    else
      var n := |lines| - 1;
      PlacedOrders(lines[..n], products, user, firstId, now, payment, state)
        + [Created(firstId + n, products[lines[n].product], user, now, lines[n].quantity, payment, state)]
  }

  /** Placing one more line appends exactly its order. */
  lemma PlacedOrdersStep(lines: seq<CartItem>, products: map<ProductId, Product>, user: UserId,
                         firstId: nat, now: nat, payment: Option<string>, state: string, i: nat)
    requires PricedBy(lines, products) && i < |lines|
    ensures PricedBy(lines[..i], products) && PricedBy(lines[..i + 1], products)
    ensures PlacedOrders(lines[..i + 1], products, user, firstId, now, payment, state)
            == PlacedOrders(lines[..i], products, user, firstId, now, payment, state)
               + [Created(firstId + i, products[lines[i].product], user, now, lines[i].quantity, payment, state)]
  {
    assert lines[..i + 1][..i] == lines[..i];
  }

  /**
   * Order `i` of a checkout is line `i` of the cart: its key is the `i`-th
   * from `firstId`, it belongs to the buyer, and it records the line's product
   * and units at the product's current price, with the given method and status.
   */
  lemma {:induction false} PlacedOrdersRows(lines: seq<CartItem>, products: map<ProductId, Product>, user: UserId,
                                            firstId: nat, now: nat, payment: Option<string>, state: string)
    requires PricedBy(lines, products) && ProductsKeyed(products)
    ensures forall i :: 0 <= i < |lines| ==>
              var o := PlacedOrders(lines, products, user, firstId, now, payment, state)[i];
              && o.id == firstId + i && o.user == user && o.placedAt == now
              && o.product == lines[i].product && o.quantity == lines[i].quantity
              && o.unitPrice == products[lines[i].product].price
              && o.state == state && o.paymentMethod == payment && o.deliveryDate == None
  {
    if |lines| > 0 {
      var n := |lines| - 1;
      var init := lines[..n];
      PlacedOrdersRows(init, products, user, firstId, now, payment, state);
      assert forall i :: 0 <= i < n ==> init[i] == lines[i];
    }
  }

  /** The sum of `Pedido.total` over `orders`. */
  function OrdersTotal(orders: seq<Order>): Cents
  {
    if |orders| == 0 then 0 else OrdersTotal(orders[..|orders| - 1]) + Total(orders[|orders| - 1])
  }

  /** The units of product `pid` that `orders` stand for. */
  function OrderedUnits(orders: seq<Order>, pid: ProductId): nat
  {
    if |orders| == 0 then 0
    else OrderedUnits(orders[..|orders| - 1], pid)
         + (if orders[|orders| - 1].product == pid then orders[|orders| - 1].quantity else 0)
  }

  /**
   * The orders of a checkout charge exactly what the cart showed: their
   * totals, taken at the snapshot prices, add up to `Carrito.total`.
   */
  lemma {:induction false} PlacedOrdersChargeCartTotal(lines: seq<CartItem>, products: map<ProductId, Product>,
                                                       user: UserId, firstId: nat, now: nat,
                                                       payment: Option<string>, state: string)
    requires PricedBy(lines, products) && ProductsKeyed(products)
    ensures OrdersTotal(PlacedOrders(lines, products, user, firstId, now, payment, state)) == CartTotal(lines, products)
  {
    var placed := PlacedOrders(lines, products, user, firstId, now, payment, state);
    if |lines| > 0 {
      var n := |lines| - 1;
      PlacedOrdersStep(lines, products, user, firstId, now, payment, state, n);
      assert lines[..n + 1] == lines;
      var init := lines[..n];
      PlacedOrdersChargeCartTotal(init, products, user, firstId, now, payment, state);
      assert placed[..n] == PlacedOrders(init, products, user, firstId, now, payment, state);
      assert Total(placed[n]) == Subtotal(lines[n], products);
    }
  }

  /** The orders of a checkout stand for exactly the units the cart held of each product. */
  lemma {:induction false} PlacedOrdersUnits(lines: seq<CartItem>, products: map<ProductId, Product>,
                                             user: UserId, firstId: nat, now: nat,
                                             payment: Option<string>, state: string, pid: ProductId)
    requires PricedBy(lines, products) && ProductsKeyed(products)
    ensures OrderedUnits(PlacedOrders(lines, products, user, firstId, now, payment, state), pid) == QuantityOf(lines, pid)
  {
    var placed := PlacedOrders(lines, products, user, firstId, now, payment, state);
    if |lines| > 0 {
      var n := |lines| - 1;
      PlacedOrdersStep(lines, products, user, firstId, now, payment, state, n);
      assert lines[..n + 1] == lines;
      PlacedOrdersUnits(lines[..n], products, user, firstId, now, payment, state, pid);
      assert placed[..n] == PlacedOrders(lines[..n], products, user, firstId, now, payment, state);
    }
  }

  /** Every product can give up the units `lines` ask of it. */
  ghost predicate Coverable(products: map<ProductId, Product>, lines: seq<CartItem>)
  {
    forall pid :: pid in products ==> QuantityOf(lines, pid) <= products[pid].stock
  }

  /** The catalogue after each line's quantity has been taken off its product's stock. */
  ghost function StockAfter(products: map<ProductId, Product>, lines: seq<CartItem>): (r: map<ProductId, Product>)
    requires Coverable(products, lines)
    ensures r.Keys == products.Keys
  {
    map pid | pid in products :: products[pid].(stock := products[pid].stock - QuantityOf(lines, pid))
  }

  /** With one line per product, the units asked of a product are those of its one line. */
  lemma {:induction false} QuantityOfDistinct(lines: seq<CartItem>, k: nat)
    requires DistinctProducts(lines) && k < |lines|
    ensures QuantityOf(lines, lines[k].product) == lines[k].quantity
  {
    var n := |lines| - 1;
    var init := lines[..n];
    assert DistinctProducts(init);
    if k == n {
      assert forall i :: 0 <= i < |init| ==> init[i].product != lines[k].product by {
        forall i | 0 <= i < |init| ensures init[i].product != lines[k].product {
          assert init[i] == lines[i];
        }
      }
      QuantityOfAbsent(init, lines[k].product);
    } else {
      assert init[k] == lines[k];
      QuantityOfDistinct(init, k);
    }
  }

  /**
   * When every one of the first `k` lines is in stock and no product has two
   * lines, the stock covers all of those lines taken together.
   */
  lemma PrefixCoverable(products: map<ProductId, Product>, lines: seq<CartItem>, k: nat)
    requires PricedBy(lines, products) && DistinctProducts(lines) && k <= |lines|
    requires forall i :: 0 <= i < k ==> InStock(lines[i], products)
    ensures Coverable(products, lines[..k])
  {
    var pre := lines[..k];
    assert DistinctProducts(pre);
    forall pid | pid in products ensures QuantityOf(pre, pid) <= products[pid].stock {
      if i :| 0 <= i < k && lines[i].product == pid {
        assert pre[i] == lines[i];
        QuantityOfDistinct(pre, i);
      } else {
        QuantityOfAbsent(pre, pid);
      }
    }
  }

  /**
   * Serving one more line takes its quantity off its own product and touches
   * nothing else; before that step, the product still has all of its stock.
   */
  lemma StockAfterStep(products: map<ProductId, Product>, lines: seq<CartItem>, i: nat)
    requires PricedBy(lines, products) && DistinctProducts(lines) && i < |lines|
    requires Coverable(products, lines[..i + 1])
    ensures Coverable(products, lines[..i])
    ensures StockAfter(products, lines[..i])[lines[i].product].stock == products[lines[i].product].stock
    ensures StockAfter(products, lines[..i + 1])
            == StockAfter(products, lines[..i])[lines[i].product :=
                 StockAfter(products, lines[..i])[lines[i].product].(stock := products[lines[i].product].stock - lines[i].quantity)]
  {
    var pre := lines[..i];
    var next := lines[..i + 1];
    assert next[..i] == pre;
    assert next[i] == lines[i];
    var pid := lines[i].product;
    forall p | p in products ensures QuantityOf(next, p) == QuantityOf(pre, p) + (if p == pid then lines[i].quantity else 0) {
    }
    assert forall j :: 0 <= j < |pre| ==> pre[j].product != pid by {
      forall j | 0 <= j < |pre| ensures pre[j].product != pid {
        assert pre[j] == lines[j];
      }
    }
    QuantityOfAbsent(pre, pid);
  }

  /** Before line `i` is served, its product still has all of its stock, whether or not the line can be served. */
  lemma StockAfterUntouched(products: map<ProductId, Product>, lines: seq<CartItem>, i: nat)
    requires PricedBy(lines, products) && DistinctProducts(lines) && i < |lines|
    requires Coverable(products, lines[..i])
    ensures StockAfter(products, lines[..i])[lines[i].product] == products[lines[i].product]
  {
    var pre := lines[..i];
    var pid := lines[i].product;
    assert forall j :: 0 <= j < |pre| ==> pre[j].product != pid by {
      forall j | 0 <= j < |pre| ensures pre[j].product != pid {
        assert pre[j] == lines[j];
      }
    }
    QuantityOfAbsent(pre, pid);
  }

  /** The catalogue after one call of `descontar_stock` for `line`: a refused call changes nothing. */
  function DiscountLine(m: map<ProductId, Product>, line: CartItem): (r: map<ProductId, Product>)
    requires line.product in m
    ensures r.Keys == m.Keys
  {
    match Discount(m[line.product].stock, line.quantity)
    case Deducted(left) => m[line.product := m[line.product].(stock := left)]
    case Refused(_) => m
  }

  /** The catalogue after `descontar_stock` has been called for each line in turn. */
  function Discounted(products: map<ProductId, Product>, lines: seq<CartItem>): (r: map<ProductId, Product>)
    requires PricedBy(lines, products)
    ensures r.Keys == products.Keys
  {
    if |lines| == 0 then products
    else DiscountLine(Discounted(products, lines[..|lines| - 1]), lines[|lines| - 1])
  }

  /** One more call of `descontar_stock`, for the next line. */
  lemma DiscountedStep(products: map<ProductId, Product>, lines: seq<CartItem>, i: nat)
    requires PricedBy(lines, products) && i < |lines|
    ensures PricedBy(lines[..i], products) && PricedBy(lines[..i + 1], products)
    ensures Discounted(products, lines[..i + 1]) == DiscountLine(Discounted(products, lines[..i]), lines[i])
  {
    assert lines[..i + 1][..i] == lines[..i];
  }

  /** A product no line names keeps its row. */
  lemma {:induction false} DiscountedAbsent(products: map<ProductId, Product>, lines: seq<CartItem>, pid: ProductId)
    requires PricedBy(lines, products) && pid in products
    requires forall j :: 0 <= j < |lines| ==> lines[j].product != pid
    ensures Discounted(products, lines)[pid] == products[pid]
  {
    if |lines| > 0 {
      DiscountedAbsent(products, lines[..|lines| - 1], pid);
    }
  }

  /** Before line `i` is served, its product still has its row as it was, stock included. */
  lemma DiscountedUntouched(products: map<ProductId, Product>, lines: seq<CartItem>, i: nat)
    requires PricedBy(lines, products) && DistinctProducts(lines) && i < |lines|
    ensures PricedBy(lines[..i], products)
    ensures Discounted(products, lines[..i])[lines[i].product] == products[lines[i].product]
  {
    var pre := lines[..i];
    assert forall j :: 0 <= j < |pre| ==> pre[j].product != lines[i].product by {
      forall j | 0 <= j < |pre| ensures pre[j].product != lines[i].product {
        assert pre[j] == lines[j];
      }
    }
    DiscountedAbsent(products, pre, lines[i].product);
  }

  /**
   * When every line is in stock and no product has two lines, no call of
   * `descontar_stock` is refused: the stock covers the whole cart and each
   * product loses exactly the units of its line.
   */
  lemma {:induction false} DiscountedIsStockAfter(products: map<ProductId, Product>, lines: seq<CartItem>)
    requires PricedBy(lines, products) && DistinctProducts(lines)
    requires forall j :: 0 <= j < |lines| ==> InStock(lines[j], products)
    ensures Coverable(products, lines)
    ensures Discounted(products, lines) == StockAfter(products, lines)
  {
    if |lines| == 0 {
      StockAfterNothing(products, lines);
      assert lines[..0] == lines;
    } else {
      var n := |lines| - 1;
      var init := lines[..n];
      assert forall j :: 0 <= j < n ==> init[j] == lines[j];
      assert DistinctProducts(init);
      DiscountedIsStockAfter(products, init);
      PrefixCoverable(products, lines, n + 1);
      assert lines[..n + 1] == lines;
      StockAfterStep(products, lines, n);
    }
  }

  /** Serving no line leaves the stock as it was. */
  lemma StockAfterNothing(products: map<ProductId, Product>, lines: seq<CartItem>)
    ensures Coverable(products, lines[..0]) && StockAfter(products, lines[..0]) == products
  {
    assert lines[..0] == [];
  }

  /**
   * No unit is lost or invented by a checkout: for every product, the stock
   * left plus the units the new orders stand for is the stock there was.
   */
  lemma CheckoutConserves(products: map<ProductId, Product>, lines: seq<CartItem>, user: UserId,
                          firstId: nat, now: nat, payment: Option<string>, state: string, pid: ProductId)
    requires PricedBy(lines, products) && ProductsKeyed(products) && Coverable(products, lines) && pid in products
    ensures StockAfter(products, lines)[pid].stock
            + OrderedUnits(PlacedOrders(lines, products, user, firstId, now, payment, state), pid)
            == products[pid].stock
  {
    PlacedOrdersUnits(lines, products, user, firstId, now, payment, state, pid);
  }

  /**
   * A checkout that creates the order before it tries to take the stock, and
   * stops at the first line the stock cannot cover, leaves that line's order
   * behind without its units: stock left plus units ordered exceed the stock
   * there was by exactly that line's quantity.
   */
  lemma UncheckedCheckoutOversells(products: map<ProductId, Product>, lines: seq<CartItem>, user: UserId,
                                   firstId: nat, now: nat, payment: Option<string>, state: string)
    requires PricedBy(lines, products) && ProductsKeyed(products) && DistinctProducts(lines)
    requires Served(lines, products) < |lines|
    ensures var k := Served(lines, products);
            var pid := lines[k].product;
            && PricedBy(lines[..k], products) && PricedBy(lines[..k + 1], products)
            && Discounted(products, lines[..k])[pid].stock
               + OrderedUnits(PlacedOrders(lines[..k + 1], products, user, firstId, now, payment, state), pid)
               == products[pid].stock + lines[k].quantity
  {
    var k := Served(lines, products);
    var pre := lines[..k + 1];
    DiscountedUntouched(products, lines, k);
    assert PricedBy(pre, products);
    assert DistinctProducts(pre) by {
      forall i, j | 0 <= i < j < |pre| ensures pre[i].product != pre[j].product {
        assert pre[i] == lines[i] && pre[j] == lines[j];
      }
    }
    PlacedOrdersUnits(pre, products, user, firstId, now, payment, state, lines[k].product);
    assert pre[k] == lines[k];
    QuantityOfDistinct(pre, k);
  }
}
