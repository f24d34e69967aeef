/**
 * The purchase summary of `ventas/views/resumen.py`: the caller's orders,
 * narrowed by status and by an inclusive range of days, then counted per
 * status, grouped per product name for the five best sellers, and added up
 * as a number of units.
 */
module Summary {
  import opened Util
  import opened Catalog
  import opened Sales
  import opened Sorting
  import opened Statistics

  /** Local calendar day of an order (`fecha_pedido__date`); timestamps are seconds in the shop's time zone. */
  const SecondsPerDay: nat := 86400

  function Day(o: Order): int
  {
    o.placedAt / SecondsPerDay
  }

  /** The filters of the page: an empty status and a missing bound add no condition. */
  predicate InReport(o: Order, user: UserId, state: string, from: Option<int>, to: Option<int>)
  {
    && o.user == user
    && (state == "" || o.state == state)
    && (from.None? || Day(o) >= from.value)
    && (to.None? || Day(o) <= to.value)
  }

  function Reported(orders: seq<Order>, user: UserId, state: string, from: Option<int>, to: Option<int>): (r: seq<Order>)
    ensures forall o :: o in r <==> o in orders && InReport(o, user, state, from, to)
    ensures |r| <= |orders|
  {
    Filter(orders, (o: Order) => InReport(o, user, state, from, to))
  }

  /** `producto__nombre` of an order; every order names a catalogue product, so the empty default is never used. */
  function NameOf(products: map<ProductId, Product>, o: Order): string
  {
    if o.product in products then products[o.product].name else ""
  }

  /** The product names of `orders`, each once, in order of first appearance (the groups of `values("producto__nombre")`). */
  function Names(orders: seq<Order>, products: map<ProductId, Product>): (r: seq<string>)
    ensures forall i, j :: 0 <= i < j < |r| ==> r[i] != r[j]
    ensures forall nm :: nm in r <==> exists o :: o in orders && NameOf(products, o) == nm
  {
    if |orders| == 0 then []
    else
      var init := orders[..|orders| - 1];
      var last := orders[|orders| - 1];
      var r := Names(init, products);
      assert forall o :: o in orders <==> o in init || o == last by {
        assert orders == init + [last];
      }
      if NameOf(products, last) in r then r else r + [NameOf(products, last)]
  }

  /** `Sum("cantidad")` over the orders of one product name. */
  function UnitsNamed(orders: seq<Order>, products: map<ProductId, Product>, name: string): nat
  {
    SumBy(orders, (o: Order) => if NameOf(products, o) == name then o.quantity else 0)
  }

  /** One row of `values("producto__nombre").annotate(total_cantidad=Sum("cantidad"))`. */
  datatype ProductTotal = ProductTotal(name: string, units: nat)

  function GroupUnits(g: ProductTotal): int
  {
    g.units
  }

  function Groups(orders: seq<Order>, products: map<ProductId, Product>): (r: seq<ProductTotal>)
    ensures |r| == |Names(orders, products)|
    ensures forall i :: 0 <= i < |r| ==> r[i] == ProductTotal(Names(orders, products)[i], UnitsNamed(orders, products, Names(orders, products)[i]))
  {
    var names := Names(orders, products);
    seq(|names|, i requires 0 <= i < |names| => ProductTotal(names[i], UnitsNamed(orders, products, names[i])))
  }

  /** `top_productos`: the groups by descending units, at most five of them. */
  function TopProducts(orders: seq<Order>, products: map<ProductId, Product>): (r: seq<ProductTotal>)
    ensures |r| == if |Groups(orders, products)| < 5 then |Groups(orders, products)| else 5
    ensures multiset(r) <= multiset(Groups(orders, products))
    ensures NonIncreasing(r, GroupUnits)
    ensures forall g :: g in r ==> g in Groups(orders, products)
    ensures |Groups(orders, products)| <= 5 ==> multiset(r) == multiset(Groups(orders, products))
  {
    Top(Groups(orders, products), GroupUnits, 5)
  }

  /** A product name left out of the top five sold no more units than any name in it. */
  lemma TopProductsDominate(orders: seq<Order>, products: map<ProductId, Product>, kept: ProductTotal, dropped: ProductTotal)
    requires kept in TopProducts(orders, products)
    requires dropped in Groups(orders, products) && dropped !in TopProducts(orders, products)
    ensures kept.units >= dropped.units
  {
    TopRowsDominate(Groups(orders, products), GroupUnits, 5, kept, dropped);
  }

  /** The units of the listed names, added up. */
  function GroupSum(orders: seq<Order>, products: map<ProductId, Product>, names: seq<string>): nat
  {
    if |names| == 0 then 0
    else GroupSum(orders, products, names[..|names| - 1]) + UnitsNamed(orders, products, names[|names| - 1])
  }

  lemma {:induction false} GroupSumAppend(orders: seq<Order>, products: map<ProductId, Product>, x: Order, names: seq<string>)
    requires forall i, j :: 0 <= i < j < |names| ==> names[i] != names[j]
    ensures GroupSum(orders + [x], products, names)
            == GroupSum(orders, products, names) + (if NameOf(products, x) in names then x.quantity else 0)
  {
    if |names| > 0 {
      var n := |names| - 1;
      var init := names[..n];
      GroupSumAppend(orders, products, x, init);
      SumByAppend(orders, x, (o: Order) => if NameOf(products, o) == names[n] then o.quantity else 0);
      assert NameOf(products, x) in names <==> NameOf(products, x) in init || NameOf(products, x) == names[n];
      assert NameOf(products, x) in init ==> NameOf(products, x) != names[n];
    }
  }

  lemma {:induction false} UnitsNamedAbsent(orders: seq<Order>, products: map<ProductId, Product>, name: string)
    requires name !in Names(orders, products)
    ensures UnitsNamed(orders, products, name) == 0
  {
    if |orders| > 0 {
      var init := orders[..|orders| - 1];
      assert name !in Names(init, products);
      UnitsNamedAbsent(init, products, name);
    }
  }

  lemma {:induction false} GroupSumEmpty(orders: seq<Order>, products: map<ProductId, Product>, names: seq<string>)
    requires |orders| == 0
    ensures GroupSum(orders, products, names) == 0
  {
    if |names| > 0 {
      GroupSumEmpty(orders, products, names[..|names| - 1]);
    }
  }

  /** The groups share out the volume: their units add up to exactly `volumen_total`. */
  lemma {:induction false} GroupsShareVolume(orders: seq<Order>, products: map<ProductId, Product>)
    ensures GroupSum(orders, products, Names(orders, products)) == Units(orders)
  {
    if |orders| == 0 {
      GroupSumEmpty(orders, products, Names(orders, products));
    } else {
      var n := |orders| - 1;
      var init := orders[..n];
      assert orders == init + [orders[n]];
      GroupsShareVolume(init, products);
      GroupsShareVolumeStep(init, products, orders[n]);
    }
  }

  lemma GroupsShareVolumeStep(init: seq<Order>, products: map<ProductId, Product>, x: Order)
    requires GroupSum(init, products, Names(init, products)) == Units(init)
    ensures GroupSum(init + [x], products, Names(init + [x], products)) == Units(init + [x])
  {
    var orders := init + [x];
    assert orders[..|init|] == init;
    SumByAppend(init, x, (o: Order) => o.quantity);
    GroupSumAppend(init, products, x, Names(init, products));
    if NameOf(products, x) !in Names(init, products) {
      NewGroupStep(init, products, x);
    }
  }

  /** An order under a name not seen before opens a group holding exactly its units. */
  lemma NewGroupStep(init: seq<Order>, products: map<ProductId, Product>, x: Order)
    requires NameOf(products, x) !in Names(init, products)
    ensures Names(init + [x], products) == Names(init, products) + [NameOf(products, x)]
    ensures GroupSum(init + [x], products, Names(init + [x], products))
            == GroupSum(init + [x], products, Names(init, products)) + x.quantity
  {
    var orders := init + [x];
    assert orders[..|init|] == init;
    var names := Names(init, products);
    var nm := NameOf(products, x);
    assert (names + [nm])[..|names|] == names;
    SumByAppend(init, x, (o: Order) => if NameOf(products, o) == nm then o.quantity else 0);
    UnitsNamedAbsent(init, products, nm);
  }

  lemma {:induction false} GroupSumCoversEach(orders: seq<Order>, products: map<ProductId, Product>, names: seq<string>, k: nat)
    requires k < |names|
    ensures UnitsNamed(orders, products, names[k]) <= GroupSum(orders, products, names)
  {
    if k < |names| - 1 {
      GroupSumCoversEach(orders, products, names[..|names| - 1], k);
    }
  }

  /** No best seller accounts for more units than the whole volume. */
  lemma TopWithinVolume(orders: seq<Order>, products: map<ProductId, Product>, g: ProductTotal)
    requires g in TopProducts(orders, products)
    ensures g.units <= Units(orders)
  {
    var groups := Groups(orders, products);
    var k :| 0 <= k < |groups| && groups[k] == g;
    GroupSumCoversEach(orders, products, Names(orders, products), k);
    GroupsShareVolume(orders, products);
  }

  /** What the summary page shows. */
  datatype Report = Report(total: nat, byState: map<string, nat>, top: seq<ProductTotal>, volume: nat)

  function Resumen(orders: seq<Order>, products: map<ProductId, Product>, user: UserId,
                   state: string, from: Option<int>, to: Option<int>): (r: Report)
    ensures r.total == |Reported(orders, user, state, from, to)|
    ensures r.byState.Keys == set st | st in States
    ensures forall st :: st in r.byState ==> r.byState[st] == CountState(Reported(orders, user, state, from, to), st)
    ensures r.top == TopProducts(Reported(orders, user, state, from, to), products)
    ensures r.volume == Units(Reported(orders, user, state, from, to))
    ensures r.total == 0 ==> r.volume == 0 && r.top == []
  {
    var qs := Reported(orders, user, state, from, to);
    if |qs| == 0 then
      assert Units(qs) == 0;
      assert Names(qs, products) == [];
      Report(0, StateCounts(qs, States), TopProducts(qs, products), 0)
    else
      Report(|qs|, StateCounts(qs, States), TopProducts(qs, products), Units(qs))
  }
}
