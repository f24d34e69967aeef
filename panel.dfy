/**
 * The staff order panel of `ventas/views/panel.py`: all orders joined with
 * their product and user, narrowed by every filter that was given, newest
 * first, beside statistics over the whole table.
 */
module Panel {
  import opened Util
  import opened Catalog
  import opened Sales
  import opened Text
  import opened Sorting
  import opened Statistics
  import opened Summary
  import opened OrderViews

  /**
   * The conditions of `get_queryset`, one per parameter that was given: exact
   * status, product name and username containing the query without regard to
   * case, and the local day of the order. They combine with AND.
   */
  predicate Shown(o: Order, products: map<ProductId, Product>, usernames: map<UserId, string>,
                  state: string, productQuery: string, userQuery: string, day: Option<int>)
  {
    && (state == "" || o.state == state)
    && (productQuery == "" || (o.product in products && ContainsIgnoringCase(products[o.product].name, productQuery)))
    && (userQuery == "" || (o.user in usernames && ContainsIgnoringCase(usernames[o.user], userQuery)))
    && (day.None? || Day(o) == day.value)
  }

  function PanelOrders(orders: seq<Order>, products: map<ProductId, Product>, usernames: map<UserId, string>,
                       state: string, productQuery: string, userQuery: string, day: Option<int>): (r: seq<Order>)
    ensures forall o :: o in r <==> o in orders && Shown(o, products, usernames, state, productQuery, userQuery, day)
    ensures NonIncreasing(r, PlacedAt)
    ensures multiset(r) == multiset(Filter(orders, (o: Order) => Shown(o, products, usernames, state, productQuery, userQuery, day)))
  {
    var kept := Filter(orders, (o: Order) => Shown(o, products, usernames, state, productQuery, userQuery, day));
    var r := SortDesc(kept, PlacedAt);
    assert forall o :: o in r <==> o in kept by {
      forall o ensures o in r <==> o in kept {
        assert o in r <==> o in multiset(r);
        assert o in kept <==> o in multiset(kept);
      }
    }
    r
  }

  /** The panel's statistics: every order, and the orders per status, whatever the filters. */
  datatype PanelStatistics = PanelStatistics(total: nat, byState: map<string, nat>)

  function PanelStats(orders: seq<Order>): (r: PanelStatistics)
    ensures r.total == |orders|
    ensures r.byState.Keys == set st | st in States
    ensures forall st :: st in r.byState ==> r.byState[st] == CountState(orders, st)
  {
    PanelStatistics(|orders|, StateCounts(orders, States))
  }

  /**
   * The counts per status never exceed the total, and fall short of it by
   * exactly the orders whose stored status is not one of the five choices.
   */
  lemma StatisticsAddUp(orders: seq<Order>)
    ensures SumCounts(orders, States) + |Filter(orders, NotIn(States))| == PanelStats(orders).total
    ensures SumCounts(orders, States) <= PanelStats(orders).total
  {
    StatesDistinct();
    CountsPartition(orders, States);
  }

  /** With no filter the panel lists every order, each once. */
  lemma {:induction false} NoFilterShowsAll(orders: seq<Order>, products: map<ProductId, Product>, usernames: map<UserId, string>)
    ensures multiset(PanelOrders(orders, products, usernames, "", "", "", None)) == multiset(orders)
  {
    FilterAll(orders, (o: Order) => Shown(o, products, usernames, "", "", "", None));
  }

  /** However the filters are set, the list holds no more rows than the total the page shows. */
  lemma ListedWithinTotal(orders: seq<Order>, products: map<ProductId, Product>, usernames: map<UserId, string>,
                          state: string, productQuery: string, userQuery: string, day: Option<int>)
    ensures |PanelOrders(orders, products, usernames, state, productQuery, userQuery, day)| <= PanelStats(orders).total
  {
    var r := PanelOrders(orders, products, usernames, state, productQuery, userQuery, day);
    assert |r| == |multiset(r)|;
  }
}
