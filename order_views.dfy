/**
 * The read-only parts of `ventas/views/pedidos.py`: who may open an order,
 * the customer's own order list with its filters and statistics, and the
 * history and log rows the status-update form writes.
 */
module OrderViews {
  import opened Util
  import opened Catalog
  import opened Sales
  import opened Text
  import opened Sorting
  import opened Statistics

  /** `test_func` of the detail, history and update views: staff, or the order's owner. */
  predicate CanAccess(isStaff: bool, caller: UserId, o: Order): (b: bool)
    ensures isStaff ==> b
    ensures !isStaff ==> (b <==> o.user == caller)
  {
    isStaff || o.user == caller
  }

  function PlacedAt(o: Order): int
  {
    o.placedAt
  }

  /**
   * The conditions of `PedidoListView.get_queryset`: the caller's own orders,
   * then `estado=state` when a state was given and
   * `producto__nombre__icontains=query` when a query was given. A parameter
   * that is missing or empty is falsy in Python and adds no condition.
   */
  predicate Listed(o: Order, products: map<ProductId, Product>, user: UserId, state: string, query: string)
  {
    && o.user == user
    && (state == "" || o.state == state)
    && (query == "" || (o.product in products && ContainsIgnoringCase(products[o.product].name, query)))
  }

  /** The customer's order list, newest first (`order_by('-fecha_pedido')`). */
  function UserOrders(orders: seq<Order>, products: map<ProductId, Product>, user: UserId,
                      state: string, query: string): (r: seq<Order>)
    ensures forall o :: o in r <==> o in orders && Listed(o, products, user, state, query)
    ensures NonIncreasing(r, PlacedAt)
    ensures multiset(r) == multiset(Filter(orders, (o: Order) => Listed(o, products, user, state, query)))
  {
    var kept := Filter(orders, (o: Order) => Listed(o, products, user, state, query));
    var r := SortDesc(kept, PlacedAt);
    assert forall o :: o in r <==> o in kept by {
      forall o ensures o in r <==> o in kept {
        assert o in r <==> o in multiset(r);
        assert o in kept <==> o in multiset(kept);
      }
    }
    r
  }

  /** Every order in a customer's list is one the access test lets that customer open. */
  lemma ListedOrdersAccessible(orders: seq<Order>, products: map<ProductId, Product>, user: UserId,
                               state: string, query: string, o: Order)
    requires o in UserOrders(orders, products, user, state, query)
    ensures CanAccess(false, user, o)
    ensures forall other: UserId :: other != user ==> !CanAccess(false, other, o)
  {
  }

  /** Without filters the list holds every order of the caller, and only those. */
  lemma UnfilteredListIsAllOwnOrders(orders: seq<Order>, products: map<ProductId, Product>, user: UserId)
    ensures forall o :: o in UserOrders(orders, products, user, "", "") <==> o in orders && o.user == user
  {
  }

  function OrderOf(user: UserId): Order -> bool
  {
    (o: Order) => o.user == user
  }

  /** The statistics of the list page: the caller's orders per status, ignoring the filters. */
  datatype UserStatistics = UserStatistics(total: nat, byState: map<string, nat>)

  function UserStats(orders: seq<Order>, user: UserId): (r: UserStatistics)
    ensures r.byState.Keys == set st | st in States
    ensures r.total == |Filter(orders, OrderOf(user))|
    ensures forall st :: st in r.byState ==> r.byState[st] == CountState(Filter(orders, OrderOf(user)), st)
  {
    var own := Filter(orders, OrderOf(user));
    UserStatistics(|own|, StateCounts(own, States))
  }

  /**
   * The history row and the log row `PedidoEstadoUpdateView.form_valid` writes,
   * AS WRITTEN. By the time `form_valid` runs, validating the `ModelForm` has
   * already copied the posted status into `form.instance`, so the "previous"
   * status read from it is the new one.
   */
  function StateChangeAsWritten(o: Order, posted: string, user: UserId, now: nat): (r: (HistoryEntry, LogEntry))
    ensures r.0.order == o.id && r.0.next == posted && r.0.user == user && r.0.at == now
    ensures r.1 == LogEntry(o.id, user, StateChangeAction(r.0.previous, r.0.next), now)
  {
    var instance := o.(state := posted);
    var previous := instance.state;
    (HistoryEntry(o.id, previous, instance.state, user, now),
     LogEntry(o.id, user, StateChangeAction(previous, instance.state), now))
  }

  /** The log action `f"estado:{anterior}→{nuevo}"`. */
  function StateChangeAction(previous: string, next: string): string
  {
    "estado:" + previous + "→" + next
  }

  /** As written, every recorded status change claims the order was already in its new status. */
  lemma AsWrittenHistoryLosesPreviousState(o: Order, posted: string, user: UserId, now: nat)
    ensures StateChangeAsWritten(o, posted, user, now).0.previous == posted
    ensures o.state != posted ==> StateChangeAsWritten(o, posted, user, now).0.previous != o.state
  {
  }

  /** A pending order moved to "enviado" is recorded as going from "enviado" to "enviado". */
  lemma AsWrittenHistoryExample(o: Order, user: UserId, now: nat)
    requires o.state == Pending
    ensures StateChangeAsWritten(o, Shipped, user, now).0.previous == Shipped
    ensures StateChangeAsWritten(o, Shipped, user, now).0 != StateChange(o, Shipped, user, now).0
  {
  }

  /** What the update view is meant to record: the status the order had, and the one posted. */
  function StateChange(o: Order, posted: string, user: UserId, now: nat): (r: (HistoryEntry, LogEntry))
    ensures r.0 == HistoryEntry(o.id, o.state, posted, user, now)
    ensures r.1 == LogEntry(o.id, user, StateChangeAction(o.state, posted), now)
  {
    (HistoryEntry(o.id, o.state, posted, user, now), LogEntry(o.id, user, StateChangeAction(o.state, posted), now))
  }

  /**
   * The history of one order reads as a chain: the first row starts from the
   * order's first status and every row starts where the previous one ended.
   */
  ghost predicate Chained(start: string, entries: seq<HistoryEntry>)
  {
    && (|entries| > 0 ==> entries[0].previous == start)
    && (forall i :: 0 < i < |entries| ==> entries[i].previous == entries[i - 1].next)
  }

  /** The status the order has after the posted updates are applied in turn. */
  function StateAfter(start: string, posts: seq<string>): string
  {
    if |posts| == 0 then start else posts[|posts| - 1]
  }

  /** The history rows the intended update view writes for a series of posted statuses on one order. */
  function UpdateHistory(o: Order, posts: seq<string>, user: UserId, now: nat): (r: seq<HistoryEntry>)
    ensures |r| == |posts|
  {
    if |posts| == 0 then []
    else
      var init := posts[..|posts| - 1];
      UpdateHistory(o, init, user, now) + [StateChange(o.(state := StateAfter(o.state, init)), posts[|posts| - 1], user, now).0]
  }

  /** With the intended rows, an order's history always chains from its first status to its current one. */
  lemma {:induction false} UpdateHistoryChains(o: Order, posts: seq<string>, user: UserId, now: nat)
    ensures Chained(o.state, UpdateHistory(o, posts, user, now))
    ensures |posts| > 0 ==> UpdateHistory(o, posts, user, now)[|posts| - 1].next == StateAfter(o.state, posts)
  {
    if |posts| > 0 {
      var init := posts[..|posts| - 1];
      UpdateHistoryChains(o, init, user, now);
      var h := UpdateHistory(o, posts, user, now);
      var hi := UpdateHistory(o, init, user, now);
      assert h[..|init|] == hi;
      if |init| > 0 {
        assert h[|init| - 1] == hi[|init| - 1];
      }
    }
  }

  /** The rows as written break that chain as soon as an update changes the status. */
  lemma AsWrittenHistoryBreaksChain(o: Order, posted: string, user: UserId, now: nat)
    requires posted != o.state
    ensures !Chained(o.state, [StateChangeAsWritten(o, posted, user, now).0])
  {
  }
}
