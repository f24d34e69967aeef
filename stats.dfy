/**
 * The order statistics the list, summary and panel pages compute:
 * `Pedido.objects.filter(estado=s).count()` for each status of a list, and
 * what those counts add up to.
 */
module Statistics {
  import opened Util
  import opened Sales

  /** The `WHERE estado = st` condition. */
  function HasState(st: string): Order -> bool
  {
    (o: Order) => o.state == st
  }

  /** The `WHERE estado NOT IN states` condition. */
  function NotIn(states: seq<string>): Order -> bool
  {
    (o: Order) => o.state !in states
  }

  /** `filter(estado=st).count()`. */
  function CountState(orders: seq<Order>, st: string): (n: nat)
    ensures n <= |orders|
    ensures n == 0 <==> forall i :: 0 <= i < |orders| ==> orders[i].state != st
  {
    var r := Filter(orders, HasState(st));
    assert (exists i :: 0 <= i < |orders| && orders[i].state == st) ==> |r| > 0 by {
      if i :| 0 <= i < |orders| && orders[i].state == st {
        assert orders[i] in r;
      }
    }
    assert |r| > 0 ==> exists i :: 0 <= i < |orders| && orders[i].state == st by {
      if |r| > 0 {
        assert HasState(st)(r[0]) && r[0] in orders;
      }
    }
    |r|
  }

  /** `{estado: qs.filter(estado=estado).count() for estado in states}`. */
  function StateCounts(orders: seq<Order>, states: seq<string>): (m: map<string, nat>)
    ensures m.Keys == set st | st in states
  {
    map st | st in states :: CountState(orders, st)
  }

  /** The counts added over a list of statuses. */
  function SumCounts(orders: seq<Order>, states: seq<string>): nat
  {
    if |states| == 0 then 0 else SumCounts(orders, states[..|states| - 1]) + CountState(orders, states[|states| - 1])
  }

  predicate Distinct(states: seq<string>)
  {
    forall i, j :: 0 <= i < j < |states| ==> states[i] != states[j]
  }

  /** One more order adds one to the count of its own status and nothing to the others. */
  lemma {:induction false} SumCountsAppend(orders: seq<Order>, x: Order, states: seq<string>)
    requires Distinct(states)
    ensures SumCounts(orders + [x], states) == SumCounts(orders, states) + (if x.state in states then 1 else 0)
  {
    if |states| > 0 {
      var n := |states| - 1;
      var init := states[..n];
      assert Distinct(init);
      SumCountsAppend(orders, x, init);
      FilterAppend(orders, x, HasState(states[n]));
      assert x.state in states <==> x.state in init || x.state == states[n];
      assert x.state in init ==> x.state != states[n];
    }
  }

  /**
   * Every order is counted under its own status or, when its status is not in
   * the list, not at all: the counts plus the uncounted orders make the total.
   */
  lemma {:induction false} CountsPartition(orders: seq<Order>, states: seq<string>)
    requires Distinct(states)
    ensures SumCounts(orders, states) + |Filter(orders, NotIn(states))| == |orders|
  {
    if |orders| == 0 {
      assert SumCounts(orders, states) == 0 by {
        SumCountsEmpty(orders, states);
      }
    } else {
      var n := |orders| - 1;
      var init := orders[..n];
      assert orders == init + [orders[n]];
      CountsPartition(init, states);
      SumCountsAppend(init, orders[n], states);
      FilterAppend(init, orders[n], NotIn(states));
    }
  }

  lemma {:induction false} SumCountsEmpty(orders: seq<Order>, states: seq<string>)
    requires |orders| == 0
    ensures SumCounts(orders, states) == 0
  {
    if |states| > 0 {
      SumCountsEmpty(orders, states[..|states| - 1]);
    }
  }

  /** The five statuses of `Pedido.ESTADOS` are distinct. */
  lemma StatesDistinct()
    ensures Distinct(States)
  {
  }

  /**
   * An order stored as "Pagado" (capital P) counts towards the total but under
   * none of the five statuses: the counts of the page add up to less than the total.
   */
  lemma MisspelledStateUncounted(orders: seq<Order>, x: Order)
    requires x.state == "Pagado"
    ensures SumCounts(orders + [x], States) == SumCounts(orders, States)
    ensures SumCounts(orders + [x], States) < |orders + [x]|
  {
    StatesDistinct();
    SumCountsAppend(orders, x, States);
    CountsPartition(orders, States);
  }

  /** The sum of the quantities of `orders` (`Sum("cantidad")`). */
  function Units(orders: seq<Order>): nat
  {
    SumBy(orders, (o: Order) => o.quantity)
  }
}
