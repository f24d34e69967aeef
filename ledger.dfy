/**
 * The stock guard of `ventas/views/helpers.py` (`descontar_stock`) as a pure
 * function on a stock level, and what it guarantees over any sequence of
 * requests against one product.
 */
module Ledger {
  import opened Catalog

  datatype StockError = NegativeQuantity | InsufficientStock(available: nat)

  datatype Outcome = Deducted(remaining: nat) | Refused(error: StockError)

  /**
   * `descontar_stock(producto, cantidad)`: a negative quantity is refused, a
   * quantity above the stock is refused with the stock on hand, anything else
   * is taken off the stock.
   */
  function Discount(stock: nat, quantity: int): (r: Outcome)
    ensures r.Deducted? <==> 0 <= quantity <= stock
    ensures r.Deducted? ==> r.remaining + quantity == stock
    ensures quantity < 0 ==> r == Refused(NegativeQuantity)
    ensures 0 <= quantity && stock < quantity ==> r == Refused(InsufficientStock(stock))
  {
    if quantity < 0 then Refused(NegativeQuantity)
    else if stock < quantity then Refused(InsufficientStock(stock))
    else Deducted(stock - quantity)
  }

  /** Taking nothing always succeeds and leaves the stock as it was. */
  lemma DiscountZero(stock: nat)
    ensures Discount(stock, 0) == Deducted(stock)
  {
  }

  /** The guard of `descontar_stock` is exactly `hay_stock` for a non-negative quantity. */
  lemma DiscountAgreesWithHasStock(p: Product, quantity: int)
    ensures Discount(p.stock, quantity).Deducted? <==> quantity >= 0 && HasStock(p, quantity)
  {
  }

  /**
   * Serving a queue of requests one after the other against one product:
   * the stock left and the number of requests that were granted.
   */
  function Serve(stock: nat, requests: seq<int>): (r: (nat, nat))
    ensures r.1 <= |requests|
  {
    if |requests| == 0 then (stock, 0)
    else
      match Discount(stock, requests[0])
      case Deducted(left) =>
        var rest := Serve(left, requests[1..]);
        (rest.0, rest.1 + 1)
      case Refused(_) => Serve(stock, requests[1..])
  }

  /** The quantity granted to the requests of `requests` served from `stock`. */
  function Granted(stock: nat, requests: seq<int>): (g: nat)
  {
    if |requests| == 0 then 0
    else
      match Discount(stock, requests[0])
      case Deducted(left) => requests[0] + Granted(left, requests[1..])
      case Refused(_) => Granted(stock, requests[1..])
  }

  /** No unit is lost or invented: what is left plus what was granted is what there was. */
  lemma {:induction false} ServeConserves(stock: nat, requests: seq<int>)
    ensures Serve(stock, requests).0 + Granted(stock, requests) == stock
  {
    if |requests| > 0 {
      match Discount(stock, requests[0])
      case Deducted(left) => ServeConserves(left, requests[1..]);
      case Refused(_) => ServeConserves(stock, requests[1..]);
    }
  }

  /**
   * Whatever the requests, no more units are handed out than there were in
   * stock; with one-unit requests, at most `stock` requests succeed.
   */
  lemma {:induction false} NeverOversold(stock: nat, requests: seq<int>)
    ensures Granted(stock, requests) <= stock
    ensures (forall i :: 0 <= i < |requests| ==> requests[i] == 1) ==> Serve(stock, requests).1 <= stock
  {
    ServeConserves(stock, requests);
    if |requests| > 0 {
      match Discount(stock, requests[0])
      case Deducted(left) => NeverOversold(left, requests[1..]);
      case Refused(_) => NeverOversold(stock, requests[1..]);
    }
  }
}
