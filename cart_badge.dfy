/**
 * The `carrito_count` context processor (`ventas/context_processors.py`):
 * the number shown on the cart icon of every page.
 */
module CartBadge {
  import opened Util
  import opened Sales
  import opened Tables
  import opened Carts

  /**
   * Nobody signed in, or signed in without a cart (`Carrito.DoesNotExist`),
   * shows 0; otherwise the number of lines of the cart, whatever their quantities.
   */
  function CartCount(user: Option<UserId>, carts: seq<Cart>, items: seq<CartItem>): (n: nat)
    ensures user.None? ==> n == 0
    ensures user.Some? && CartIndex(carts, user.value).None? ==> n == 0
    ensures user.Some? && CartIndex(carts, user.value).Some? ==> n == |LinesOf(items, carts[CartIndex(carts, user.value).value].id)|
  {
    match user
    case None => 0
    case Some(u) =>
      match CartIndex(carts, u)
      case None => 0
      case Some(i) => LineCount(items, carts[i].id)
  }

  /** The units in a cart: `sum(item.cantidad for item in carrito.items.all())`. */
  function CartQuantity(items: seq<CartItem>, cart: CartId): nat
  {
    SumBy(LinesOf(items, cart), (l: CartItem) => l.quantity)
  }

  /**
   * The badge counts lines, not units: with every line holding at least one
   * unit, it never shows more than the units in the cart.
   */
  lemma BadgeAtMostUnits(user: UserId, carts: seq<Cart>, items: seq<CartItem>)
    requires forall i :: 0 <= i < |items| ==> items[i].quantity >= 1
    requires CartIndex(carts, user).Some?
    ensures CartCount(Some(user), carts, items) <= CartQuantity(items, carts[CartIndex(carts, user).value].id)
  {
    var lines := LinesOf(items, carts[CartIndex(carts, user).value].id);
    assert forall i :: 0 <= i < |lines| ==> lines[i].quantity >= 1 by {
      forall i | 0 <= i < |lines| ensures lines[i].quantity >= 1 {
        assert lines[i] in items;
      }
    }
    SumByAtLeastCount(lines, (l: CartItem) => l.quantity);
  }
}
