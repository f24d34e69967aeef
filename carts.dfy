/**
 * The table updates of the cart handlers in `ventas/views/carrito.py`:
 * `get_or_create` of the user's cart, `get_or_create` of a line followed by
 * `cantidad += 1`, deleting a line, and the `sumar`/`restar` quantity step.
 * Each is a function from the old rows to the new rows; `Shop.Store` applies
 * them to its tables.
 */
module Carts {
  import opened Util
  import opened Catalog
  import opened Sales
  import opened Tables

  /** The cart table after `Carrito.objects.get_or_create(usuario=user)`, and the cart that call returned. */
  datatype Opened = Opened(carts: seq<Cart>, nextCart: nat, cart: CartId, created: bool)

  function OpenCart(carts: seq<Cart>, nextCart: nat, user: UserId): (r: Opened)
    ensures r.created <==> forall i :: 0 <= i < |carts| ==> carts[i].owner != user
    ensures r.created ==> r.carts == carts + [Cart(nextCart, user)] && r.nextCart == nextCart + 1
    ensures !r.created ==> r.carts == carts && r.nextCart == nextCart
    ensures exists i :: 0 <= i < |r.carts| && r.carts[i] == Cart(r.cart, user)
  {
    match CartIndex(carts, user)
    case Some(i) => Opened(carts, nextCart, carts[i].id, false)
    case None =>
      assert (carts + [Cart(nextCart, user)])[|carts|] == Cart(nextCart, user);
      Opened(carts + [Cart(nextCart, user)], nextCart + 1, nextCart, true)
  }

  /** Opening a cart keeps the cart table consistent: still one cart per user, keys still increasing. */
  lemma OpenCartValid(carts: seq<Cart>, nextCart: nat, user: UserId)
    requires CartsValid(carts, nextCart)
    ensures CartsValid(OpenCart(carts, nextCart, user).carts, OpenCart(carts, nextCart, user).nextCart)
    ensures CartIndex(OpenCart(carts, nextCart, user).carts, user).Some?
  {
    var r := OpenCart(carts, nextCart, user);
    if r.created {
      PairwiseAppend(carts, Cart(nextCart, user), CartBefore);
      assert r.carts[|carts|].owner == user;
    }
  }

  /** The quantity the line for `(cart, pid)` holds, zero when there is no such line. */
  function CartUnits(items: seq<CartItem>, cart: CartId, pid: ProductId): nat
  {
    SumBy(items, (l: CartItem) => if l.cart == cart && l.product == pid then l.quantity else 0)
  }

  /** The number of lines in a cart (`carrito.items.count()`). */
  function LineCount(items: seq<CartItem>, cart: CartId): nat
  {
    |LinesOf(items, cart)|
  }

  /** The line table after `ItemCarrito.objects.get_or_create(carrito=cart, producto=pid)` and, for a found line, `cantidad += 1`. */
  datatype Added = Added(items: seq<CartItem>, nextItem: nat, line: CartItem, created: bool)

  function AddLine(items: seq<CartItem>, nextItem: nat, cart: CartId, pid: ProductId): (r: Added)
    ensures r.created <==> forall i :: 0 <= i < |items| ==> !(items[i].cart == cart && items[i].product == pid)
    ensures r.created ==> r.items == items + [r.line] && r.nextItem == nextItem + 1
    ensures r.created ==> r.line == CartItem(nextItem, cart, pid, DefaultQuantity)
    ensures !r.created ==> r.nextItem == nextItem && |r.items| == |items|
    ensures !r.created ==> exists k :: 0 <= k < |items| && items[k].cart == cart && items[k].product == pid
                            && r.line == items[k].(quantity := items[k].quantity + 1)
                            && r.items == items[k := r.line]
  {
    match LineIndex(items, cart, pid)
    case None =>
      var line := CartItem(nextItem, cart, pid, DefaultQuantity);
      Added(items + [line], nextItem + 1, line, true)
    case Some(k) =>
      var line := items[k].(quantity := items[k].quantity + 1);
      Added(items[k := line], nextItem, line, false)
  }

  /**
   * Adding a product puts exactly one more unit of it in the cart and leaves
   * every other (cart, product) pair as it was; no stock is compared with the
   * line quantity.
   */
  lemma AddLineUnits(items: seq<CartItem>, nextItem: nat, cart: CartId, pid: ProductId, c: CartId, p: ProductId)
    ensures CartUnits(AddLine(items, nextItem, cart, pid).items, c, p)
            == CartUnits(items, c, p) + (if c == cart && p == pid then 1 else 0)
  {
    var r := AddLine(items, nextItem, cart, pid);
    var f := (l: CartItem) => if l.cart == c && l.product == p then l.quantity else 0;
    if r.created {
      SumByAppend(items, r.line, f);
    } else {
      var k :| 0 <= k < |items| && items[k].cart == cart && items[k].product == pid
               && r.line == items[k].(quantity := items[k].quantity + 1) && r.items == items[k := r.line];
      SumByUpdate(items, k, r.line, f);
    }
  }

  /** The cart badge grows by one for a new line and stays put when an existing line is incremented. */
  lemma AddLineCount(items: seq<CartItem>, nextItem: nat, cart: CartId, pid: ProductId, c: CartId)
    ensures LineCount(AddLine(items, nextItem, cart, pid).items, c)
            == LineCount(items, c) + (if c == cart && AddLine(items, nextItem, cart, pid).created then 1 else 0)
  {
    var r := AddLine(items, nextItem, cart, pid);
    var p := (l: CartItem) => l.cart == c;
    if r.created {
      FilterAppend(items, r.line, p);
    } else {
      var k :| 0 <= k < |items| && items[k].cart == cart && items[k].product == pid
               && r.line == items[k].(quantity := items[k].quantity + 1) && r.items == items[k := r.line];
      FilterUpdateLength(items, k, r.line, p);
    }
  }

  /** Adding a product the catalogue holds keeps the line table consistent. */
  lemma AddLineValid(items: seq<CartItem>, products: map<ProductId, Product>, nextItem: nat, cart: CartId, pid: ProductId)
    requires ItemsValid(items, products, nextItem) && pid in products
    ensures ItemsValid(AddLine(items, nextItem, cart, pid).items, products, AddLine(items, nextItem, cart, pid).nextItem)
  {
    var r := AddLine(items, nextItem, cart, pid);
    if r.created {
      PairwiseAppend(items, r.line, ItemBefore);
      PairwiseAppend(items, r.line, DistinctLines);
    } else {
      var k :| 0 <= k < |items| && items[k].cart == cart && items[k].product == pid
               && r.line == items[k].(quantity := items[k].quantity + 1) && r.items == items[k := r.line];
      forall i, j | 0 <= i < j < |r.items| ensures ItemBefore(r.items[i], r.items[j]) && DistinctLines(r.items[i], r.items[j]) {
        assert ItemBefore(items[i], items[j]) && DistinctLines(items[i], items[j]);
      }
    }
  }

  /**
   * The line table after `item.delete()` of the line at position `k`: row `i`
   * is row `i` of the old table before `k`, and row `i + 1` from `k` on.
   */
  function RemoveAt(items: seq<CartItem>, k: nat): (r: seq<CartItem>)
    requires k < |items|
    ensures |r| == |items| - 1
    ensures forall i :: 0 <= i < |r| ==> r[i] == if i < k then items[i] else items[i + 1]
    ensures forall x :: x in r ==> x in items
  {
    var r := items[..k] + items[k + 1..];
    assert forall i :: 0 <= i < |r| ==> r[i] == if i < k then items[i] else items[i + 1] by {
      forall i | 0 <= i < |r| ensures r[i] == if i < k then items[i] else items[i + 1] {
        if i < k { assert r[i] == items[..k][i]; } else { assert r[i] == items[k + 1..][i - k]; }
      }
    }
    r
  }

  /** Deleting a line removes that line and no other, and keeps the table consistent. */
  lemma RemoveAtExactly(items: seq<CartItem>, products: map<ProductId, Product>, nextItem: nat, k: nat)
    requires ItemsValid(items, products, nextItem) && k < |items|
    ensures forall x :: x in RemoveAt(items, k) <==> x in items && x.id != items[k].id
    ensures ItemsValid(RemoveAt(items, k), products, nextItem)
  {
    RemoveAtMembers(items, products, nextItem, k);
    RemoveAtValid(items, products, nextItem, k);
  }

  lemma RemoveAtMembers(items: seq<CartItem>, products: map<ProductId, Product>, nextItem: nat, k: nat)
    requires ItemsValid(items, products, nextItem) && k < |items|
    ensures forall x :: x in RemoveAt(items, k) <==> x in items && x.id != items[k].id
  {
    var r := RemoveAt(items, k);
    forall x | x in items && x.id != items[k].id ensures x in r {
      var i :| 0 <= i < |items| && items[i] == x;
      if i < k { assert r[i] == x; } else { assert i != k; assert r[i - 1] == x; }
    }
    forall x | x in r ensures x.id != items[k].id {
      var i :| 0 <= i < |r| && r[i] == x;
      if i < k { assert ItemBefore(items[i], items[k]); } else { assert ItemBefore(items[k], items[i + 1]); }
    }
  }

  lemma RemoveAtValid(items: seq<CartItem>, products: map<ProductId, Product>, nextItem: nat, k: nat)
    requires ItemsValid(items, products, nextItem) && k < |items|
    ensures ItemsValid(RemoveAt(items, k), products, nextItem)
  {
    var r := RemoveAt(items, k);
    forall i, j | 0 <= i < j < |r| ensures ItemBefore(r[i], r[j]) && DistinctLines(r[i], r[j]) {
      var i' := if i < k then i else i + 1;
      var j' := if j < k then j else j + 1;
      assert ItemBefore(items[i'], items[j']) && DistinctLines(items[i'], items[j']);
    }
    forall i | 0 <= i < |r| ensures r[i].id < nextItem && r[i].product in products && r[i].quantity >= 1 {
      var i' := if i < k then i else i + 1;
      assert r[i] == items[i'];
    }
  }

  /** Deleting a line takes its whole quantity out of its cart and its line off the badge. */
  lemma RemoveAtUnits(items: seq<CartItem>, k: nat, c: CartId, p: ProductId)
    requires k < |items|
    ensures CartUnits(RemoveAt(items, k), c, p) + (if items[k].cart == c && items[k].product == p then items[k].quantity else 0)
            == CartUnits(items, c, p)
    ensures LineCount(RemoveAt(items, k), c) + (if items[k].cart == c then 1 else 0) == LineCount(items, c)
  {
    SumByRemove(items, k, (l: CartItem) => if l.cart == c && l.product == p then l.quantity else 0);
    FilterRemoveLength(items, k, (l: CartItem) => l.cart == c);
  }

  /** What `modificar_cantidad` reports. */
  datatype Adjustment = Incremented | NoMoreStock | Decremented | AtMinimum | UnknownAction

  /**
   * `modificar_cantidad`'s step on a line quantity: `sumar` adds a unit only
   * while the stock is above the quantity, `restar` takes one only while the
   * quantity is above one, and any other action does nothing.
   */
  function Adjust(quantity: nat, stock: nat, action: string): (r: (nat, Adjustment))
    ensures action == "sumar" && stock > quantity ==> r == (quantity + 1, Incremented)
    ensures action == "sumar" && stock <= quantity ==> r == (quantity, NoMoreStock)
    ensures action == "restar" && quantity > 1 ==> r == (quantity - 1, Decremented)
    ensures action == "restar" && quantity <= 1 ==> r == (quantity, AtMinimum)
    ensures action != "sumar" && action != "restar" ==> r == (quantity, UnknownAction)
  {
    if action == "sumar" then
      if stock > quantity then (quantity + 1, Incremented) else (quantity, NoMoreStock)
    else if action == "restar" then
      if quantity > 1 then (quantity - 1, Decremented) else (quantity, AtMinimum)
    else (quantity, UnknownAction)
  }

  /**
   * The buttons keep a line inside `[1, stock]`: from a quantity in that range
   * every action lands in it again, and no action ever takes a line below one
   * or `sumar` above the stock.
   */
  lemma AdjustStaysInRange(quantity: nat, stock: nat, action: string)
    ensures 1 <= quantity ==> 1 <= Adjust(quantity, stock, action).0
    ensures Adjust(quantity, stock, action).0 <= if quantity > stock then quantity else stock
    ensures 1 <= quantity <= stock ==> 1 <= Adjust(quantity, stock, action).0 <= stock
    ensures Adjust(quantity, stock, action).0 > quantity ==> Adjust(quantity, stock, action).0 == quantity + 1 <= stock
  {
  }
}
