/**
 * The product record of the catalogue (`productos/models.py`): the order
 * lifecycle reads its name, price and category and updates only its stock.
 */
module Catalog {
  import opened Util

  type ProductId = nat
  type CategoryId = nat

  /**
   * Money in hundredths. Prices are `DecimalField(max_digits=10, decimal_places=2)`:
   * exact fixed point with two decimals and at most ten digits in all.
   */
  type Cents = int

  const MaxCents: int := 9_999_999_999

  predicate ValidPrice(c: Cents)
  {
    -MaxCents <= c <= MaxCents
  }

  /** `stock` is a `PositiveIntegerField(default=0)`: never negative, zero for a new product. */
  const DefaultStock: nat := 0

  datatype Product = Product(
    id: ProductId,
    name: string,
    price: Cents,
    stock: nat,
    category: Option<CategoryId>)

  /** A catalogue row the database accepts: a name of at most 100 characters and a price that fits the column. */
  predicate ValidProduct(p: Product)
  {
    |p.name| <= 100 && ValidPrice(p.price)
  }

  /** A product as created without an explicit stock. */
  function NewProduct(id: ProductId, name: string, price: Cents, category: Option<CategoryId>): (p: Product)
    ensures p.stock == DefaultStock
    ensures !HasStock(p)
    ensures p.id == id && p.name == name && p.price == price && p.category == category
  {
    Product(id, name, price, DefaultStock, category)
  }

  /** `Producto.hay_stock(cantidad=1)`. */
  function HasStock(p: Product, quantity: int := 1): (b: bool)
    ensures quantity <= 0 ==> b
    ensures b && quantity > 0 ==> p.stock > 0
    ensures !b ==> p.stock < quantity
  {
    p.stock >= quantity
  }

  /** With the default argument the question is whether at least one unit is left. */
  lemma HasStockDefault(p: Product)
    ensures HasStock(p) <==> p.stock >= 1
    ensures HasStock(p) <==> p.stock != 0
  {
  }

  /** Having enough for a larger quantity means having enough for any smaller one. */
  lemma HasStockMonotone(p: Product, more: int, less: int)
    requires less <= more
    ensures HasStock(p, more) ==> HasStock(p, less)
  {
  }
}
