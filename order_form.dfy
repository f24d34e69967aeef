/**
 * `PedidoForm.clean` (`ventas/forms.py`): the stock check a customer's new
 * order passes before it is saved. Only a new order (no primary key yet)
 * that names a product and a non-zero quantity is checked.
 */
module OrderForm {
  import opened Util
  import opened Catalog
  import opened Ledger

  /** The cleaned fields of the form: `producto`, `cantidad` (a non-negative integer) and `fecha_entrega`. */
  datatype CleanedData = CleanedData(product: Option<Product>, quantity: Option<nat>, deliveryDate: Option<int>)

  /** The `ValidationError`, with the product name and the units on hand that its message shows. */
  datatype FormError = NotEnoughStock(productName: string, available: nat)

  datatype Checked = Accepted(data: CleanedData) | Rejected(error: FormError)

  /** A value Python treats as true: a present product, a present non-zero quantity. */
  predicate Given(q: Option<nat>)
  {
    q.Some? && q.value != 0
  }

  function Clean(data: CleanedData, isNew: bool): (r: Checked)
    ensures !isNew ==> r == Accepted(data)
    ensures data.product.None? || !Given(data.quantity) ==> r == Accepted(data)
    ensures r.Accepted? ==> r.data == data
    ensures r.Rejected? ==> data.product.Some? && data.quantity.Some?
                            && r.error == NotEnoughStock(data.product.value.name, data.product.value.stock)
                            && data.product.value.stock < data.quantity.value
  {
    if isNew && data.product.Some? && Given(data.quantity) && data.product.value.stock < data.quantity.value then
      Rejected(NotEnoughStock(data.product.value.name, data.product.value.stock))
    else
      Accepted(data)
  }

  /**
   * For a new order of a product in a positive quantity, the form accepts
   * exactly when `hay_stock` says yes, which is exactly when `descontar_stock`
   * would succeed on that quantity.
   */
  lemma CleanAgreesWithStockGuard(p: Product, q: nat, deliveryDate: Option<int>)
    requires q >= 1
    ensures Clean(CleanedData(Some(p), Some(q), deliveryDate), true).Accepted? <==> HasStock(p, q)
    ensures Clean(CleanedData(Some(p), Some(q), deliveryDate), true).Accepted? <==> Discount(p.stock, q).Deducted?
  {
  }
}
