/**
 * The pure parts of `ventas/views/pagos.py`: the amount the payment page
 * shows, the choice of the Mercado Pago path, the preference sent to the
 * provider, and how the webhook reads a payment notification. The provider
 * itself is not modelled; its answers are parameters.
 */
module Payments {
  import opened Util
  import opened Catalog
  import opened Sales
  import opened Tables
  import opened Text

  /** Python's `sum(...)` over the lines: the first line's subtotal plus the sum of the rest. */
  function LeftSum(lines: seq<CartItem>, products: map<ProductId, Product>): Cents
    requires PricedBy(lines, products)
  {
    if |lines| == 0 then 0 else Subtotal(lines[0], products) + LeftSum(lines[1..], products)
  }

  lemma {:induction false} LeftSumIsCartTotal(lines: seq<CartItem>, products: map<ProductId, Product>)
    requires PricedBy(lines, products)
    ensures LeftSum(lines, products) == CartTotal(lines, products)
  {
    if |lines| > 0 {
      var n := |lines| - 1;
      LeftSumIsCartTotal(lines[1..], products);
      if n > 0 {
        assert lines[1..][..n - 1] == lines[1..n];
        assert lines[..n][1..] == lines[1..n];
        LeftSumIsCartTotal(lines[1..n], products);
        LeftSumIsCartTotal(lines[..n], products);
        assert LeftSum(lines[..n], products) == Subtotal(lines[0], products) + LeftSum(lines[1..n], products);
      } else {
        assert lines[1..] == [];
        assert lines[..0] == [];
      }
    }
  }

  lemma LinesOfPricedBy(items: seq<CartItem>, products: map<ProductId, Product>, cart: CartId)
    requires PricedBy(items, products)
    ensures PricedBy(LinesOf(items, cart), products)
  {
    var lines := LinesOf(items, cart);
    forall i | 0 <= i < |lines| ensures lines[i].product in products {
      assert lines[i] in items;
    }
  }

  /** `total_a_pagar`: the caller's cart, line by line at today's prices; 0 with no cart. */
  function AmountDue(carts: seq<Cart>, items: seq<CartItem>, products: map<ProductId, Product>, user: UserId): (t: Cents)
    requires PricedBy(items, products)
    ensures CartIndex(carts, user).None? ==> t == 0
  {
    match CartIndex(carts, user)
    case None => 0
    case Some(i) =>
      LinesOfPricedBy(items, products, carts[i].id);
      LeftSum(LinesOf(items, carts[i].id), products)
  }

  /** The payment page asks for exactly what `Carrito.total` says the cart is worth. */
  lemma AmountDueIsCartTotal(carts: seq<Cart>, items: seq<CartItem>, products: map<ProductId, Product>, user: UserId)
    requires PricedBy(items, products) && CartIndex(carts, user).Some?
    ensures PricedBy(LinesOf(items, carts[CartIndex(carts, user).value].id), products)
    ensures AmountDue(carts, items, products, user) == CartTotal(LinesOf(items, carts[CartIndex(carts, user).value].id), products)
  {
    var lines := LinesOf(items, carts[CartIndex(carts, user).value].id);
    LinesOfPricedBy(items, products, carts[CartIndex(carts, user).value].id);
    LeftSumIsCartTotal(lines, products);
  }

  /** `metodo.lower() == "mercadopago"`, with ASCII lower-casing. */
  predicate IsMercadoPago(choice: string): (b: bool)
    ensures b <==> |choice| == 11 && forall i :: 0 <= i < 11 ==> Lower(choice[i]) == "mercadopago"[i]
  {
    LowerAll(choice) == "mercadopago"
  }

  lemma MercadoPagoSpellings()
    ensures IsMercadoPago("mercadopago") && IsMercadoPago("MercadoPago") && IsMercadoPago("MERCADOPAGO")
    ensures !IsMercadoPago("efectivo") && !IsMercadoPago("transferencia")
  {
    assert LowerAll("MercadoPago") == "mercadopago";
    assert LowerAll("MERCADOPAGO") == "mercadopago";
    assert LowerAll("efectivo")[0] == 'e';
    assert LowerAll("transferencia")[0] == 't';
  }

  /** One entry of the preference's `items`; the price is kept exact, in cents. */
  datatype PreferenceItem = PreferenceItem(title: string, quantity: nat, unitPrice: Cents, currency: string)

  datatype BackUrls = BackUrls(success: string, failure: string, pending: string)

  datatype Preference = Preference(items: seq<PreferenceItem>, backUrls: BackUrls, autoReturn: string, externalReference: string)

  const Currency: string := "ARS"

  function Item(line: CartItem, products: map<ProductId, Product>): PreferenceItem
    requires line.product in products
  {
    PreferenceItem(products[line.product].name, line.quantity, products[line.product].price, Currency)
  }

  /** The `preference_data` built for the caller's cart. */
  function PreferenceFor(lines: seq<CartItem>, products: map<ProductId, Product>, user: UserId, siteUrl: string): (p: Preference)
    requires PricedBy(lines, products)
    ensures |p.items| == |lines|
    ensures forall i :: 0 <= i < |lines| ==>
              && p.items[i].title == products[lines[i].product].name
              && p.items[i].quantity == lines[i].quantity
              && p.items[i].unitPrice == products[lines[i].product].price
              && p.items[i].currency == Currency
    ensures p.backUrls.success == siteUrl + "/ventas/pagos/confirmacion/"
    ensures p.backUrls.failure == siteUrl + "/ventas/pagos/error/"
    ensures p.backUrls.pending == siteUrl + "/ventas/pagos/pendiente/"
    ensures p.autoReturn == "approved"
    ensures ParseDecimal(p.externalReference) == Some(user)
  {
    DecimalRoundTrip(user);
    Preference(
      seq(|lines|, i requires 0 <= i < |lines| => Item(lines[i], products)),
      BackUrls(siteUrl + "/ventas/pagos/confirmacion/", siteUrl + "/ventas/pagos/error/", siteUrl + "/ventas/pagos/pendiente/"),
      "approved",
      DecimalString(user))
  }

  /** What the provider would charge for `items`. */
  function ItemsTotal(items: seq<PreferenceItem>): Cents
  {
    if |items| == 0 then 0 else ItemsTotal(items[..|items| - 1]) + items[|items| - 1].unitPrice * items[|items| - 1].quantity
  }

  /** The preference charges exactly the cart total the payment page showed. */
  lemma {:induction false} PreferenceChargesCartTotal(lines: seq<CartItem>, products: map<ProductId, Product>,
                                                      user: UserId, siteUrl: string)
    requires PricedBy(lines, products)
    ensures PreferenceFor(lines, products, user, siteUrl).items == seq(|lines|, i requires 0 <= i < |lines| => Item(lines[i], products))
    ensures ItemsTotal(PreferenceFor(lines, products, user, siteUrl).items) == CartTotal(lines, products)
  {
    var items := PreferenceFor(lines, products, user, siteUrl).items;
    if |lines| > 0 {
      var n := |lines| - 1;
      PreferenceChargesCartTotal(lines[..n], products, user, siteUrl);
      var shorter := PreferenceFor(lines[..n], products, user, siteUrl).items;
      assert items[..n] == shorter;
    }
  }

  /** What `sdk.preference().create(...)` gave back: an exception, or a response with or without `init_point`. */
  datatype GatewayReply = GatewayRaised | Replied(initPoint: Option<string>)

  /** Where the customer is sent: only a non-empty `init_point`. */
  function Redirection(reply: GatewayReply): (r: Option<string>)
    ensures r.Some? <==> reply.Replied? && reply.initPoint.Some? && reply.initPoint.value != ""
    ensures r.Some? ==> r.value == reply.initPoint.value
  {
    if reply.Replied? && reply.initPoint.Some? && reply.initPoint.value != "" then reply.initPoint else None
  }

  /** The status stored by the webhook: "approved" becomes "pagado", anything else is stored as the provider spelled it. */
  function WebhookState(status: string): (st: string)
    ensures status == "approved" ==> st == Paid
    ensures status != "approved" ==> st == status
  {
    if status == "approved" then Paid else status
  }

  /**
   * The webhook leaves an order in one of the five choices exactly when the
   * payment was approved or the provider's status happens to be spelled as a
   * choice: "pending", "rejected" and the like are stored outside them.
   */
  lemma WebhookStateChoices(status: string)
    ensures WebhookState(status) in States <==> status == "approved" || status in States
    ensures WebhookState("pending") !in States && WebhookState("rejected") !in States
  {
  }

  /** How the webhook reads `external_reference` as an order key. */
  datatype Target = NoReference | BadReference | OrderKey(id: OrderId)

  /**
   * `Pedido.objects.get(id=external_reference)`: a missing reference matches
   * no order; a reference that is not a decimal number makes the lookup raise.
   */
  function WebhookTarget(reference: Option<string>): (t: Target)
    ensures reference.None? ==> t == NoReference
    ensures reference.Some? ==> (t.OrderKey? <==> ParseDecimal(reference.value).Some?)
    ensures t.OrderKey? ==> ParseDecimal(reference.value) == Some(t.id)
    ensures reference.Some? && !t.OrderKey? ==> t == BadReference
  {
    match reference
    case None => NoReference
    case Some(s) =>
      match ParseDecimal(s)
      case None => BadReference
      case Some(n) => OrderKey(n)
  }

  /**
   * The reference sent with every preference is the customer's user id, and
   * the webhook reads it back as an ORDER key: a payment by user 7 updates
   * order 7, whoever's order that is.
   */
  lemma WebhookTargetsUserNumberedOrder(lines: seq<CartItem>, products: map<ProductId, Product>, user: UserId, siteUrl: string)
    requires PricedBy(lines, products)
    ensures WebhookTarget(Some(PreferenceFor(lines, products, user, siteUrl).externalReference)) == OrderKey(user)
  {
  }

  /** `payment_info` from `sdk.payment().get(id)`: an exception, or an HTTP status with the payment's fields. */
  datatype PaymentLookup = LookupRaised | Lookup(httpStatus: int, externalReference: Option<string>, status: Option<string>)

  /** The parsed request body: not JSON (or not an object), or an object with or without `data.id`. */
  datatype Notification = Unparsable | Notification(paymentId: Option<string>)

  /** `if pago_id:` — a present, non-empty id. */
  predicate HasPaymentId(n: Notification)
  {
    n.Notification? && n.paymentId.Some? && n.paymentId.value != ""
  }

  /** `estado` is a `CharField(max_length=20)`: a longer status is refused by the database. */
  const StateLength: nat := 20

  /** `metodo_pago` is a `CharField(max_length=50)`. */
  const MethodLength: nat := 50

  /** The method name the confirmation page and the webhook store. */
  const MercadoPago: string := "MercadoPago"

  /** What the webhook does with a request: answer with a status code, or first save `state` on the order at `index`. */
  datatype WebhookAction = Answer(code: int) | Record(index: nat, state: string)

  /**
   * `mercado_pago_webhook` up to the save. Anything but a POST is a 405; a
   * body that is not a JSON object, a failed lookup, a reference that is not a
   * number, and a missing status (the NOT NULL column refuses it) or one too
   * long for the column are caught as exceptions and answered 400; a
   * notification without an id, a lookup that did not answer 200, and a
   * reference that names no order are acknowledged with 200 and change nothing.
   */
  function Webhook(isPost: bool, n: Notification, lookup: PaymentLookup, orders: seq<Order>, boundedText: bool): (a: WebhookAction)
    ensures !isPost ==> a == Answer(405)
    ensures isPost && n.Unparsable? ==> a == Answer(400)
    ensures isPost && n.Notification? && !HasPaymentId(n) ==> a == Answer(200)
    ensures a.Record? <==>
              && isPost && HasPaymentId(n) && lookup.Lookup? && lookup.httpStatus == 200
              && WebhookTarget(lookup.externalReference).OrderKey?
              && OrderIndex(orders, WebhookTarget(lookup.externalReference).id).Some?
              && lookup.status.Some?
              && !(boundedText && |WebhookState(lookup.status.value)| > StateLength)
    ensures a.Record? ==>
              && a.index < |orders|
              && orders[a.index].id == WebhookTarget(lookup.externalReference).id
              && a.state == WebhookState(lookup.status.value)
    ensures a.Answer? ==> a.code == 200 || a.code == 400 || a.code == 405
    ensures (&& isPost && HasPaymentId(n) && lookup.Lookup? && lookup.httpStatus == 200
             && WebhookTarget(lookup.externalReference).OrderKey?
             && OrderIndex(orders, WebhookTarget(lookup.externalReference).id).None?) ==> a == Answer(200)
  {
    if !isPost then Answer(405)
    else if n.Unparsable? then Answer(400)
    else if !HasPaymentId(n) then Answer(200)
    else if lookup.LookupRaised? then Answer(400)
    else if lookup.httpStatus != 200 then Answer(200)
    else
      match WebhookTarget(lookup.externalReference)
      case NoReference => Answer(200)
      case BadReference => Answer(400)
      case OrderKey(id) =>
        match OrderIndex(orders, id)
        case None => Answer(200)
        case Some(k) =>
          if lookup.status.None? then Answer(400)
          else if boundedText && |WebhookState(lookup.status.value)| > StateLength then Answer(400)
          else Record(k, WebhookState(lookup.status.value))
  }

  /**
   * The approval of a payment by user `u` marks the order whose KEY is `u` as
   * paid by Mercado Pago, whoever placed it, whenever such an order exists.
   */
  lemma ApprovalPaysOrderNumberedAfterUser(lines: seq<CartItem>, products: map<ProductId, Product>, user: UserId,
                                           siteUrl: string, paymentId: string, orders: seq<Order>, boundedText: bool)
    requires PricedBy(lines, products) && paymentId != "" && OrderIndex(orders, user).Some?
    ensures var reference := PreferenceFor(lines, products, user, siteUrl).externalReference;
            Webhook(true, Notification(Some(paymentId)), Lookup(200, Some(reference), Some("approved")), orders, boundedText)
              == Record(OrderIndex(orders, user).value, Paid)
  {
    WebhookTargetsUserNumberedOrder(lines, products, user, siteUrl);
  }
}
