/**
 * `POST /api/create-payment-intent`: the amount, in cents, of the payment for the user's cart,
 * recomputed from the stored prices. The payment provider's call is not modelled; the response
 * carries the amount the intent is created with.
 */
module PaymentIntentRoute {
  import opened Wrappers
  import opened Schema
  import opened OrderValidation
  import opened CartService
  import opened OrderMath
  import opened Formatters
  import opened OrdersRoute

  datatype PaymentResponse =
    | PayUnauthorized          // 401
    | PayCartEmpty             // 400
    | PaymentIntent(amount: int)

  /** `Math.round((subtotal + shippingCost) * 100)` */
  function AmountCents(lines: seq<DisplayLine>): int {
    var subtotal := Subtotal(lines);
    Round((subtotal + Shipping(subtotal)) * 100.0)
  }

  /** `POST(req)`: the guards, then the amount of the user's priced cart. */
  function CreatePaymentIntent(session: Option<Session>, carts: seq<Cart>, items: seq<CartItem>,
                               products: map<Id, Product>, variants: map<Id, Variant>): (r: PaymentResponse)
    requires forall it :: it in items ==> it.productId in products
    ensures r == PayUnauthorized <==> session.None?
    ensures r == PayCartEmpty <==> session.Some? && GetUserCart(carts, items, products, variants, session.value.userId) == []
  {
    if session.None? then PayUnauthorized
    else
      var lines := GetUserCart(carts, items, products, variants, session.value.userId);
      if lines == [] then PayCartEmpty else PaymentIntent(AmountCents(lines))
  }

  /**
   * For the same stored cart, the amount charged is the total of the order checkout would
   * place, in cents, rounded as `Math.round` does.
   */
  lemma AmountMatchesCheckout(session: Option<Session>, carts: seq<Cart>, items: seq<CartItem>,
                              products: map<Id, Product>, variants: map<Id, Variant>,
                              orderId: Id, input: CheckoutInput)
    requires forall it :: it in items ==> it.productId in products
    requires CreatePaymentIntent(session, carts, items, products, variants).PaymentIntent?
    ensures var lines := GetUserCart(carts, items, products, variants, session.value.userId);
      CreatePaymentIntent(session, carts, items, products, variants).amount
        == Round(NewOrder(orderId, session.value.userId, input, lines).total * 100.0)
  {
  }

  /** A line's amount in cents, for a price in whole cents. */
  function LineCents(d: DisplayLine): int {
    (d.price * 100.0).Floor * d.quantity
  }

  function SubtotalCents(lines: seq<DisplayLine>): int {
    if lines == [] then 0 else SubtotalCents(lines[..|lines| - 1]) + LineCents(lines[|lines| - 1])
  }

  /** With prices in whole cents, the subtotal in cents is a whole number. */
  lemma {:induction false} SubtotalInCents(lines: seq<DisplayLine>)
    requires forall i :: 0 <= i < |lines| ==> IsInteger(lines[i].price * 100.0)
    ensures Subtotal(lines) * 100.0 == SubtotalCents(lines) as real
  {
    if lines != [] {
      var d := lines[|lines| - 1];
      SubtotalInCents(lines[..|lines| - 1]);
      var c := (d.price * 100.0).Floor;
      assert c as real == d.price * 100.0;
      assert (c * d.quantity) as real == c as real * d.quantity as real;
      assert LineTotal(d) * 100.0 == (d.price * 100.0) * d.quantity as real;
    }
  }

  /**
   * With prices in whole cents nothing is lost to rounding: the amount is exactly the
   * checkout total times 100.
   */
  lemma WholeCentsAmountExact(lines: seq<DisplayLine>)
    requires forall i :: 0 <= i < |lines| ==> IsInteger(lines[i].price * 100.0)
    ensures AmountCents(lines) as real == OrderTotals(lines).total * 100.0
  {
    SubtotalInCents(lines);
    var subtotal := Subtotal(lines);
    var cents := SubtotalCents(lines) + if subtotal >= FreeShippingFrom then 0 else 590;
    assert (subtotal + Shipping(subtotal)) * 100.0 == cents as real;
    RoundIntegral(cents);
  }
}
