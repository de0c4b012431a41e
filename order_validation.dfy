/**
 * The order-side request schemas as predicates: shipping/billing address, cart line,
 * quantity update, checkout body and order-list filter. Optional-or-nullable fields are
 * `Option`s (`None` stands for both `undefined` and `null`); numbers are `real`, so
 * "must be an integer" is a real check.
 */
module OrderValidation {
  import opened Wrappers
  import opened Text

  datatype Address = Address(
    firstName: string, lastName: string, company: Option<string>,
    address1: string, address2: Option<string>, city: string, state: Option<string>,
    postalCode: string, country: string, phone: Option<string>)

  /** `.min(lo).max(hi)` on a string: lengths are UTF-16 code units. */
  predicate LengthBetween(s: string, lo: nat, hi: nat) { lo <= Utf16Len(s) <= hi }

  /** `.max(hi).optional().nullable()` */
  predicate OptionalAtMost(s: Option<string>, hi: nat) { s.None? || Utf16Len(s.value) <= hi }

  /**
   * A bound in code units bounds the characters: at most `hi` of them, at least half of `lo`;
   * on text inside the Basic Multilingual Plane the two counts agree.
   */
  lemma LengthBounds(s: string, o: Option<string>, lo: nat, hi: nat)
    ensures LengthBetween(s, lo, hi) ==> lo <= 2 * |s| && |s| <= hi
    ensures (forall i :: 0 <= i < |s| ==> s[i] as int <= 0xFFFF) ==> (LengthBetween(s, lo, hi) <==> lo <= |s| <= hi)
    ensures OptionalAtMost(None, hi)
    ensures OptionalAtMost(o, hi) ==> o.None? || |o.value| <= hi
  {
  }

  /** `[\d\s+()-]` */
  predicate IsPhoneChar(c: char) {
    IsDigit(c) || IsSpace(c) || c == '+' || c == '(' || c == ')' || c == '-'
  }

  /** `/^[\d\s+()-]+$/.test(s)`, matched one character at a time. */
  function MatchesPhone(s: string): (ok: bool)
    ensures ok <==> |s| > 0 && forall i :: 0 <= i < |s| ==> IsPhoneChar(s[i])
  {
    |s| > 0 && IsPhoneChar(s[0]) && (|s| == 1 || MatchesPhone(s[1..]))
  }

  /** `addressSchema` */
  predicate ValidAddress(a: Address) {
    && LengthBetween(a.firstName, 2, 50)
    && LengthBetween(a.lastName, 2, 50)
    && OptionalAtMost(a.company, 100)
    && LengthBetween(a.address1, 5, 200)
    && OptionalAtMost(a.address2, 200)
    && LengthBetween(a.city, 2, 100)
    && OptionalAtMost(a.state, 100)
    && LengthBetween(a.postalCode, 4, 20)
    && LengthBetween(a.country, 2, 100)
    && (a.phone.None? || MatchesPhone(a.phone.value))
  }

  /** `z.number().int()` */
  predicate IsInteger(x: real) { x == x.Floor as real }

  /** The body of an add-to-cart request. */
  datatype CartItemBody = CartItemBody(productId: string, variantId: Option<string>, quantity: real)

  /** `cartItemSchema` (also `addToCartSchema`) */
  predicate ValidCartItem(b: CartItemBody) {
    |b.productId| >= 1 && IsInteger(b.quantity) && b.quantity > 0.0
  }

  /** `updateCartItemSchema` */
  predicate ValidQuantityUpdate(quantity: real) {
    IsInteger(quantity) && quantity >= 0.0
  }

  /** An update accepts exactly the quantities a cart line accepts, and zero besides. */
  lemma QuantityUpdateIsLineOrZero(b: CartItemBody)
    requires |b.productId| >= 1
    ensures ValidQuantityUpdate(b.quantity) <==> ValidCartItem(b) || b.quantity == 0.0
  {
  }

  /** A validated cart line carries a whole quantity of at least one. */
  lemma CartItemQuantity(b: CartItemBody)
    requires ValidCartItem(b)
    ensures b.quantity.Floor >= 1 && b.quantity.Floor as real == b.quantity
  {
  }

  /** Zero is a valid quantity update but never a valid cart line; a fraction is neither. */
  lemma ZeroOnlyForUpdates(b: CartItemBody)
    requires b.quantity == 0.0 || b.quantity == 0.5
    ensures !ValidCartItem(b)
    ensures ValidQuantityUpdate(b.quantity) <==> b.quantity == 0.0
  {
    assert 0.5.Floor == 0;
  }

  /** The checkout request body as sent. */
  datatype CheckoutBody = CheckoutBody(
    shippingAddress: Address, billingAddress: Option<Address>, useSameAddress: Option<bool>,
    shippingMethod: string, notes: Option<string>)

  /** The checkout request after parsing, defaults applied. */
  datatype CheckoutInput = CheckoutInput(
    shippingAddress: Address, billingAddress: Option<Address>, useSameAddress: bool,
    shippingMethod: string, notes: Option<string>)

  /** `checkoutSchema.safeParse(body)`, with `None` for a failed parse. */
  function ParseCheckout(b: CheckoutBody): (r: Option<CheckoutInput>)
    ensures r.Some? <==>
      && ValidAddress(b.shippingAddress)
      && (b.billingAddress.None? || ValidAddress(b.billingAddress.value))
      && |b.shippingMethod| >= 1
      && OptionalAtMost(b.notes, 500)
    ensures r.Some? ==>
      && r.value.useSameAddress == (b.useSameAddress != Some(false))
      && r.value.shippingAddress == b.shippingAddress
      && r.value.billingAddress == b.billingAddress
      && r.value.shippingMethod == b.shippingMethod
      && r.value.notes == b.notes
  {
    if ValidAddress(b.shippingAddress)
      && (b.billingAddress.None? || ValidAddress(b.billingAddress.value))
      && |b.shippingMethod| >= 1 && OptionalAtMost(b.notes, 500)
    then Some(CheckoutInput(b.shippingAddress, b.billingAddress, b.useSameAddress.GetOr(true),
                            b.shippingMethod, b.notes))
    else None
  }

  const OrderStatuses: seq<string> :=
    ["PENDING", "CONFIRMED", "PROCESSING", "SHIPPED", "DELIVERED", "CANCELLED", "REFUNDED"]

  const PaymentStatuses: seq<string> :=
    ["PENDING", "PAID", "FAILED", "REFUNDED", "PARTIALLY_REFUNDED"]

  /** The order-list query as sent. */
  datatype OrderFilterBody = OrderFilterBody(
    status: Option<string>, paymentStatus: Option<string>, dateFrom: Option<string>,
    dateTo: Option<string>, search: Option<string>, page: Option<real>, limit: Option<real>)

  datatype OrderFilter = OrderFilter(
    status: Option<string>, paymentStatus: Option<string>, dateFrom: Option<string>,
    dateTo: Option<string>, search: Option<string>, page: int, limit: int)

  /** `z.number().int().positive()` (and, for a limit, `.max(100)`) on a supplied number. */
  predicate ValidCount(x: Option<real>, max: Option<int>) {
    x.None? || (IsInteger(x.value) && x.value > 0.0 && (max.None? || x.value <= max.value as real))
  }

  /** A supplied count is a whole number from 1 up to the maximum, when there is one. */
  lemma ValidCountIsWhole(x: real, max: Option<int>)
    ensures ValidCount(Some(x), max) <==> x == x.Floor as real && x.Floor >= 1 && (max.None? || x.Floor <= max.value)
    ensures ValidCount(None, max)
  {
  }

  /**
   * `orderFilterSchema.safeParse(body)`; `isDatetime` stands for zod's ISO date-time check
   * on `dateFrom`/`dateTo`.
   */
  function ParseOrderFilter(b: OrderFilterBody, isDatetime: string -> bool): (r: Option<OrderFilter>)
    ensures r.Some? <==>
      && (b.status.None? || b.status.value in OrderStatuses)
      && (b.paymentStatus.None? || b.paymentStatus.value in PaymentStatuses)
      && (b.dateFrom.None? || isDatetime(b.dateFrom.value))
      && (b.dateTo.None? || isDatetime(b.dateTo.value))
      && ValidCount(b.page, None) && ValidCount(b.limit, Some(100))
    ensures r.Some? ==>
      && r.value.status == b.status && r.value.paymentStatus == b.paymentStatus
      && r.value.dateFrom == b.dateFrom && r.value.dateTo == b.dateTo && r.value.search == b.search
    ensures r.Some? ==> r.value.page >= 1 && 1 <= r.value.limit <= 100
    ensures r.Some? && b.page.None? ==> r.value.page == 1
    ensures r.Some? && b.limit.None? ==> r.value.limit == 20
    ensures r.Some? && b.page.Some? ==> r.value.page as real == b.page.value
    ensures r.Some? && b.limit.Some? ==> r.value.limit as real == b.limit.value
    ensures r.Some? ==> b.status.None? || b.status.value in OrderStatuses
    ensures r.Some? ==> b.paymentStatus.None? || b.paymentStatus.value in PaymentStatuses
    ensures (b.page == Some(0.0) || b.limit == Some(101.0)) ==> r.None?
  {
    if && (b.status.None? || b.status.value in OrderStatuses)
       && (b.paymentStatus.None? || b.paymentStatus.value in PaymentStatuses)
       && (b.dateFrom.None? || isDatetime(b.dateFrom.value))
       && (b.dateTo.None? || isDatetime(b.dateTo.value))
       && ValidCount(b.page, None) && ValidCount(b.limit, Some(100))
    then
      var page := if b.page.Some? then b.page.value.Floor else 1;
      var limit := if b.limit.Some? then b.limit.value.Floor else 20;
      Some(OrderFilter(b.status, b.paymentStatus, b.dateFrom, b.dateTo, b.search, page, limit))
    else None
  }
}
