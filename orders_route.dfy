/**
 * `POST /api/orders`: checkout. The guards and the stock check run before any write; the
 * transaction (order insert, stock decrements, cart deletion) is one atomic step that either
 * commits every write or none.
 */
module OrdersRoute {
  import opened Wrappers
  import opened Schema
  import opened Db
  import opened OrderValidation
  import opened CartService
  import opened OrderMath

  datatype CheckoutResponse =
    | CheckoutUnauthorized           // 401
    | CheckoutInvalid                // 400, invalid input
    | CartEmpty                      // 400, empty cart
    | OutOfStock(productId: Id)      // 409
    | CheckoutFailed                 // 500, the transaction rolled back
    | Placed(orderId: Id)            // 200

  /** The order the transaction inserts; no order number is generated. */
  function NewOrder(id: Id, userId: Id, input: CheckoutInput, lines: seq<DisplayLine>): Order {
    var t := OrderTotals(lines);
    Order(id, userId, OrderStatus.PENDING, PaymentStatus.PENDING,
          t.subtotal, t.shippingCost, t.taxAmount, t.total,
          input.shippingAddress,
          if input.useSameAddress then Some(input.shippingAddress) else input.billingAddress,
          input.notes, OrderLines(lines))
  }

  /**
   * The order placed for a request: pending in both statuses, the submitted shipping address,
   * billing equal to shipping unless `useSameAddress` is explicitly false, one line per cart
   * line, line amounts adding up to the subtotal, commissions to a tenth of it, and the total
   * the subtotal plus shipping.
   */
  lemma PlacedOrder(id: Id, userId: Id, body: CheckoutBody, lines: seq<DisplayLine>)
    requires ParseCheckout(body).Some?
    ensures var o := NewOrder(id, userId, ParseCheckout(body).value, lines);
      && o.id == id && o.userId == userId
      && o.status == OrderStatus.PENDING && o.paymentStatus == PaymentStatus.PENDING
      && o.shippingAddress == body.shippingAddress && o.notes == body.notes
      && (body.useSameAddress != Some(false) ==> o.billingAddress == Some(body.shippingAddress))
      && (body.useSameAddress == Some(false) ==> o.billingAddress == body.billingAddress)
      && |o.items| == |lines|
      && o.subtotal == Subtotal(lines) == ItemsTotal(o.items)
      && CommissionTotal(o.items) == CommissionRate * o.subtotal
      && o.shippingCost == Shipping(o.subtotal) && o.total == o.subtotal + o.shippingCost
      && o.taxAmount == TaxRate * o.subtotal
  {
    OrderLinesSums(lines);
  }

  /** The stock check: the index of the first line asking for more than its stock. */
  method FindShort(lines: seq<DisplayLine>) returns (r: Option<nat>)
    ensures r == FirstShort(lines)
  {
    var i := 0;
    while i < |lines|
      invariant 0 <= i <= |lines|
      invariant forall j :: 0 <= j < i ==> lines[j].quantity <= lines[j].stock
    {
      if lines[i].quantity > lines[i].stock {
        return Some(i);
      }
      i := i + 1;
    }
    return None;
  }

  /** The decrement loop, on the transaction's copy of the two stock tables. */
  method ApplyDecrements(s: Stocks, lines: seq<DisplayLine>) returns (r: Option<Stocks>)
    ensures r == DecrementAll(s, lines)
  {
    var products, variants := s.products, s.variants;
    var i := 0;
    while i < |lines|
      invariant 0 <= i <= |lines|
      invariant DecrementAll(Stocks(products, variants), lines[i..]) == DecrementAll(s, lines)
    {
      var line := lines[i];
      var cur := Stocks(products, variants);
      assert lines[i..][0] == line && lines[i..][1..] == lines[i + 1..];
      if line.variantId.Some? && line.variantId.value != "" {
        var v := line.variantId.value;
        if v !in variants {
          assert Decrement(cur, CounterOf(line), line.quantity).None?;
          return None;
        }
        variants := variants[v := variants[v].(stock := variants[v].stock - line.quantity)];
      } else {
        if line.productId !in products {
          assert Decrement(cur, CounterOf(line), line.quantity).None?;
          return None;
        }
        products := products[line.productId := products[line.productId].(stock := products[line.productId].stock - line.quantity)];
      }
      assert Decrement(cur, CounterOf(line), line.quantity) == Some(Stocks(products, variants));
      i := i + 1;
    }
    assert lines[i..] == [];
    return Some(Stocks(products, variants));
  }

  /** Changing stock values only keeps every constraint of the store. */
  lemma StockOnlyKeepsConsistent(s: Stocks, t: Stocks, sellers: seq<Seller>, users: seq<User>,
                                 carts: seq<Cart>, items: seq<CartItem>, serial: nat)
    requires SameRows(s, t)
    requires Consistent(s.products, s.variants, sellers, users, carts, items, serial)
    ensures Consistent(t.products, t.variants, sellers, users, carts, items, serial)
  {
  }

  /** The committed transaction keeps every constraint of the store. */
  lemma TransactKeepsConsistent(products: map<Id, Product>, variants: map<Id, Variant>, sellers: seq<Seller>,
                                users: seq<User>, carts: seq<Cart>, items: seq<CartItem>, serial: nat,
                                userId: Id, lines: seq<DisplayLine>)
    requires Consistent(products, variants, sellers, users, carts, items, serial)
    requires DecrementAll(Stocks(products, variants), lines).Some?
    ensures var after := DecrementAll(Stocks(products, variants), lines).value;
      Consistent(after.products, after.variants, sellers, users, carts, ClearLines(items, CartIdOf(userId)), serial + 1)
  {
    var before := Stocks(products, variants);
    var after := DecrementAll(before, lines).value;
    DecrementAllRows(before, lines);
    StockOnlyKeepsConsistent(before, after, sellers, users, carts, items, serial);
    ClearLinesKeepsConsistent(after.products, after.variants, sellers, users, carts, items, serial, CartIdOf(userId));
    ConsistentSerialBump(after.products, after.variants, sellers, users, carts, ClearLines(items, CartIdOf(userId)), serial);
  }

  /**
   * The transaction: insert the order, decrement the stock line by line, delete the lines of
   * the user's cart. A decrement whose row is missing throws and rolls everything back.
   */
  method Transact(db: Database, userId: Id, input: CheckoutInput, lines: seq<DisplayLine>)
    returns (resp: CheckoutResponse)
    requires db.Valid()
    modifies db`products, db`variants, db`cartItems, db`orders, db`serial
    ensures db.Valid()
    ensures var after := DecrementAll(Stocks(old(db.products), old(db.variants)), lines);
      if after.None? then resp == CheckoutFailed && unchanged(db)
      else
        && resp == Placed(FreshId(old(db.serial)))
        && db.serial == old(db.serial) + 1
        && db.orders == old(db.orders) + [NewOrder(FreshId(old(db.serial)), userId, input, lines)]
        && db.products == after.value.products && db.variants == after.value.variants
        && db.cartItems == ClearLines(old(db.cartItems), CartIdOf(userId))
  {
    // The writes are built on copies and committed only if all of them succeed.
    var before := Stocks(db.products, db.variants);
    var after := ApplyDecrements(before, lines);
    if after.None? {
      return CheckoutFailed;
    }
    TransactKeepsConsistent(db.products, db.variants, db.sellers, db.users, db.carts, db.cartItems, db.serial,
                            userId, lines);
    var id := FreshId(db.serial);
    db.orders, db.products, db.variants, db.cartItems, db.serial :=
      db.orders + [NewOrder(id, userId, input, lines)], after.value.products, after.value.variants,
      ClearLines(db.cartItems, CartIdOf(userId)), db.serial + 1;
    return Placed(id);
  }

  /** `POST(req)` of the checkout route. */
  method Checkout(db: Database, session: Option<Session>, body: CheckoutBody) returns (resp: CheckoutResponse)
    requires db.Valid()
    modifies db`products, db`variants, db`cartItems, db`orders, db`serial
    ensures db.Valid()
    ensures session.None? ==> resp == CheckoutUnauthorized && unchanged(db)
    ensures session.Some? && ParseCheckout(body).None? ==> resp == CheckoutInvalid && unchanged(db)
    ensures session.Some? && ParseCheckout(body).Some? ==>
      var userId := session.value.userId;
      var lines := GetUserCart(old(db.carts), old(db.cartItems), old(db.products), old(db.variants), userId);
      var after := DecrementAll(Stocks(old(db.products), old(db.variants)), lines);
      if lines == [] then resp == CartEmpty && unchanged(db)
      else if FirstShort(lines).Some? then
        resp == OutOfStock(lines[FirstShort(lines).value].productId) && unchanged(db)
      else if after.None? then resp == CheckoutFailed && unchanged(db)
      else
        && resp == Placed(FreshId(old(db.serial)))
        && db.serial == old(db.serial) + 1
        && db.orders == old(db.orders) + [NewOrder(FreshId(old(db.serial)), userId, ParseCheckout(body).value, lines)]
        && db.products == after.value.products && db.variants == after.value.variants
        && db.cartItems == ClearLines(old(db.cartItems), CartIdOf(userId))
  {
    if session.None? {
      return CheckoutUnauthorized;
    }
    var input := ParseCheckout(body);
    if input.None? {
      return CheckoutInvalid;
    }
    var userId := session.value.userId;
    var lines := GetUserCart(db.carts, db.cartItems, db.products, db.variants, userId);
    if lines == [] {
      return CartEmpty;
    }
    var short := FindShort(lines);
    if short.Some? {
      return OutOfStock(lines[short.value].productId);
    }
    resp := Transact(db, userId, input.value, lines);
  }

  /** After a placed order the buyer's cart has no lines. */
  lemma PlacedEmptiesCart(items: seq<CartItem>, userId: Id)
    ensures CartLines(ClearLines(items, CartIdOf(userId)), CartIdOf(userId)) == []
  {
    ClearLinesEmptiesCart(items, CartIdOf(userId));
  }

  /**
   * No stock ends negative after a checkout that passed the stock check, when no stock was
   * negative before, the cart's lines have distinct identities and each variant a line names
   * is a stored variant of the line's product.
   */
  lemma CheckoutNeverOversells(products: map<Id, Product>, variants: map<Id, Variant>, sellers: seq<Seller>,
                               users: seq<User>, carts: seq<Cart>, items: seq<CartItem>, serial: nat, userId: Id)
    requires Consistent(products, variants, sellers, users, carts, items, serial)
    requires NoNegativeStock(Stocks(products, variants))
    requires var lines := GetUserCart(carts, items, products, variants, userId);
      && (forall i, j :: 0 <= i < j < |lines| ==>
            (lines[i].productId, lines[i].variantId) != (lines[j].productId, lines[j].variantId))
      && (forall i :: 0 <= i < |lines| && lines[i].variantId.Some? ==>
            lines[i].variantId.value in variants && variants[lines[i].variantId.value].productId == lines[i].productId)
      && FirstShort(lines).None?
      && DecrementAll(Stocks(products, variants), lines).Some?
    ensures NoNegativeStock(DecrementAll(Stocks(products, variants), GetUserCart(carts, items, products, variants, userId)).value)
  {
    var lines := GetUserCart(carts, items, products, variants, userId);
    forall i | 0 <= i < |lines|
      ensures lines[i].variantId != Some("")
    {
      GetUserCartPricing(carts, items, products, variants, userId, lines[i]);
    }
    DistinctCountersFromIdentities(lines, variants);
    CartStocksMatch(carts, items, products, variants, userId);
    CheckoutKeepsStockNonNegative(Stocks(products, variants), lines);
  }
}
