/**
 * The arithmetic of an order: the subtotal of the cart lines, the shipping fee with its
 * free-shipping threshold, the tax share, the frozen order lines with their commission, and
 * the stock counters the order decrements.
 */
module OrderMath {
  import opened Wrappers
  import opened Schema
  import opened Db
  import opened CartService

  /** Orders from this subtotal ship for free. */
  const FreeShippingFrom: real := 50.0
  const ShippingFee: real := 5.90
  /** The share of the subtotal recorded as tax. */
  const TaxRate: real := 0.20
  /** The platform's commission on every order line. */
  const CommissionRate: real := 0.10

  function LineTotal(d: DisplayLine): real {
    d.price * d.quantity as real
  }

  /** `items.reduce((sum, item) => sum + item.price * item.quantity, 0)`: a fold from the left. */
  function Subtotal(lines: seq<DisplayLine>): real
  {
    if lines == [] then 0.0 else Subtotal(lines[..|lines| - 1]) + LineTotal(lines[|lines| - 1])
  }

  /** The subtotal of two lists one after the other is the sum of their subtotals. */
  lemma {:induction false} SubtotalAppend(a: seq<DisplayLine>, b: seq<DisplayLine>)
    ensures Subtotal(a + b) == Subtotal(a) + Subtotal(b)
    decreases |b|
  {
    if b != [] {
      var b' := b[..|b| - 1];
      assert (a + b)[..|a + b| - 1] == a + b';
      assert (a + b)[|a + b| - 1] == b[|b| - 1];
      SubtotalAppend(a, b');
    } else {
      assert a + b == a;
    }
  }

  /** The subtotal does not depend on the order of the lines, so sorting them changes nothing. */
  lemma {:induction false} SubtotalPermutation(a: seq<DisplayLine>, b: seq<DisplayLine>)
    requires multiset(a) == multiset(b)
    ensures Subtotal(a) == Subtotal(b)
    decreases |a|
  {
    if a == [] {
      assert |b| == |multiset(b)| == 0;
    } else {
      var x := a[|a| - 1];
      var a' := a[..|a| - 1];
      assert a == a' + [x];
      assert multiset(a') == multiset(a) - multiset{x};
      assert x in multiset(b);
      var k :| 0 <= k < |b| && b[k] == x;
      SubtotalRemoveAt(b, k);
      SubtotalPermutation(a', b[..k] + b[k + 1..]);
      SubtotalAppend(a', [x]);
      SubtotalSingle(x);
    }
  }

  lemma SubtotalSingle(x: DisplayLine)
    ensures Subtotal([x]) == LineTotal(x)
  {
    assert [x][..0] == [];
  }

  /** Taking one line out of the list takes its amount out of the subtotal. */
  lemma SubtotalRemoveAt(b: seq<DisplayLine>, k: nat)
    requires k < |b|
    ensures multiset(b[..k] + b[k + 1..]) == multiset(b) - multiset{b[k]}
    ensures Subtotal(b) == Subtotal(b[..k] + b[k + 1..]) + LineTotal(b[k])
  {
    SplitAt(b, k);
    SubtotalSplit(b[..k], b[k], b[k + 1..]);
  }

  /** A list is the part before an index, the element there, and the part after. */
  lemma SplitAt<T>(b: seq<T>, k: nat)
    requires k < |b|
    ensures b == (b[..k] + [b[k]]) + b[k + 1..]
    ensures multiset(b[..k] + b[k + 1..]) == multiset(b) - multiset{b[k]}
  {
    var l, x, r := b[..k], b[k], b[k + 1..];
    assert b == (l + [x]) + r;
    assert multiset(b) == multiset(l) + multiset{x} + multiset(r) by {
      assert multiset((l + [x]) + r) == multiset(l + [x]) + multiset(r);
    }
  }

  lemma SubtotalSplit(l: seq<DisplayLine>, x: DisplayLine, r: seq<DisplayLine>)
    ensures Subtotal((l + [x]) + r) == Subtotal(l + r) + LineTotal(x)
  {
    SubtotalAppend(l + [x], r);
    SubtotalAppend(l, [x]);
    SubtotalAppend(l, r);
    SubtotalSingle(x);
  }

  /** With no negative price or quantity the subtotal is not negative. */
  lemma {:induction false} SubtotalNonNegative(lines: seq<DisplayLine>)
    requires forall i :: 0 <= i < |lines| ==> lines[i].price >= 0.0 && lines[i].quantity >= 0
    ensures Subtotal(lines) >= 0.0
  {
    if lines != [] {
      var d := lines[|lines| - 1];
      SubtotalNonNegative(lines[..|lines| - 1]);
      assert d.price * d.quantity as real >= 0.0;
    }
  }

  /** `subtotal >= 50 ? 0 : 5.90` */
  function Shipping(subtotal: real): real {
    if subtotal >= FreeShippingFrom then 0.0 else ShippingFee
  }

  /** The amounts an order records. */
  datatype Totals = Totals(subtotal: real, shippingCost: real, taxAmount: real, total: real)

  /** The totals of the order for the given lines: the tax is a share of the subtotal, not added to the total. */
  function OrderTotals(lines: seq<DisplayLine>): Totals {
    var subtotal := Subtotal(lines);
    Totals(subtotal, Shipping(subtotal), subtotal * TaxRate, subtotal + Shipping(subtotal))
  }

  /**
   * What a buyer pays: the subtotal plus at most the flat fee, nothing extra from the
   * threshold on; the recorded tax is a fifth of the subtotal.
   */
  lemma OrderTotalsBounds(lines: seq<DisplayLine>)
    ensures var t := OrderTotals(lines);
      && t.subtotal == Subtotal(lines)
      && t.subtotal <= t.total <= t.subtotal + ShippingFee
      && (t.total == t.subtotal <==> t.subtotal >= FreeShippingFrom)
      && 5.0 * t.taxAmount == t.subtotal
  {
  }

  /** The frozen copy of a display line, with the fixed commission rate. */
  function OrderLine(d: DisplayLine): OrderItem {
    OrderItem(d.productId, d.variantId, d.productName, d.variantName, d.price, d.quantity,
              CommissionRate, d.price * d.quantity as real * CommissionRate, d.sellerId)
  }

  function OrderLines(lines: seq<DisplayLine>): (r: seq<OrderItem>)
    ensures |r| == |lines|
    ensures forall i :: 0 <= i < |lines| ==> r[i] == OrderLine(lines[i])
  {
    seq(|lines|, i requires 0 <= i < |lines| => OrderLine(lines[i]))
  }

  /** The sum of the line amounts of stored order lines. */
  function ItemsTotal(items: seq<OrderItem>): real {
    if items == [] then 0.0
    else ItemsTotal(items[..|items| - 1]) + items[|items| - 1].price * items[|items| - 1].quantity as real
  }

  /** The sum of the commissions of stored order lines. */
  function CommissionTotal(items: seq<OrderItem>): real {
    if items == [] then 0.0
    else CommissionTotal(items[..|items| - 1]) + items[|items| - 1].commissionAmount
  }

  /**
   * The order lines sum to the order's subtotal, and the platform's commissions to a tenth of it;
   * every line carries the rate and copies its product, variant, names, price, quantity and seller.
   */
  lemma {:induction false} OrderLinesSums(lines: seq<DisplayLine>)
    ensures ItemsTotal(OrderLines(lines)) == Subtotal(lines)
    ensures CommissionTotal(OrderLines(lines)) == CommissionRate * Subtotal(lines)
    ensures forall i :: 0 <= i < |lines| ==>
      var o := OrderLines(lines)[i];
      && o.productId == lines[i].productId && o.variantId == lines[i].variantId
      && o.productName == lines[i].productName && o.variantName == lines[i].variantName
      && o.price == lines[i].price && o.quantity == lines[i].quantity
      && o.sellerId == lines[i].sellerId && o.commissionRate == CommissionRate
  {
    if lines != [] {
      var init := lines[..|lines| - 1];
      assert OrderLines(lines)[..|lines| - 1] == OrderLines(init);
      OrderLinesSums(init);
    }
  }

  /** The index of the first line that asks for more than its stock (the 409 of checkout). */
  function FirstShort(lines: seq<DisplayLine>): (r: Option<nat>)
    ensures r.None? <==> forall i :: 0 <= i < |lines| ==> lines[i].quantity <= lines[i].stock
    ensures r.Some? ==>
      && r.value < |lines| && lines[r.value].quantity > lines[r.value].stock
      && forall j :: 0 <= j < r.value ==> lines[j].quantity <= lines[j].stock
  {
    if lines == [] then None
    else if lines[0].quantity > lines[0].stock then Some(0)
    else match FirstShort(lines[1..])
      case None => None
      case Some(k) => Some(k + 1)
  }

  /** A stock counter: a variant's, or a product's. */
  datatype Counter = VariantStock(variantId: Id) | ProductStock(productId: Id)

  /** `if (item.variantId)`: a line with a (non-empty) variant decrements the variant, else the product. */
  function CounterOf(d: DisplayLine): Counter {
    if d.variantId.Some? && d.variantId.value != "" then VariantStock(d.variantId.value)
    else ProductStock(d.productId)
  }

  /** The two tables checkout writes stock to. */
  datatype Stocks = Stocks(products: map<Id, Product>, variants: map<Id, Variant>)

  /** The value of a counter, if its row exists. */
  function StockOf(s: Stocks, c: Counter): Option<int> {
    match c
    case VariantStock(v) => if v in s.variants then Some(s.variants[v].stock) else None
    case ProductStock(p) => if p in s.products then Some(s.products[p].stock) else None
  }

  /** The same rows, differing at most in their stock. */
  predicate SameRows(s: Stocks, t: Stocks) {
    && s.products.Keys == t.products.Keys
    && s.variants.Keys == t.variants.Keys
    && (forall p :: p in s.products ==> t.products[p] == s.products[p].(stock := t.products[p].stock))
    && (forall v :: v in s.variants ==> t.variants[v] == s.variants[v].(stock := t.variants[v].stock))
  }

  /**
   * `update({ where: { id }, data: { stock: { decrement: q } } })`: `None` when no row has
   * the id (the update throws), else that one counter lowered by `q`.
   */
  function Decrement(s: Stocks, c: Counter, q: int): (r: Option<Stocks>)
    ensures r.Some? <==> StockOf(s, c).Some?
    ensures r.Some? ==> SameRows(s, r.value)
    ensures r.Some? ==> StockOf(r.value, c) == Some(StockOf(s, c).value - q)
    ensures r.Some? ==> forall c' :: c' != c ==> StockOf(r.value, c') == StockOf(s, c')
  {
    match c
    case VariantStock(v) =>
      if v in s.variants
      then Some(s.(variants := s.variants[v := s.variants[v].(stock := s.variants[v].stock - q)]))
      else None
    case ProductStock(p) =>
      if p in s.products
      then Some(s.(products := s.products[p := s.products[p].(stock := s.products[p].stock - q)]))
      else None
  }

  /** The decrement loop of checkout: the lines in order, `None` as soon as one update fails. */
  function DecrementAll(s: Stocks, lines: seq<DisplayLine>): Option<Stocks>
    decreases |lines|
  {
    if lines == [] then Some(s)
    else match Decrement(s, CounterOf(lines[0]), lines[0].quantity)
      case None => None
      case Some(s1) => DecrementAll(s1, lines[1..])
  }

  /** The total quantity the lines take from one counter. */
  function QtyFor(lines: seq<DisplayLine>, c: Counter): int {
    if lines == [] then 0
    else (if CounterOf(lines[0]) == c then lines[0].quantity else 0) + QtyFor(lines[1..], c)
  }

  /** The decrements succeed exactly when every line's counter exists. */
  lemma {:induction false} DecrementAllSucceeds(s: Stocks, lines: seq<DisplayLine>)
    ensures DecrementAll(s, lines).Some? <==>
      forall i :: 0 <= i < |lines| ==> StockOf(s, CounterOf(lines[i])).Some?
    decreases |lines|
  {
    if lines != [] {
      var c0 := CounterOf(lines[0]);
      match Decrement(s, c0, lines[0].quantity)
      case None =>
      case Some(s1) =>
        DecrementAllSucceeds(s1, lines[1..]);
        assert forall c :: StockOf(s1, c).Some? <==> StockOf(s, c).Some?;
        assert forall i :: 1 <= i < |lines| ==> lines[i] == lines[1..][i - 1];
    }
  }

  /** Stock-only changes compose. */
  lemma SameRowsTransitive(s: Stocks, s1: Stocks, t: Stocks)
    requires SameRows(s, s1) && SameRows(s1, t)
    ensures SameRows(s, t)
  {
  }

  /** Successful decrements change no row in anything but its stock. */
  lemma {:induction false} DecrementAllRows(s: Stocks, lines: seq<DisplayLine>)
    requires DecrementAll(s, lines).Some?
    ensures SameRows(s, DecrementAll(s, lines).value)
    decreases |lines|
  {
    if lines != [] {
      var s1 := Decrement(s, CounterOf(lines[0]), lines[0].quantity).value;
      DecrementAllRows(s1, lines[1..]);
      SameRowsTransitive(s, s1, DecrementAll(s, lines).value);
    }
  }

  /** Successful decrements lower a counter by the total quantity the lines take from it. */
  lemma {:induction false} DecrementAllAt(s: Stocks, lines: seq<DisplayLine>, c: Counter)
    requires DecrementAll(s, lines).Some?
    requires StockOf(s, c).Some?
    ensures StockOf(DecrementAll(s, lines).value, c) == Some(StockOf(s, c).value - QtyFor(lines, c))
    decreases |lines|
  {
    if lines != [] {
      var c0, q0 := CounterOf(lines[0]), lines[0].quantity;
      var s1 := Decrement(s, c0, q0).value;
      assert DecrementAll(s, lines) == DecrementAll(s1, lines[1..]);
      assert QtyFor(lines, c) == (if c0 == c then q0 else 0) + QtyFor(lines[1..], c);
      assert StockOf(s1, c) == Some(StockOf(s, c).value - (if c0 == c then q0 else 0));
      DecrementAllAt(s1, lines[1..], c);
    }
  }

  /** No two lines decrement the same counter. */
  predicate DistinctCounters(lines: seq<DisplayLine>) {
    forall i, j :: 0 <= i < j < |lines| ==> CounterOf(lines[i]) != CounterOf(lines[j])
  }

  /** Each line's displayed stock is the value of the counter it decrements. */
  predicate StocksMatch(s: Stocks, lines: seq<DisplayLine>) {
    forall i :: 0 <= i < |lines| && StockOf(s, CounterOf(lines[i])).Some? ==>
      StockOf(s, CounterOf(lines[i])).value == lines[i].stock
  }

  predicate NoNegativeStock(s: Stocks) {
    && (forall p :: p in s.products ==> s.products[p].stock >= 0)
    && (forall v :: v in s.variants ==> s.variants[v].stock >= 0)
  }

  /** With distinct counters, a counter's total is the quantity of its one line, or nothing. */
  lemma {:induction false} QtyForDistinct(lines: seq<DisplayLine>, c: Counter)
    requires DistinctCounters(lines)
    ensures (forall i :: 0 <= i < |lines| ==> CounterOf(lines[i]) != c) ==> QtyFor(lines, c) == 0
    ensures forall i :: 0 <= i < |lines| && CounterOf(lines[i]) == c ==> QtyFor(lines, c) == lines[i].quantity
  {
    if lines != [] {
      QtyForDistinct(lines[1..], c);
      assert forall i :: 1 <= i < |lines| ==> lines[i] == lines[1..][i - 1];
    }
  }

  /**
   * When no two lines share a counter, every line passed the stock check against its own
   * counter and no stock was negative before, no stock is negative after the decrements.
   */
  lemma CheckoutKeepsStockNonNegative(s: Stocks, lines: seq<DisplayLine>)
    requires NoNegativeStock(s)
    requires DistinctCounters(lines)
    requires StocksMatch(s, lines)
    requires FirstShort(lines).None?
    requires DecrementAll(s, lines).Some?
    ensures NoNegativeStock(DecrementAll(s, lines).value)
  {
    var t := DecrementAll(s, lines).value;
    DecrementAllRows(s, lines);
    forall c | StockOf(s, c).Some?
      ensures StockOf(t, c).value >= 0
    {
      DecrementAllAt(s, lines, c);
      QtyForDistinct(lines, c);
      if exists i :: 0 <= i < |lines| && CounterOf(lines[i]) == c {
        var i :| 0 <= i < |lines| && CounterOf(lines[i]) == c;
        assert lines[i].quantity <= lines[i].stock;
      }
      assert StockOf(s, c).value >= 0 by {
        match c
        case VariantStock(v) =>
        case ProductStock(p) =>
      }
    }
    forall p | p in t.products
      ensures t.products[p].stock >= 0
    {
      assert StockOf(t, ProductStock(p)).value >= 0;
    }
    forall v | v in t.variants
      ensures t.variants[v].stock >= 0
    {
      assert StockOf(t, VariantStock(v)).value >= 0;
    }
  }

  /**
   * Each line of a user's cart shows as its stock the value of the counter checkout
   * decrements for it: the variant's when the line names a stored variant, else the product's.
   */
  lemma CartStocksMatch(carts: seq<Cart>, items: seq<CartItem>, products: map<Id, Product>,
                        variants: map<Id, Variant>, userId: Id)
    requires forall it :: it in items ==> it.productId in products && it.variantId != Some("")
    ensures StocksMatch(Stocks(products, variants), GetUserCart(carts, items, products, variants, userId))
  {
    var lines := GetUserCart(carts, items, products, variants, userId);
    var s := Stocks(products, variants);
    forall i | 0 <= i < |lines| && StockOf(s, CounterOf(lines[i])).Some?
      ensures StockOf(s, CounterOf(lines[i])).value == lines[i].stock
    {
      GetUserCartPricing(carts, items, products, variants, userId, lines[i]);
      var it :| it in items && it.cartId == FindCart(carts, userId).value.id
                && lines[i] == ToDisplay(it, products, variants);
    }
  }

  /**
   * Lines of different identities decrement different counters when every variant a line
   * names exists and belongs to the line's product.
   */
  lemma DistinctCountersFromIdentities(lines: seq<DisplayLine>, variants: map<Id, Variant>)
    requires forall i, j :: 0 <= i < j < |lines| ==>
      (lines[i].productId, lines[i].variantId) != (lines[j].productId, lines[j].variantId)
    requires forall i :: 0 <= i < |lines| ==> lines[i].variantId != Some("")
    requires forall i :: 0 <= i < |lines| && lines[i].variantId.Some? ==>
      lines[i].variantId.value in variants && variants[lines[i].variantId.value].productId == lines[i].productId
    ensures DistinctCounters(lines)
  {
  }

  /**
   * Two lines of one product without variant each pass the stock check against the same stale
   * stock of 5, and together take the stock to -1.
   */
  lemma DuplicateLinesOversell()
    ensures
      var p := Product("Mug", "mug", "A large mug", 9.0, 5, ACTIVE, "s", "c", []);
      var d1 := DisplayLine("a", "p", "Mug", "mug", None, None, None, 9.0, 3, 5, "s");
      var d2 := d1.(id := "b");
      var s := Stocks(map["p" := p], map[]);
      && FirstShort([d1, d2]).None?
      && DecrementAll(s, [d1, d2]) == Some(Stocks(map["p" := p.(stock := -1)], map[]))
  {
    var p := Product("Mug", "mug", "A large mug", 9.0, 5, ACTIVE, "s", "c", []);
    var d1 := DisplayLine("a", "p", "Mug", "mug", None, None, None, 9.0, 3, 5, "s");
    var d2 := d1.(id := "b");
    var s := Stocks(map["p" := p], map[]);
    var s1 := Stocks(map["p" := p.(stock := 2)], map[]);
    assert s.products["p" := s.products["p"].(stock := 5 - 3)] == s1.products;
    assert Decrement(s, ProductStock("p"), 3) == Some(s1);
    assert [d1, d2][1..] == [d2];
    assert DecrementAll(s, [d1, d2]) == DecrementAll(s1, [d2]);
    assert s1.products["p" := s1.products["p"].(stock := 2 - 3)] == map["p" := p.(stock := -1)];
    assert [d2][1..] == [];
  }
}
