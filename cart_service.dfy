/**
 * The server cart: pricing stored lines into display lines (`getUserCart`) and
 * get-or-create of a user's cart (`ensureCart`).
 */
module CartService {
  import opened Wrappers
  import opened Text
  import opened Schema
  import opened Db

  /** A priced cart line as the storefront shows it. */
  datatype DisplayLine = DisplayLine(
    id: Id, productId: Id, productName: string, productSlug: string,
    productImage: Option<string>, variantId: Option<Id>, variantName: Option<string>,
    price: real, quantity: int, stock: int, sellerId: Id)

  /** `x || null` on an optional string: the empty string counts as absent. */
  function OrNull(s: Option<string>): (r: Option<string>)
    ensures r.Some? <==> s.Some? && s.value != ""
    ensures r.Some? ==> r == s
  {
    if s.Some? && s.value != "" then s else None
  }

  /** The variant a line's `variantId` loads, if such a row exists. */
  function LoadVariant(it: CartItem, variants: map<Id, Variant>): (r: Option<Variant>)
    ensures r.Some? <==> it.variantId.Some? && it.variantId.value in variants
    ensures r.Some? ==> r.value == variants[it.variantId.value]
  {
    if it.variantId.Some? && it.variantId.value in variants then Some(variants[it.variantId.value]) else None
  }

  /** The url of the first image, when it is non-empty. */
  function FirstImage(images: seq<Image>): (r: Option<string>)
    ensures r.Some? <==> images != [] && images[0].url != ""
    ensures r.Some? ==> r.value == images[0].url
  {
    if images == [] then None else OrNull(Some(images[0].url))
  }

  /** The display line of one stored line. */
  function ToDisplay(it: CartItem, products: map<Id, Product>, variants: map<Id, Variant>): (d: DisplayLine)
    requires it.productId in products
    ensures d.id == it.id && d.productId == it.productId && d.quantity == it.quantity
    ensures d.productName == products[it.productId].name
    ensures d.sellerId == products[it.productId].sellerId
    ensures d.variantId == OrNull(it.variantId)
    ensures LoadVariant(it, variants).Some? && LoadVariant(it, variants).value.price.Some? ==>
      d.price == LoadVariant(it, variants).value.price.value
    ensures (LoadVariant(it, variants).None? || LoadVariant(it, variants).value.price.None?) ==>
      d.price == products[it.productId].price
    ensures d.stock == if LoadVariant(it, variants).Some? then LoadVariant(it, variants).value.stock
                       else products[it.productId].stock
  {
    var p := products[it.productId];
    var v := LoadVariant(it, variants);
    DisplayLine(
      it.id, it.productId, p.name, p.slug, FirstImage(p.images), OrNull(it.variantId),
      if v.Some? then OrNull(Some(v.value.name)) else None,
      if v.Some? && v.value.price.Some? then v.value.price.value else p.price,
      it.quantity,
      if v.Some? then v.value.stock else p.stock,
      p.sellerId)
  }

  function DisplayAll(lines: seq<CartItem>, products: map<Id, Product>, variants: map<Id, Variant>): (r: seq<DisplayLine>)
    requires forall it :: it in lines ==> it.productId in products
    ensures |r| == |lines|
    ensures forall i :: 0 <= i < |lines| ==> r[i] == ToDisplay(lines[i], products, variants)
  {
    if lines == [] then []
    else [ToDisplay(lines[0], products, variants)] + DisplayAll(lines[1..], products, variants)
  }

  predicate SortedByName(s: seq<DisplayLine>) {
    forall i, j :: 0 <= i < j < |s| ==> StrLe(s[i].productName, s[j].productName)
  }

  /** A line no greater than every line of a sorted list can go in front of it. */
  lemma ConsSorted(y: DisplayLine, t: seq<DisplayLine>)
    requires SortedByName(t)
    requires forall z :: z in t ==> StrLe(y.productName, z.productName)
    ensures SortedByName([y] + t)
  {
    forall i, j | 0 <= i < j < |[y] + t|
      ensures StrLe(([y] + t)[i].productName, ([y] + t)[j].productName)
    {
      if i > 0 {
        assert ([y] + t)[i] == t[i - 1] && ([y] + t)[j] == t[j - 1];
      } else {
        assert ([y] + t)[j] == t[j - 1] && t[j - 1] in t;
      }
    }
  }

  /** Insert before the first line whose name is not smaller, so equal names keep their order. */
  function InsertByName(x: DisplayLine, s: seq<DisplayLine>): (r: seq<DisplayLine>)
    requires SortedByName(s)
    ensures SortedByName(r)
    ensures multiset(r) == multiset(s) + multiset{x}
  {
    if s == [] || StrLe(x.productName, s[0].productName) then
      forall z | z in s ensures StrLe(x.productName, z.productName) {
        var j :| 0 <= j < |s| && s[j] == z;
        if j > 0 {
          StrLeTransitive(x.productName, s[0].productName, z.productName);
        }
      }
      ConsSorted(x, s);
      [x] + s
    else
      StrLeTotal(x.productName, s[0].productName);
      var t := InsertByName(x, s[1..]);
      assert s == [s[0]] + s[1..];
      forall z | z in t ensures StrLe(s[0].productName, z.productName) {
        assert z in multiset(t);
        if z != x {
          assert z in s[1..];
          var j :| 0 <= j < |s[1..]| && s[1..][j] == z;
          assert s[j + 1] == z;
        }
      }
      ConsSorted(s[0], t);
      [s[0]] + t
  }

  /** A stable insertion sort on `productName`: `sort((a, b) => a.productName.localeCompare(b.productName))`. */
  function SortByName(s: seq<DisplayLine>): (r: seq<DisplayLine>)
    ensures SortedByName(r)
    ensures multiset(r) == multiset(s)
  {
    if s == [] then []
    else
      assert s == [s[0]] + s[1..];
      InsertByName(s[0], SortByName(s[1..]))
  }

  /** `getUserCart(userId)` over the loaded tables. */
  function GetUserCart(carts: seq<Cart>, items: seq<CartItem>, products: map<Id, Product>,
                       variants: map<Id, Variant>, userId: Id): (r: seq<DisplayLine>)
    requires forall it :: it in items ==> it.productId in products
    ensures FindCart(carts, userId).None? ==> r == []
    ensures FindCart(carts, userId).Some? ==>
      var lines := CartLines(items, FindCart(carts, userId).value.id);
      |r| == |lines| && multiset(r) == multiset(DisplayAll(lines, products, variants))
    ensures SortedByName(r)
  {
    match FindCart(carts, userId)
    case None => []
    case Some(cart) =>
      var r := SortByName(DisplayAll(CartLines(items, cart.id), products, variants));
      assert |r| == |multiset(r)|;
      r
  }

  /**
   * Every display line comes from one stored line of the user's cart: same id, product and
   * quantity, the owning product's seller, the variant's price falling back to the
   * product's, and the variant's stock when the variant loads, else the product's.
   */
  lemma GetUserCartPricing(carts: seq<Cart>, items: seq<CartItem>, products: map<Id, Product>,
                           variants: map<Id, Variant>, userId: Id, d: DisplayLine)
    requires forall it :: it in items ==> it.productId in products
    requires d in GetUserCart(carts, items, products, variants, userId)
    ensures FindCart(carts, userId).Some?
    ensures exists it :: it in items && it.cartId == FindCart(carts, userId).value.id && d == ToDisplay(it, products, variants)
    ensures d.sellerId == products[d.productId].sellerId
  {
    var cart := FindCart(carts, userId).value;
    var lines := CartLines(items, cart.id);
    var shown := DisplayAll(lines, products, variants);
    assert d in multiset(shown);
    var i :| 0 <= i < |shown| && shown[i] == d;
    assert lines[i] in lines;
  }

  /** The pre-sort display of the user's cart carries every stored line, inactive products included. */
  lemma GetUserCartKeepsEveryLine(carts: seq<Cart>, items: seq<CartItem>, products: map<Id, Product>,
                                  variants: map<Id, Variant>, userId: Id, it: CartItem)
    requires forall x :: x in items ==> x.productId in products
    requires it in items && FindCart(carts, userId).Some? && it.cartId == FindCart(carts, userId).value.id
    ensures ToDisplay(it, products, variants) in GetUserCart(carts, items, products, variants, userId)
  {
    var lines := CartLines(items, it.cartId);
    var i :| 0 <= i < |lines| && lines[i] == it;
    var shown := DisplayAll(lines, products, variants);
    assert shown[i] in multiset(shown);
  }

  /** `ensureCart(userId)`: the user's cart, created if there is none. */
  method EnsureCart(db: Database, userId: Id) returns (cart: Cart)
    requires db.Valid()
    modifies db`carts
    ensures db.Valid()
    ensures FindCart(db.carts, userId) == Some(cart) && cart.userId == userId
    ensures old(FindCart(db.carts, userId)).Some? ==>
      cart == old(FindCart(db.carts, userId)).value && db.carts == old(db.carts)
    ensures old(FindCart(db.carts, userId)).None? ==>
      cart == Cart(CartIdOf(userId), userId) && db.carts == old(db.carts) + [cart]
  {
    var found := FindCart(db.carts, userId);
    if found.Some? {
      cart := found.value;
      UniqueUserFindsCart(db.carts, cart);
    } else {
      cart := Cart(CartIdOf(userId), userId);
      db.carts := db.carts + [cart];
      CartAppendFind(old(db.carts), cart);
      forall it | it in db.cartItems ensures exists c :: c in db.carts && c.id == it.cartId {
        var c :| c in old(db.carts) && c.id == it.cartId;
        assert c in db.carts;
      }
    }
  }

  /** With unique users, the cart found for a user is that user's only cart. */
  lemma UniqueUserFindsCart(carts: seq<Cart>, cart: Cart)
    requires UniqueCarts(carts) && cart in carts
    ensures FindCart(carts, cart.userId) == Some(cart)
  {
    if carts[0] != cart {
      var i :| 0 <= i < |carts| && carts[i] == cart;
      assert i > 0;
      assert carts[1..][i - 1] == cart;
      UniqueUserFindsCart(carts[1..], cart);
    }
  }

  lemma {:induction false} CartAppendFind(carts: seq<Cart>, cart: Cart)
    requires FindCart(carts, cart.userId).None?
    ensures FindCart(carts + [cart], cart.userId) == Some(cart)
  {
    if carts != [] {
      assert (carts + [cart])[1..] == carts[1..] + [cart];
      CartAppendFind(carts[1..], cart);
    }
  }

  /** Two `ensureCart` calls in a row return the same cart and create at most one. */
  method EnsureCartTwice(db: Database, userId: Id) returns (first: Cart, second: Cart)
    requires db.Valid()
    modifies db`carts
    ensures first == second && first.userId == userId
    ensures |db.carts| <= |old(db.carts)| + 1
  {
    first := EnsureCart(db, userId);
    second := EnsureCart(db, userId);
  }
}
