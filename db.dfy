/**
 * The relational store as one object with a field per table, plus the constraints the
 * database enforces: foreign keys of cart lines, one cart per user, unique e-mail, unique
 * seller slug and user, and the `(cartId, productId, variantId)` key, which, as in SQLite,
 * treats a null `variantId` as distinct from every other. Generated ids are strings of a
 * length no stored id has yet.
 */
module Db {
  import opened Wrappers
  import opened Schema

  /** The id generated when the id counter stands at `serial`. */
  function FreshId(serial: nat): (id: Id)
    ensures |id| == serial
  {
    seq(serial, _ => '#')
  }

  /** The id of a user's cart: one cart per user, so the user's id determines it. */
  function CartIdOf(userId: Id): Id
  {
    "cart-" + userId
  }

  /** Different users get different cart ids. */
  lemma CartIdInjective(u: Id, v: Id)
    ensures CartIdOf(u) == CartIdOf(v) ==> u == v
  {
    if CartIdOf(u) == CartIdOf(v) {
      assert u == CartIdOf(u)[5..] && v == CartIdOf(v)[5..];
    }
  }

  /** `cart.findUnique({ where: { userId } })` */
  function FindCart(carts: seq<Cart>, userId: Id): (r: Option<Cart>)
    ensures r.Some? ==> r.value in carts && r.value.userId == userId
    ensures r.None? <==> forall c :: c in carts ==> c.userId != userId
  {
    if carts == [] then None
    else if carts[0].userId == userId then Some(carts[0])
    else FindCart(carts[1..], userId)
  }

  /** The lines of one cart, in table order (`cartItem.findMany({ where: { cartId } })`). */
  function CartLines(items: seq<CartItem>, cartId: Id): (r: seq<CartItem>)
    ensures |r| <= |items|
    ensures forall it :: it in r <==> it in items && it.cartId == cartId
  {
    if items == [] then []
    else (if items[0].cartId == cartId then [items[0]] else []) + CartLines(items[1..], cartId)
  }

  /** A line's identity within a cart: its product and its variant or null. */
  predicate HasIdentity(it: CartItem, productId: Id, variantId: Option<Id>) {
    it.productId == productId && it.variantId == variantId
  }

  /** The first line with the identity: `find`/`findFirst` on product and variant. */
  function FindLine(lines: seq<CartItem>, productId: Id, variantId: Option<Id>): (r: Option<CartItem>)
    ensures r.Some? ==> r.value in lines && HasIdentity(r.value, productId, variantId)
    ensures r.None? <==> forall it :: it in lines ==> !HasIdentity(it, productId, variantId)
  {
    if lines == [] then None
    else if HasIdentity(lines[0], productId, variantId) then Some(lines[0])
    else FindLine(lines[1..], productId, variantId)
  }

  /** `cartItem.update({ where: { id }, data: { quantity } })` on the table. */
  function SetQuantity(items: seq<CartItem>, id: Id, quantity: int): (r: seq<CartItem>)
    ensures |r| == |items|
    ensures forall i :: 0 <= i < |items| ==>
      r[i] == if items[i].id == id then items[i].(quantity := quantity) else items[i]
  {
    if items == [] then []
    else [if items[0].id == id then items[0].(quantity := quantity) else items[0]]
         + SetQuantity(items[1..], id, quantity)
  }

  /** Two lines the `(cartId, productId, variantId)` key forbids together. */
  predicate KeyClash(a: CartItem, b: CartItem) {
    a.variantId.Some? && a.cartId == b.cartId && a.productId == b.productId && a.variantId == b.variantId
  }

  /**
   * The key is symmetric, and a line with a null variant clashes with nothing: a unique index
   * counts nulls as distinct, so lines without a variant may repeat.
   */
  lemma KeyClashFacts(a: CartItem, b: CartItem)
    ensures KeyClash(a, b) <==> KeyClash(b, a)
    ensures a.variantId.None? ==> !KeyClash(a, b)
    ensures a.variantId.Some? && a.cartId == b.cartId && HasIdentity(b, a.productId, a.variantId) ==> KeyClash(a, b)
  {
  }

  /**
   * `cartItem.create`: `None` when a foreign key is missing or the unique key is taken
   * (the call throws), otherwise the table with the line appended.
   */
  function InsertLine(items: seq<CartItem>, products: map<Id, Product>, variants: map<Id, Variant>,
                      line: CartItem): (r: Option<seq<CartItem>>)
    ensures r.Some? <==>
      && line.productId in products
      && (line.variantId.Some? ==> line.variantId.value in variants)
      && forall it :: it in items ==> !KeyClash(line, it)
    ensures r.Some? ==> r.value == items + [line]
  {
    if line.productId in products
       && (line.variantId.Some? ==> line.variantId.value in variants)
       && forall i :: 0 <= i < |items| ==> !KeyClash(line, items[i])
    then Some(items + [line])
    else None
  }

  /** `user.findUnique({ where: { email } })`: e-mails are compared exactly. */
  function FindUserByEmail(users: seq<User>, email: string): (r: Option<User>)
    ensures r.Some? ==> r.value in users && r.value.email == email
    ensures r.None? <==> forall u :: u in users ==> u.email != email
  {
    if users == [] then None
    else if users[0].email == email then Some(users[0])
    else FindUserByEmail(users[1..], email)
  }

  /** `cartItem.deleteMany({ where: { cartId } })`: the other carts' lines, in table order. */
  function ClearLines(items: seq<CartItem>, cartId: Id): (r: seq<CartItem>)
    ensures |r| <= |items|
    ensures forall it :: it in r <==> it in items && it.cartId != cartId
  {
    if items == [] then []
    else (if items[0].cartId != cartId then [items[0]] else []) + ClearLines(items[1..], cartId)
  }

  predicate UniqueCarts(carts: seq<Cart>) {
    forall i, j :: 0 <= i < j < |carts| ==> carts[i].userId != carts[j].userId
  }

  predicate UniqueLineIds(items: seq<CartItem>) {
    forall i, j :: 0 <= i < j < |items| ==> items[i].id != items[j].id
  }

  predicate KeyRespected(items: seq<CartItem>) {
    forall i, j :: 0 <= i < j < |items| ==> !KeyClash(items[i], items[j])
  }

  predicate UniqueUsers(users: seq<User>) {
    forall i, j :: 0 <= i < j < |users| ==> users[i].id != users[j].id && users[i].email != users[j].email
  }

  predicate UniqueSellers(sellers: seq<Seller>) {
    forall i, j :: 0 <= i < j < |sellers| ==>
      sellers[i].id != sellers[j].id && sellers[i].slug != sellers[j].slug && sellers[i].userId != sellers[j].userId
  }

  /** Cart lines point at stored products and carts, and store a missing variant as null. */
  predicate LinesLinked(items: seq<CartItem>, carts: seq<Cart>, products: map<Id, Product>) {
    forall it :: it in items ==>
      it.productId in products && it.variantId != Some("") && exists c :: c in carts && c.id == it.cartId
  }

  /** Every stored id is shorter than `serial`; products and variants have non-empty ids. */
  predicate IdsBelow(products: map<Id, Product>, variants: map<Id, Variant>, sellers: seq<Seller>,
                     users: seq<User>, carts: seq<Cart>, cartItems: seq<CartItem>, serial: nat) {
    && serial >= 1
    && (forall k :: k in products ==> 0 < |k| < serial)
    && (forall k :: k in variants ==> 0 < |k| < serial)
    && (forall c :: c in carts ==> c.id == CartIdOf(c.userId))
    && (forall it :: it in cartItems ==> |it.id| < serial)
    && (forall u :: u in users ==> |u.id| < serial)
    && (forall s :: s in sellers ==> |s.id| < serial)
  }

  /** The constraints of the whole store. */
  predicate Consistent(products: map<Id, Product>, variants: map<Id, Variant>, sellers: seq<Seller>,
                       users: seq<User>, carts: seq<Cart>, cartItems: seq<CartItem>, serial: nat) {
    && IdsBelow(products, variants, sellers, users, carts, cartItems, serial)
    && UniqueCarts(carts)
    && UniqueLineIds(cartItems)
    && KeyRespected(cartItems)
    && LinesLinked(cartItems, carts, products)
    && UniqueUsers(users)
    && UniqueSellers(sellers)
  }

  /** Advancing the id counter keeps every constraint. */
  lemma ConsistentSerialBump(products: map<Id, Product>, variants: map<Id, Variant>, sellers: seq<Seller>,
                             users: seq<User>, carts: seq<Cart>, items: seq<CartItem>, serial: nat)
    requires Consistent(products, variants, sellers, users, carts, items, serial)
    ensures Consistent(products, variants, sellers, users, carts, items, serial + 1)
  {
  }

  /** A table with no line of the cart gives the cart no lines. */
  lemma {:induction false} NoCartLines(items: seq<CartItem>, cartId: Id)
    requires forall i :: 0 <= i < |items| ==> items[i].cartId != cartId
    ensures CartLines(items, cartId) == []
    decreases |items|
  {
    if items != [] {
      NoCartLines(items[1..], cartId);
    }
  }

  /** After the deletion the cart has no lines. */
  lemma ClearLinesEmptiesCart(items: seq<CartItem>, cartId: Id)
    ensures CartLines(ClearLines(items, cartId), cartId) == []
  {
    var r := ClearLines(items, cartId);
    assert forall i :: 0 <= i < |r| ==> r[i] in r;
    NoCartLines(r, cartId);
  }

  /** Deleting lines keeps line ids distinct and the line key respected. */
  lemma {:induction false} ClearLinesPairwise(items: seq<CartItem>, cartId: Id)
    requires UniqueLineIds(items) && KeyRespected(items)
    ensures UniqueLineIds(ClearLines(items, cartId)) && KeyRespected(ClearLines(items, cartId))
    decreases |items|
  {
    if items != [] {
      var rest := items[1..];
      assert forall i :: 0 <= i < |rest| ==> rest[i] == items[i + 1];
      ClearLinesPairwise(rest, cartId);
      var tail := ClearLines(rest, cartId);
      if items[0].cartId != cartId {
        var r := [items[0]] + tail;
        forall i, j | 0 <= i < j < |r|
          ensures r[i].id != r[j].id && !KeyClash(r[i], r[j])
        {
          if i == 0 {
            assert r[j] == tail[j - 1] && r[j] in rest;
            var k :| 0 <= k < |rest| && rest[k] == r[j];
            assert items[0].id != items[k + 1].id && !KeyClash(items[0], items[k + 1]);
          } else {
            assert r[i] == tail[i - 1] && r[j] == tail[j - 1];
          }
        }
      }
    }
  }

  /** Deleting one cart's lines keeps every constraint. */
  lemma ClearLinesKeepsConsistent(products: map<Id, Product>, variants: map<Id, Variant>,
                                  sellers: seq<Seller>, users: seq<User>, carts: seq<Cart>,
                                  items: seq<CartItem>, serial: nat, cartId: Id)
    requires Consistent(products, variants, sellers, users, carts, items, serial)
    ensures Consistent(products, variants, sellers, users, carts, ClearLines(items, cartId), serial)
  {
    ClearLinesPairwise(items, cartId);
    var r := ClearLines(items, cartId);
    assert forall it :: it in r ==> it in items;
  }

  class Database {
    var products: map<Id, Product>
    var variants: map<Id, Variant>
    var sellers: seq<Seller>
    var users: seq<User>
    var carts: seq<Cart>
    var cartItems: seq<CartItem>
    var orders: seq<Order>
    var tokens: seq<VerificationToken>
    /** The length of the next generated id. */
    var serial: nat

    ghost predicate Valid()
      reads this
    {
      Consistent(products, variants, sellers, users, carts, cartItems, serial)
    }

    constructor ()
      ensures Valid()
      ensures products == map[] && variants == map[] && sellers == [] && users == []
      ensures carts == [] && cartItems == [] && orders == [] && tokens == [] && serial == 1
    {
      products, variants, sellers, users := map[], map[], [], [];
      carts, cartItems, orders, tokens := [], [], [], [];
      serial := 1;
    }

    /** A generated id: non-empty and longer than every id stored so far. */
    method NewId() returns (id: Id)
      requires Valid()
      modifies this`serial
      ensures Valid()
      ensures id == FreshId(old(serial)) && serial == old(serial) + 1 && id != ""
    {
      id := FreshId(serial);
      serial := serial + 1;
    }
  }
}
