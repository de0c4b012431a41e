/**
 * `POST /api/cart/items`: add one line to the signed-in user's cart, increasing the
 * quantity of a line with the same `(productId, variantId-or-null)` or inserting a new one.
 */
module CartItemsRoute {
  import opened Wrappers
  import opened Schema
  import opened Db
  import opened OrderValidation
  import opened CartService

  /**
   * Look the identity up in `lookup`; on a match, write the looked-up quantity plus
   * `quantity` to the row with the match's id, otherwise insert a new line. `None` when the
   * insert is refused.
   */
  function Upsert(items: seq<CartItem>, lookup: seq<CartItem>, products: map<Id, Product>,
                  variants: map<Id, Variant>, cartId: Id, productId: Id, variantId: Option<Id>,
                  quantity: int, newId: Id): (r: Option<seq<CartItem>>)
    ensures FindLine(lookup, productId, variantId).Some? ==>
      var m := FindLine(lookup, productId, variantId).value;
      r == Some(SetQuantity(items, m.id, m.quantity + quantity))
    ensures FindLine(lookup, productId, variantId).None? ==>
      r == InsertLine(items, products, variants, CartItem(newId, cartId, productId, variantId, quantity))
  {
    match FindLine(lookup, productId, variantId)
    case Some(m) => Some(SetQuantity(items, m.id, m.quantity + quantity))
    case None => InsertLine(items, products, variants, CartItem(newId, cartId, productId, variantId, quantity))
  }

  /** The upsert of the items route: the lookup is a fresh read of the cart's lines. */
  function AddLine(items: seq<CartItem>, products: map<Id, Product>, variants: map<Id, Variant>,
                   cartId: Id, productId: Id, variantId: Option<Id>, quantity: int, newId: Id): Option<seq<CartItem>>
  {
    Upsert(items, CartLines(items, cartId), products, variants, cartId, productId, variantId, quantity, newId)
  }

  /** The constraints of the cart-line table that an upsert must keep. */
  predicate LinesValid(items: seq<CartItem>, carts: seq<Cart>, products: map<Id, Product>) {
    UniqueLineIds(items) && KeyRespected(items) && LinesLinked(items, carts, products)
  }

  /** An upsert keeps the table's constraints, given a fresh id and an existing cart. */
  lemma UpsertKeepsConstraints(items: seq<CartItem>, lookup: seq<CartItem>, carts: seq<Cart>,
                               products: map<Id, Product>, variants: map<Id, Variant>, cartId: Id,
                               productId: Id, variantId: Option<Id>, quantity: int, newId: Id)
    requires LinesValid(items, carts, products)
    requires forall it :: it in items ==> |it.id| < |newId|
    requires variantId != Some("") && exists c :: c in carts && c.id == cartId
    requires Upsert(items, lookup, products, variants, cartId, productId, variantId, quantity, newId).Some?
    ensures var r := Upsert(items, lookup, products, variants, cartId, productId, variantId, quantity, newId).value;
      LinesValid(r, carts, products) && forall it :: it in r ==> |it.id| <= |newId|
  {
    if FindLine(lookup, productId, variantId).None? {
      UpsertInsertedKeepsConstraints(items, lookup, carts, products, variants, cartId, productId, variantId, quantity, newId);
    } else {
      UpsertMatchedKeepsConstraints(items, lookup, carts, products, variants, cartId, productId, variantId, quantity, newId);
    }
  }

  /** The insert branch of the upsert. */
  lemma UpsertInsertedKeepsConstraints(items: seq<CartItem>, lookup: seq<CartItem>, carts: seq<Cart>,
                                       products: map<Id, Product>, variants: map<Id, Variant>, cartId: Id,
                                       productId: Id, variantId: Option<Id>, quantity: int, newId: Id)
    requires LinesValid(items, carts, products)
    requires forall it :: it in items ==> |it.id| < |newId|
    requires variantId != Some("") && exists c :: c in carts && c.id == cartId
    requires FindLine(lookup, productId, variantId).None?
    requires InsertLine(items, products, variants, CartItem(newId, cartId, productId, variantId, quantity)).Some?
    ensures var r := items + [CartItem(newId, cartId, productId, variantId, quantity)];
      && Upsert(items, lookup, products, variants, cartId, productId, variantId, quantity, newId) == Some(r)
      && LinesValid(r, carts, products) && forall it :: it in r ==> |it.id| <= |newId|
  {
    InsertKeepsConstraints(items, carts, products, variants, CartItem(newId, cartId, productId, variantId, quantity));
  }

  /** The update branch of the upsert. */
  lemma UpsertMatchedKeepsConstraints(items: seq<CartItem>, lookup: seq<CartItem>, carts: seq<Cart>,
                                      products: map<Id, Product>, variants: map<Id, Variant>, cartId: Id,
                                      productId: Id, variantId: Option<Id>, quantity: int, newId: Id)
    requires LinesValid(items, carts, products)
    requires forall it :: it in items ==> |it.id| < |newId|
    requires FindLine(lookup, productId, variantId).Some?
    ensures var m := FindLine(lookup, productId, variantId).value;
      var r := SetQuantity(items, m.id, m.quantity + quantity);
      && Upsert(items, lookup, products, variants, cartId, productId, variantId, quantity, newId) == Some(r)
      && LinesValid(r, carts, products) && forall it :: it in r ==> |it.id| <= |newId|
  {
    var m := FindLine(lookup, productId, variantId).value;
    SetQuantityKeepsConstraints(items, carts, products, m.id, m.quantity + quantity, |newId|);
  }

  /** Appending a line with a longer id, a stored product and a stored cart that clashes with no line keeps the constraints. */
  lemma InsertKeepsConstraints(items: seq<CartItem>, carts: seq<Cart>, products: map<Id, Product>,
                               variants: map<Id, Variant>, line: CartItem)
    requires LinesValid(items, carts, products)
    requires forall it :: it in items ==> |it.id| < |line.id|
    requires line.variantId != Some("") && exists c :: c in carts && c.id == line.cartId
    requires InsertLine(items, products, variants, line).Some?
    ensures LinesValid(items + [line], carts, products) && forall it :: it in items + [line] ==> |it.id| <= |line.id|
  {
    forall i | 0 <= i < |items| ensures items[i].id != line.id && !KeyClash(items[i], line) {
      assert items[i] in items;
    }
  }

  /** Rewriting a quantity keeps every id, key and link. */
  lemma SetQuantityKeepsConstraints(items: seq<CartItem>, carts: seq<Cart>, products: map<Id, Product>,
                                    id: Id, quantity: int, bound: nat)
    requires LinesValid(items, carts, products)
    requires forall it :: it in items ==> |it.id| < bound
    ensures var r := SetQuantity(items, id, quantity);
      LinesValid(r, carts, products) && forall it :: it in r ==> |it.id| <= bound
  {
    var r := SetQuantity(items, id, quantity);
    assert forall i :: 0 <= i < |r| ==>
      r[i].id == items[i].id && r[i].cartId == items[i].cartId
      && r[i].productId == items[i].productId && r[i].variantId == items[i].variantId;
    SetQuantityKeepsLinks(items, carts, products, id, quantity, bound);
  }

  /** Rewriting a quantity keeps every line's links and id length. */
  lemma SetQuantityKeepsLinks(items: seq<CartItem>, carts: seq<Cart>, products: map<Id, Product>,
                              id: Id, quantity: int, bound: nat)
    requires LinesLinked(items, carts, products)
    requires forall it :: it in items ==> |it.id| < bound
    ensures var r := SetQuantity(items, id, quantity);
      LinesLinked(r, carts, products) && forall it :: it in r ==> |it.id| <= bound
  {
    var r := SetQuantity(items, id, quantity);
    forall it | it in r ensures it.productId in products && it.variantId != Some("")
      && (exists c :: c in carts && c.id == it.cartId) && |it.id| <= bound
    {
      var i :| 0 <= i < |r| && r[i] == it;
      assert items[i] in items;
    }
  }

  /** Replacing the cart-line table by one that keeps its constraints keeps the store consistent. */
  lemma ReplaceLines(products: map<Id, Product>, variants: map<Id, Variant>, sellers: seq<Seller>,
                     users: seq<User>, carts: seq<Cart>, items: seq<CartItem>, items': seq<CartItem>, serial: nat)
    requires Consistent(products, variants, sellers, users, carts, items, serial)
    requires LinesValid(items', carts, products) && forall it :: it in items' ==> |it.id| < serial
    ensures Consistent(products, variants, sellers, users, carts, items', serial)
  {
  }

  /**
   * When the cart already has a line with the identity, exactly that line's quantity grows
   * by `quantity`; every other line and the line count are unchanged.
   */
  lemma AddLineMatched(items: seq<CartItem>, products: map<Id, Product>, variants: map<Id, Variant>,
                       cartId: Id, productId: Id, variantId: Option<Id>, quantity: int, newId: Id, k: nat)
    requires UniqueLineIds(items)
    requires k < |items| && items[k].cartId == cartId && HasIdentity(items[k], productId, variantId)
    requires forall j :: 0 <= j < k ==> !(items[j].cartId == cartId && HasIdentity(items[j], productId, variantId))
    ensures AddLine(items, products, variants, cartId, productId, variantId, quantity, newId).Some?
    ensures var r := AddLine(items, products, variants, cartId, productId, variantId, quantity, newId).value;
      |r| == |items| && r[k] == items[k].(quantity := items[k].quantity + quantity)
      && forall j :: 0 <= j < |items| && j != k ==> r[j] == items[j]
  {
    FirstMatchIsFirstLine(items, cartId, productId, variantId, k);
  }

  /** The first matching line of the whole table is the first match among the cart's lines. */
  lemma {:induction false} FirstMatchIsFirstLine(items: seq<CartItem>, cartId: Id, productId: Id, variantId: Option<Id>, k: nat)
    requires k < |items| && items[k].cartId == cartId && HasIdentity(items[k], productId, variantId)
    requires forall j :: 0 <= j < k ==> !(items[j].cartId == cartId && HasIdentity(items[j], productId, variantId))
    ensures FindLine(CartLines(items, cartId), productId, variantId) == Some(items[k])
  {
    var rest := CartLines(items[1..], cartId);
    assert CartLines(items, cartId) == (if items[0].cartId == cartId then [items[0]] else []) + rest;
    if k == 0 {
      assert CartLines(items, cartId) == [items[0]] + rest;
    } else {
      var tail := items[1..];
      assert tail[k - 1] == items[k];
      forall j | 0 <= j < k - 1
        ensures !(tail[j].cartId == cartId && HasIdentity(tail[j], productId, variantId))
      {
        assert tail[j] == items[j + 1];
      }
      FirstMatchIsFirstLine(tail, cartId, productId, variantId, k - 1);
      if items[0].cartId == cartId {
        assert !HasIdentity(items[0], productId, variantId);
        assert CartLines(items, cartId) == [items[0]] + rest;
        assert ([items[0]] + rest)[1..] == rest;
      } else {
        assert CartLines(items, cartId) == rest;
      }
    }
  }

  /** Without a matching line, the new line is appended and nothing else changes. */
  lemma AddLineCreated(items: seq<CartItem>, products: map<Id, Product>, variants: map<Id, Variant>,
                       cartId: Id, productId: Id, variantId: Option<Id>, quantity: int, newId: Id)
    requires forall it :: it in items && it.cartId == cartId ==> !HasIdentity(it, productId, variantId)
    requires productId in products && (variantId.Some? ==> variantId.value in variants)
    ensures AddLine(items, products, variants, cartId, productId, variantId, quantity, newId)
      == Some(items + [CartItem(newId, cartId, productId, variantId, quantity)])
  {
  }

  /** Appending a line with an unused id keeps ids unique. */
  lemma AppendFreshId(items: seq<CartItem>, line: CartItem)
    requires UniqueLineIds(items) && forall it :: it in items ==> it.id != line.id
    ensures UniqueLineIds(items + [line])
  {
    forall i | 0 <= i < |items| ensures (items + [line])[i].id != line.id { assert items[i] in items; }
  }

  /** The first add of an identity the cart lacks appends a line that is the cart's only one of that identity. */
  lemma AddFirstTime(items: seq<CartItem>, products: map<Id, Product>, variants: map<Id, Variant>,
                     cartId: Id, productId: Id, variantId: Option<Id>, q: int, id: Id)
    requires UniqueLineIds(items) && forall it :: it in items ==> it.id != id
    requires forall it :: it in items && it.cartId == cartId ==> !HasIdentity(it, productId, variantId)
    requires AddLine(items, products, variants, cartId, productId, variantId, q, id).Some?
    ensures var r := items + [CartItem(id, cartId, productId, variantId, q)];
      && AddLine(items, products, variants, cartId, productId, variantId, q, id) == Some(r)
      && UniqueLineIds(r)
      && forall j :: 0 <= j < |items| ==> !(r[j].cartId == cartId && HasIdentity(r[j], productId, variantId))
  {
    var line := CartItem(id, cartId, productId, variantId, q);
    assert FindLine(CartLines(items, cartId), productId, variantId).None?;
    AppendFreshId(items, line);
    forall j | 0 <= j < |items|
      ensures !((items + [line])[j].cartId == cartId && HasIdentity((items + [line])[j], productId, variantId))
    {
      assert (items + [line])[j] == items[j] && items[j] in items;
    }
  }

  /** Adding `q1` and then `q2` of an identity the cart lacks leaves one line holding `q1 + q2`. */
  lemma AddTwice(items: seq<CartItem>, products: map<Id, Product>, variants: map<Id, Variant>,
                 cartId: Id, productId: Id, variantId: Option<Id>, q1: int, q2: int, id1: Id, id2: Id)
    requires UniqueLineIds(items) && forall it :: it in items ==> it.id != id1
    requires forall it :: it in items && it.cartId == cartId ==> !HasIdentity(it, productId, variantId)
    requires AddLine(items, products, variants, cartId, productId, variantId, q1, id1).Some?
    ensures var r1 := AddLine(items, products, variants, cartId, productId, variantId, q1, id1).value;
      AddLine(r1, products, variants, cartId, productId, variantId, q2, id2).Some? &&
      var r2 := AddLine(r1, products, variants, cartId, productId, variantId, q2, id2).value;
      && r2 == items + [CartItem(id1, cartId, productId, variantId, q1 + q2)]
      && forall it :: it in r2 && it.cartId == cartId && HasIdentity(it, productId, variantId) ==>
        it == CartItem(id1, cartId, productId, variantId, q1 + q2)
  {
    AddFirstTime(items, products, variants, cartId, productId, variantId, q1, id1);
    AddAgain(items, items + [CartItem(id1, cartId, productId, variantId, q1)], products, variants,
             cartId, productId, variantId, q2, id2);
  }

  /** The second add of the identity, onto the table the first add left. */
  lemma AddAgain(items: seq<CartItem>, r1: seq<CartItem>, products: map<Id, Product>, variants: map<Id, Variant>,
                 cartId: Id, productId: Id, variantId: Option<Id>, q2: int, id2: Id)
    requires |r1| == |items| + 1 && UniqueLineIds(r1)
    requires r1[|items|].cartId == cartId && HasIdentity(r1[|items|], productId, variantId)
    requires forall j :: 0 <= j < |items| ==> !(r1[j].cartId == cartId && HasIdentity(r1[j], productId, variantId))
    ensures AddLine(r1, products, variants, cartId, productId, variantId, q2, id2).Some?
    ensures var r2 := AddLine(r1, products, variants, cartId, productId, variantId, q2, id2).value;
      && r2 == r1[|items| := r1[|items|].(quantity := r1[|items|].quantity + q2)]
      && forall it :: it in r2 && it.cartId == cartId && HasIdentity(it, productId, variantId) ==>
        it == r1[|items|].(quantity := r1[|items|].quantity + q2)
  {
    AddLineMatched(r1, products, variants, cartId, productId, variantId, q2, id2, |items|);
    var r2 := AddLine(r1, products, variants, cartId, productId, variantId, q2, id2).value;
    PointUpdate(r1, r2, |items|, r1[|items|].(quantity := r1[|items|].quantity + q2));
    OnlyMatchIsLast(r1, r2, cartId, productId, variantId);
  }

  /** A list that differs from `r1` only at `k`, where it holds `line`, is `r1[k := line]`. */
  lemma PointUpdate(r1: seq<CartItem>, r2: seq<CartItem>, k: nat, line: CartItem)
    requires |r2| == |r1| && k < |r1| && r2[k] == line
    requires forall j :: 0 <= j < |r1| && j != k ==> r2[j] == r1[j]
    ensures r2 == r1[k := line]
  {
  }

  /** A list that agrees with `r1` except at its last line, and whose other lines miss the identity, matches only there. */
  lemma OnlyMatchIsLast(r1: seq<CartItem>, r2: seq<CartItem>, cartId: Id, productId: Id, variantId: Option<Id>)
    requires |r2| == |r1| > 0
    requires forall j :: 0 <= j < |r1| - 1 ==> r2[j] == r1[j] && !(r1[j].cartId == cartId && HasIdentity(r1[j], productId, variantId))
    ensures forall it :: it in r2 && it.cartId == cartId && HasIdentity(it, productId, variantId) ==> it == r2[|r2| - 1]
  {
    forall it | it in r2 && it.cartId == cartId && HasIdentity(it, productId, variantId)
      ensures it == r2[|r2| - 1]
    {
      var i :| 0 <= i < |r2| && r2[i] == it;
    }
  }

  /** One upsert on an ensured cart, matching against `lookup`: one generated id, then update or insert. */
  method StoreLine(db: Database, cart: Cart, lookup: seq<CartItem>, productId: Id, variantId: Option<Id>, quantity: int)
    returns (ok: bool)
    requires db.Valid() && cart in db.carts && variantId != Some("")
    modifies db`cartItems, db`serial
    ensures db.Valid() && db.serial == old(db.serial) + 1
    ensures var r := Upsert(old(db.cartItems), lookup, db.products, db.variants, cart.id, productId,
                            variantId, quantity, FreshId(old(db.serial)));
      (ok <==> r.Some?) && db.cartItems == if ok then r.value else old(db.cartItems)
  {
    assert forall it :: it in db.cartItems ==> |it.id| < db.serial;
    var id := db.NewId();
    var r := Upsert(db.cartItems, lookup, db.products, db.variants, cart.id, productId, variantId, quantity, id);
    if r.None? {
      return false;
    }
    UpsertKeepsConstraints(db.cartItems, lookup, db.carts, db.products, db.variants,
                           cart.id, productId, variantId, quantity, id);
    ReplaceLines(db.products, db.variants, db.sellers, db.users, db.carts, db.cartItems, r.value, db.serial);
    db.cartItems := r.value;
    ok := true;
  }

  datatype AddResponse = AddUnauthorized | AddInvalid | AddFailed | Added

  /** The route after its guards: ensure the cart, then upsert the line. */
  method AddValidated(db: Database, userId: Id, body: CartItemBody) returns (resp: AddResponse)
    requires db.Valid()
    modifies db`carts, db`cartItems, db`serial
    ensures db.Valid()
    ensures FindCart(db.carts, userId).Some? && db.serial == old(db.serial) + 1
    ensures db.carts == if old(FindCart(db.carts, userId)).Some? then old(db.carts)
                        else old(db.carts) + [Cart(CartIdOf(userId), userId)]
    ensures var added := AddLine(old(db.cartItems), db.products, db.variants, FindCart(db.carts, userId).value.id,
                                 body.productId, OrNull(body.variantId), body.quantity.Floor, FreshId(old(db.serial)));
      && (resp == Added <==> added.Some?)
      && (resp == Added || resp == AddFailed)
      && db.cartItems == (if added.Some? then added.value else old(db.cartItems))
  {
    ghost var items0, serial0 := db.cartItems, db.serial;
    var cart := EnsureCart(db, userId);
    var variantId, quantity := OrNull(body.variantId), body.quantity.Floor;
    ghost var added := Upsert(items0, CartLines(items0, cart.id), db.products, db.variants, cart.id, body.productId,
                              variantId, quantity, FreshId(serial0));
    assert added == AddLine(items0, db.products, db.variants, cart.id, body.productId, variantId, quantity, FreshId(serial0));
    var ok := StoreLine(db, cart, CartLines(db.cartItems, cart.id), body.productId, variantId, quantity);
    resp := if ok then Added else AddFailed;
  }

  /** `POST /api/cart/items` with the session and the parsed JSON body. */
  method AddToCart(db: Database, session: Option<Session>, body: CartItemBody) returns (resp: AddResponse)
    requires db.Valid()
    modifies db`carts, db`cartItems, db`serial
    ensures db.Valid()
    ensures session.None? ==> resp == AddUnauthorized && unchanged(db)
    ensures session.Some? && !ValidCartItem(body) ==> resp == AddInvalid && unchanged(db)
    ensures session.Some? && ValidCartItem(body) ==>
      FindCart(db.carts, session.value.userId).Some? && db.serial == old(db.serial) + 1
    ensures session.Some? && ValidCartItem(body) ==>
      db.carts == if old(FindCart(db.carts, session.value.userId)).Some? then old(db.carts)
                  else old(db.carts) + [Cart(CartIdOf(session.value.userId), session.value.userId)]
    ensures session.Some? && ValidCartItem(body) ==>
      var added := AddLine(old(db.cartItems), db.products, db.variants,
                           FindCart(db.carts, session.value.userId).value.id, body.productId,
                           OrNull(body.variantId), body.quantity.Floor, FreshId(old(db.serial)));
      && (resp == Added <==> added.Some?)
      && (resp == Added || resp == AddFailed)
      && db.cartItems == (if added.Some? then added.value else old(db.cartItems))
  {
    if session.None? {
      return AddUnauthorized;
    }
    if !ValidCartItem(body) {
      return AddInvalid;
    }
    resp := AddValidated(db, session.value.userId, body);
  }
}
