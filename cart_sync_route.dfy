/**
 * `POST /api/cart/sync`: merge the lines a browser kept while signed out into the user's
 * stored cart. Every incoming line is matched against the cart's lines as read once before
 * the loop; the writes are not in a transaction, so a failing write ends the request with
 * the earlier writes kept.
 */
module CartSyncRoute {
  import opened Wrappers
  import opened Schema
  import opened Db
  import opened CartService
  import opened CartItemsRoute

  datatype MergeOutcome = MergeOutcome(items: seq<CartItem>, serial: nat, ok: bool)

  /** The loop of the route: one upsert per incoming line, against the fixed snapshot. */
  function Merge(items: seq<CartItem>, snapshot: seq<CartItem>, products: map<Id, Product>,
                 variants: map<Id, Variant>, cartId: Id, incoming: seq<DisplayLine>, serial: nat): (r: MergeOutcome)
    ensures serial < r.serial <= serial + |incoming| || (incoming == [] && r.serial == serial)
    ensures |items| <= |r.items| <= |items| + |incoming|
    ensures incoming == [] ==> r == MergeOutcome(items, serial, true)
    decreases |incoming|
  {
    if incoming == [] then MergeOutcome(items, serial, true)
    else
      var x := incoming[0];
      match Upsert(items, snapshot, products, variants, cartId, x.productId, OrNull(x.variantId),
                   x.quantity, FreshId(serial))
      case None => MergeOutcome(items, serial + 1, false)
      case Some(t) => Merge(t, snapshot, products, variants, cartId, incoming[1..], serial + 1)
  }

  /** A stored line that no incoming line's snapshot match points at is kept as it was. */
  lemma {:induction false} MergeKeepsLine(items: seq<CartItem>, snapshot: seq<CartItem>, products: map<Id, Product>,
                                          variants: map<Id, Variant>, cartId: Id, incoming: seq<DisplayLine>,
                                          serial: nat, k: nat)
    requires k < |items|
    requires forall x :: x in incoming && FindLine(snapshot, x.productId, OrNull(x.variantId)).Some? ==>
      FindLine(snapshot, x.productId, OrNull(x.variantId)).value.id != items[k].id
    ensures Merge(items, snapshot, products, variants, cartId, incoming, serial).items[k] == items[k]
    decreases |incoming|
  {
    if incoming != [] {
      var x := incoming[0];
      var u := Upsert(items, snapshot, products, variants, cartId, x.productId, OrNull(x.variantId),
                      x.quantity, FreshId(serial));
      if u.Some? {
        assert u.value[k] == items[k];
        forall y | y in incoming[1..] ensures y in incoming { }
        MergeKeepsLine(u.value, snapshot, products, variants, cartId, incoming[1..], serial + 1, k);
      }
    }
  }

  /**
   * Stored lines whose identity matches no incoming line are unchanged: matches come from
   * the snapshot of the cart's lines, and ids are unique.
   */
  lemma UnmatchedLineUnchanged(items: seq<CartItem>, products: map<Id, Product>, variants: map<Id, Variant>,
                               cartId: Id, incoming: seq<DisplayLine>, serial: nat, k: nat)
    requires UniqueLineIds(items) && k < |items|
    requires forall x :: x in incoming ==> !HasIdentity(items[k], x.productId, OrNull(x.variantId))
    ensures Merge(items, CartLines(items, cartId), products, variants, cartId, incoming, serial).items[k] == items[k]
  {
    var snapshot := CartLines(items, cartId);
    forall x | x in incoming && FindLine(snapshot, x.productId, OrNull(x.variantId)).Some?
      ensures FindLine(snapshot, x.productId, OrNull(x.variantId)).value.id != items[k].id
    {
      var m := FindLine(snapshot, x.productId, OrNull(x.variantId)).value;
      assert m in items;
      var j :| 0 <= j < |items| && items[j] == m;
      assert j != k;
    }
    MergeKeepsLine(items, snapshot, products, variants, cartId, incoming, serial, k);
  }

  /** A single incoming line matching a snapshot line adds its quantity to that line's snapshot quantity. */
  lemma MergeSingleMatch(items: seq<CartItem>, snapshot: seq<CartItem>, products: map<Id, Product>,
                         variants: map<Id, Variant>, cartId: Id, x: DisplayLine, serial: nat)
    requires FindLine(snapshot, x.productId, OrNull(x.variantId)).Some?
    ensures var m := FindLine(snapshot, x.productId, OrNull(x.variantId)).value;
      Merge(items, snapshot, products, variants, cartId, [x], serial)
        == MergeOutcome(SetQuantity(items, m.id, m.quantity + x.quantity), serial + 1, true)
  {
    var m := FindLine(snapshot, x.productId, OrNull(x.variantId)).value;
    var t := SetQuantity(items, m.id, m.quantity + x.quantity);
    assert Upsert(items, snapshot, products, variants, cartId, x.productId, OrNull(x.variantId),
                  x.quantity, FreshId(serial)) == Some(t);
    assert [x][1..] == [];
    assert Merge(t, snapshot, products, variants, cartId, [], serial + 1) == MergeOutcome(t, serial + 1, true);
  }

  /** A single incoming line with no snapshot match is inserted with a null-normalised variant. */
  lemma MergeSingleNew(items: seq<CartItem>, snapshot: seq<CartItem>, products: map<Id, Product>,
                       variants: map<Id, Variant>, cartId: Id, x: DisplayLine, serial: nat)
    requires FindLine(snapshot, x.productId, OrNull(x.variantId)).None?
    requires x.productId in products && (OrNull(x.variantId).Some? ==> OrNull(x.variantId).value in variants)
    requires forall it :: it in items ==> !KeyClash(CartItem(FreshId(serial), cartId, x.productId, OrNull(x.variantId), x.quantity), it)
    ensures Merge(items, snapshot, products, variants, cartId, [x], serial) ==
      MergeOutcome(items + [CartItem(FreshId(serial), cartId, x.productId, OrNull(x.variantId), x.quantity)], serial + 1, true)
  {
    assert [x][1..] == [];
  }

  function Incoming(productId: Id, variantId: Option<Id>, quantity: int): DisplayLine {
    DisplayLine("", productId, "", "", None, variantId, None, 0.0, quantity, 0, "")
  }

  /** Three stored units and two incoming ones of the same identity end at five. */
  lemma MergeAddsToStored(products: map<Id, Product>, variants: map<Id, Variant>)
    ensures var items := [CartItem("a", "c", "p", None, 3)];
      Merge(items, CartLines(items, "c"), products, variants, "c", [Incoming("p", None, 2)], 7)
        == MergeOutcome([CartItem("a", "c", "p", None, 5)], 8, true)
  {
    var items := [CartItem("a", "c", "p", None, 3)];
    assert CartLines(items, "c") == items;
    assert FindLine(items, "p", OrNull(None)) == Some(items[0]);
    MergeSingleMatch(items, items, products, variants, "c", Incoming("p", None, 2), 7);
  }

  /**
   * Two incoming lines of one identity are not summed against each other: both are matched
   * against the same snapshot line, so the second write wins (3 + 4, not 3 + 2 + 4).
   */
  lemma MergeDuplicateIncomingLastWins(products: map<Id, Product>, variants: map<Id, Variant>)
    ensures var items := [CartItem("a", "c", "p", None, 3)];
      Merge(items, CartLines(items, "c"), products, variants, "c",
            [Incoming("p", None, 2), Incoming("p", None, 4)], 7).items == [CartItem("a", "c", "p", None, 7)]
  {
    var items := [CartItem("a", "c", "p", None, 3)];
    var incoming := [Incoming("p", None, 2), Incoming("p", None, 4)];
    assert CartLines(items, "c") == items;
    assert FindLine(items, "p", OrNull(None)) == Some(items[0]);
    var once := [CartItem("a", "c", "p", None, 5)];
    assert incoming[1..] == [Incoming("p", None, 4)];
    MergeSingleMatch(once, items, products, variants, "c", Incoming("p", None, 4), 8);
  }

  /**
   * Two incoming lines of one new product without variant both find no snapshot match, and
   * the key lets two null-variant lines coexist: the cart ends with two lines of one identity.
   */
  lemma MergeDuplicateNewLines(products: map<Id, Product>, variants: map<Id, Variant>)
    requires "p" in products
    ensures var r := Merge([], [], products, variants, "c", [Incoming("p", None, 1), Incoming("p", None, 1)], 1);
      r.ok && |r.items| == 2 && HasIdentity(r.items[0], "p", None) && HasIdentity(r.items[1], "p", None)
  {
    var incoming := [Incoming("p", None, 1), Incoming("p", None, 1)];
    var first := [CartItem(FreshId(1), "c", "p", None, 1)];
    assert incoming[1..] == [Incoming("p", None, 1)];
    MergeSingleNew([], [], products, variants, "c", Incoming("p", None, 1), 1);
    MergeSingleNew(first, [], products, variants, "c", Incoming("p", None, 1), 2);
  }

  /** With a variant the key forbids the duplicate: the second insert fails and the first stays. */
  lemma MergeDuplicateVariantFails(products: map<Id, Product>, variants: map<Id, Variant>)
    requires "p" in products && "v" in variants
    ensures var r := Merge([], [], products, variants, "c", [Incoming("p", Some("v"), 1), Incoming("p", Some("v"), 1)], 1);
      !r.ok && r.items == [CartItem(FreshId(1), "c", "p", Some("v"), 1)]
  {
    var incoming := [Incoming("p", Some("v"), 1), Incoming("p", Some("v"), 1)];
    var first := [CartItem(FreshId(1), "c", "p", Some("v"), 1)];
    assert incoming[1..] == [Incoming("p", Some("v"), 1)];
    assert incoming[1..][1..] == [];
    assert KeyClash(CartItem(FreshId(2), "c", "p", Some("v"), 1), first[0]);
  }

  /** An upsert keeps every stored line in place, changing at most its quantity. */
  lemma UpsertKeepsPositions(items: seq<CartItem>, snapshot: seq<CartItem>, products: map<Id, Product>,
                             variants: map<Id, Variant>, cartId: Id, productId: Id, variantId: Option<Id>,
                             quantity: int, newId: Id, k: nat)
    requires k < |items|
    requires Upsert(items, snapshot, products, variants, cartId, productId, variantId, quantity, newId).Some?
    ensures var t := Upsert(items, snapshot, products, variants, cartId, productId, variantId, quantity, newId).value;
      |items| <= |t| && t[k] == items[k].(quantity := t[k].quantity)
  {
  }

  /** The snapshot match of an incoming line, if any. */
  function MatchOf(snapshot: seq<CartItem>, x: DisplayLine): Option<CartItem> {
    FindLine(snapshot, x.productId, OrNull(x.variantId))
  }

  /**
   * When the merge succeeds, a stored line that `incoming[i]` matches in the snapshot, and
   * that no later incoming line matches, ends at the snapshot quantity plus `incoming[i]`'s
   * quantity.
   */
  lemma {:induction false} MergeSetsLastMatch(items: seq<CartItem>, snapshot: seq<CartItem>, products: map<Id, Product>,
                                              variants: map<Id, Variant>, cartId: Id, incoming: seq<DisplayLine>,
                                              serial: nat, i: nat, k: nat)
    requires i < |incoming| && k < |items|
    requires MatchOf(snapshot, incoming[i]).Some? && MatchOf(snapshot, incoming[i]).value.id == items[k].id
    requires forall j :: i < j < |incoming| && MatchOf(snapshot, incoming[j]).Some? ==>
      MatchOf(snapshot, incoming[j]).value.id != items[k].id
    requires Merge(items, snapshot, products, variants, cartId, incoming, serial).ok
    ensures var m := MatchOf(snapshot, incoming[i]).value;
      Merge(items, snapshot, products, variants, cartId, incoming, serial).items[k]
        == items[k].(quantity := m.quantity + incoming[i].quantity)
    decreases |incoming|
  {
    var x, rest := incoming[0], incoming[1..];
    var u := Upsert(items, snapshot, products, variants, cartId, x.productId, OrNull(x.variantId),
                    x.quantity, FreshId(serial));
    MergeUnfold(items, snapshot, products, variants, cartId, incoming, serial);
    var t := u.value;
    UpsertKeepsPositions(items, snapshot, products, variants, cartId, x.productId, OrNull(x.variantId),
                         x.quantity, FreshId(serial), k);
    if i == 0 {
      forall y | y in rest && FindLine(snapshot, y.productId, OrNull(y.variantId)).Some?
        ensures FindLine(snapshot, y.productId, OrNull(y.variantId)).value.id != t[k].id
      {
        var j :| 0 <= j < |rest| && rest[j] == y;
        assert incoming[j + 1] == y;
      }
      MergeKeepsLine(t, snapshot, products, variants, cartId, rest, serial + 1, k);
    } else {
      assert rest[i - 1] == incoming[i];
      forall j | i - 1 < j < |rest| && MatchOf(snapshot, rest[j]).Some?
        ensures MatchOf(snapshot, rest[j]).value.id != t[k].id
      {
        assert rest[j] == incoming[j + 1];
      }
      MergeSetsLastMatch(t, snapshot, products, variants, cartId, rest, serial + 1, i - 1, k);
    }
  }

  /** Two incoming lines with the same product and the same variant-or-null. */
  predicate SameIdentity(x: DisplayLine, y: DisplayLine) {
    x.productId == y.productId && OrNull(x.variantId) == OrNull(y.variantId)
  }

  /**
   * The route's merge: when it succeeds, the stored line an incoming line matches ends at its
   * stored quantity plus the quantity of the last incoming line of that identity.
   */
  lemma MergeAddsLastOfIdentity(items: seq<CartItem>, products: map<Id, Product>, variants: map<Id, Variant>,
                                cartId: Id, incoming: seq<DisplayLine>, serial: nat, i: nat, k: nat)
    requires UniqueLineIds(items) && i < |incoming| && k < |items|
    requires MatchOf(CartLines(items, cartId), incoming[i]) == Some(items[k])
    requires forall j :: i < j < |incoming| ==> !SameIdentity(incoming[j], incoming[i])
    requires Merge(items, CartLines(items, cartId), products, variants, cartId, incoming, serial).ok
    ensures Merge(items, CartLines(items, cartId), products, variants, cartId, incoming, serial).items[k]
      == items[k].(quantity := items[k].quantity + incoming[i].quantity)
  {
    var snapshot := CartLines(items, cartId);
    forall j | i < j < |incoming| && MatchOf(snapshot, incoming[j]).Some?
      ensures MatchOf(snapshot, incoming[j]).value.id != items[k].id
    {
      var m := MatchOf(snapshot, incoming[j]).value;
      assert m in items;
      var k' :| 0 <= k' < |items| && items[k'] == m;
      assert !SameIdentity(incoming[j], incoming[i]);
      assert m != items[k];
      assert k' != k;
    }
    MergeSetsLastMatch(items, snapshot, products, variants, cartId, incoming, serial, i, k);
  }

  /**
   * When the merge succeeds, an incoming line without a snapshot match is stored as a new line
   * with the id generated for it and its variant normalised to null.
   */
  lemma {:induction false} MergeInsertsUnmatched(items: seq<CartItem>, snapshot: seq<CartItem>, products: map<Id, Product>,
                                                 variants: map<Id, Variant>, cartId: Id, incoming: seq<DisplayLine>,
                                                 serial: nat, i: nat)
    requires i < |incoming| && MatchOf(snapshot, incoming[i]).None?
    requires forall it :: it in snapshot ==> |it.id| < serial
    requires Merge(items, snapshot, products, variants, cartId, incoming, serial).ok
    ensures var x := incoming[i];
      CartItem(FreshId(serial + i), cartId, x.productId, OrNull(x.variantId), x.quantity)
        in Merge(items, snapshot, products, variants, cartId, incoming, serial).items
    decreases |incoming|, 1
  {
    var x, rest := incoming[0], incoming[1..];
    var u := Upsert(items, snapshot, products, variants, cartId, x.productId, OrNull(x.variantId),
                    x.quantity, FreshId(serial));
    MergeUnfold(items, snapshot, products, variants, cartId, incoming, serial);
    var t := u.value;
    if i == 0 {
      var line := CartItem(FreshId(serial), cartId, x.productId, OrNull(x.variantId), x.quantity);
      assert t == items + [line] && t[|items|] == line;
      forall y | y in rest && FindLine(snapshot, y.productId, OrNull(y.variantId)).Some?
        ensures FindLine(snapshot, y.productId, OrNull(y.variantId)).value.id != line.id
      {
      }
      MergeKeepsLine(t, snapshot, products, variants, cartId, rest, serial + 1, |items|);
      var r := Merge(t, snapshot, products, variants, cartId, rest, serial + 1).items;
      assert r[|items|] == line;
    } else {
      UnmatchedLater(t, snapshot, products, variants, cartId, incoming, serial, i);
    }
  }

  /** The step of `MergeInsertsUnmatched` past the first incoming line. */
  lemma UnmatchedLater(t: seq<CartItem>, snapshot: seq<CartItem>, products: map<Id, Product>,
                       variants: map<Id, Variant>, cartId: Id, incoming: seq<DisplayLine>, serial: nat, i: nat)
    requires 0 < i < |incoming| && MatchOf(snapshot, incoming[i]).None?
    requires forall it :: it in snapshot ==> |it.id| < serial
    requires Merge(t, snapshot, products, variants, cartId, incoming[1..], serial + 1).ok
    ensures var x := incoming[i];
      CartItem(FreshId(serial + i), cartId, x.productId, OrNull(x.variantId), x.quantity)
        in Merge(t, snapshot, products, variants, cartId, incoming[1..], serial + 1).items
    decreases |incoming|, 0
  {
    var rest := incoming[1..];
    assert rest[i - 1] == incoming[i];
    MergeInsertsUnmatched(t, snapshot, products, variants, cartId, rest, serial + 1, i - 1);
    assert serial + 1 + (i - 1) == serial + i;
  }

  /** One turn of the loop. */
  lemma MergeUnfold(items: seq<CartItem>, snapshot: seq<CartItem>, products: map<Id, Product>,
                    variants: map<Id, Variant>, cartId: Id, incoming: seq<DisplayLine>, serial: nat)
    requires incoming != []
    ensures var u := Upsert(items, snapshot, products, variants, cartId, incoming[0].productId,
                            OrNull(incoming[0].variantId), incoming[0].quantity, FreshId(serial));
      Merge(items, snapshot, products, variants, cartId, incoming, serial) ==
        if u.Some? then Merge(u.value, snapshot, products, variants, cartId, incoming[1..], serial + 1)
        else MergeOutcome(items, serial + 1, false)
  {
  }

  datatype SyncResponse = SyncUnauthorized | SyncInvalidItems | SyncFailed | Synced(lines: seq<DisplayLine>)

  /**
   * The turn of the loop at index `i`, stated on the remaining lines `incoming[i..]`: when the upsert
   * of `incoming[i]` succeeds (`ok`) with table `after`, the rest is merged from `after`; when it
   * fails, the table stays `after == items` and the merge stops.
   */
  lemma MergeStep(items: seq<CartItem>, after: seq<CartItem>, ok: bool, snapshot: seq<CartItem>,
                  products: map<Id, Product>, variants: map<Id, Variant>, cartId: Id,
                  incoming: seq<DisplayLine>, i: nat, serial: nat)
    requires i < |incoming|
    requires var x := incoming[i];
      var u := Upsert(items, snapshot, products, variants, cartId, x.productId, OrNull(x.variantId),
                      x.quantity, FreshId(serial));
      (ok <==> u.Some?) && after == if ok then u.value else items
    ensures var before := Merge(items, snapshot, products, variants, cartId, incoming[i..], serial);
      if ok then before == Merge(after, snapshot, products, variants, cartId, incoming[i + 1..], serial + 1)
      else before == MergeOutcome(after, serial + 1, false)
  {
    MergeUnfold(items, snapshot, products, variants, cartId, incoming[i..], serial);
    assert incoming[i..][0] == incoming[i] && incoming[i..][1..] == incoming[i + 1..];
  }

  /**
   * One turn of the loop: upsert `incoming[i]` against the snapshot. The merge of the lines from
   * `i` on, before the turn, is the merge of the lines after `i` from the new table, or the stop.
   */
  method MergeOne(db: Database, cart: Cart, snapshot: seq<CartItem>, incoming: seq<DisplayLine>, i: nat)
    returns (ok: bool)
    requires db.Valid() && cart in db.carts && i < |incoming|
    modifies db`cartItems, db`serial
    ensures db.Valid()
    ensures var before := Merge(old(db.cartItems), snapshot, db.products, db.variants, cart.id, incoming[i..],
                                old(db.serial));
      if ok then before == Merge(db.cartItems, snapshot, db.products, db.variants, cart.id, incoming[i + 1..], db.serial)
      else before == MergeOutcome(db.cartItems, db.serial, false)
  {
    ghost var items, serial := db.cartItems, db.serial;
    var x := incoming[i];
    ok := StoreLine(db, cart, snapshot, x.productId, OrNull(x.variantId), x.quantity);
    MergeStep(items, db.cartItems, ok, snapshot, db.products, db.variants, cart.id, incoming, i, serial);
  }

  /** The loop of the route on an ensured cart. */
  method MergeLoop(db: Database, cart: Cart, incoming: seq<DisplayLine>) returns (ok: bool)
    requires db.Valid() && cart in db.carts
    modifies db`cartItems, db`serial
    ensures db.Valid()
    ensures var m := Merge(old(db.cartItems), CartLines(old(db.cartItems), cart.id), db.products, db.variants,
                           cart.id, incoming, old(db.serial));
      db.cartItems == m.items && db.serial == m.serial && ok == m.ok
  {
    var snapshot := CartLines(db.cartItems, cart.id);
    ghost var goal := Merge(db.cartItems, snapshot, db.products, db.variants, cart.id, incoming, db.serial);
    var i := 0;
    assert incoming[0..] == incoming;
    while i < |incoming|
      invariant 0 <= i <= |incoming|
      invariant db.Valid()
      invariant Merge(db.cartItems, snapshot, db.products, db.variants, cart.id, incoming[i..], db.serial) == goal
    {
      ok := MergeOne(db, cart, snapshot, incoming, i);
      if !ok {
        return;
      }
      i := i + 1;
    }
    assert incoming[i..] == [];
    ok := true;
  }

  /** `POST /api/cart/sync` with the session and the `items` field of the body (`None`: not an array). */
  method Sync(db: Database, session: Option<Session>, incoming: Option<seq<DisplayLine>>) returns (resp: SyncResponse)
    requires db.Valid()
    modifies db`carts, db`cartItems, db`serial
    ensures db.Valid()
    ensures session.None? ==> resp == SyncUnauthorized && unchanged(db)
    ensures session.Some? && incoming.None? ==> resp == SyncInvalidItems && unchanged(db)
    ensures session.Some? && incoming.Some? ==> FindCart(db.carts, session.value.userId).Some?
    ensures session.Some? && incoming.Some? ==>
      db.carts == if old(FindCart(db.carts, session.value.userId)).Some? then old(db.carts)
                  else old(db.carts) + [Cart(CartIdOf(session.value.userId), session.value.userId)]
    ensures session.Some? && incoming.Some? ==>
      var cart := FindCart(db.carts, session.value.userId).value;
      var m := Merge(old(db.cartItems), CartLines(old(db.cartItems), cart.id), db.products, db.variants,
                     cart.id, incoming.value, old(db.serial));
      && db.cartItems == m.items && db.serial == m.serial
      && resp == if m.ok then Synced(GetUserCart(db.carts, db.cartItems, db.products, db.variants, session.value.userId))
                 else SyncFailed
  {
    if session.None? {
      return SyncUnauthorized;
    }
    if incoming.None? {
      return SyncInvalidItems;
    }
    var cart := EnsureCart(db, session.value.userId);
    var ok := MergeLoop(db, cart, incoming.value);
    if ok {
      resp := Synced(GetUserCart(db.carts, db.cartItems, db.products, db.variants, session.value.userId));
    } else {
      resp := SyncFailed;
    }
  }
}
