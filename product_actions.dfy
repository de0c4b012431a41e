/**
 * The seller's product actions: the seller lookup that authorises them, and the create,
 * update and archive of a product. A thrown error is an `ActionError`; an action that
 * throws writes nothing.
 */
module ProductActions {
  import opened Wrappers
  import opened Schema
  import opened Db
  import opened ProductValidation
  import opened Slugs

  datatype ActionError =
    | Unauthorized
    | Forbidden
    | InvalidInput      // `productSchema.parse` throws
    | ProductNotFound
    | TypeError         // `seller!.id` with no seller
    | ReferenceError    // the undeclared `session` in the ownership check
    | SlugTaken         // the unique slug is already stored

  datatype Outcome<T> = Fail(error: ActionError) | Done(value: T)

  /** `seller.findUnique({ where: { userId } })` */
  function FindSellerOf(sellers: seq<Seller>, userId: Id): (r: Option<Seller>)
    ensures r.Some? ==> r.value in sellers && r.value.userId == userId
    ensures r.None? <==> forall s :: s in sellers ==> s.userId != userId
  {
    if sellers == [] then None
    else if sellers[0].userId == userId then Some(sellers[0])
    else FindSellerOf(sellers[1..], userId)
  }

  /**
   * `getSeller()`: Unauthorized without a session, Forbidden for a user with no seller
   * profile unless an administrator; otherwise the profile, absent only for an administrator.
   */
  function GetSeller(session: Option<Session>, sellers: seq<Seller>): (r: Outcome<Option<Seller>>)
    ensures r == Fail(Unauthorized) <==> session.None?
    ensures r == Fail(Forbidden) <==>
      session.Some? && FindSellerOf(sellers, session.value.userId).None? && session.value.role != ADMIN
    ensures r.Fail? ==> r.error == Unauthorized || r.error == Forbidden
    ensures r.Done? ==>
      && r.value == FindSellerOf(sellers, session.value.userId)
      && (r.value.None? ==> session.value.role == ADMIN)
  {
    if session.None? then Fail(Unauthorized)
    else
      var seller := FindSellerOf(sellers, session.value.userId);
      if seller.None? && session.value.role != ADMIN then Fail(Forbidden) else Done(seller)
  }

  /** `v.price || null`: a missing or zero price is stored as null, so the product's price applies. */
  function StoredPrice(price: Option<real>): (r: Option<real>)
    ensures r.None? <==> price.None? || price.value == 0.0
    ensures r.Some? ==> r == price
  {
    if price.Some? && price.value != 0.0 then price else None
  }

  /** The images in submitted order, which is the `order: idx` they are stored with. */
  function StoredImages(images: seq<ImageInput>): (r: seq<Image>)
    ensures |r| == |images|
    ensures forall i :: 0 <= i < |images| ==> r[i] == Image(images[i].url, images[i].alt)
  {
    seq(|images|, i requires 0 <= i < |images| => Image(images[i].url, images[i].alt))
  }

  function StoredVariant(productId: Id, v: VariantInput): Variant {
    Variant(productId, v.name, StoredPrice(v.price), v.stock.Floor)
  }

  /** `createMany` of the variants, with generated ids from `serial` on. */
  function AddVariants(variants: map<Id, Variant>, productId: Id, inputs: seq<VariantInput>, serial: nat)
    : (r: map<Id, Variant>)
    requires forall k :: k in variants ==> |k| < serial
    ensures forall k :: k in variants ==> k in r && r[k] == variants[k]
    ensures forall k :: k in r ==> k in variants || serial <= |k| < serial + |inputs|
    decreases |inputs|
  {
    if inputs == [] then variants
    else AddVariants(variants[FreshId(serial) := StoredVariant(productId, inputs[0])], productId, inputs[1..], serial + 1)
  }

  /** The `i`-th submitted variant is stored under the `i`-th generated id. */
  lemma {:induction false} AddVariantsStores(variants: map<Id, Variant>, productId: Id, inputs: seq<VariantInput>,
                                             serial: nat, i: nat)
    requires forall k :: k in variants ==> |k| < serial
    requires i < |inputs|
    ensures var r := AddVariants(variants, productId, inputs, serial);
      FreshId(serial + i) in r && r[FreshId(serial + i)] == StoredVariant(productId, inputs[i])
    decreases |inputs|
  {
    var m := variants[FreshId(serial) := StoredVariant(productId, inputs[0])];
    if i > 0 {
      AddVariantsStores(m, productId, inputs[1..], serial + 1, i - 1);
      assert serial + 1 + (i - 1) == serial + i && inputs[1..][i - 1] == inputs[i];
    }
  }

  /** `productVariant.deleteMany({ where: { productId } })` */
  function RemoveVariantsOf(variants: map<Id, Variant>, productId: Id): (r: map<Id, Variant>)
    ensures forall k :: k in r <==> k in variants && variants[k].productId != productId
    ensures forall k :: k in r ==> r[k] == variants[k]
  {
    map k | k in variants && variants[k].productId != productId :: variants[k]
  }

  predicate SlugInUse(products: map<Id, Product>, slug: string) {
    exists k :: k in products && products[k].slug == slug
  }

  predicate UniqueSlugs(products: map<Id, Product>) {
    forall k1, k2 :: k1 in products && k2 in products && k1 != k2 ==> products[k1].slug != products[k2].slug
  }

  /** The stored product of a validated input. */
  function NewProduct(data: ProductInput, slug: string, sellerId: Id): Product
    requires ParseStatus(data.status).Some?
  {
    Product(data.name, slug, data.description, data.price, data.stock.Floor,
            ParseStatus(data.status).value, sellerId, data.categoryId, StoredImages(data.images))
  }

  /** The variants table after storing a product's submitted variants, if any. */
  function WithVariants(variants: map<Id, Variant>, productId: Id, inputs: Option<seq<VariantInput>>, serial: nat)
    : map<Id, Variant>
    requires forall k :: k in variants ==> |k| < serial
  {
    if inputs.Some? then AddVariants(variants, productId, inputs.value, serial) else variants
  }

  function VariantCount(inputs: Option<seq<VariantInput>>): nat {
    if inputs.Some? then |inputs.value| else 0
  }

  /** Storing new variants with fresh ids keeps every constraint of the store. */
  lemma WithVariantsKeepsConsistent(products: map<Id, Product>, variants: map<Id, Variant>, sellers: seq<Seller>,
                                    users: seq<User>, carts: seq<Cart>, items: seq<CartItem>, serial: nat,
                                    productId: Id, inputs: Option<seq<VariantInput>>)
    requires Consistent(products, variants, sellers, users, carts, items, serial)
    ensures Consistent(products, WithVariants(variants, productId, inputs, serial), sellers, users, carts,
                       items, serial + VariantCount(inputs))
  {
  }

  /** Inserting a product under a fresh id, then its variants, keeps every constraint of the store. */
  lemma InsertProductKeepsConsistent(products: map<Id, Product>, variants: map<Id, Variant>, sellers: seq<Seller>,
                                     users: seq<User>, carts: seq<Cart>, items: seq<CartItem>, serial: nat,
                                     p: Product, inputs: Option<seq<VariantInput>>)
    requires Consistent(products, variants, sellers, users, carts, items, serial)
    ensures FreshId(serial) !in products
    ensures Consistent(products[FreshId(serial) := p], WithVariants(variants, FreshId(serial), inputs, serial + 1),
                       sellers, users, carts, items, serial + 1 + VariantCount(inputs))
  {
    var ps := products[FreshId(serial) := p];
    assert Consistent(ps, variants, sellers, users, carts, items, serial + 1);
    WithVariantsKeepsConsistent(ps, variants, sellers, users, carts, items, serial + 1, FreshId(serial), inputs);
  }

  /** Rewriting a product's fields and replacing its variants keeps every constraint of the store. */
  lemma ReplaceProductKeepsConsistent(products: map<Id, Product>, variants: map<Id, Variant>, sellers: seq<Seller>,
                                      users: seq<User>, carts: seq<Cart>, items: seq<CartItem>, serial: nat,
                                      id: Id, p: Product, inputs: Option<seq<VariantInput>>)
    requires Consistent(products, variants, sellers, users, carts, items, serial)
    requires id in products
    ensures Consistent(products[id := p],
                       WithVariants(if inputs.Some? then RemoveVariantsOf(variants, id) else variants, id, inputs, serial),
                       sellers, users, carts, items, serial + VariantCount(inputs))
  {
    var ps := products[id := p];
    var vs := if inputs.Some? then RemoveVariantsOf(variants, id) else variants;
    assert Consistent(ps, vs, sellers, users, carts, items, serial);
    WithVariantsKeepsConsistent(ps, vs, sellers, users, carts, items, serial, id, inputs);
  }

  /** A product stored under an id no product has, with a slug no product has, keeps the slugs unique. */
  lemma InsertKeepsUniqueSlugs(products: map<Id, Product>, id: Id, p: Product)
    requires id !in products
    ensures UniqueSlugs(products) && !SlugInUse(products, p.slug) ==> UniqueSlugs(products[id := p])
  {
  }

  /** The insert of `createProduct`: the product under a fresh id, then its variants. */
  method InsertProduct(db: Database, p: Product, inputs: Option<seq<VariantInput>>) returns (id: Id)
    requires db.Valid()
    modifies db`products, db`variants, db`serial
    ensures db.Valid()
    ensures id == FreshId(old(db.serial)) && id !in old(db.products)
    ensures db.products == old(db.products)[id := p]
    ensures db.variants == WithVariants(old(db.variants), id, inputs, old(db.serial) + 1)
    ensures db.serial == old(db.serial) + 1 + VariantCount(inputs)
  {
    id := FreshId(db.serial);
    InsertProductKeepsConsistent(db.products, db.variants, db.sellers, db.users, db.carts, db.cartItems,
                                 db.serial, p, inputs);
    db.products, db.variants, db.serial :=
      db.products[id := p], WithVariants(db.variants, id, inputs, db.serial + 1),
      db.serial + 1 + VariantCount(inputs);
  }

  /** `createProduct(data)`: the checks in the order they run, then one product insert. */
  method CreateProduct(db: Database, session: Option<Session>, data: ProductInput, isUrl: string -> bool, now: nat)
    returns (err: Option<ActionError>)
    requires db.Valid()
    modifies db`products, db`variants, db`serial
    ensures db.Valid()
    ensures UniqueSlugs(old(db.products)) ==> UniqueSlugs(db.products)
    ensures
      var g := GetSeller(session, old(db.sellers));
      var slug := ProductSlug(data.name, now);
      if g.Fail? then err == Some(g.error) && unchanged(db)
      else if !ValidProduct(data, isUrl) then err == Some(InvalidInput) && unchanged(db)
      else if g.value.None? then err == Some(TypeError) && unchanged(db)
      else if SlugInUse(old(db.products), slug) then err == Some(SlugTaken) && unchanged(db)
      else
        var id := FreshId(old(db.serial));
        && err.None?
        && db.products == old(db.products)[id := NewProduct(data, slug, g.value.value.id)]
        && db.variants == WithVariants(old(db.variants), id, data.variants, old(db.serial) + 1)
        && db.serial == old(db.serial) + 1 + VariantCount(data.variants)
  {
    var g := GetSeller(session, db.sellers);
    if g.Fail? {
      return Some(g.error);
    }
    if !ValidProduct(data, isUrl) {
      return Some(InvalidInput);
    }
    var slug := ProductSlug(data.name, now);
    if g.value.None? {
      return Some(TypeError);
    }
    if SlugInUse(db.products, slug) {
      return Some(SlugTaken);
    }
    var p := NewProduct(data, slug, g.value.value.id);
    ghost var before := db.products;
    var id := InsertProduct(db, p, data.variants);
    InsertKeepsUniqueSlugs(before, id, p);
    return None;
  }

  /** The product after an update: the submitted fields and images replace the stored ones. */
  function UpdatedProduct(p: Product, data: ProductInput): Product
    requires ParseStatus(data.status).Some?
  {
    p.(name := data.name, description := data.description, price := data.price, stock := data.stock.Floor,
       status := ParseStatus(data.status).value, categoryId := data.categoryId, images := StoredImages(data.images))
  }

  /**
   * An update keeps the product's slug and seller and replaces its images by the submitted
   * ones in submitted order.
   */
  lemma UpdatedProductKeepsIdentity(p: Product, data: ProductInput)
    requires ParseStatus(data.status).Some?
    ensures var q := UpdatedProduct(p, data);
      && q.slug == p.slug && q.sellerId == p.sellerId
      && |q.images| == |data.images|
      && forall i :: 0 <= i < |data.images| ==> q.images[i].url == data.images[i].url && q.images[i].alt == data.images[i].alt
  {
  }

  /** The transaction of `updateProduct`: the product rewritten, its variants replaced when a list is given. */
  method ReplaceProduct(db: Database, id: Id, p: Product, inputs: Option<seq<VariantInput>>)
    requires db.Valid() && id in db.products
    modifies db`products, db`variants, db`serial
    ensures db.Valid()
    ensures db.products == old(db.products)[id := p]
    ensures inputs.None? ==> db.variants == old(db.variants) && db.serial == old(db.serial)
    ensures inputs.Some? ==>
      && db.variants == AddVariants(RemoveVariantsOf(old(db.variants), id), id, inputs.value, old(db.serial))
      && db.serial == old(db.serial) + |inputs.value|
  {
    ReplaceProductKeepsConsistent(db.products, db.variants, db.sellers, db.users, db.carts, db.cartItems,
                                  db.serial, id, p, inputs);
    if inputs.Some? {
      db.products, db.variants, db.serial :=
        db.products[id := p], AddVariants(RemoveVariantsOf(db.variants, id), id, inputs.value, db.serial),
        db.serial + |inputs.value|;
    } else {
      db.products := db.products[id := p];
    }
  }

  /**
   * `updateProduct(id, data)`: the checks in the order they run, then one transaction that
   * rewrites the product, its images, and its variants only when a list is submitted.
   */
  method UpdateProduct(db: Database, session: Option<Session>, id: Id, data: ProductInput, isUrl: string -> bool)
    returns (err: Option<ActionError>)
    requires db.Valid()
    modifies db`products, db`variants, db`serial
    ensures db.Valid()
    ensures
      var g := GetSeller(session, old(db.sellers));
      if g.Fail? then err == Some(g.error) && unchanged(db)
      else if !ValidProduct(data, isUrl) then err == Some(InvalidInput) && unchanged(db)
      else if id !in old(db.products) then err == Some(ProductNotFound) && unchanged(db)
      else if g.value.None? then err == Some(TypeError) && unchanged(db)
      else if old(db.products)[id].sellerId != g.value.value.id then err == Some(ReferenceError) && unchanged(db)
      else
        && err.None?
        && db.products == old(db.products)[id := UpdatedProduct(old(db.products)[id], data)]
        && (data.variants.None? ==> db.variants == old(db.variants) && db.serial == old(db.serial))
        && (data.variants.Some? ==>
              && db.variants == AddVariants(RemoveVariantsOf(old(db.variants), id), id, data.variants.value, old(db.serial))
              && db.serial == old(db.serial) + |data.variants.value|)
  {
    var g := GetSeller(session, db.sellers);
    if g.Fail? {
      return Some(g.error);
    }
    if !ValidProduct(data, isUrl) {
      return Some(InvalidInput);
    }
    if id !in db.products {
      return Some(ProductNotFound);
    }
    var product := db.products[id];
    if g.value.None? {
      return Some(TypeError);
    }
    if product.sellerId != g.value.value.id {
      return Some(ReferenceError);
    }
    var updated := UpdatedProduct(product, data);
    ReplaceProduct(db, id, updated, data.variants);
    return None;
  }

  /**
   * `deleteProduct(id)`: Forbidden for a missing product or another seller's; otherwise the
   * row stays and only its status becomes ARCHIVED.
   */
  method DeleteProduct(db: Database, session: Option<Session>, id: Id) returns (err: Option<ActionError>)
    requires db.Valid()
    modifies db`products
    ensures db.Valid()
    ensures
      var g := GetSeller(session, old(db.sellers));
      if g.Fail? then err == Some(g.error) && unchanged(db)
      else if id !in old(db.products) then err == Some(Forbidden) && unchanged(db)
      else if g.value.None? then err == Some(TypeError) && unchanged(db)
      else if old(db.products)[id].sellerId != g.value.value.id then err == Some(Forbidden) && unchanged(db)
      else err.None? && db.products == old(db.products)[id := old(db.products)[id].(status := ARCHIVED)]
  {
    var g := GetSeller(session, db.sellers);
    if g.Fail? {
      return Some(g.error);
    }
    if id !in db.products {
      return Some(Forbidden);
    }
    if g.value.None? {
      return Some(TypeError);
    }
    if db.products[id].sellerId != g.value.value.id {
      return Some(Forbidden);
    }
    db.products := db.products[id := db.products[id].(status := ARCHIVED)];
    return None;
  }
}
