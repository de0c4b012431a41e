/**
 * `registerSeller(data)`: a signed-in user opens a store. The store's slug is derived from
 * its name and must be free; the seller profile insert and the user's promotion to SELLER
 * run in one transaction, so both happen or neither does.
 */
module SellerActions {
  import opened Wrappers
  import opened Schema
  import opened Db
  import opened Slugs
  import opened ProductActions
  import opened Text

  datatype SellerInput = SellerInput(storeName: string, description: Option<string>)

  datatype RegisterSellerError =
    | NotSignedIn         // no session
    | InvalidStoreName    // `sellerSchema.parse` throws: a name shorter than 3 code units
    | StoreNameTaken      // a seller already has the slug
    | RegisterFailed      // the transaction throws: the user already has a store, or is not stored

  /** `sellerSchema` */
  predicate ValidSellerInput(data: SellerInput) {
    Utf16Len(data.storeName) >= 3
  }

  /** `seller.findUnique({ where: { slug } })` */
  function FindSellerBySlug(sellers: seq<Seller>, slug: string): (r: Option<Seller>)
    ensures r.Some? ==> r.value in sellers && r.value.slug == slug
    ensures r.None? <==> forall s :: s in sellers ==> s.slug != slug
  {
    if sellers == [] then None
    else if sellers[0].slug == slug then Some(sellers[0])
    else FindSellerBySlug(sellers[1..], slug)
  }

  /** `user.update({ where: { id }, data: { role } })` on the table. */
  function WithRole(users: seq<User>, id: Id, role: Role): (r: seq<User>)
    ensures |r| == |users|
    ensures forall i :: 0 <= i < |users| ==>
      r[i] == if users[i].id == id then users[i].(role := role) else users[i]
  {
    seq(|users|, i requires 0 <= i < |users| => if users[i].id == id then users[i].(role := role) else users[i])
  }

  predicate HasUser(users: seq<User>, id: Id) {
    exists u :: u in users && u.id == id
  }

  /** The profile the transaction inserts. */
  function NewSeller(id: Id, userId: Id, data: SellerInput): Seller {
    Seller(id, userId, data.storeName, Slugify(data.storeName), data.description)
  }

  /** Changing a role keeps every id and e-mail, so users stay unique. */
  lemma WithRoleKeepsUnique(users: seq<User>, id: Id, role: Role)
    requires UniqueUsers(users)
    ensures UniqueUsers(WithRole(users, id, role))
    ensures forall u :: u in WithRole(users, id, role) ==> exists v :: v in users && v.id == u.id
  {
    var r := WithRole(users, id, role);
    assert forall i :: 0 <= i < |r| ==> r[i].id == users[i].id && r[i].email == users[i].email;
    forall u | u in r ensures exists v :: v in users && v.id == u.id {
      var i :| 0 <= i < |r| && r[i] == u;
      assert users[i] in users;
    }
  }

  /** The committed registration keeps every constraint of the store. */
  lemma RegisterKeepsConsistent(products: map<Id, Product>, variants: map<Id, Variant>, sellers: seq<Seller>,
                                users: seq<User>, carts: seq<Cart>, items: seq<CartItem>, serial: nat,
                                userId: Id, data: SellerInput)
    requires Consistent(products, variants, sellers, users, carts, items, serial)
    requires FindSellerBySlug(sellers, Slugify(data.storeName)).None?
    requires FindSellerOf(sellers, userId).None?
    ensures Consistent(products, variants, sellers + [NewSeller(FreshId(serial), userId, data)],
                       WithRole(users, userId, SELLER), carts, items, serial + 1)
  {
    var s := sellers + [NewSeller(FreshId(serial), userId, data)];
    var us := WithRole(users, userId, SELLER);
    WithRoleKeepsUnique(users, userId, SELLER);
    forall i, j | 0 <= i < j < |s|
      ensures s[i].id != s[j].id && s[i].slug != s[j].slug && s[i].userId != s[j].userId
    {
      if j == |sellers| {
        assert s[i] in sellers;
      }
    }
    forall u | u in us ensures |u.id| < serial + 1 {
      var v :| v in users && v.id == u.id;
    }
  }

  /**
   * `registerSeller(data)`: the checks in the order they run, then the transaction that adds
   * the profile and makes the user a SELLER.
   */
  method RegisterSeller(db: Database, session: Option<Session>, data: SellerInput)
    returns (err: Option<RegisterSellerError>)
    requires db.Valid()
    modifies db`sellers, db`users, db`serial
    ensures db.Valid()
    ensures
      var slug := Slugify(data.storeName);
      if session.None? then err == Some(NotSignedIn) && unchanged(db)
      else if !ValidSellerInput(data) then err == Some(InvalidStoreName) && unchanged(db)
      else if FindSellerBySlug(old(db.sellers), slug).Some? then err == Some(StoreNameTaken) && unchanged(db)
      else if FindSellerOf(old(db.sellers), session.value.userId).Some? || !HasUser(old(db.users), session.value.userId) then
        err == Some(RegisterFailed) && unchanged(db)
      else
        && err.None?
        && db.sellers == old(db.sellers) + [NewSeller(FreshId(old(db.serial)), session.value.userId, data)]
        && db.users == WithRole(old(db.users), session.value.userId, SELLER)
        && db.serial == old(db.serial) + 1
  {
    // Every refusal changes nothing. The last one is the transaction rolling back: the insert
    // breaks the one profile per user, or the update finds no user.
    if || session.None? || !ValidSellerInput(data)
       || FindSellerBySlug(db.sellers, Slugify(data.storeName)).Some?
       || FindSellerOf(db.sellers, session.value.userId).Some? || !HasUser(db.users, session.value.userId)
    {
      return if session.None? then Some(NotSignedIn)
        else if !ValidSellerInput(data) then Some(InvalidStoreName)
        else if FindSellerBySlug(db.sellers, Slugify(data.storeName)).Some? then Some(StoreNameTaken)
        else Some(RegisterFailed);
    }
    var userId := session.value.userId;
    RegisterKeepsConsistent(db.products, db.variants, db.sellers, db.users, db.carts, db.cartItems, db.serial,
                            userId, data);
    db.sellers, db.users, db.serial :=
      db.sellers + [NewSeller(FreshId(db.serial), userId, data)], WithRole(db.users, userId, SELLER), db.serial + 1;
    return None;
  }

  /**
   * After a registration the user's seller lookup finds the new profile, so the product
   * actions authorise the user as that seller, whatever role the session still reports.
   */
  lemma RegisteredSellerAuthorised(sellers: seq<Seller>, id: Id, userId: Id, data: SellerInput, role: Role)
    requires FindSellerOf(sellers, userId).None?
    ensures GetSeller(Some(Session(userId, role)), sellers + [NewSeller(id, userId, data)])
      == Done(Some(NewSeller(id, userId, data)))
  {
    FoundLast(sellers, NewSeller(id, userId, data));
  }

  /** The lookup reaches an appended profile when no earlier one belongs to the user. */
  lemma {:induction false} FoundLast(sellers: seq<Seller>, s: Seller)
    requires FindSellerOf(sellers, s.userId).None?
    ensures FindSellerOf(sellers + [s], s.userId) == Some(s)
    decreases |sellers|
  {
    if sellers == [] {
      assert sellers + [s] == [s];
    } else {
      assert (sellers + [s])[1..] == sellers[1..] + [s];
      assert sellers[0] in sellers;
      FoundLast(sellers[1..], s);
    }
  }
}
