/**
 * `POST /api/auth/register`: the body is validated with its confirmation forced to the
 * password, the e-mail is lowercased, and a BUYER is stored unless the lowercased e-mail is
 * already stored. The response carries the new user without the password hash. Hashing is
 * not modelled: the hash is a parameter.
 */
module RegisterRoute {
  import opened Wrappers
  import opened Text
  import opened Schema
  import opened Db
  import opened AuthValidation

  /** The fields the created user is selected with; the password hash is not one of them. */
  datatype PublicUser = PublicUser(id: Id, name: Option<string>, email: string, role: Role)

  datatype RegisterResponse =
    | RegisterInvalid            // 400
    | EmailTaken                 // 409
    | Created(user: PublicUser)  // 201

  /** `{ ...body, confirmPassword: body.password }` */
  function Forced(body: RegisterBody): RegisterBody {
    body.(confirmPassword := body.password)
  }

  /** The row `user.create` stores. */
  function NewUser(id: Id, body: RegisterBody, passwordHash: string): User {
    User(id, Some(body.name), Lower(body.email), Some(passwordHash), BUYER)
  }

  /** Every stored e-mail is in lower case, as this route stores them. */
  predicate EmailsLower(users: seq<User>) {
    forall u :: u in users ==> Lower(u.email) == u.email
  }

  /** Appending a user under a fresh id with an e-mail no user has keeps every constraint. */
  lemma AddUserKeepsConsistent(products: map<Id, Product>, variants: map<Id, Variant>, sellers: seq<Seller>,
                               users: seq<User>, carts: seq<Cart>, items: seq<CartItem>, serial: nat, u: User)
    requires Consistent(products, variants, sellers, users, carts, items, serial)
    requires u.id == FreshId(serial) && FindUserByEmail(users, u.email).None?
    ensures Consistent(products, variants, sellers, users + [u], carts, items, serial + 1)
  {
    var us := users + [u];
    forall i, j | 0 <= i < j < |us| ensures us[i].id != us[j].id && us[i].email != us[j].email {
      if j == |users| {
        assert us[i] in users;
      }
    }
  }

  /** `POST(request)` of the registration route. */
  method Register(db: Database, body: RegisterBody, isEmail: string -> bool, passwordHash: string)
    returns (resp: RegisterResponse)
    requires db.Valid()
    modifies db`users, db`serial
    ensures db.Valid()
    ensures EmailsLower(old(db.users)) ==> EmailsLower(db.users)
    ensures
      if !ValidRegister(Forced(body), isEmail) then resp == RegisterInvalid && unchanged(db)
      else if FindUserByEmail(old(db.users), Lower(body.email)).Some? then resp == EmailTaken && unchanged(db)
      else
        var id := FreshId(old(db.serial));
        && resp == Created(PublicUser(id, Some(body.name), Lower(body.email), BUYER))
        && db.users == old(db.users) + [NewUser(id, body, passwordHash)]
        && db.serial == old(db.serial) + 1
  {
    // Both refusals change nothing.
    if !ValidRegister(Forced(body), isEmail) || FindUserByEmail(db.users, Lower(body.email)).Some? {
      return if !ValidRegister(Forced(body), isEmail) then RegisterInvalid else EmailTaken;
    }
    var id := FreshId(db.serial);
    var u := NewUser(id, body, passwordHash);
    AddUserKeepsConsistent(db.products, db.variants, db.sellers, db.users, db.carts, db.cartItems, db.serial, u);
    LowerIdempotent(body.email);
    db.users, db.serial := db.users + [u], db.serial + 1;
    return Created(PublicUser(id, u.name, u.email, u.role));
  }

  /**
   * With every stored e-mail in lower case, an address is refused exactly when a stored one
   * equals it up to case.
   */
  lemma EmailTakenIgnoresCase(users: seq<User>, email: string)
    requires EmailsLower(users)
    ensures FindUserByEmail(users, Lower(email)).Some? <==> exists u :: u in users && Lower(u.email) == Lower(email)
  {
    if exists u :: u in users && Lower(u.email) == Lower(email) {
      var u :| u in users && Lower(u.email) == Lower(email);
      assert u.email == Lower(email);
    }
  }

  /** Two spellings of one address that differ only in case cannot both be registered. */
  lemma RegisterTwiceRefused(users: seq<User>, id: Id, body: RegisterBody, passwordHash: string, email: string)
    requires Lower(email) == Lower(body.email)
    ensures FindUserByEmail(users + [NewUser(id, body, passwordHash)], Lower(email)).Some?
  {
    assert NewUser(id, body, passwordHash) in users + [NewUser(id, body, passwordHash)];
  }
}
