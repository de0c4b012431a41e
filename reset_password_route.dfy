/**
 * `POST /api/auth/reset-password`: a live token sets the password hash of the account its
 * identifier names, and is then deleted. The clock and the new hash are parameters. The
 * update and the delete are two statements, not one transaction.
 */
module ResetPasswordRoute {
  import opened Wrappers
  import opened Schema
  import opened Db
  import opened AuthValidation
  import opened ForgotPasswordRoute

  datatype ResetResponse =
    | ResetInvalid       // 400, invalid body
    | TokenRejected      // 400, no live token
    | ResetFailed        // 500, the update threw
    | PasswordChanged    // 200

  /** `verificationToken.findFirst({ where: { token, expires: { gt: now } } })`, in table order. */
  function FirstLiveToken(tokens: seq<VerificationToken>, token: string, now: int): (r: Option<nat>)
    ensures r.None? <==> forall i :: 0 <= i < |tokens| ==> !(tokens[i].token == token && tokens[i].expires > now)
    ensures r.Some? ==>
      && r.value < |tokens| && tokens[r.value].token == token && tokens[r.value].expires > now
      && forall j :: 0 <= j < r.value ==> !(tokens[j].token == token && tokens[j].expires > now)
  {
    if tokens == [] then None
    else if tokens[0].token == token && tokens[0].expires > now then Some(0)
    else match FirstLiveToken(tokens[1..], token, now)
      case None => None
      case Some(k) => Some(k + 1)
  }

  /** `user.update({ where: { email }, data: { passwordHash } })` on the table. */
  function WithHash(users: seq<User>, email: string, passwordHash: string): (r: seq<User>)
    ensures |r| == |users|
    ensures forall i :: 0 <= i < |users| ==>
      r[i] == if users[i].email == email then users[i].(passwordHash := Some(passwordHash)) else users[i]
  {
    seq(|users|, i requires 0 <= i < |users| =>
      if users[i].email == email then users[i].(passwordHash := Some(passwordHash)) else users[i])
  }

  /** `verificationToken.delete({ where: { identifier_token } })` on the table. */
  function WithoutToken(tokens: seq<VerificationToken>, identifier: string, token: string)
    : (r: seq<VerificationToken>)
    ensures forall t :: t in r <==> t in tokens && (t.identifier != identifier || t.token != token)
  {
    if tokens == [] then []
    else (if tokens[0].identifier != identifier || tokens[0].token != token then [tokens[0]] else [])
         + WithoutToken(tokens[1..], identifier, token)
  }

  /** Setting a hash keeps every id and e-mail. */
  lemma WithHashKeepsConsistent(products: map<Id, Product>, variants: map<Id, Variant>, sellers: seq<Seller>,
                                users: seq<User>, carts: seq<Cart>, items: seq<CartItem>, serial: nat,
                                email: string, passwordHash: string)
    requires Consistent(products, variants, sellers, users, carts, items, serial)
    ensures Consistent(products, variants, sellers, WithHash(users, email, passwordHash), carts, items, serial)
  {
    var r := WithHash(users, email, passwordHash);
    assert forall i :: 0 <= i < |r| ==> r[i].id == users[i].id && r[i].email == users[i].email;
    forall u | u in r ensures |u.id| < serial {
      var i :| 0 <= i < |r| && r[i] == u;
      assert users[i] in users;
    }
  }

  /** A deletion keeps the remaining keys distinct. */
  lemma {:induction false} WithoutTokenKeepsKeys(tokens: seq<VerificationToken>, identifier: string, token: string)
    requires TokenKeysUnique(tokens)
    ensures TokenKeysUnique(WithoutToken(tokens, identifier, token))
    decreases |tokens|
  {
    if tokens != [] {
      var rest := tokens[1..];
      assert forall i :: 0 <= i < |rest| ==> rest[i] == tokens[i + 1];
      WithoutTokenKeepsKeys(rest, identifier, token);
      var tail := WithoutToken(rest, identifier, token);
      if tokens[0].identifier != identifier || tokens[0].token != token {
        var r := [tokens[0]] + tail;
        forall i, j | 0 <= i < j < |r|
          ensures r[i].identifier != r[j].identifier || r[i].token != r[j].token
        {
          if i == 0 {
            assert r[j] == tail[j - 1] && r[j] in rest;
            var k :| 0 <= k < |rest| && rest[k] == r[j];
            assert tokens[k + 1] == r[j];
          } else {
            assert r[i] == tail[i - 1] && r[j] == tail[j - 1];
          }
        }
      }
    }
  }

  /** `POST(request)`, at clock reading `now`, with `passwordHash` the hash of the new password. */
  method ResetPassword(db: Database, body: ResetBody, now: int, passwordHash: string) returns (resp: ResetResponse)
    requires db.Valid()
    modifies db`users, db`tokens
    ensures db.Valid()
    ensures TokenKeysUnique(old(db.tokens)) ==> TokenKeysUnique(db.tokens)
    ensures
      var found := FirstLiveToken(old(db.tokens), body.token, now);
      if !ValidReset(body) then resp == ResetInvalid && unchanged(db)
      else if found.None? then resp == TokenRejected && unchanged(db)
      else
        var t := old(db.tokens)[found.value];
        if FindUserByEmail(old(db.users), t.identifier).None? then resp == ResetFailed && unchanged(db)
        else
          && resp == PasswordChanged
          && db.users == WithHash(old(db.users), t.identifier, passwordHash)
          && db.tokens == WithoutToken(old(db.tokens), t.identifier, t.token)
  {
    if !ValidReset(body) {
      return ResetInvalid;
    }
    var found := FirstLiveToken(db.tokens, body.token, now);
    if found.None? {
      return TokenRejected;
    }
    var t := db.tokens[found.value];
    // No user has the identifier: the update throws before the token is deleted.
    if FindUserByEmail(db.users, t.identifier).None? {
      return ResetFailed;
    }
    Consume(db, t, passwordHash);
    return PasswordChanged;
  }

  /** The writes of a reset: the new hash for the token's account, then the token's deletion. */
  method Consume(db: Database, t: VerificationToken, passwordHash: string)
    requires db.Valid()
    modifies db`users, db`tokens
    ensures db.Valid()
    ensures TokenKeysUnique(old(db.tokens)) ==> TokenKeysUnique(db.tokens)
    ensures db.users == WithHash(old(db.users), t.identifier, passwordHash)
    ensures db.tokens == WithoutToken(old(db.tokens), t.identifier, t.token)
  {
    WithHashKeepsConsistent(db.products, db.variants, db.sellers, db.users, db.carts, db.cartItems, db.serial,
                            t.identifier, passwordHash);
    if TokenKeysUnique(db.tokens) {
      WithoutTokenKeepsKeys(db.tokens, t.identifier, t.token);
    }
    db.users := WithHash(db.users, t.identifier, passwordHash);
    db.tokens := WithoutToken(db.tokens, t.identifier, t.token);
  }

  /**
   * A token is used once: after a reset consumed it, a second reset with the same token is
   * rejected at any later time, provided no other row carries the same token string.
   */
  lemma SecondResetRejected(tokens: seq<VerificationToken>, k: nat, now: int)
    requires k < |tokens|
    requires forall i :: 0 <= i < |tokens| && tokens[i].token == tokens[k].token ==> i == k
    ensures FirstLiveToken(WithoutToken(tokens, tokens[k].identifier, tokens[k].token), tokens[k].token, now).None?
  {
    var r := WithoutToken(tokens, tokens[k].identifier, tokens[k].token);
    forall i | 0 <= i < |r| ensures r[i].token != tokens[k].token {
      assert r[i] in r;
      var j :| 0 <= j < |tokens| && tokens[j] == r[i];
    }
  }

  /**
   * A token issued by the forgot-password route at `issued` is accepted by a reset at `now`
   * exactly while less than an hour has passed, when it is the only row with its token string.
   */
  lemma IssuedTokenLifetime(tokens: seq<VerificationToken>, email: string, token: string, issued: int, now: int)
    requires forall i :: 0 <= i < |tokens| ==> tokens[i].token != token
    ensures var ts := tokens + [IssuedToken(email, token, issued)];
      FirstLiveToken(ts, token, now).Some? <==> now < issued + TokenLifetime
    ensures var ts := tokens + [IssuedToken(email, token, issued)];
      FirstLiveToken(ts, token, now).Some? ==> FirstLiveToken(ts, token, now).value == |tokens|
  {
    var ts := tokens + [IssuedToken(email, token, issued)];
    assert ts[|tokens|] == IssuedToken(email, token, issued);
    assert forall i :: 0 <= i < |tokens| ==> ts[i] == tokens[i];
  }
}
