/**
 * `POST /api/auth/forgot-password`: for a stored account, one reset token valid for an hour
 * is stored under the lowercased e-mail. The answer is the same whether or not the account
 * exists. The random token and the clock are parameters; the e-mail with the link is not
 * modelled.
 */
module ForgotPasswordRoute {
  import opened Wrappers
  import opened Text
  import opened Schema
  import opened Db
  import opened AuthValidation

  /** How long a reset token stays valid, in milliseconds. */
  const TokenLifetime: int := 3600 * 1000

  datatype ForgotResponse =
    | ForgotInvalid     // 400
    | ResetLinkSent     // 200, the same message for a known and an unknown address
    | ForgotFailed      // 500, the insert threw

  /** A row with the key `(identifier, token)`. */
  predicate HasTokenKey(tokens: seq<VerificationToken>, identifier: string, token: string) {
    exists t :: t in tokens && t.identifier == identifier && t.token == token
  }

  /** The table's key: no two rows share `(identifier, token)`. */
  predicate TokenKeysUnique(tokens: seq<VerificationToken>) {
    forall i, j :: 0 <= i < j < |tokens| ==>
      tokens[i].identifier != tokens[j].identifier || tokens[i].token != tokens[j].token
  }

  /** The row `verificationToken.create` stores at clock reading `now`. */
  function IssuedToken(email: string, token: string, now: int): (t: VerificationToken)
    ensures t.identifier == Lower(email) && t.expires == now + TokenLifetime
  {
    VerificationToken(Lower(email), token, now + TokenLifetime)
  }

  /** An insert that does not repeat a key keeps the key. */
  lemma IssueKeepsKeys(tokens: seq<VerificationToken>, t: VerificationToken)
    requires TokenKeysUnique(tokens) && !HasTokenKey(tokens, t.identifier, t.token)
    ensures TokenKeysUnique(tokens + [t])
  {
    var ts := tokens + [t];
    forall i, j | 0 <= i < j < |ts| ensures ts[i].identifier != ts[j].identifier || ts[i].token != ts[j].token {
      if j == |tokens| {
        assert ts[i] in tokens;
      }
    }
  }

  /** `POST(request)`, with `token` the random token and `now` the clock in milliseconds. */
  method ForgotPassword(db: Database, email: string, isEmail: string -> bool, token: string, now: int)
    returns (resp: ForgotResponse)
    modifies db`tokens
    ensures TokenKeysUnique(old(db.tokens)) ==> TokenKeysUnique(db.tokens)
    // The answer does not tell whether the account exists.
    ensures ValidForgotPassword(email, isEmail) && !HasTokenKey(old(db.tokens), Lower(email), token) ==>
      resp == ResetLinkSent
    ensures
      if !ValidForgotPassword(email, isEmail) then resp == ForgotInvalid && unchanged(db)
      else if FindUserByEmail(old(db.users), Lower(email)).None? then resp == ResetLinkSent && unchanged(db)
      else if HasTokenKey(old(db.tokens), Lower(email), token) then resp == ForgotFailed && unchanged(db)
      else resp == ResetLinkSent && db.tokens == old(db.tokens) + [IssuedToken(email, token, now)]
  {
    if !ValidForgotPassword(email, isEmail) {
      return ForgotInvalid;
    }
    var user := FindUserByEmail(db.users, Lower(email));
    if user.None? {
      return ResetLinkSent;
    }
    var t := IssuedToken(email, token, now);
    if HasTokenKey(db.tokens, t.identifier, t.token) {
      return ForgotFailed;
    }
    if TokenKeysUnique(db.tokens) {
      IssueKeepsKeys(db.tokens, t);
    }
    db.tokens := db.tokens + [t];
    return ResetLinkSent;
  }
}
