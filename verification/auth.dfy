/**
 * Access tokens: the claims a token carries, the credential check that guards issuing one,
 * and how a presented token is turned into an account or classified as expired or invalid.
 * Signing and decoding are abstracted: a token is issued as its claims, and decoding a
 * presented token is a parameter that either yields the signed claims or fails.
 */
module Auth {
  import opened Options
  import opened Tables
  import opened Errors
  import Decimal
  import opened Queries

  /** Lifetime of a token, in seconds. */
  const Duration := 3600
  /** The `iss` claim of every token. */
  const Issuer := "http://127.0.0.1"

  datatype Claims = Claims(sub: string, iss: string, iat: int, exp: int)

  /** What decoding a presented token yields: a failure (bad signature, malformed token or payload), or the signed claims. */
  datatype Decoded = Undecodable | Signed(claims: Claims)

  /** `generate_claims`: issued at `now`, expiring an hour later, naming the account by its decimal id. */
  function GenerateClaims(accountId: int, now: int): (c: Claims)
    ensures c.iat == now && c.exp == now + Duration && c.iss == Issuer
    ensures c.sub == Decimal.Show(accountId)
    ensures Decimal.Parse(c.sub) == Some(accountId)
  {
    Decimal.ParseShow(accountId);
    Claims(Decimal.Show(accountId), Issuer, now, now + Duration)
  }

  /** `validate_credentials`: an unknown account and a wrong password fail alike; success hands back the account as given. */
  function ValidateCredentials(account: Option<Row<Account>>, password: string, h: Hasher): (r: Outcome<Row<Account>>)
    ensures r.Ok? <==> account.Some? && h.verify(password, account.value.data.hash)
    ensures r.Ok? ==> r.value == account.value
    ensures r.Err? ==> r.error == InvalidCredentials
  {
    if account.None? || !h.verify(password, account.value.data.hash) then Err(InvalidCredentials)
    else Ok(account.value)
  }

  /** `generate_token`: the claims signed for the first account with that username, when the password verifies. */
  function GenerateToken(db: ChatStore, username: string, password: string, now: int): (r: Outcome<Claims>)
    reads db
    ensures r.Err? ==> r.error == InvalidCredentials
    ensures r.Ok? ==> exists a {:trigger a in db.accounts} ::
      && a in db.accounts && a.data.username == username
      && db.hasher.verify(password, a.data.hash) && r.value == GenerateClaims(a.id, now)
    ensures (forall a {:trigger a in db.accounts} :: a in db.accounts && a.data.username == username ==> !db.hasher.verify(password, a.data.hash))
      ==> r.Err?
    ensures Increasing(db.accounts) && Unique(db.accounts, Username) ==>
      (r.Ok? <==> exists a {:trigger a in db.accounts} ::
        a in db.accounts && a.data.username == username && db.hasher.verify(password, a.data.hash))
  {
    var found := db.GetAccountByUsername(username);
    var account := ValidateCredentials(found, password, db.hasher);
    if account.Err? then
      assert Increasing(db.accounts) && Unique(db.accounts, Username) && found.Some? ==>
        forall b {:trigger b in db.accounts} :: b in db.accounts && b.data.username == username ==> b == found.value
      by {
        if Increasing(db.accounts) && Unique(db.accounts, Username) && found.Some? {
          forall b | b in db.accounts && b.data.username == username ensures b == found.value {
            GetExact(db.accounts, b.id, b.data);
            GetExact(db.accounts, b.id, found.value.data);
          }
        }
      }
      Err(account.error)
    else Ok(GenerateClaims(account.value.id, now))
  }

  /**
   * `extract_account`: an expired token is reported as expired; every other failure, a subject
   * that is not a number and an account that no longer exists included, as an invalid token.
   */
  function ExtractAccount(decoded: Decoded, now: int, db: ChatStore): (r: Outcome<Row<Account>>)
    reads db
    ensures r.Err? ==> r.error == ExpiredAccessTokenError || r.error == InvalidAccessTokenError
    ensures r == Err(ExpiredAccessTokenError) <==> decoded.Signed? && decoded.claims.exp < now
    ensures r.Ok? <==> && decoded.Signed? && now <= decoded.claims.exp
                       && Decimal.Parse(decoded.claims.sub).Some?
                       && Decimal.Parse(decoded.claims.sub).value in Keys(db.accounts)
    ensures r.Ok? ==> r.value in db.accounts && Decimal.Parse(decoded.claims.sub) == Some(r.value.id)
  {
    match decoded
    case Undecodable => Err(InvalidAccessTokenError)
    case Signed(claims) =>
      if claims.exp < now then Err(ExpiredAccessTokenError)
      else
        match Decimal.Parse(claims.sub)
        case None => Err(InvalidAccessTokenError)
        case Some(id) =>
          var account := db.GetAccount(id);
          if account.Err? then Err(InvalidAccessTokenError) else account
  }

  /** A token issued for an account identifies exactly that account until it expires, and is expired afterwards. */
  lemma IssuedTokenIdentifies(db: ChatStore, a: Row<Account>, issuedAt: int, now: int)
    requires Increasing(db.accounts) && a in db.accounts
    ensures now <= issuedAt + Duration ==> ExtractAccount(Signed(GenerateClaims(a.id, issuedAt)), now, db) == Ok(a)
    ensures now > issuedAt + Duration ==>
      ExtractAccount(Signed(GenerateClaims(a.id, issuedAt)), now, db) == Err(ExpiredAccessTokenError)
  {
    var r := ExtractAccount(Signed(GenerateClaims(a.id, issuedAt)), now, db);
    if now <= issuedAt + Duration {
      GetExact(db.accounts, a.id, a.data);
      GetExact(db.accounts, a.id, r.value.data);
    }
  }

  /** A token issued by `generate_token` names an account holding that username whose hash verifies the password. */
  lemma IssuedTokenAuthenticates(db: ChatStore, username: string, password: string, issuedAt: int, now: int)
    requires Increasing(db.accounts)
    requires GenerateToken(db, username, password, issuedAt).Ok? && now <= issuedAt + Duration
    ensures var r := ExtractAccount(Signed(GenerateToken(db, username, password, issuedAt).value), now, db);
      r.Ok? && r.value.data.username == username && db.hasher.verify(password, r.value.data.hash)
  {
    var a :| a in db.accounts && a.data.username == username && db.hasher.verify(password, a.data.hash)
      && GenerateToken(db, username, password, issuedAt).value == GenerateClaims(a.id, issuedAt);
    IssuedTokenIdentifies(db, a, issuedAt, now);
  }
}
