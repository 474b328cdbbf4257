/**
 * Request dependencies: which presented token a request is authenticated with, and the
 * account it resolves to. The bearer header and the cookie arrive as optional strings; an
 * empty cookie counts as absent, as an empty string is false where the token is chosen.
 */
module Dependencies {
  import opened Options
  import opened Tables
  import opened Errors
  import opened Queries
  import opened Auth

  /** `get_token`: the bearer token whenever there is one, else a non-empty cookie, else authentication is required. */
  function GetToken(bearer: Option<string>, cookie: Option<string>): (r: Outcome<string>)
    ensures bearer.Some? ==> r == Ok(bearer.value)
    ensures bearer.None? && cookie.Some? && cookie.value != "" ==> r == Ok(cookie.value)
    ensures r.Err? <==> bearer.None? && (cookie.None? || cookie.value == "")
    ensures r.Err? ==> r.error == AuthenticationRequiredError
  {
    if bearer.Some? then Ok(bearer.value)
    else if cookie.Some? && cookie.value != "" then Ok(cookie.value)
    else Err(AuthenticationRequiredError)
  }

  /**
   * `get_current_account`: the account the selected token resolves to. `decode` stands for
   * verifying the token's signature and reading its claims.
   */
  function GetCurrentAccount(bearer: Option<string>, cookie: Option<string>, decode: string -> Decoded,
                             now: int, db: ChatStore): (r: Outcome<Row<Account>>)
    reads db
    ensures GetToken(bearer, cookie).Err? ==> r == Err(AuthenticationRequiredError)
    ensures GetToken(bearer, cookie).Ok? ==> r == ExtractAccount(decode(GetToken(bearer, cookie).value), now, db)
    ensures r.Ok? ==> r.value in db.accounts
    ensures r.Err? ==> Response(r.error).status == 403
  {
    var token := GetToken(bearer, cookie);
    if token.Err? then Err(token.error) else ExtractAccount(decode(token.value), now, db)
  }
}
