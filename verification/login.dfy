/** `login` in src/apis.rs: checks the credentials against the user table
    and, on success, issues a bearer token for one hour. The credential
    check (`post_login`) and the token encoder are oracles; the current time
    is an input. */
module Authentication {
  import opened Wrappers

  /** The token's claims: subject, expiry (seconds since the epoch), issuer
      and audience, in the order the source passes them to `Claims::new`. */
  datatype Claims = Claims(subject: string, expiration: int, issuer: string, audience: string)

  datatype UserLogin = UserLogin(username: string, password: string)

  datatype JwtResponse = JwtResponse(token: string, tokenType: string, expiresIn: int)

  const TokenLifetime := 3600
  const Issuer := "kafka-repo-iss"
  const Audience := "kafka-repo-service-aud"
  const TokenType := "Bearer"

  const NoUserTableMessage := "Failed to login"
  const BadCredentialsMessage := "Invalid username or password"
  const EncodeFailedMessage := "Failed to encode jwt token"

  /** The claims issued to `username` at time `now`. */
  function ClaimsFor(username: string, now: int): Claims {
    Claims(username, now + TokenLifetime, Issuer, Audience)
  }

  /** The outcome of a login attempt. `users` is the optional user table,
      `check` the credential check over it, `encode` the token encoder with
      the server's secret. */
  function Login<D>(users: Option<D>, user: UserLogin, now: int,
                    check: (D, string, string) -> Result<bool, string>,
                    encode: Claims -> Result<string, string>): (r: Result<JwtResponse, string>)
    ensures users.None? ==> r == Err(NoUserTableMessage)
    ensures users.Some? && check(users.value, user.username, user.password).Err?
            ==> r == Err(check(users.value, user.username, user.password).error)
    ensures users.Some? && check(users.value, user.username, user.password) == Ok(false)
            ==> r == Err(BadCredentialsMessage)
    ensures users.Some? && check(users.value, user.username, user.password) == Ok(true)
            && encode(ClaimsFor(user.username, now)).Err?
            ==> r == Err(EncodeFailedMessage)
    ensures r.Ok? <==> users.Some? && check(users.value, user.username, user.password) == Ok(true)
                       && encode(ClaimsFor(user.username, now)).Ok?
    ensures r.Ok? ==> r.value == JwtResponse(encode(ClaimsFor(user.username, now)).value, TokenType, TokenLifetime)
  {
    if users.Some? then
      match check(users.value, user.username, user.password)
      case Ok(valid) =>
        if valid then
          match encode(ClaimsFor(user.username, now))
          case Ok(token) => Ok(JwtResponse(token, TokenType, TokenLifetime))
          case Err(_) => Err(EncodeFailedMessage)
        else Err(BadCredentialsMessage)
      case Err(e) => Err(e)
    else Err(NoUserTableMessage)
  }

  /** The issued token's lifetime matches its claims: it expires exactly
      `expiresIn` seconds after `now`. */
  lemma IssuedTokenLifetime<D>(users: Option<D>, user: UserLogin, now: int,
                               check: (D, string, string) -> Result<bool, string>,
                               encode: Claims -> Result<string, string>)
    requires Login(users, user, now, check, encode).Ok?
    ensures var resp := Login(users, user, now, check, encode).value;
      encode(Claims(user.username, now + resp.expiresIn, Issuer, Audience)) == Ok(resp.token)
  {
  }
}
