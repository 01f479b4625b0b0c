/** The bearer-token gate of src/jwt_middleware.rs: requests under
    "/api/v1" must carry a valid `Authorization: Bearer <token>` header; the
    decoded claims are attached to the request before it is passed on. The
    token decoder (signature and expiry checks) is an oracle. */
module JwtGate {
  import opened Wrappers
  import opened Authentication

  const ProtectedPrefix := "/api/v1"
  const BearerPrefix := "Bearer "

  /** A request: its path, its `Authorization` header if any, and the
      claims attached to its extensions. Header values are byte strings,
      one character per byte. */
  datatype Request = Request(path: string, authorization: Option<string>, claims: Option<Claims>)

  /** The gate either passes the (possibly updated) request to the inner
      service, once, or answers Unauthorized without calling it. */
  datatype Outcome = CallInner(req: Request) | Unauthorized

  /** `HeaderValue::to_str`: only tab and visible ASCII are text. */
  predicate HeaderText(v: string) {
    forall i :: 0 <= i < |v| ==> v[i] == '\t' || (32 <= v[i] as int <= 126)
  }

  /** The middleware holds the secret it was built with; every request is
      checked against it. */
  datatype JwtMiddleware = JwtMiddleware(secret: string) {

    /** The gate decision for one request; `decode(token, secret)` is the
        token library's decoder. */
    function Call(req: Request, decode: (string, string) -> Result<Claims, string>): (o: Outcome)
      ensures !(ProtectedPrefix <= req.path) ==> o == CallInner(req)
      ensures ProtectedPrefix <= req.path ==>
        (o.CallInner? <==>
           req.authorization.Some? && HeaderText(req.authorization.value)
           && BearerPrefix <= req.authorization.value
           && decode(req.authorization.value[|BearerPrefix|..], secret).Ok?)
      ensures ProtectedPrefix <= req.path && o.CallInner? ==>
        o.req == req.(claims := Some(decode(req.authorization.value[|BearerPrefix|..], secret).value))
    {
      if ProtectedPrefix <= req.path then
        if req.authorization.Some? && HeaderText(req.authorization.value)
           && BearerPrefix <= req.authorization.value then
          var token := req.authorization.value[7..];
          match decode(token, secret)
          case Ok(claims) => CallInner(req.(claims := Some(claims)))
          case Err(_) => Unauthorized
        else Unauthorized
      else CallInner(req)
    }
  }

  /** The prefix test is on raw text: "/api/v10" is gated too. */
  lemma PrefixIsRawText(gate: JwtMiddleware, decode: (string, string) -> Result<Claims, string>)
    ensures gate.Call(Request("/api/v10", None, None), decode) == Unauthorized
  {
    assert ProtectedPrefix <= "/api/v10";
  }

  /** The scheme is case-sensitive: "bearer " does not open the gate. */
  lemma SchemeIsCaseSensitive(gate: JwtMiddleware, path: string, token: string,
                              decode: (string, string) -> Result<Claims, string>)
    requires ProtectedPrefix <= path
    ensures gate.Call(Request(path, Some("bearer " + token), None), decode) == Unauthorized
  {
    assert ("bearer " + token)[0] != BearerPrefix[0];
  }

  /** A token issued by `login` opens the gate, given that the decoder
      accepts what the encoder produced with the same secret and returns the
      encoded claims. */
  lemma LoginTokenPassesGate<D>(gate: JwtMiddleware, users: Option<D>, user: UserLogin, now: int,
                                check: (D, string, string) -> Result<bool, string>,
                                encode: Claims -> Result<string, string>,
                                decode: (string, string) -> Result<Claims, string>,
                                path: string)
    requires Login(users, user, now, check, encode).Ok?
    requires forall c :: encode(c).Ok? ==> decode(encode(c).value, gate.secret) == Ok(c)
    requires HeaderText(Login(users, user, now, check, encode).value.token)
    requires ProtectedPrefix <= path
    ensures var token := Login(users, user, now, check, encode).value.token;
      gate.Call(Request(path, Some(BearerPrefix + token), None), decode)
      == CallInner(Request(path, Some(BearerPrefix + token), Some(ClaimsFor(user.username, now))))
  {
    var token := Login(users, user, now, check, encode).value.token;
    var header := BearerPrefix + token;
    assert header[|BearerPrefix|..] == token;
    assert BearerPrefix <= header;
    assert HeaderText(header) by {
      forall i | 0 <= i < |header| ensures header[i] == '\t' || (32 <= header[i] as int <= 126) {
        if i >= |BearerPrefix| {
          assert header[i] == token[i - |BearerPrefix|];
        }
      }
    }
  }
}
