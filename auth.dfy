/** The request guard of src/lib/auth.ts: where the token is taken from, and
    how a missing or rejected token is reported. Signature and expiry checking
    by the JWT library is foreign: it is the parameter `jwt`, which yields the
    decoded payload or nothing. */
module Auth {
  import opened JsValues
  import Text

  datatype Payload = Payload(userId: string, email: string, role: string)

  /** What the guard reads of a request: the `authorization` header and the
      value of the `auth-token` cookie, each possibly absent. */
  datatype Request = Request(authorization: Option<string>, authTokenCookie: Option<string>)

  /** `jwt.verify(token, secret)`: the payload, or nothing when the library throws. */
  type Jwt = string -> Option<Payload>

  datatype AuthError = NoTokenProvided | InvalidToken

  /** The text of the error `requireAuth` and `verifyToken` throw. */
  function Message(e: AuthError): string {
    match e
    case NoTokenProvided => "No token provided"
    case InvalidToken => "Invalid token"
  }

  /** The two error texts the route handlers' `catch` blocks turn into 401. */
  const UnauthorizedTexts := ["No token provided", "Invalid token"]

  datatype AuthResult = Authenticated(payload: Payload) | Rejected(error: AuthError)

  const BearerPrefix := "Bearer "

  predicate IsBearer(header: Option<string>) {
    Truthy(header) && Text.StartsWith(header.value, BearerPrefix)
  }

  /** `getTokenFromRequest`. */
  function TokenFromRequest(req: Request): (r: Option<string>)
    // a Bearer header wins, and its token is the header without the prefix
    ensures IsBearer(req.authorization) ==> r == Some(req.authorization.value[|BearerPrefix|..])
    // otherwise the cookie is consulted, and only a non-empty one counts
    ensures !IsBearer(req.authorization) && Truthy(req.authTokenCookie) ==> r == req.authTokenCookie
    ensures !IsBearer(req.authorization) && !Truthy(req.authTokenCookie) ==> r.None?
    // the only empty token is that of a header reading exactly "Bearer "
    ensures r == Some("") <==> req.authorization == Some(BearerPrefix)
  {
    if IsBearer(req.authorization) then
      var h := req.authorization.value;
      assert |h| == 7 ==> h == h[..7];
      Some(h[7..])
    else if Truthy(req.authTokenCookie) then
      req.authTokenCookie
    else
      None
  }

  /** `verifyToken`: every failure of the library is the single error `Invalid token`. */
  function VerifyToken(token: string, jwt: Jwt): (r: AuthResult)
    ensures r.Rejected? <==> jwt(token).None?
    ensures r.Rejected? ==> r.error == InvalidToken
    ensures r.Authenticated? ==> jwt(token) == Some(r.payload)
  {
    match jwt(token)
    case Some(p) => Authenticated(p)
    case None => Rejected(InvalidToken)
  }

  /** `requireAuth`: fails closed without a token, and otherwise answers what
      `verifyToken` answers. */
  function RequireAuth(req: Request, jwt: Jwt): (r: AuthResult)
    ensures !Truthy(TokenFromRequest(req)) ==> r == Rejected(NoTokenProvided)
    ensures Truthy(TokenFromRequest(req)) ==> r == VerifyToken(TokenFromRequest(req).value, jwt)
  {
    var token := TokenFromRequest(req);
    if !Truthy(token) then Rejected(NoTokenProvided) else VerifyToken(token.value, jwt)
  }

  /** Without a token the verifier is never consulted: any two verifiers give
      the same answer. */
  lemma NoTokenIgnoresVerifier(req: Request, jwt1: Jwt, jwt2: Jwt)
    requires !Truthy(TokenFromRequest(req))
    ensures RequireAuth(req, jwt1) == RequireAuth(req, jwt2) == Rejected(NoTokenProvided)
  {
  }

  /** A request is admitted exactly when it carries a non-empty token that the
      verifier accepts, and a header of exactly "Bearer " is turned away
      without looking at the cookie. */
  lemma AdmittedIff(req: Request, jwt: Jwt)
    ensures RequireAuth(req, jwt).Authenticated? <==>
      (Truthy(TokenFromRequest(req)) && jwt(TokenFromRequest(req).value).Some?)
    ensures req.authorization == Some(BearerPrefix) ==> RequireAuth(req, jwt) == Rejected(NoTokenProvided)
  {
  }

  /** Every rejection of the guard throws one of the two texts the handlers
      answer with 401, so a rejected request never reaches their 500 branch. */
  lemma RejectionIsUnauthorized(req: Request, jwt: Jwt)
    ensures RequireAuth(req, jwt).Rejected? ==> Message(RequireAuth(req, jwt).error) in UnauthorizedTexts
    ensures Message(NoTokenProvided) != Message(InvalidToken)
  {
  }
}
