/**
 * The request gate in front of the deck routes: it takes the bearer token of
 * the Authorization header, has it verified, checks the shape of the decoded
 * payload, and either records the identity on the request and passes control
 * on, or answers 401. Token verification (signature, expiry, secret) is the
 * collaborator `verify`, which maps a token to what `jwt.verify` returns or throws.
 */
module AuthMiddleware {
  import opened JsValues

  /** `req.user` */
  datatype AuthUser = AuthUser(userId: int, email: string)

  /**
   * What `jwt.verify` throws. TokenExpiredError and NotBeforeError are
   * subclasses of JsonWebTokenError; OtherError is any other exception.
   */
  datatype JwtError = JsonWebTokenError | TokenExpiredError | NotBeforeError | OtherError

  datatype Verification = Decoded(payload: Value) | Thrown(error: JwtError)

  /** `error instanceof jwt.JsonWebTokenError`, subclasses included. */
  predicate IsJsonWebTokenError(e: JwtError) {
    e.JsonWebTokenError? || e.TokenExpiredError? || e.NotBeforeError?
  }

  /** `error instanceof jwt.TokenExpiredError` */
  predicate IsTokenExpiredError(e: JwtError) {
    e.TokenExpiredError?
  }

  const BearerPrefix := "Bearer "

  const NoTokenProvided := "No token provided"
  const InvalidTokenPayload := "Invalid token payload"
  const InvalidToken := "Invalid token"
  const TokenExpired := "Token expired"
  const InvalidOrExpired := "Invalid or expired token"

  /** The structural check of a decoded payload, spelled as the JavaScript test. */
  predicate IsValidJwtPayload(obj: Value) {
    && TypeOf(obj) == ObjectType
    && obj != Null
    && HasProperty(obj, "userId")
    && TypeOf(Property(obj, "userId")) == NumberType
    && HasProperty(obj, "email")
    && TypeOf(Property(obj, "email")) == StringType
  }

  /** The shape check accepts exactly the objects with a numeric userId and a string email. */
  lemma IsValidJwtPayloadIff(obj: Value)
    ensures IsValidJwtPayload(obj) <==>
            && obj.Obj?
            && "userId" in obj.fields && obj.fields["userId"].Num?
            && "email" in obj.fields && obj.fields["email"].Str?
  {
  }

  /** The message the catch block writes, tests in source order. */
  function CatchMessage(e: JwtError): string {
    if IsJsonWebTokenError(e) then InvalidToken
    else if IsTokenExpiredError(e) then TokenExpired
    else InvalidOrExpired
  }

  /** The token after `"Bearer "`, when the header is present and starts with it. */
  function BearerToken(authorization: Option<string>): (t: Option<string>)
    ensures t.Some? <==> authorization.Some? && StartsWith(authorization.value, BearerPrefix)
    ensures t.Some? ==> authorization.value == BearerPrefix + t.value
  {
    if authorization.None? || authorization.value == "" || !StartsWith(authorization.value, BearerPrefix) then None
    else
      var t := authorization.value[|BearerPrefix|..];
      assert authorization.value == authorization.value[..|BearerPrefix|] + t;
      Some(t)
  }

  /** How the gate ends: control passes on with an identity, or the request is refused. */
  datatype Outcome = Proceed(user: AuthUser) | Deny(status: int, error: string)

  /** The gate as a function of the header and of the verifier. */
  function Gate(authorization: Option<string>, verify: string -> Verification): (g: Outcome)
    ensures g.Deny? ==> g.status == 401
    ensures BearerToken(authorization).None? ==> g == Deny(401, NoTokenProvided)
    ensures BearerToken(authorization).Some? && verify(BearerToken(authorization).value).Thrown? ==>
            g == Deny(401, CatchMessage(verify(BearerToken(authorization).value).error))
    ensures (BearerToken(authorization).Some? && verify(BearerToken(authorization).value).Decoded? &&
             !IsValidJwtPayload(verify(BearerToken(authorization).value).payload)) ==>
            g == Deny(401, InvalidTokenPayload)
    ensures g.Proceed? <==>
            && BearerToken(authorization).Some?
            && verify(BearerToken(authorization).value).Decoded?
            && IsValidJwtPayload(verify(BearerToken(authorization).value).payload)
    ensures g.Proceed? ==>
            var p := verify(BearerToken(authorization).value).payload;
            g.user == AuthUser(p.fields["userId"].n, p.fields["email"].s)
  {
    match BearerToken(authorization)
    case None => Deny(401, NoTokenProvided)
    case Some(token) =>
      match verify(token)
      case Thrown(e) => Deny(401, CatchMessage(e))
      case Decoded(p) =>
        if !IsValidJwtPayload(p) then Deny(401, InvalidTokenPayload)
        else Proceed(AuthUser(Property(p, "userId").n, Property(p, "email").s))
  }

  /** For a header `"Bearer " + t`, the gate's answer depends on the verifier only through `t`. */
  lemma TokenPassedVerbatim(t: string, v1: string -> Verification, v2: string -> Verification)
    requires v1(t) == v2(t)
    ensures Gate(Some(BearerPrefix + t), v1) == Gate(Some(BearerPrefix + t), v2)
  {
  }

  /** The scheme is matched case-sensitively: a lower-case "bearer " header carries no token. */
  lemma SchemeIsCaseSensitive(t: string, verify: string -> Verification)
    ensures Gate(Some("bearer " + t), verify) == Deny(401, NoTokenProvided)
  {
  }

  /**
   * A token whose verification yields the claims `{ userId, email }` (with any
   * further claims, such as issued-at and expiry) lets the request through
   * with exactly that identity.
   */
  lemma SignedClaimsAdmitted(
    userId: int, email: string, extra: map<string, Value>, t: string, verify: string -> Verification)
    requires verify(t) == Decoded(Obj(extra["userId" := Num(userId)]["email" := Str(email)]))
    ensures Gate(Some(BearerPrefix + t), verify) == Proceed(AuthUser(userId, email))
  {
  }

  /**
   * An expired token is reported as "Invalid token": the JsonWebTokenError
   * test comes first and also matches its subclass TokenExpiredError.
   */
  lemma ExpiredTokenReportedInvalid(t: string, verify: string -> Verification)
    requires verify(t) == Thrown(TokenExpiredError)
    ensures Gate(Some(BearerPrefix + t), verify) == Deny(401, InvalidToken)
  {
  }

  /** The "Token expired" branch is dead: no header and no verifier produce that message. */
  lemma TokenExpiredNeverReported(authorization: Option<string>, verify: string -> Verification)
    ensures Gate(authorization, verify) != Deny(401, TokenExpired)
  {
  }

  /** The request, response and `next` of one call of the middleware. */
  class Exchange {
    /** `req.headers.authorization` */
    const authorization: Option<string>
    /** `req.user` */
    var user: Option<AuthUser>
    /** The status written with `res.status`, if any. */
    var status: Option<int>
    /** The `error` field of the JSON body written with `res.json`, if any. */
    var error: Option<string>
    /** How many times `next()` has been called. */
    var nextCalls: nat

    constructor (authorization: Option<string>)
      ensures this.authorization == authorization
      ensures user == None && status == None && error == None && nextCalls == 0
    {
      this.authorization := authorization;
      user := None;
      status := None;
      error := None;
      nextCalls := 0;
    }
  }

  /** The middleware: either `req.user` is set and `next` called once, or a 401 is written. */
  method Authenticate(x: Exchange, verify: string -> Verification)
    modifies x
    ensures match Gate(x.authorization, verify)
            case Proceed(u) =>
              && x.user == Some(u) && x.nextCalls == old(x.nextCalls) + 1
              && x.status == old(x.status) && x.error == old(x.error)
            case Deny(s, m) =>
              && x.status == Some(s) && x.error == Some(m)
              && x.user == old(x.user) && x.nextCalls == old(x.nextCalls)
  {
    var authHeader := x.authorization;
    if authHeader.None? || authHeader.value == "" || !StartsWith(authHeader.value, BearerPrefix) {
      x.status, x.error := Some(401), Some(NoTokenProvided);
      return;
    }
    var token := authHeader.value[7..];
    var decoded := verify(token);
    match decoded {
      case Thrown(e) =>
        if IsJsonWebTokenError(e) {
          x.status, x.error := Some(401), Some(InvalidToken);
        } else if IsTokenExpiredError(e) {
          x.status, x.error := Some(401), Some(TokenExpired);
        } else {
          x.status, x.error := Some(401), Some(InvalidOrExpired);
        }
      case Decoded(p) =>
        if !IsValidJwtPayload(p) {
          x.status, x.error := Some(401), Some(InvalidTokenPayload);
          return;
        }
        x.user := Some(AuthUser(Property(p, "userId").n, Property(p, "email").s));
        x.nextCalls := x.nextCalls + 1;
    }
  }
}
