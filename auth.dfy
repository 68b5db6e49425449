/**
 * The authentication middleware: bearer-header parsing, token verification that records
 * the caller's identity on the request, and the role gate.
 * Token signing and verification are parameters (`Jwt`); `SoundJwt` states what is
 * assumed of them.
 */
module Auth {
  import opened Wrappers
  import opened Text
  import opened Http

  /** The identity a token carries (`UserPayload`). */
  datatype Claims = Claims(id: string, username: string, role: string)

  /** `jwt.sign` and `jwt.verify` under the configured secret. */
  datatype Jwt = Jwt(sign: Claims -> string, verify: string -> Option<Claims>)

  /**
   * What the model assumes of the token library: a signed token verifies to the claims it
   * was signed with, and (compact serialisation) contains no space.
   */
  ghost predicate SoundJwt(jwt: Jwt) {
    forall c: Claims :: jwt.verify(jwt.sign(c)) == Some(c) && ' ' !in jwt.sign(c)
  }

  const BearerPrefix: string := "Bearer "

  const NoToken: Response := Response(401, Error("Access denied. No token provided."))
  const InvalidToken: Response := Response(401, Error("Invalid token."))
  const NotAuthenticated: Response := Response(401, Error("Not authenticated"))
  const Forbidden: Response := Response(403, Error("Access forbidden"))

  /**
   * The token of an `Authorization` header: `None` when the header is absent or does not
   * start with "Bearer " (case-sensitive); otherwise the second field of the header split
   * on spaces, i.e. the text after the prefix up to the next space.
   */
  function BearerToken(authorization: Option<string>): (token: Option<string>)
    ensures token.Some? <==> authorization.Some? && StartsWith(authorization.value, BearerPrefix)
    ensures token.Some? ==>
      var rest := authorization.value[|BearerPrefix|..];
      && ' ' !in token.value
      && (rest == token.value || StartsWith(rest, token.value + " "))
  {
    if authorization.None? || !StartsWith(authorization.value, BearerPrefix) then None
    else
      var header := authorization.value;
      var rest := header[|BearerPrefix|..];
      assert header == "Bearer" + [' '] + rest;
      SplitAfterField("Bearer", ' ', rest);
      var fields := Split(header, ' ');
      var token := fields[1];
      assert token == Split(rest, ' ')[0];
      assert rest == token || StartsWith(rest, token + " ") by {
        JoinSplit(rest, ' ');
        var parts := Split(rest, ' ');
        if |parts| > 1 {
          assert rest == token + " " + Join(parts[1..], ' ');
        }
      }
      Some(token)
  }

  /** The header "Bearer <t>" for a token without spaces yields exactly `t`. */
  lemma BearerHeaderToken(t: string)
    requires ' ' !in t
    ensures BearerToken(Some(BearerPrefix + t)) == Some(t)
  {
    var header := BearerPrefix + t;
    assert header == "Bearer" + [' '] + t;
    assert StartsWith(header, BearerPrefix);
    SplitAfterField("Bearer", ' ', t);
    SplitWithoutSeparator(t, ' ');
  }

  /** The outcome of `authenticate`: admit with the decoded identity, or answer 401. */
  datatype AuthStep = Admit(user: Claims) | Deny(response: Response)

  /** What `authenticate` decides for a header. */
  function Authentication(authorization: Option<string>, jwt: Jwt): (r: AuthStep)
    ensures r.Admit? <==> BearerToken(authorization).Some? && jwt.verify(BearerToken(authorization).value).Some?
    ensures r.Admit? ==> jwt.verify(BearerToken(authorization).value) == Some(r.user)
    ensures r.Deny? ==> r.response == (if BearerToken(authorization).None? then NoToken else InvalidToken)
  {
    match BearerToken(authorization)
    case None => Deny(NoToken)
    case Some(token) =>
      match jwt.verify(token)
      case None => Deny(InvalidToken)
      case Some(claims) => Admit(claims)
  }

  /** A header carrying a token the service signed admits the identity signed into it. */
  lemma SignedTokenAdmits(jwt: Jwt, c: Claims)
    requires SoundJwt(jwt)
    ensures Authentication(Some(BearerPrefix + jwt.sign(c)), jwt) == Admit(c)
  {
    BearerHeaderToken(jwt.sign(c));
  }

  /** The part of an Express request the middleware reads and writes. */
  class HttpRequest {
    const authorization: Option<string>
    var user: Option<Claims>

    constructor (authorization: Option<string>)
      ensures this.authorization == authorization && user == None
    {
      this.authorization := authorization;
      user := None;
    }
  }

  /**
   * `authenticate`: on success records the decoded identity in `req.user` and passes the
   * request on (`None`); otherwise answers 401 and leaves the request as it was.
   */
  method Authenticate(req: HttpRequest, jwt: Jwt) returns (halt: Option<Response>)
    modifies req`user
    ensures match Authentication(req.authorization, jwt)
      case Admit(c) => halt == None && req.user == Some(c)
      case Deny(r) => halt == Some(r) && req.user == old(req.user)
  {
    var authHeader := req.authorization;
    if authHeader.None? || !StartsWith(authHeader.value, BearerPrefix) {
      return Some(NoToken);
    }
    var token := BearerToken(authHeader).value;
    var decoded := jwt.verify(token);
    if decoded.None? {
      return Some(InvalidToken);
    }
    req.user := decoded;
    halt := None;
  }

  /**
   * `authorize(roles)`: 401 when no identity was recorded, 403 when its role is not
   * listed, otherwise pass on (`None`).
   */
  function Authorization(roles: seq<string>, user: Option<Claims>): (halt: Option<Response>)
    ensures halt.None? <==> user.Some? && user.value.role in roles
    ensures user.None? ==> halt == Some(NotAuthenticated)
    ensures user.Some? && user.value.role !in roles ==> halt == Some(Forbidden)
  {
    if user.None? then Some(NotAuthenticated)
    else if user.value.role !in roles then Some(Forbidden)
    else None
  }
}
