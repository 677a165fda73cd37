/**
 * The bearer-token gate in front of the protected routes
 * (`ecommerce-backend/middleware/authMiddleware.js`). It sees only the
 * `Authorization` header and the token service; this module does not import
 * the backend, so the gate cannot read or change the user or order stores.
 */
module AuthMiddleware {
  import opened Wrappers
  import opened Strings
  import Crypto

  /** What the gate does, in order: hand over to the route handler, or send a response. */
  datatype Event = CallNext | Send(status: nat, message: string)

  const NoToken := Send(401, "Not authorized, no token")
  const TokenFailed := Send(401, "Not authorized, token failed")

  /** `req.headers.authorization && req.headers.authorization.startsWith('Bearer')`. */
  predicate HasBearerPrefix(authorization: Option<string>)
  {
    Truthy(authorization) && StartsWith(authorization.value, "Bearer")
  }

  /** `authorization.split(' ')[1]`: the second space-separated field, or `undefined`. */
  function ExtractToken(header: string): (token: Option<string>)
    ensures token.Some? ==> ' ' !in token.value
    ensures token.None? <==> ' ' !in header
  {
    Field(header, ' ', 1)
  }

  /** `jwt.verify(token, secret)`; it throws for a missing token as for a bad one. */
  function VerifyToken(token: Option<string>): (id: Option<nat>)
    ensures id.Some? ==> Truthy(token)
  {
    if token.None? then None else Crypto.Verify(token.value)
  }

  /** The id the gate lets a request through as: a `Bearer` header whose token verifies. */
  function AuthorisedUser(authorization: Option<string>): (id: Option<nat>)
    ensures id.Some? ==> HasBearerPrefix(authorization) && Truthy(ExtractToken(authorization.value))
  {
    if HasBearerPrefix(authorization) then VerifyToken(ExtractToken(authorization.value)) else None
  }

  /**
   * `protect(req, res, next)`: returns what it emits and the value it assigns to
   * `req.user` (`None` when it assigns nothing). A missing or non-`Bearer` header
   * sends one "no token" 401. A token that verifies sets the user and calls `next`
   * once, with no 401. A token that fails sends "token failed", and when the token
   * is `undefined` or empty it then also calls the send of "no token", since it is
   * still falsy (Express refuses that second response, so only the first reaches the client).
   */
  method Protect(authorization: Option<string>) returns (emitted: seq<Event>, user: Option<int>)
    ensures !HasBearerPrefix(authorization) ==> emitted == [NoToken] && user == None
    ensures user.Some? <==> AuthorisedUser(authorization).Some?
    ensures user.Some? ==> user.value == AuthorisedUser(authorization).value && emitted == [CallNext]
    ensures CallNext in emitted ==> user.Some?
    ensures HasBearerPrefix(authorization) && user.None? ==>
      if Truthy(ExtractToken(authorization.value)) then emitted == [TokenFailed]
      else emitted == [TokenFailed, NoToken]
  {
    var token: Option<string> := None;
    emitted, user := [], None;
    if Truthy(authorization) && StartsWith(authorization.value, "Bearer") {
      token := ExtractToken(authorization.value);
      var decoded := VerifyToken(token);
      if decoded.Some? {
        user := Some(decoded.value);
        emitted := emitted + [CallNext];
      } else {
        emitted := emitted + [TokenFailed];
      }
    }
    if !Truthy(token) {
      emitted := emitted + [NoToken];
    }
  }

  /** For a header built from space-free fields, the extracted token is the second field. */
  lemma ExtractTokenIsSecondField(fields: seq<string>)
    requires |fields| >= 1
    requires forall k :: 0 <= k < |fields| ==> ' ' !in fields[k]
    ensures ExtractToken(Join(fields, ' ')) == if |fields| > 1 then Some(fields[1]) else None
  {
    SplitJoin(fields, ' ');
  }

  /** The prefix test has no space and is case-sensitive: `BearerX y` passes with token `y`, `bearer y` fails. */
  lemma BearerPrefixIsLiteral()
    ensures HasBearerPrefix(Some("BearerX y")) && ExtractToken("BearerX y") == Some("y")
    ensures !HasBearerPrefix(Some("bearer y"))
  {
    assert "BearerX y"[..6] == "Bearer";
    assert Join(["BearerX", "y"], ' ') == "BearerX y";
    ExtractTokenIsSecondField(["BearerX", "y"]);
  }

  /** `Bearer` has no second field and `Bearer ` an empty one: both are falsy and fail to verify. */
  lemma BareSchemeGivesNoToken()
    ensures HasBearerPrefix(Some("Bearer")) && ExtractToken("Bearer") == None
    ensures HasBearerPrefix(Some("Bearer ")) && ExtractToken("Bearer ") == Some("")
    ensures VerifyToken(ExtractToken("Bearer")) == None && VerifyToken(ExtractToken("Bearer ")) == None
  {
    assert "Bearer"[..6] == "Bearer";
    assert "Bearer "[..6] == "Bearer";
    assert Join(["Bearer"], ' ') == "Bearer";
    ExtractTokenIsSecondField(["Bearer"]);
    assert Join(["Bearer", ""], ' ') == "Bearer ";
    ExtractTokenIsSecondField(["Bearer", ""]);
  }

  /** The header a client builds from a signed token gets through with that token's id. */
  lemma SignedTokenAuthorises(id: nat)
    ensures HasBearerPrefix(Some("Bearer " + Crypto.Sign(id)))
    ensures ExtractToken("Bearer " + Crypto.Sign(id)) == Some(Crypto.Sign(id))
    ensures VerifyToken(ExtractToken("Bearer " + Crypto.Sign(id))) == Some(id)
  {
    var token := Crypto.Sign(id);
    StartsWithConcat("Bearer", " " + token);
    assert "Bearer " + token == "Bearer" + (" " + token);
    assert Join(["Bearer", token], ' ') == "Bearer " + token;
    ExtractTokenIsSecondField(["Bearer", token]);
    Crypto.VerifySign(id);
  }

  /** Whatever the header, the gate lets a request through only as the id of a token the service signed. */
  lemma OnlySignedTokensAuthorise(header: string)
    ensures VerifyToken(ExtractToken(header)).Some? ==>
      ExtractToken(header) == Some(Crypto.Sign(VerifyToken(ExtractToken(header)).value))
  {
    if ExtractToken(header).Some? {
      Crypto.VerifyOnlySigned(ExtractToken(header).value);
    }
  }
}
