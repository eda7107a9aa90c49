/** The request gates of server/src/middleware/auth.ts: turning an
    `Authorization` header into a verified identity (or a 401/403), and the
    role allow-list. Token verification is an oracle: it yields the decoded
    payload, or nothing when the signature, the expiry or the format fails. */
module AuthMiddleware {
  import opened Js
  import opened ServerModel

  /** `authHeader && authHeader.split(' ')[1]`, with `undefined` as `None`.
      An empty header is falsy, so `&&` yields the empty string itself. */
  function ExtractToken(header: Option<string>): (token: Option<string>)
  {
    match header
    case None => None
    case Some(h) =>
      if h == "" then Some("")
      else
        var words := Split(h, ' ');
        if |words| >= 2 then Some(words[1]) else None
  }

  /** A header with no space at all carries no token. */
  lemma NoSpaceNoToken(h: string)
    requires h != "" && ' ' !in h
    ensures ExtractToken(Some(h)) == None
  {
    SplitNoSeparator(h, ' ');
  }

  /** The token is the second space-separated word, whatever the first word
      is: the scheme is never checked. */
  lemma SecondWordIsToken(scheme: string, token: string, rest: string)
    requires ' ' !in scheme && ' ' !in token
    requires rest == "" || rest[0] == ' '
    ensures ExtractToken(Some(scheme + " " + token + rest)) == Some(token)
  {
    var h := scheme + " " + token + rest;
    assert h == scheme + [' '] + (token + rest);
    SplitAtSeparator(scheme, ' ', token + rest);
    if rest == "" {
      assert token + rest == token;
      SplitNoSeparator(token, ' ');
    } else {
      assert token + rest == token + [' '] + rest[1..];
      SplitAtSeparator(token, ' ', rest[1..]);
    }
  }

  /** The header the client builds, `Bearer ${token}`, gives back exactly
      the token when the token has no space. */
  lemma BearerRoundTrip(token: string)
    requires ' ' !in token
    ensures ExtractToken(Some("Bearer " + token)) == Some(token)
  {
    assert "Bearer " + token == "Bearer" + " " + token + "";
    SecondWordIsToken("Bearer", token, "");
  }

  /** What the gate does with a request. */
  datatype AuthOutcome = Unauthorized | Forbidden | Authenticated(user: Claims)
  {
    function StatusCode(): int {
      match this
      case Unauthorized => 401
      case Forbidden => 403
      case Authenticated(_) => 200
    }
  }

  /** `authenticateToken`: no token is a 401, a token the verifier refuses
      is a 403, and otherwise the decoded payload becomes the identity. */
  function Authenticate(header: Option<string>, verify: string -> Option<Claims>): (outcome: AuthOutcome)
    ensures outcome == Unauthorized <==> ExtractToken(header) == None
    ensures outcome == Forbidden <==> ExtractToken(header).Some? && verify(ExtractToken(header).value) == None
    ensures outcome.Authenticated? ==>
      ExtractToken(header).Some? && verify(ExtractToken(header).value) == Some(outcome.user)
  {
    match ExtractToken(header)
    case None => Unauthorized
    case Some(token) =>
      match verify(token)
      case None => Forbidden
      case Some(payload) => Authenticated(payload)
  }

  /** No header at all is a 401 and never reaches the verifier. */
  lemma MissingHeaderIs401(verify: string -> Option<Claims>)
    ensures Authenticate(None, verify) == Unauthorized
  {
  }

  /** An empty header is falsy but not `null`: the empty string goes to the
      verifier, so it is answered like a bad token, not like a missing one. */
  lemma EmptyHeaderGoesToVerifier(verify: string -> Option<Claims>)
    requires verify("") == None
    ensures Authenticate(Some(""), verify) == Forbidden
  {
  }

  /** A request carrying `Bearer <t>` is authenticated exactly when the
      verifier accepts `t`, with the payload it returns. */
  lemma BearerAuthenticates(token: string, verify: string -> Option<Claims>)
    requires ' ' !in token
    ensures Authenticate(Some("Bearer " + token), verify) ==
      if verify(token).Some? then Authenticated(verify(token).value) else Forbidden
  {
    BearerRoundTrip(token);
  }

  /** The request and response as the gate sees them: `req.user`, the status
      sent (if any) and how many times `next` was called. */
  class Exchange {
    var user: Option<Claims>
    var sentStatus: Option<int>
    var nextCalls: nat

    constructor ()
      ensures user == None && sentStatus == None && nextCalls == 0
    {
      user, sentStatus, nextCalls := None, None, 0;
    }
  }

  /** `authenticateToken` as a step on the exchange. */
  method AuthenticateToken(ex: Exchange, header: Option<string>, verify: string -> Option<Claims>)
    modifies ex
    ensures Authenticate(header, verify).Authenticated? ==>
      ex.user == Some(Authenticate(header, verify).user) &&
      ex.nextCalls == old(ex.nextCalls) + 1 && ex.sentStatus == old(ex.sentStatus)
    ensures !Authenticate(header, verify).Authenticated? ==>
      ex.user == old(ex.user) && ex.nextCalls == old(ex.nextCalls) &&
      ex.sentStatus == Some(Authenticate(header, verify).StatusCode())
  {
    var token := ExtractToken(header);
    if token == None {
      ex.sentStatus := Some(401);
      return;
    }
    var decoded := verify(token.value);
    if decoded == None {
      ex.sentStatus := Some(403);
      return;
    }
    ex.user := decoded;
    ex.nextCalls := ex.nextCalls + 1;
  }

  /** What `authorizeRole(allowedRoles)` does with a request. */
  datatype RoleOutcome = Refused | PassThrough
  {
    function StatusCode(): int {
      if Refused? then 403 else 200
    }
  }

  const InsufficientRoleMessage := "Forbidden: Insufficient role permissions"

  /** `authorizeRole`: a request passes iff it carries an identity whose role
      is allowed; a request without an identity is refused, not an error. */
  function AuthorizeRole(allowedRoles: seq<string>, user: Option<Claims>): (outcome: RoleOutcome)
    ensures outcome == PassThrough <==> user.Some? && user.value.role in allowedRoles
    ensures user == None ==> outcome == Refused
  {
    if user == None || user.value.role !in allowedRoles then Refused else PassThrough
  }

  /** Allowing more roles never turns a pass into a refusal. */
  lemma AuthorizeRoleMonotonic(allowed: seq<string>, more: seq<string>, user: Option<Claims>)
    requires forall r :: r in allowed ==> r in more
    requires AuthorizeRole(allowed, user) == PassThrough
    ensures AuthorizeRole(more, user) == PassThrough
  {
  }

  /** The admin-only gate: a member is refused and an admin passes. */
  lemma AdminOnly(user: Claims)
    ensures AuthorizeRole([AdminRole], Some(user)) == PassThrough <==> user.role == AdminRole
  {
  }
}
