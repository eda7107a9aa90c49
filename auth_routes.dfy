/** server/src/routes/auth.ts: the stored-credential format and the
    register, login, logout and `/me` handlers.

    The key derivation (PBKDF2 with SHA-512, 1000 iterations, 64 bytes) is a
    function parameter `Kdf` from the password and the salt TEXT (the hex
    string is what both helpers pass as salt) to 64 bytes; the 16 random salt
    bytes are a parameter too. Token signing is a parameter `sign`. */
module AuthRoutes {
  import opened Js
  import opened ServerModel

  type Byte = x: int | 0 <= x < 256
  type SaltBytes = s: seq<Byte> | |s| == 16 witness seq(16, i => 0)
  type Digest = d: seq<Byte> | |d| == 64 witness seq(64, i => 0)
  type Kdf = (string, string) -> Digest

  const HexDigits := "0123456789abcdef"

  predicate IsHexDigit(c: char) {
    c in HexDigits
  }

  /** `Buffer.toString('hex')`: two lower-case hex digits per byte. */
  function ToHex(bytes: seq<Byte>): (hex: string)
    ensures |hex| == 2 * |bytes|
    ensures forall i | 0 <= i < |hex| :: IsHexDigit(hex[i])
    ensures ':' !in hex
  {
    if bytes == [] then ""
    else [HexDigits[bytes[0] / 16], HexDigits[bytes[0] % 16]] + ToHex(bytes[1..])
  }

  /** Hex encoding loses nothing: equal encodings come from equal bytes. */
  lemma {:induction false} ToHexInjective(a: seq<Byte>, b: seq<Byte>)
    requires ToHex(a) == ToHex(b)
    ensures a == b
  {
    if a != [] {
      assert |b| == |a|;
      ToHexHead(a);
      ToHexHead(b);
      HexDigitsDistinct(a[0] / 16, b[0] / 16);
      HexDigitsDistinct(a[0] % 16, b[0] % 16);
      ByteOfDigits(a[0], b[0]);
      ToHexInjective(a[1..], b[1..]);
      assert a == [a[0]] + a[1..] && b == [b[0]] + b[1..];
    }
  }

  /** The first two digits encode the first byte; the rest encode the rest. */
  lemma ToHexHead(x: seq<Byte>)
    requires x != []
    ensures ToHex(x)[0] == HexDigits[x[0] / 16] && ToHex(x)[1] == HexDigits[x[0] % 16]
    ensures ToHex(x)[2..] == ToHex(x[1..])
  {
  }

  /** A byte is determined by its two hex digits. */
  lemma ByteOfDigits(x: Byte, y: Byte)
    requires x / 16 == y / 16 && x % 16 == y % 16
    ensures x == y
  {
  }

  lemma HexDigitsDistinct(i: nat, j: nat)
    requires i < 16 && j < 16 && HexDigits[i] == HexDigits[j]
    ensures i == j
  {
  }

  /** `hashPassword`: the hex salt, a colon, and the hex digest. */
  function HashPassword(password: string, salt: SaltBytes, kdf: Kdf): (stored: string)
    ensures |stored| == 32 + 1 + 128
    ensures stored[32] == ':'
    ensures forall i | 0 <= i < |stored| && i != 32 :: IsHexDigit(stored[i])
    ensures stored != password || |password| == 161
  {
    var saltHex := ToHex(salt);
    saltHex + ":" + ToHex(kdf(password, saltHex))
  }

  /** `verifyPassword`: split at ':' and compare the second piece with the
      digest of the candidate under the first piece. A stored value without
      ':' has no second piece (`undefined`), which never equals a digest. */
  function VerifyPassword(stored: string, supplied: string, kdf: Kdf): bool
  {
    var pieces := Split(stored, ':');
    |pieces| >= 2 && pieces[1] == ToHex(kdf(supplied, pieces[0]))
  }

  /** For a value in the stored format `salt:hash` (neither half holding
      ':'), verification succeeds exactly when the candidate's digest under
      that salt has the hash as its hex text. */
  lemma VerifyStoredFormat(salt: string, hash: string, supplied: string, kdf: Kdf)
    requires ':' !in salt && ':' !in hash
    ensures VerifyPassword(salt + ":" + hash, supplied, kdf) <==> hash == ToHex(kdf(supplied, salt))
  {
    assert salt + ":" + hash == salt + [':'] + hash;
    SplitAtSeparator(salt, ':', hash);
    SplitNoSeparator(hash, ':');
  }

  /** A password verifies against its own stored hash. */
  lemma HashThenVerify(password: string, salt: SaltBytes, kdf: Kdf)
    ensures VerifyPassword(HashPassword(password, salt, kdf), password, kdf)
  {
    var saltHex := ToHex(salt);
    VerifyStoredFormat(saltHex, ToHex(kdf(password, saltHex)), password, kdf);
  }

  /** Another password verifies against the stored hash exactly when the key
      derivation gives it the same digest under that salt. */
  lemma OtherPasswordVerifies(password: string, other: string, salt: SaltBytes, kdf: Kdf)
    ensures VerifyPassword(HashPassword(password, salt, kdf), other, kdf) <==>
      kdf(other, ToHex(salt)) == kdf(password, ToHex(salt))
  {
    var saltHex := ToHex(salt);
    VerifyStoredFormat(saltHex, ToHex(kdf(password, saltHex)), other, kdf);
    if ToHex(kdf(password, saltHex)) == ToHex(kdf(other, saltHex)) {
      ToHexInjective(kdf(password, saltHex), kdf(other, saltHex));
    }
  }

  /** Hashing the same password with two different salts gives two
      different stored values. */
  lemma DistinctSaltsDistinctHashes(password: string, s1: SaltBytes, s2: SaltBytes, kdf: Kdf)
    requires s1 != s2
    ensures HashPassword(password, s1, kdf) != HashPassword(password, s2, kdf)
  {
    var h1, h2 := HashPassword(password, s1, kdf), HashPassword(password, s2, kdf);
    if h1 == h2 {
      assert h1[..32] == ToHex(s1) && h2[..32] == ToHex(s2);
      ToHexInjective(s1, s2);
    }
  }

  // ---- handlers ----

  datatype RegisterBody = RegisterBody(name: Option<string>, email: Option<string>, password: Option<string>)
  datatype LoginBody = LoginBody(email: Option<string>, password: Option<string>)

  /** The user as register answers it: no credential. */
  datatype RegisteredUser = RegisteredUser(id: string, name: string, email: string, role: string)
  /** The user as login and `/me` answer it: no credential. */
  datatype UserProfile = UserProfile(id: string, name: string, email: string, role: string, avatarUrl: Option<string>)
  /** What `jwt.sign(payload, secret, { expiresIn: '1h' })` signs. */
  datatype SignedClaims = SignedClaims(userId: string, email: string, role: string, iat: int, exp: int)
  datatype LoginAnswer = LoginAnswer(token: string, user: UserProfile)

  const TokenLifetimeSeconds := 3600
  const InvalidCredentials := "Invalid credentials"

  function Profile(u: UserRow): UserProfile {
    UserProfile(u.id, u.name, u.email, u.role, u.avatarUrl)
  }

  /** POST /register: 400 when a field is missing, 409 when the email is
      taken, otherwise one new user (default role member, the stored
      credential never the plaintext) and a 201 with id, name, email and
      role. The id and the timestamps come from the database. */
  method Register(db: Tables, body: RegisterBody, salt: SaltBytes, kdf: Kdf, newId: string, now: int)
    returns (reply: Reply<RegisteredUser>)
    modifies db`users
    ensures Blank(body.name) || Blank(body.email) || Blank(body.password) ==>
      reply == Message(400, "Name, email, and password are required") && db.users == old(db.users)
    ensures !(Blank(body.name) || Blank(body.email) || Blank(body.password)) ==>
      var email := body.email.value;
      if exists u | u in old(db.users) :: u.email == email then
        reply == Message(409, "Email already in use") && db.users == old(db.users)
      else
        var passwordHash := HashPassword(body.password.value, salt, kdf);
        db.users == old(db.users) + [UserRow(newId, body.name.value, email, passwordHash, MemberRole, None, now, now)] &&
        reply == Payload(201, RegisteredUser(newId, body.name.value, email, MemberRole))
  {
    if Blank(body.name) || Blank(body.email) || Blank(body.password) {
      return Message(400, "Name, email, and password are required");
    }
    var existing := FindFirst(db.users, UserEmail, body.email.value);
    if existing.Some? {
      return Message(409, "Email already in use");
    }
    var passwordHash := HashPassword(body.password.value, salt, kdf);
    var row := UserRow(newId, body.name.value, body.email.value, passwordHash, MemberRole, None, now, now);
    db.users := db.users + [row];
    reply := Payload(201, RegisteredUser(row.id, row.name, row.email, row.role));
  }

  /** POST /login. `nowSeconds` is the signing time. */
  function Login(users: seq<UserRow>, body: LoginBody, kdf: Kdf, sign: SignedClaims -> string, nowSeconds: int)
    : (reply: Reply<LoginAnswer>)
    ensures reply.StatusCode() == 400 <==> Blank(body.email) || Blank(body.password)
    ensures reply.StatusCode() == 401 ==> reply == Message(401, InvalidCredentials)
    ensures reply.Payload? ==> (
      reply.code == 200 && !Blank(body.email) &&
      var u := FindFirst(users, UserEmail, body.email.value);
      u.Some? && VerifyPassword(u.value.passwordHash, body.password.value, kdf) &&
      reply.value == LoginAnswer(
        sign(SignedClaims(u.value.id, u.value.email, u.value.role, nowSeconds, nowSeconds + TokenLifetimeSeconds)),
        Profile(u.value)))
    ensures !Blank(body.email) && !Blank(body.password) ==>
      var u := FindFirst(users, UserEmail, body.email.value);
      (u.Some? && VerifyPassword(u.value.passwordHash, body.password.value, kdf) <==> reply.Payload?) &&
      (u.None? || !VerifyPassword(u.value.passwordHash, body.password.value, kdf) <==>
        reply == Message(401, InvalidCredentials))
  {
    if Blank(body.email) || Blank(body.password) then
      Message(400, "Email and password are required")
    else
      match FindFirst(users, UserEmail, body.email.value)
      case None => Message(401, InvalidCredentials)
      case Some(u) =>
        if !VerifyPassword(u.passwordHash, body.password.value, kdf) then Message(401, InvalidCredentials)
        else
          var claims := SignedClaims(u.id, u.email, u.role, nowSeconds, nowSeconds + TokenLifetimeSeconds);
          Payload(200, LoginAnswer(sign(claims), Profile(u)))
  }

  /** An unknown email and a wrong password get the same answer, so the
      reply does not tell which accounts exist. */
  lemma LoginDoesNotRevealAccounts(users: seq<UserRow>, unknown: string, known: string, p1: string, p2: string,
                                   kdf: Kdf, sign: SignedClaims -> string, now: int)
    requires unknown != "" && known != "" && p1 != "" && p2 != ""
    requires forall u | u in users :: u.email != unknown
    requires FindFirst(users, UserEmail, known).Some? && !VerifyPassword(FindFirst(users, UserEmail, known).value.passwordHash, p2, kdf)
    ensures Login(users, LoginBody(Some(unknown), Some(p1)), kdf, sign, now) ==
            Login(users, LoginBody(Some(known), Some(p2)), kdf, sign, now) == Message(401, InvalidCredentials)
  {
  }

  /** Registering and then logging in with the same password succeeds when
      no user had that email before, and the token names the new user. */
  lemma RegisterThenLogin(users: seq<UserRow>, name: string, email: string, password: string,
                          salt: SaltBytes, kdf: Kdf, newId: string, created: int,
                          sign: SignedClaims -> string, now: int)
    requires name != "" && email != "" && password != ""
    requires forall u | u in users :: u.email != email
    ensures
      var row := UserRow(newId, name, email, HashPassword(password, salt, kdf), MemberRole, None, created, created);
      Login(users + [row], LoginBody(Some(email), Some(password)), kdf, sign, now) ==
        Payload(200, LoginAnswer(sign(SignedClaims(newId, email, MemberRole, now, now + TokenLifetimeSeconds)), Profile(row)))
  {
    var row := UserRow(newId, name, email, HashPassword(password, salt, kdf), MemberRole, None, created, created);
    FindAfterAppend(users, row);
    HashThenVerify(password, salt, kdf);
  }

  lemma {:induction false} FindAfterAppend(users: seq<UserRow>, row: UserRow)
    requires forall u | u in users :: u.email != row.email
    ensures FindFirst(users + [row], UserEmail, row.email) == Some(row)
  {
    if users == [] {
      assert users + [row] == [row];
    } else {
      assert (users + [row])[1..] == users[1..] + [row];
      FindAfterAppend(users[1..], row);
    }
  }

  /** POST /logout only acknowledges; the client drops the token. */
  function Logout(): (reply: Reply<()>)
    ensures reply == Message(200, "Logout successful (client should clear token)")
  {
    Message(200, "Logout successful (client should clear token)")
  }

  /** GET /me, after the token gate: the caller's current profile from the
      table, or 401 when the token names a user that no longer exists. */
  function Me(users: seq<UserRow>, user: Option<Claims>): (reply: Reply<UserProfile>)
    ensures user == None ==> reply == Message(401, "Not authenticated")
    ensures user.Some? && (forall u | u in users :: u.id != user.value.userId) ==>
      reply == Message(401, "Invalid token: User not found")
    ensures reply.Payload? ==> (
      reply.code == 200 && user.Some? &&
      exists u | u in users :: u.id == user.value.userId && reply.value == Profile(u))
    ensures user.Some? && FindFirst(users, UserId, user.value.userId).Some? ==>
      reply == Payload(200, Profile(FindFirst(users, UserId, user.value.userId).value))
  {
    if user == None then Message(401, "Not authenticated")
    else
      match FindFirst(users, UserId, user.value.userId)
      case None => Message(401, "Invalid token: User not found")
      case Some(u) => Payload(200, Profile(u))
  }
}
