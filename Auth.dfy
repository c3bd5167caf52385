/** The authentication handler: salted password hashing and a register/login
    dispatcher over the `users` table, keyed by email. */
module Auth {
  import opened Http
  import opened Strings

  // ---------------------------------------------------------------------------
  // Password hashing: "salt$digest"
  // ---------------------------------------------------------------------------

  /** `secrets.token_hex(16)`: sixteen random bytes, two hex digits each. */
  const SaltLength: nat := 32
  /** Length of a SHA-256 `hexdigest()`. */
  const DigestLength: nat := 64

  predicate IsHexDigit(c: char)
  {
    '0' <= c <= '9' || 'a' <= c <= 'f'
  }

  predicate IsHex(s: string)
  {
    forall c :: c in s ==> IsHexDigit(c)
  }

  predicate IsSalt(salt: string)
  {
    |salt| == SaltLength && IsHex(salt)
  }

  /** What the model assumes of SHA-256: a deterministic function whose
      `hexdigest()` is always 64 lower-case hex digits. */
  ghost predicate IsHexDigestFunction(sha256: string -> string)
  {
    forall m :: |sha256(m)| == DigestLength && IsHex(sha256(m))
  }

  /** A stored hash that `verify_password` can unpack into exactly two parts. */
  predicate WellFormedHash(stored: string)
  {
    |Split(stored, '$')| == 2
  }

  /** `hash_password`, with the random salt passed in. When neither the salt
      nor the digest holds a `$`, splitting at `$` gives the two parts back. */
  function HashPassword(sha256: string -> string, password: string, salt: string): (stored: string)
    ensures '$' !in salt && '$' !in sha256(password + salt) ==>
      Split(stored, '$') == [salt, sha256(password + salt)]
  {
    var digest := sha256(password + salt);
    assert '$' !in salt && '$' !in digest ==> Split(salt + "$" + digest, '$') == [salt, digest] by {
      if '$' !in salt && '$' !in digest {
        assert Join([salt, digest], '$') == salt + "$" + digest;
        SplitJoin([salt, digest], '$');
      }
    }
    salt + "$" + digest
  }

  /** `verify_password`: re-hash with the stored salt and compare digests.
      The source's tuple unpacking fails on anything but exactly one `$`.
      It succeeds exactly when hashing the password with the stored salt
      reproduces the stored string. */
  function VerifyPassword(sha256: string -> string, password: string, stored: string): (ok: bool)
    requires WellFormedHash(stored)
    ensures ok <==> stored == HashPassword(sha256, password, Split(stored, '$')[0])
  {
    var parts := Split(stored, '$');
    var k := |parts[0]| + 1;
    assert stored == parts[0] + "$" + parts[1] && stored[k..] == parts[1] by {
      JoinSplit(stored, '$');
      assert Join(parts, '$') == parts[0] + "$" + parts[1];
    }
    assert stored == HashPassword(sha256, password, parts[0]) ==> stored[k..] == sha256(password + parts[0]);
    sha256(password + parts[0]) == parts[1]
  }

  /** The stored format: the hex salt, one `$`, the hex digest, and splitting
      at `$` gives the two parts back. */
  lemma HashPasswordFormat(sha256: string -> string, password: string, salt: string)
    requires IsSalt(salt) && IsHexDigestFunction(sha256)
    ensures var stored := HashPassword(sha256, password, salt);
      && Split(stored, '$') == [salt, sha256(password + salt)]
      && Count(stored, '$') == 1
      && WellFormedHash(stored)
      && |stored| == SaltLength + 1 + DigestLength
      && IsHex(stored[..SaltLength]) && IsHex(stored[SaltLength + 1..])
  {
    var digest := sha256(password + salt);
    var stored := HashPassword(sha256, password, salt);
    assert '$' !in salt && '$' !in digest;
    assert stored[..SaltLength] == salt && stored[SaltLength + 1..] == digest;
  }

  /** A hash accepts exactly the passwords whose salted digest equals that of
      the password it was made from. */
  lemma VerifyPasswordAccepts(sha256: string -> string, password: string, candidate: string, salt: string)
    requires IsSalt(salt) && IsHexDigestFunction(sha256)
    ensures WellFormedHash(HashPassword(sha256, password, salt))
    ensures VerifyPassword(sha256, candidate, HashPassword(sha256, password, salt))
        <==> sha256(candidate + salt) == sha256(password + salt)
  {
    HashPasswordFormat(sha256, password, salt);
  }

  /** `verify_password(p, hash_password(p))` holds. */
  lemma VerifyPasswordRoundTrip(sha256: string -> string, password: string, salt: string)
    requires IsSalt(salt) && IsHexDigestFunction(sha256)
    ensures WellFormedHash(HashPassword(sha256, password, salt))
    ensures VerifyPassword(sha256, password, HashPassword(sha256, password, salt))
  {
    VerifyPasswordAccepts(sha256, password, password, salt);
  }

  // ---------------------------------------------------------------------------
  // Requests, rows and replies
  // ---------------------------------------------------------------------------

  /** The JSON body of a POST. */
  datatype Body = Body(action: Field, email: Field, password: Field, fullName: Field)

  /** The invocation event; `body` is None when the event has no body key. */
  datatype Event = Event(httpMethod: Field, body: Option<Body>)

  /** `json.loads(event.get('body', '{}'))` for a body that parses. */
  function BodyOf(event: Event): Body
  {
    if event.body.Some? then event.body.value else Body(Absent, Absent, Absent, Absent)
  }

  /** `body.get('full_name', '')`: a missing key defaults to the empty name,
      an explicit null is stored as NULL. */
  function FullNameOf(f: Field): Option<string>
  {
    match f
    case Absent => Some("")
    case Null => None
    case Text(s) => Some(s)
  }

  /** A row of the `users` table. */
  datatype UserRow = UserRow(id: int, email: string, passwordHash: string, fullName: Option<string>, createdAt: int)

  /** The user data sent back to the client: a row without its password hash. */
  datatype PublicUser = PublicUser(id: int, email: string, fullName: Option<string>, createdAt: int)

  function Public(u: UserRow): PublicUser
  {
    PublicUser(u.id, u.email, u.fullName, u.createdAt)
  }

  datatype AuthError = MethodNotAllowed | MissingCredentials | EmailTaken | BadCredentials | UnknownAction

  datatype Notice = Registered | LoggedIn

  datatype Payload = Empty | Failure(error: AuthError) | Success(user: PublicUser, notice: Notice)

  function Rejected(status: int, error: AuthError): Response<Payload>
  {
    Response(status, None, Failure(error))
  }

  const Preflight: Response<Payload> := Response(200, Some("POST, OPTIONS"), Empty)

  // ---------------------------------------------------------------------------
  // The handler
  // ---------------------------------------------------------------------------

  /** The `users` table and the handler that serves it. `nextId` is the value
      the table's id sequence hands out next. */
  class UserTable {
    var users: map<string, UserRow>
    var nextId: int
    const sha256: string -> string

    /** Rows are keyed by their email, every stored hash can be unpacked,
        and ids are positive, distinct and below `nextId`. */
    ghost predicate Valid()
      reads this
    {
      && IsHexDigestFunction(sha256)
      && 1 <= nextId
      && (forall e :: e in users ==>
            && users[e].email == e
            && WellFormedHash(users[e].passwordHash)
            && 1 <= users[e].id < nextId)
      && (forall e, e' :: e in users && e' in users && e != e' ==> users[e].id != users[e'].id)
    }

    constructor (sha: string -> string)
      requires IsHexDigestFunction(sha)
      ensures Valid()
      ensures users == map[] && nextId == 1 && sha256 == sha
    {
      users := map[];
      nextId := 1;
      sha256 := sha;
    }

    /** The `register` branch: refuse a known email, otherwise insert a row
        with a freshly salted hash and reply 201 with the new row's public part. */
    method Register(email: string, password: string, fullName: Option<string>, salt: string, now: int)
      returns (resp: Response<Payload>)
      requires Valid() && IsSalt(salt)
      modifies this
      ensures Valid()
      ensures email in old(users) ==> resp == Rejected(400, EmailTaken) && unchanged(this)
      ensures email !in old(users) ==>
        && users == old(users)[email := UserRow(old(nextId), email, HashPassword(sha256, password, salt), fullName, now)]
        && nextId == old(nextId) + 1
        && resp == Response(201, None, Success(Public(users[email]), Registered))
    {
      if email in users {
        return Rejected(400, EmailTaken);
      }
      HashPasswordFormat(sha256, password, salt);
      var row := UserRow(nextId, email, HashPassword(sha256, password, salt), fullName, now);
      users := users[email := row];
      nextId := nextId + 1;
      resp := Response(201, None, Success(Public(row), Registered));
    }

    /** The `login` branch: one reply, 401, for an unknown email and for a wrong
        password alike; otherwise 200 with the row minus its hash. Reads only. */
    method Login(email: string, password: string) returns (resp: Response<Payload>)
      requires Valid()
      ensures resp.status == 401
          <==> email !in users || !VerifyPassword(sha256, password, users[email].passwordHash)
      ensures resp.status == 401 ==> resp == Rejected(401, BadCredentials)
      ensures resp.status != 401 ==> resp == Response(200, None, Success(Public(users[email]), LoggedIn))
    {
      if email !in users || !VerifyPassword(sha256, password, users[email].passwordHash) {
        return Rejected(401, BadCredentials);
      }
      resp := Response(200, None, Success(Public(users[email]), LoggedIn));
    }

    /** A user who has just registered can log in with the same password, and
        both replies carry the same user data. */
    method RegisterThenLogin(email: string, password: string, fullName: Option<string>, salt: string, now: int)
      returns (registered: Response<Payload>, loggedIn: Response<Payload>)
      requires Valid() && IsSalt(salt) && email !in users
      modifies this
      ensures Valid()
      ensures registered.status == 201 && loggedIn.status == 200
      ensures registered.body.Success? && loggedIn.body.Success?
      ensures registered.body.user == loggedIn.body.user
      ensures loggedIn.body.user == PublicUser(old(nextId), email, fullName, now)
    {
      registered := Register(email, password, fullName, salt, now);
      VerifyPasswordRoundTrip(sha256, password, salt);
      loggedIn := Login(email, password);
    }

    /** The whole handler: method dispatch, field validation, then the action. */
    method Handle(event: Event, salt: string, now: int) returns (resp: Response<Payload>)
      requires Valid() && IsSalt(salt)
      modifies this
      ensures Valid()
      // OPTIONS: preflight reply, no body parsing, no table access
      ensures EffectiveMethod(event.httpMethod) == Text("OPTIONS") ==>
        resp == Preflight && unchanged(this)
      // any other method than OPTIONS or POST
      ensures EffectiveMethod(event.httpMethod) != Text("OPTIONS") && EffectiveMethod(event.httpMethod) != Text("POST") ==>
        resp == Rejected(405, MethodNotAllowed) && unchanged(this)
      // POST without a usable email or password
      ensures EffectiveMethod(event.httpMethod) == Text("POST") && !(Truthy(BodyOf(event).email) && Truthy(BodyOf(event).password)) ==>
        resp == Rejected(400, MissingCredentials) && unchanged(this)
      // register
      ensures var b := BodyOf(event);
        EffectiveMethod(event.httpMethod) == Text("POST") && Truthy(b.email) && Truthy(b.password) && b.action == Text("register") ==>
          if b.email.text in old(users) then
            resp == Rejected(400, EmailTaken) && unchanged(this)
          else
            && users == old(users)[b.email.text := UserRow(old(nextId), b.email.text, HashPassword(sha256, b.password.text, salt), FullNameOf(b.fullName), now)]
            && nextId == old(nextId) + 1
            && resp == Response(201, None, Success(Public(users[b.email.text]), Registered))
      // login
      ensures var b := BodyOf(event);
        EffectiveMethod(event.httpMethod) == Text("POST") && Truthy(b.email) && Truthy(b.password) && b.action == Text("login") ==>
          && unchanged(this)
          && (resp.status == 401 <==> b.email.text !in users || !VerifyPassword(sha256, b.password.text, users[b.email.text].passwordHash))
          && (resp.status == 401 ==> resp == Rejected(401, BadCredentials))
          && (resp.status != 401 ==> resp == Response(200, None, Success(Public(users[b.email.text]), LoggedIn)))
      // any other action
      ensures var b := BodyOf(event);
        EffectiveMethod(event.httpMethod) == Text("POST") && Truthy(b.email) && Truthy(b.password) && b.action != Text("register") && b.action != Text("login") ==>
          resp == Rejected(400, UnknownAction) && unchanged(this)
    {
      var verb := EffectiveMethod(event.httpMethod);
      if verb == Text("OPTIONS") {
        return Preflight;
      }
      if verb != Text("POST") {
        return Rejected(405, MethodNotAllowed);
      }
      var body := BodyOf(event);
      if !Truthy(body.email) || !Truthy(body.password) {
        return Rejected(400, MissingCredentials);
      }
      if body.action == Text("register") {
        resp := Register(body.email.text, body.password.text, FullNameOf(body.fullName), salt, now);
      } else if body.action == Text("login") {
        resp := Login(body.email.text, body.password.text);
      } else {
        resp := Rejected(400, UnknownAction);
      }
    }
  }
}
