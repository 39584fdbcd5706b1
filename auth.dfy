/**
 * Registration, login and the two request middlewares
 * (backend/internal/auth/auth.go). Password hashing and comparison, token
 * signing and token parsing are parameters: they are bcrypt and JWT library calls.
 */
module Auth {
  import opened Wrappers
  import opened Models
  import opened Http
  import opened Store

  /** The key of the setting that switches automatic approval on. */
  const AutoApproveKey := "auto_approve_users"

  /** Lifetime of an issued token, in seconds. */
  const TokenLifetime: int := 24 * 60 * 60

  /** Length, in bytes, of the `Bearer ` prefix the middleware cuts off. */
  const BearerPrefixLength: nat := 7

  /** The bytes of `Bearer ` in ASCII. */
  const BearerPrefix: Bytes := [0x42, 0x65, 0x61, 0x72, 0x65, 0x72, 0x20]

  /** The decoded claims of a token (jwt.MapClaims). */
  type Claims = map<string, JsonValue>

  /** The auto-approve setting exists and its `enabled` entry is the boolean true. */
  predicate AutoApproveEnabled(settings: map<string, Setting>)
  {
    && AutoApproveKey in settings
    && var fields := Entries(settings[AutoApproveKey].value);
    && "enabled" in fields
    && fields["enabled"] == JBool(true)
  }

  /** Reference definition of the registration policy: admins always, others by the setting. */
  predicate RegistrationApproves(role: Role, settings: map<string, Setting>)
  {
    role == RoleAdmin || AutoApproveEnabled(settings)
  }

  /** The parsed body of a registration request. */
  datatype RegisterInput = RegisterInput(email: string, password: string, role: Role)

  /** Whether `db.Create` succeeds: the hook can hash the password, the email is free, the database answers. */
  predicate Creates(users: map<nat, User>, input: RegisterInput, dbOk: bool, hash: string -> Result<string, string>)
  {
    && (input.password == "" || hash(input.password).Success?)
    && FirstByEmail(users, input.email).None?
    && dbOk
  }

  /**
   * POST /auth/register. The role comes from the request body; an admin is approved and
   * activated at once, anyone else only when the auto-approve setting is on. The user is
   * then inserted (BeforeSave hashes the password, the column default fills an empty role).
   * `settingsReadOk` says whether the read of the setting answered; an error there is
   * dropped, and the user is then left unapproved.
   */
  method Register(db: Database, body: Option<RegisterInput>, settingsReadOk: bool, dbOk: bool,
                  hash: string -> Result<string, string>)
    returns (resp: Response)
    requires db.Valid()
    modifies db
    ensures db.Valid()
    ensures db.settings == old(db.settings) && db.nextSettingId == old(db.nextSettingId)
    ensures body.None? ==>
      resp == Fail(StatusBadRequest, "Invalid input")
      && db.users == old(db.users) && db.nextUserId == old(db.nextUserId)
    ensures body.Some? && !Creates(old(db.users), body.value, dbOk, hash) ==>
      resp == Fail(StatusInternalServerError, "Failed to create user")
      && db.users == old(db.users) && db.nextUserId == old(db.nextUserId)
    ensures body.Some? && Creates(old(db.users), body.value, dbOk, hash) ==>
      var input := body.value;
      var id := old(db.nextUserId);
      && id !in old(db.users)
      && db.users.Keys == old(db.users).Keys + {id}
      && (forall k :: k in old(db.users) ==> db.users[k] == old(db.users)[k])
      && db.nextUserId == id + 1
      && var u := db.users[id];
      && u.id == id
      && u.email == input.email
      && u.role == (if input.role == "" then RoleUser else input.role)
      && u.approved == u.active
      && (settingsReadOk ==> u.approved == RegistrationApproves(input.role, old(db.settings)))
      && (!settingsReadOk ==> u.approved == (input.role == RoleAdmin))
      && (input.password == "" ==> u.password == "")
      && (input.password != "" ==> u.password == hash(input.password).value)
      && resp == Response(StatusCreated, Registered("User registered successfully", View(u)))
  {
    if body.None? {
      return Fail(StatusBadRequest, "Invalid input");
    }
    var input := body.value;
    var user := Blank(input.email, input.password, input.role);
    if user.role == RoleAdmin {
      user := user.(approved := true);
      user := user.(active := true);
    } else {
      if settingsReadOk && AutoApproveEnabled(db.settings) {
        user := user.(approved := true);
        user := user.(active := true);
      }
    }
    var saved := BeforeSave(user, hash);
    if saved.Failure? || FirstByEmail(db.users, input.email).Some? || !dbOk {
      return Fail(StatusInternalServerError, "Failed to create user");
    }
    var id := db.nextUserId;
    var row := WithColumnDefaults(saved.value).(id := id);
    db.users := db.users[id := row];
    db.nextUserId := id + 1;
    resp := Response(StatusCreated, Registered("User registered successfully", View(row)));
  }

  /** The parsed body of a login request. */
  datatype Credentials = Credentials(email: string, password: string)

  /** The claims a login token carries. */
  function IssueClaims(u: User, now: int): (c: Claims)
    ensures c.Keys == {"id", "role", "exp"}
    ensures c["id"] == JNumber(u.id) && c["role"] == JString(u.role)
    ensures c["exp"] == JNumber(now + TokenLifetime)
  {
    map["id" := JNumber(u.id), "role" := JString(u.role), "exp" := JNumber(now + TokenLifetime)]
  }

  /**
   * POST /auth/login, an ordered chain of guards: unreadable body, failed lookup, unknown
   * email, wrong password, account not active or not approved, signing failure; only then a
   * token. `matches(hash, password)` stands for bcrypt's comparison, `sign` for HS256
   * signing with the configured secret, `now` for the clock in Unix seconds.
   */
  function Login(users: map<nat, User>, body: Option<Credentials>, dbOk: bool,
                 matches: (string, string) -> bool, now: int, sign: Claims -> Option<Bytes>): (r: Response)
    ensures r.body.LoggedIn? <==> r.status == StatusOK
    ensures r.body.LoggedIn? ==>
      && body.Some?
      && FirstByEmail(users, body.value.email).Some?
      && var u := users[FirstByEmail(users, body.value.email).value];
      && matches(u.password, body.value.password)
      && u.active && u.approved
      && sign(IssueClaims(u, now)) == Some(r.body.token)
      && r.body.account == LoginView(u.id, u.email, u.role)
  {
    match body
    case None => Fail(StatusBadRequest, "Invalid input")
    case Some(input) =>
      if !dbOk then
        Fail(StatusInternalServerError, "Failed to find user")
      else
        match FirstByEmail(users, input.email)
        case None => Fail(StatusUnauthorized, "Invalid credentials")
        case Some(id) =>
          var u := users[id];
          if !matches(u.password, input.password) then
            Fail(StatusUnauthorized, "Invalid credentials")
          else if !u.active || !u.approved then
            Fail(StatusForbidden, "Account is not active or pending approval")
          else
            match sign(IssueClaims(u, now))
            case None => Fail(StatusInternalServerError, "Failed to generate token")
            case Some(token) => Response(StatusOK, LoggedIn(token, LoginView(u.id, u.email, u.role)))
  }

  /** An unknown email and a wrong password give the same answer, so a caller cannot tell them apart. */
  lemma UnknownEmailLooksLikeWrongPassword(users: map<nat, User>, others: map<nat, User>, input: Credentials,
                                           matches: (string, string) -> bool, now: int, sign: Claims -> Option<Bytes>)
    requires forall id :: id in users ==> users[id].email != input.email
    requires exists id :: id in others && others[id].email == input.email && !matches(others[id].password, input.password)
    requires EmailsUnique(others)
    ensures Login(users, Some(input), true, matches, now, sign)
         == Login(others, Some(input), true, matches, now, sign)
         == Fail(StatusUnauthorized, "Invalid credentials")
  {
  }

  /** A correct password on an account that is inactive or unapproved is refused with 403. */
  lemma InactiveOrUnapprovedIsForbidden(users: map<nat, User>, input: Credentials, id: nat,
                                        matches: (string, string) -> bool, now: int, sign: Claims -> Option<Bytes>)
    requires EmailsUnique(users)
    requires id in users && users[id].email == input.email
    requires matches(users[id].password, input.password)
    requires !users[id].active || !users[id].approved
    ensures Login(users, Some(input), true, matches, now, sign)
         == Fail(StatusForbidden, "Account is not active or pending approval")
  {
  }

  /** An active, approved user with the right password gets a token whenever signing works. */
  lemma AdmittedUserGetsToken(users: map<nat, User>, input: Credentials, id: nat,
                              matches: (string, string) -> bool, now: int, sign: Claims -> Option<Bytes>)
    requires EmailsUnique(users)
    requires id in users && users[id].email == input.email
    requires matches(users[id].password, input.password)
    requires users[id].active && users[id].approved
    requires sign(IssueClaims(users[id], now)).Some?
    ensures Login(users, Some(input), true, matches, now, sign).status == StatusOK
  {
  }

  /** What the JWT library makes of a token string. */
  datatype TokenParse =
    | Malformed                                  // jwt.Parse returned an error
    | Parsed(valid: bool, claims: Option<Claims>) // claims None: not a jwt.MapClaims

  /** The outcome of a middleware: continue with the claims, answer now, or a runtime panic. */
  datatype AuthStep = Next(claims: Claims) | Halt(response: Response) | Panic

  /** Token verification after the prefix has been cut off. */
  function VerifyToken(token: Bytes, parse: Bytes -> TokenParse): (r: AuthStep)
    ensures r.Next? <==> parse(token).Parsed? && parse(token).valid && parse(token).claims.Some?
    ensures r.Next? ==> r.claims == parse(token).claims.value
    ensures !r.Panic?
  {
    match parse(token)
    case Malformed => Halt(Fail(StatusUnauthorized, "Invalid token"))
    case Parsed(valid, claims) =>
      if !valid then Halt(Fail(StatusUnauthorized, "Invalid token"))
      else if claims.None? then Halt(Fail(StatusUnauthorized, "Invalid token claims"))
      else Next(claims.value)
  }

  /**
   * AuthMiddleware as written. The header is a Go string, so its length and the slice
   * `auth[7:]` count bytes; a header shorter than seven bytes panics.
   */
  function AuthMiddlewareAsWritten(header: Bytes, parse: Bytes -> TokenParse): (r: AuthStep)
    ensures header == [] ==> r == Halt(Fail(StatusUnauthorized, "Missing authorization header"))
    ensures r.Panic? <==> 0 < |header| < BearerPrefixLength
  {
    if header == [] then
      Halt(Fail(StatusUnauthorized, "Missing authorization header"))
    else if |header| < BearerPrefixLength then
      Panic
    else
      VerifyToken(header[BearerPrefixLength..], parse)
  }

  /** The one-byte header `x` makes the middleware as written panic. */
  lemma ShortHeaderPanics(parse: Bytes -> TokenParse)
    ensures AuthMiddlewareAsWritten([0x78], parse) == Panic
  {
  }

  /**
   * Lengths are bytes, not characters: the UTF-8 header `éééé` has four characters but
   * eight bytes, so it does not panic; its last byte is handed to the token parser.
   */
  lemma MultiByteHeaderDoesNotPanic(parse: Bytes -> TokenParse)
    ensures AuthMiddlewareAsWritten([0xC3, 0xA9, 0xC3, 0xA9, 0xC3, 0xA9, 0xC3, 0xA9], parse)
         == VerifyToken([0xA9], parse)
  {
  }

  /**
   * AuthMiddleware with the length check the slice needs: a header too short to hold the
   * prefix is refused like any other bad token. Everything else is as written: the
   * seven bytes are dropped without checking that they read `Bearer `.
   */
  function AuthMiddleware(header: Bytes, parse: Bytes -> TokenParse): (r: AuthStep)
    ensures !r.Panic?
    ensures header == [] ==> r == Halt(Fail(StatusUnauthorized, "Missing authorization header"))
    ensures r.Next? <==> |header| >= BearerPrefixLength && VerifyToken(header[BearerPrefixLength..], parse).Next?
    ensures r.Next? ==> r.claims == VerifyToken(header[BearerPrefixLength..], parse).claims
    ensures r.Halt? ==> r.response.status == StatusUnauthorized
  {
    if header == [] then
      Halt(Fail(StatusUnauthorized, "Missing authorization header"))
    else if |header| < BearerPrefixLength then
      Halt(Fail(StatusUnauthorized, "Invalid token"))
    else
      VerifyToken(header[BearerPrefixLength..], parse)
  }

  /** The corrected middleware answers exactly as written on every header that does not panic. */
  lemma AuthMiddlewareAgreesWhenNoPanic(header: Bytes, parse: Bytes -> TokenParse)
    requires !AuthMiddlewareAsWritten(header, parse).Panic?
    ensures AuthMiddleware(header, parse) == AuthMiddlewareAsWritten(header, parse)
  {
  }

  /** The prefix is never inspected: any seven bytes in front of the token work like `Bearer `. */
  lemma PrefixIsNotChecked(prefix: Bytes, token: Bytes, parse: Bytes -> TokenParse)
    requires |prefix| == BearerPrefixLength
    ensures AuthMiddleware(prefix + token, parse) == AuthMiddleware(BearerPrefix + token, parse)
  {
  }

  /** AdminMiddleware: continue (None) only when the role claim is exactly the string "admin". */
  function AdminMiddleware(claims: Claims): (r: Option<Response>)
    ensures r.None? <==> "role" in claims && claims["role"] == JString(RoleAdmin)
    ensures r.Some? ==> r.value == Fail(StatusForbidden, "Admin access required")
  {
    if "role" in claims && claims["role"] == JString(RoleAdmin) then
      None
    else
      Some(Fail(StatusForbidden, "Admin access required"))
  }

  /** The comparison is case-sensitive and needs a string: "Admin" or a non-string role is refused. */
  lemma AdminRoleIsExact(claims: Claims, role: string)
    requires "role" in claims
    requires claims["role"] != JString("admin")
    ensures AdminMiddleware(claims).Some?
    ensures AdminMiddleware(claims["role" := JString(role)]).None? <==> role == "admin"
  {
  }

  /** The claims of a login token pass the admin check exactly when the user is an admin. */
  lemma IssuedClaimsAdmitAdminsOnly(u: User, now: int)
    ensures AdminMiddleware(IssueClaims(u, now)).None? <==> u.role == RoleAdmin
  {
  }
}
