/**
 * The API server's wiring and admin handlers (backend/cmd/api/main.go): the
 * database connection string, the protected route group, and the admin
 * operations over the users and settings tables.
 */
module Api {
  import opened Wrappers
  import opened Models
  import opened Http
  import opened Store
  import opened Configuration
  import opened Auth

  /** The six `key=value` pairs of the connection string, in order. */
  function DsnPairs(c: DatabaseConfig): seq<string>
  {
    ["host=" + c.host, "user=" + c.user, "password=" + c.password,
     "dbname=" + c.dbName, "port=" + c.port, "sslmode=" + c.sslMode]
  }

  /** The Postgres connection string, built by concatenation. */
  function Dsn(c: DatabaseConfig): string
  {
    "host=" + c.host +
    " user=" + c.user +
    " password=" + c.password +
    " dbname=" + c.dbName +
    " port=" + c.port +
    " sslmode=" + c.sslMode
  }

  /** One more `key=value` pair, written as Go writes it, extends the join by a space and the pair. */
  lemma ExtendJoin(parts: seq<string>, acc: string, key: string, value: string)
    requires |parts| >= 1 && Join(parts, ' ') == acc
    ensures Join(parts + [key + value], ' ') == acc + (" " + key) + value
  {
    JoinAppend(parts, key + value, ' ');
  }

  /** The connection string is the six pairs joined with single spaces. */
  lemma DsnIsJoin(c: DatabaseConfig)
    ensures Dsn(c) == Join(DsnPairs(c), ' ')
  {
    var q1 := ["host=" + c.host];
    var l1 := "host=" + c.host;
    var q2 := q1 + ["user=" + c.user];
    var l2 := l1 + " user=" + c.user;
    ExtendJoin(q1, l1, "user=", c.user);
    var q3 := q2 + ["password=" + c.password];
    var l3 := l2 + " password=" + c.password;
    ExtendJoin(q2, l2, "password=", c.password);
    var q4 := q3 + ["dbname=" + c.dbName];
    var l4 := l3 + " dbname=" + c.dbName;
    ExtendJoin(q3, l3, "dbname=", c.dbName);
    var q5 := q4 + ["port=" + c.port];
    var l5 := l4 + " port=" + c.port;
    ExtendJoin(q4, l4, "port=", c.port);
    var q6 := q5 + ["sslmode=" + c.sslMode];
    ExtendJoin(q5, l5, "sslmode=", c.sslMode);
    assert q6 == DsnPairs(c);
  }

  /** When no value contains a space, splitting the string on spaces recovers the pairs in order. */
  lemma DsnFields(c: DatabaseConfig)
    requires ' ' !in c.host && ' ' !in c.user && ' ' !in c.password
    requires ' ' !in c.dbName && ' ' !in c.port && ' ' !in c.sslMode
    ensures Split(Dsn(c), ' ') == DsnPairs(c)
  {
    DsnIsJoin(c);
    var p := DsnPairs(c);
    forall i | 0 <= i < |p|
      ensures ' ' !in p[i]
    {
    }
    SplitJoin(p, ' ');
  }

  /** The CORS AllowOrigins value: the configured origins joined with commas. */
  function AllowOrigins(cfg: Config): string
  {
    Join(cfg.corsOrigins, ',')
  }

  /** The split and the re-join cancel: the server allows exactly the configured origins string. */
  lemma AllowOriginsIsRawSetting(env: Env)
    ensures AllowOrigins(Load(env).value) == GetEnv(env, "CORS_ORIGINS", DefaultCorsOrigins)
  {
  }

  /** The listening port, read from PORT again in main with the same default. */
  function ListenPort(env: Env): string
  {
    var port := Lookup(env, "PORT");
    if port == "" then "8080" else port
  }

  /** The port main listens on is the port the configuration reports. */
  lemma ListenPortMatchesConfig(env: Env)
    ensures ListenPort(env) == Load(env).value.port
  {
  }

  /**
   * The admin route group: AuthMiddleware, then AdminMiddleware. None means both passed
   * and the handler runs; otherwise the response that stopped the request.
   */
  function AdminGate(header: Bytes, parse: Bytes -> TokenParse): (r: Option<Response>)
    ensures r.None? <==>
      && |header| >= BearerPrefixLength
      && var p := parse(header[BearerPrefixLength..]);
      && p.Parsed? && p.valid && p.claims.Some?
      && "role" in p.claims.value && p.claims.value["role"] == JString(RoleAdmin)
    ensures r.Some? ==> r.value.status == StatusUnauthorized || r.value.status == StatusForbidden
  {
    match AuthMiddleware(header, parse)
    case Halt(response) => Some(response)
    case Next(claims) => AdminMiddleware(claims)
  }

  /** The outcome of the admin route group as main.go chains it: no recover middleware is registered. */
  datatype GateStep = Admit | Refuse(response: Response) | Crash

  /** The admin route group over AuthMiddleware as written: a header of one to six bytes panics. */
  function AdminGateAsWritten(header: Bytes, parse: Bytes -> TokenParse): (r: GateStep)
    ensures r.Crash? <==> 0 < |header| < BearerPrefixLength
    ensures r.Admit? ==> AuthMiddlewareAsWritten(header, parse).Next?
  {
    match AuthMiddlewareAsWritten(header, parse)
    case Panic => Crash
    case Halt(response) => Refuse(response)
    case Next(claims) =>
      match AdminMiddleware(claims)
      case None => Admit
      case Some(response) => Refuse(response)
  }

  /** On every header that does not make the chain as written panic, the corrected gate answers the same. */
  lemma AdminGateAgreesWhenNoPanic(header: Bytes, parse: Bytes -> TokenParse)
    requires !AdminGateAsWritten(header, parse).Crash?
    ensures AdminGateAsWritten(header, parse).Admit? <==> AdminGate(header, parse).None?
    ensures AdminGateAsWritten(header, parse).Refuse? ==>
      AdminGate(header, parse) == Some(AdminGateAsWritten(header, parse).response)
  {
    AuthMiddlewareAgreesWhenNoPanic(header, parse);
  }

  /**
   * A token from a successful login, sent as `Bearer <token>`, opens the admin routes
   * exactly when the user is an admin, provided token parsing accepts what signing produced.
   */
  lemma LoginTokenOpensAdminGate(users: map<nat, User>, input: Credentials, matches: (string, string) -> bool,
                                 now: int, sign: Claims -> Option<Bytes>, parse: Bytes -> TokenParse)
    requires forall c: Claims :: sign(c).Some? ==> parse(sign(c).value) == Parsed(true, Some(c))
    requires Login(users, Some(input), true, matches, now, sign).status == StatusOK
    ensures var r := Login(users, Some(input), true, matches, now, sign);
      AdminGate(BearerPrefix + r.body.token, parse).None? <==> r.body.account.role == RoleAdmin
  {
  }

  /** The table after `UPDATE users SET approved = true, active = true WHERE id = ?`. */
  function ApproveRows(users: map<nat, User>, id: nat): (r: map<nat, User>)
    ensures r.Keys == users.Keys
    ensures forall k :: k in users && k != id ==> r[k] == users[k]
    ensures id in users ==> r[id].approved && r[id].active
    ensures id in users ==> r[id].(approved := users[id].approved, active := users[id].active) == users[id]
  {
    if id in users then users[id := users[id].(approved := true, active := true)] else users
  }

  /** Approving twice leaves the same table as approving once. */
  lemma ApproveIdempotent(users: map<nat, User>, id: nat)
    ensures ApproveRows(ApproveRows(users, id), id) == ApproveRows(users, id)
  {
  }

  /** The table after `UPDATE users SET active = ? WHERE id = ?`. */
  function FreezeRows(users: map<nat, User>, id: nat, active: bool): (r: map<nat, User>)
    ensures r.Keys == users.Keys
    ensures forall k :: k in users && k != id ==> r[k] == users[k]
    ensures id in users ==> r[id].active == active && r[id].(active := users[id].active) == users[id]
  {
    if id in users then users[id := users[id].(active := active)] else users
  }

  /** Of two status updates on one row, the later wins. */
  lemma FreezeLastWins(users: map<nat, User>, id: nat, first: bool, second: bool)
    ensures FreezeRows(FreezeRows(users, id, first), id, second) == FreezeRows(users, id, second)
  {
  }

  /** An update that changes only approval and activity flags keeps the table's invariants. */
  lemma FlagUpdateKeepsInvariants(users: map<nat, User>, r: map<nat, User>, nextId: nat)
    requires EmailsUnique(users) && UsersKeyed(users, nextId)
    requires r.Keys == users.Keys
    requires forall k :: k in users ==> r[k].(approved := users[k].approved, active := users[k].active) == users[k]
    ensures EmailsUnique(r) && UsersKeyed(r, nextId)
  {
  }

  /** Once approved, a user with the right password is admitted by login. */
  lemma ApprovedUserCanLogin(users: map<nat, User>, id: nat, input: Credentials,
                             matches: (string, string) -> bool, now: int, sign: Claims -> Option<Bytes>)
    requires EmailsUnique(users)
    requires id in users && users[id].email == input.email
    requires matches(users[id].password, input.password)
    requires sign(IssueClaims(ApproveRows(users, id)[id], now)).Some?
    ensures Login(ApproveRows(users, id), Some(input), true, matches, now, sign).status == StatusOK
  {
  }

  /** A frozen user is refused with 403 even with the right password. */
  lemma FrozenUserIsForbidden(users: map<nat, User>, id: nat, input: Credentials,
                              matches: (string, string) -> bool, now: int, sign: Claims -> Option<Bytes>)
    requires EmailsUnique(users)
    requires id in users && users[id].email == input.email
    requires matches(users[id].password, input.password)
    ensures Login(FreezeRows(users, id, false), Some(input), true, matches, now, sign)
         == Fail(StatusForbidden, "Account is not active or pending approval")
  {
  }

  /** The row the auto-approve handler writes. */
  function AutoApproveSetting(id: nat, enabled: bool): Setting
  {
    Setting(id, AutoApproveKey, Fields(map["enabled" := JBool(enabled)]),
            "Automatically approve new user registrations", "auth")
  }

  /**
   * `Where("key = ?", key).Assign(setting).FirstOrCreate(&setting)`: an existing row keeps
   * its id and takes the new attributes; otherwise a row is created with the next id.
   */
  function UpsertAutoApprove(settings: map<string, Setting>, enabled: bool, nextId: nat): (r: map<string, Setting>)
    ensures r.Keys == settings.Keys + {AutoApproveKey}
    ensures forall k :: k in settings && k != AutoApproveKey ==> r[k] == settings[k]
    ensures r[AutoApproveKey].key == AutoApproveKey
    ensures r[AutoApproveKey].value == Fields(map["enabled" := JBool(enabled)])
    ensures r[AutoApproveKey].id == if AutoApproveKey in settings then settings[AutoApproveKey].id else nextId
  {
    var id := if AutoApproveKey in settings then settings[AutoApproveKey].id else nextId;
    settings[AutoApproveKey := AutoApproveSetting(id, enabled)]
  }

  /** Setting the same value again changes nothing. */
  lemma UpsertIdempotent(settings: map<string, Setting>, enabled: bool, nextId: nat, laterId: nat)
    ensures UpsertAutoApprove(UpsertAutoApprove(settings, enabled, nextId), enabled, laterId)
         == UpsertAutoApprove(settings, enabled, nextId)
  {
  }

  /**
   * After the setting is written, a non-admin registration is approved (and so activated)
   * exactly when the setting was turned on.
   */
  lemma AutoApproveGovernsRegistration(settings: map<string, Setting>, enabled: bool, nextId: nat, role: Role)
    requires role != RoleAdmin
    ensures RegistrationApproves(role, UpsertAutoApprove(settings, enabled, nextId)) == enabled
  {
  }

  /** Admin registrations are approved whatever the settings hold. */
  lemma AdminsAlwaysApproved(settings: map<string, Setting>)
    ensures RegistrationApproves(RoleAdmin, settings)
  {
  }

  /**
   * The users listing holds the JSON of every row exactly once (each row under its own
   * id); no order is promised.
   */
  ghost predicate ListsTable(vs: seq<UserView>, users: map<nat, User>)
  {
    && |vs| == |users.Keys|
    && (forall i :: 0 <= i < |vs| ==> vs[i].id in users && vs[i] == View(users[vs[i].id]))
    && (forall id :: id in users ==> View(users[id]) in vs)
    && (forall i, j :: 0 <= i < j < |vs| ==> vs[i].id != vs[j].id)
  }

  /** GET /admin/users: every user, password omitted, in the order the database returns them. */
  method ListUsers(db: Database, dbOk: bool) returns (resp: Response)
    requires db.Valid()
    ensures !dbOk ==> resp == Fail(StatusInternalServerError, "Failed to fetch users")
    ensures dbOk ==> resp.status == StatusOK && resp.body.Users? && ListsTable(resp.body.users, db.users)
  {
    if !dbOk {
      return Fail(StatusInternalServerError, "Failed to fetch users");
    }
    var remaining := db.users.Keys;
    var rows: seq<UserView> := [];
    while remaining != {}
      invariant remaining <= db.users.Keys
      invariant |rows| + |remaining| == |db.users.Keys|
      invariant forall i :: 0 <= i < |rows| ==>
        rows[i].id in db.users && rows[i].id !in remaining && rows[i] == View(db.users[rows[i].id])
      invariant forall id :: id in db.users && id !in remaining ==> View(db.users[id]) in rows
      invariant forall i, j :: 0 <= i < j < |rows| ==> rows[i].id != rows[j].id
      decreases |remaining|
    {
      var id :| id in remaining;
      rows := rows + [View(db.users[id])];
      remaining := remaining - {id};
    }
    resp := Response(StatusOK, Users(rows));
  }

  /** PUT /admin/users/:id/approve. A missing id updates no row and still reports success. */
  method Approve(db: Database, id: nat, dbOk: bool) returns (resp: Response)
    requires db.Valid()
    modifies db
    ensures db.Valid()
    ensures db.settings == old(db.settings)
    ensures db.nextUserId == old(db.nextUserId) && db.nextSettingId == old(db.nextSettingId)
    ensures dbOk ==> db.users == ApproveRows(old(db.users), id) && resp == Response(StatusOK, Message("User approved"))
    ensures !dbOk ==> db.users == old(db.users) && resp == Fail(StatusInternalServerError, "Failed to approve user")
  {
    if !dbOk {
      return Fail(StatusInternalServerError, "Failed to approve user");
    }
    FlagUpdateKeepsInvariants(db.users, ApproveRows(db.users, id), db.nextUserId);
    db.users := ApproveRows(db.users, id);
    resp := Response(StatusOK, Message("User approved"));
  }

  /** PUT /admin/users/:id/freeze with `{"active": bool}`; `body` is None when the body does not parse. */
  method Freeze(db: Database, id: nat, body: Option<bool>, dbOk: bool) returns (resp: Response)
    requires db.Valid()
    modifies db
    ensures db.Valid()
    ensures db.settings == old(db.settings)
    ensures db.nextUserId == old(db.nextUserId) && db.nextSettingId == old(db.nextSettingId)
    ensures body.None? ==> db.users == old(db.users) && resp == Fail(StatusBadRequest, "Invalid input")
    ensures body.Some? && !dbOk ==>
      db.users == old(db.users) && resp == Fail(StatusInternalServerError, "Failed to update user status")
    ensures body.Some? && dbOk ==>
      db.users == FreezeRows(old(db.users), id, body.value) && resp == Response(StatusOK, Message("User status updated"))
  {
    if body.None? {
      return Fail(StatusBadRequest, "Invalid input");
    }
    if !dbOk {
      return Fail(StatusInternalServerError, "Failed to update user status");
    }
    FlagUpdateKeepsInvariants(db.users, FreezeRows(db.users, id, body.value), db.nextUserId);
    db.users := FreezeRows(db.users, id, body.value);
    resp := Response(StatusOK, Message("User status updated"));
  }

  /** PUT /admin/settings/auto-approve with `{"enabled": bool}`; the response is the stored setting. */
  method SetAutoApprove(db: Database, body: Option<bool>, dbOk: bool) returns (resp: Response)
    requires db.Valid()
    modifies db
    ensures db.Valid()
    ensures db.users == old(db.users) && db.nextUserId == old(db.nextUserId)
    ensures body.None? ==>
      db.settings == old(db.settings) && db.nextSettingId == old(db.nextSettingId)
      && resp == Fail(StatusBadRequest, "Invalid input")
    ensures body.Some? && !dbOk ==>
      db.settings == old(db.settings) && db.nextSettingId == old(db.nextSettingId)
      && resp == Fail(StatusInternalServerError, "Failed to update setting")
    ensures body.Some? && dbOk ==>
      && db.settings == UpsertAutoApprove(old(db.settings), body.value, old(db.nextSettingId))
      && db.nextSettingId == (if AutoApproveKey in old(db.settings) then old(db.nextSettingId) else old(db.nextSettingId) + 1)
      && resp == Response(StatusOK, SettingBody(db.settings[AutoApproveKey]))
  {
    if body.None? {
      return Fail(StatusBadRequest, "Invalid input");
    }
    if !dbOk {
      return Fail(StatusInternalServerError, "Failed to update setting");
    }
    var created := AutoApproveKey !in db.settings;
    db.settings := UpsertAutoApprove(db.settings, body.value, db.nextSettingId);
    if created {
      db.nextSettingId := db.nextSettingId + 1;
    }
    resp := Response(StatusOK, SettingBody(db.settings[AutoApproveKey]));
  }

  /** The admin routes. */
  datatype AdminRequest =
    | ListUsersRequest
    | ApproveRequest(id: nat)
    | FreezeRequest(id: nat, active: Option<bool>)
    | AutoApproveRequest(enabled: Option<bool>)

  /** A request to an admin route: the handler runs only when both middlewares pass. */
  method HandleAdmin(db: Database, header: Bytes, parse: Bytes -> TokenParse, req: AdminRequest, dbOk: bool)
    returns (resp: Response)
    requires db.Valid()
    modifies db
    ensures db.Valid()
    ensures AdminGate(header, parse).Some? ==> resp == AdminGate(header, parse).value && unchanged(db)
    ensures req.ListUsersRequest? ==> unchanged(db)
    ensures AdminGate(header, parse).None? && req.ApproveRequest? && dbOk ==>
      db.users == ApproveRows(old(db.users), req.id) && db.settings == old(db.settings)
    ensures AdminGate(header, parse).None? && req.FreezeRequest? && req.active.Some? && dbOk ==>
      db.users == FreezeRows(old(db.users), req.id, req.active.value) && db.settings == old(db.settings)
    ensures AdminGate(header, parse).None? && req.AutoApproveRequest? && req.enabled.Some? && dbOk ==>
      db.users == old(db.users)
      && db.settings == UpsertAutoApprove(old(db.settings), req.enabled.value, old(db.nextSettingId))
  {
    var gate := AdminGate(header, parse);
    if gate.Some? {
      return gate.value;
    }
    match req
    case ListUsersRequest =>
      resp := ListUsers(db, dbOk);
    case ApproveRequest(id) =>
      resp := Approve(db, id, dbOk);
    case FreezeRequest(id, active) =>
      resp := Freeze(db, id, active, dbOk);
    case AutoApproveRequest(enabled) =>
      resp := SetAutoApprove(db, enabled, dbOk);
  }

  /**
   * A registration with auto-approve off, a login attempt, an approval by an admin and a
   * second login: the first login is refused with 403, the second admitted.
   */
  method ApprovalFlow(db: Database, input: Credentials, hash: string -> Result<string, string>,
                      matches: (string, string) -> bool, now: int, sign: Claims -> Option<Bytes>)
    returns (before: Response, after: Response)
    requires db.Valid()
    requires !AutoApproveEnabled(db.settings)
    requires FirstByEmail(db.users, input.email).None?
    requires input.password != "" && hash(input.password).Success?
    requires matches(hash(input.password).value, input.password)
    requires forall c: Claims :: sign(c).Some?
    modifies db
    ensures db.Valid()
    ensures before == Fail(StatusForbidden, "Account is not active or pending approval")
    ensures after.status == StatusOK && after.body.LoggedIn?
  {
    var registered := Register(db, Some(RegisterInput(input.email, input.password, RoleUser)), true, true, hash);
    var id := registered.body.user.id;
    before := Login(db.users, Some(input), true, matches, now, sign);
    InactiveOrUnapprovedIsForbidden(db.users, input, id, matches, now, sign);
    ApprovedUserCanLogin(db.users, id, input, matches, now, sign);
    var approved := Approve(db, id, true);
    after := Login(db.users, Some(input), true, matches, now, sign);
  }
}
