# Account lifecycle and authorization gate of the Liquid Trading API

This project models the Go backend's account lifecycle: who may register, who may log in, which requests reach the admin routes, and what the admin operations do to the users and settings tables. It also models the configuration read from environment variables and the connection string built from it.

- **Registration** (`Auth.Register`). Every registrant is inserted with `approved == active`. Admins are approved at once. Anyone else is approved only when the `auto_approve_users` setting holds `{"enabled": true}`.
- **Login** (`Auth.Login`). Login is an ordered chain of early returns. An unknown email and a wrong password both give `401 Invalid credentials`. A right password on an inactive or unapproved account gives `403`. Only an active, approved user gets a token. Its claims are `id`, `role` and `exp = now + 24h`.
- **Request gate** (`Auth.AuthMiddleware`, `Auth.AdminMiddleware`, `Api.AdminGate`). The first middleware cuts seven bytes off the `Authorization` header and verifies the rest. The header and the token are byte sequences (`Models.Bytes`), as Go strings are, so every length and slice there counts bytes, not characters. The second passes only a `role` claim that is exactly the string `"admin"`. Every admin route is behind both.
- **Admin operations** (`Api.ListUsers`, `Api.Approve`, `Api.Freeze`, `Api.SetAutoApprove`). These act on a `Store.Database` object that holds the two tables as maps. Each method is proved against a pure function of the old table (`ApproveRows`, `FreezeRows`, `UpsertAutoApprove`). The lemmas about those functions cover idempotence, "only this row changes" and the effect on later logins and registrations.
- **Records and configuration** (`Models`, `Configuration`). This covers role constants, column defaults, the `BeforeSave` hashing hook, the JSON column's `Value`/`Scan`, `getEnv`, `Load`, and the comma split of the CORS origins with its join back.

External collaborators are function parameters, never modelled internals:
- `hash` stands for bcrypt hashing and `matches` for bcrypt comparison.
- `sign` and `parse` stand for JWT signing and parsing.
- `marshal` and `unmarshal` stand for `encoding/json`.
- `now` is the clock.
- `dbOk` says whether the database answered. In `Auth.Register`, `settingsReadOk` separately says whether the read of the auto-approve setting answered.
- An `Option` stands for a request body: `None` when it does not parse.

Modules follow the source files: `Models` (backend/internal/models/user.go), `Configuration` (backend/internal/config/config.go), `Auth` (backend/internal/auth/auth.go) and `Api` (backend/cmd/api/main.go). Besides these, `Store` holds the two tables, `Http` the responses, and `Wrappers` Option and Result.

The frontend pages import a browser-side session store and route guard from `@/lib/auth`, which is not part of this model; the model covers the backend that those pages call. The handlers never check the affected row count, so approving or freezing a missing id reports success and changes nothing; there is no 404.

Decisions taken from the code and its libraries:
- An empty role in a registration body is stored, and echoed back, as `"user"`. GORM writes the `default:'user'` column default into a zero-valued field on insert (`Models.WithColumnDefaults`). The admin check runs on the raw input, so an empty role counts as non-admin.
- `First` returns the row with the smallest primary key (`Store.FirstByEmail`). With the unique email constraint, that is the only match.
- The user listing has no `ORDER BY`. `Api.ListUsers` promises every row exactly once, in no particular order.

## Model

| member | source | states |
|---|---|---|
| Models.ViewHidesOnlyPassword | backend/internal/models/user.go:20-26 | about `Models.View`, the user's JSON form: two users have the same JSON exactly when they differ at most in the password, so the password (`json:"-"`) never appears in any response |
| Models.WithColumnDefaults | backend/internal/models/user.go:24 | an empty role is stored as `"user"`; a non-empty role and every other field are kept |
| Models.FreshUserDefaults | backend/internal/models/user.go:24-26 | a user literal with no role set is stored with role `"user"`, not active and not approved |
| Models.BeforeSave | backend/internal/models/user.go:32-41 | an empty password is left unchanged; a non-empty one is replaced by its hash; a hashing error is returned; no other field changes |
| Models.ValueNilIsEmpty | backend/internal/models/user.go:61-66 | about `Models.Value`, the JSON column's driver value: a nil JSON map gives the same driver value as an empty map; a map gives its own marshalled form |
| Models.JsonColumn.Scan | backend/internal/models/user.go:69-87 | NULL sets an empty map with no error; a non-byte value gives the type-assertion error and leaves the receiver; bytes take the unmarshalled value, or return the unmarshal error and leave the receiver |
| Store.Database.constructor | backend/cmd/api/main.go:39-45 | a freshly migrated database has empty tables that satisfy the table invariant (unique emails, rows under their own keys) |
| Store.FirstByEmail | backend/internal/auth/auth.go:95-105 | none exactly when no row has the email; otherwise a row with that email and the smallest id among such rows |
| Store.FirstByEmailUnique | backend/internal/models/user.go:22 | under the unique email constraint the lookup finds the one row with that email |
| Configuration.GetEnv | backend/internal/config/config.go:45-50 | the environment value when it is set and non-empty, the default otherwise |
| Configuration.EmptyIsUnset | backend/internal/config/config.go:45-50 | a variable set to "" gives the default, exactly like an unset one |
| Configuration.Split | backend/internal/config/config.go:27-30 | the split list is never empty and no piece contains the separator |
| Configuration.JoinSplit | backend/internal/config/config.go:27-30 | joining the split pieces with the separator gives back the original string |
| Configuration.Load | backend/internal/config/config.go:24-43 | loading never fails; the origins list is non-empty and joins back to the CORS_ORIGINS value or its default |
| Configuration.LoadEmptyEnv | backend/internal/config/config.go:24-43 | with no variables set, every field has its default (port 8080, origins `["http://localhost:3000"]`, secret `your-secret-key`, DB localhost:5432, user and password postgres, name liquid_trading, sslmode disable) |
| Configuration.LoadFieldByField | backend/internal/config/config.go:26-38 | each of the eight fields takes its own variable when set and non-empty, and its own default otherwise, independently of the others; a set CORS_ORIGINS is split on commas, and an unset one gives the single default origin |
| Auth.Register | backend/internal/auth/auth.go:31-81 | an unparsable body gives 400 and no change; a failed insert (hashing error, email taken, database error) gives 500 and no change; otherwise exactly one row is added under the next id with `approved == active`, approved iff the role is admin or auto-approve is on (and, when the settings read fails, iff the role is admin, since that error is dropped), the role defaulted, the password hashed when non-empty, and a 201 echoing id, email, role, active and approved |
| Auth.IssueClaims | backend/internal/auth/auth.go:119-123 | the token claims are exactly `id`, `role` and `exp`, with `exp` 24 hours after `now` |
| Auth.Login | backend/internal/auth/auth.go:83-140 | a 200 is always a token response, and a token is issued only to the user found by email whose password matches and who is both active and approved; the token signs that user's claims and the response carries that user's id, email and role |
| Auth.UnknownEmailLooksLikeWrongPassword | backend/internal/auth/auth.go:96-111 | an unknown email and a wrong password give the identical 401 "Invalid credentials" response |
| Auth.InactiveOrUnapprovedIsForbidden | backend/internal/auth/auth.go:113-117 | a correct password on an inactive or unapproved account gives 403 |
| Auth.AdmittedUserGetsToken | backend/internal/auth/auth.go:113-139 | an active, approved user with the right password gets 200 whenever signing succeeds |
| Auth.VerifyToken | backend/internal/auth/auth.go:152-170 | the request continues exactly when the token parses, is valid and has map claims, and it continues with those claims |
| Auth.AuthMiddlewareAsWritten | backend/internal/auth/auth.go:144-151 | an empty header gives 401 "Missing authorization header"; a header of one to six bytes panics, and nothing else does |
| Auth.ShortHeaderPanics | backend/internal/auth/auth.go:151 | the one-byte header `x` makes the middleware as written panic |
| Auth.MultiByteHeaderDoesNotPanic | backend/internal/auth/auth.go:151 | the UTF-8 header `éééé` (four characters, eight bytes) does not panic: its last byte is handed to token verification |
| Auth.AuthMiddleware | backend/internal/auth/auth.go:142-172 | never panics; an empty header gives the missing-header 401; the request continues exactly when the header holds a verified token after its first seven bytes, and continues with that token's claims; every refusal is a 401 |
| Auth.AuthMiddlewareAgreesWhenNoPanic | backend/internal/auth/auth.go:144-170 | on every header the code as written handles without a panic, the corrected middleware answers the same |
| Auth.PrefixIsNotChecked | backend/internal/auth/auth.go:151 | any seven bytes in front of the token are accepted exactly as `Bearer ` is |
| Auth.AdminMiddleware | backend/internal/auth/auth.go:174-184 | the request continues exactly when the `role` claim is the string `"admin"`; otherwise 403 "Admin access required" |
| Auth.AdminRoleIsExact | backend/internal/auth/auth.go:177 | any role claim other than the string "admin" (another case, another type) is refused, and replacing it with a string role passes exactly for "admin" |
| Auth.IssuedClaimsAdmitAdminsOnly | backend/internal/auth/auth.go:119-121 | the claims of a login token pass the admin check exactly when the user's role is admin |
| Api.DsnIsJoin | backend/cmd/api/main.go:26-31 | about `Api.Dsn`: the connection string is the six `key=value` pairs host, user, password, dbname, port, sslmode joined by single spaces |
| Api.DsnFields | backend/cmd/api/main.go:26-31 | when no value contains a space, splitting the connection string on spaces gives back the six pairs in that order |
| Api.AllowOriginsIsRawSetting | backend/cmd/api/main.go:55 | the CORS allowed-origins value is exactly the CORS_ORIGINS setting (or its default): split and join cancel |
| Api.ListenPortMatchesConfig | backend/cmd/api/main.go:151-154 | about `Api.ListenPort`: the port main listens on equals the port the configuration reports |
| Api.AdminGate | backend/cmd/api/main.go:68-73 | an admin handler runs exactly when the header is long enough, its token parses as valid with map claims, and the role claim is the string "admin"; otherwise the answer is 401 or 403. This is the gate with the corrected middleware; see `Api.AdminGateAsWritten` for the chain as main.go registers it |
| Api.AdminGateAsWritten | backend/cmd/api/main.go:68-73 | the chain as registered, with no recover middleware, panics exactly on a header of one to six bytes, and admits a request only after the middleware as written passes it |
| Api.AdminGateAgreesWhenNoPanic | backend/cmd/api/main.go:68-73 | on every header the chain as registered handles without a panic, it admits and refuses exactly as `Api.AdminGate` does, with the same response |
| Api.LoginTokenOpensAdminGate | backend/cmd/api/main.go:68-73 | a token from a successful login, sent as `Bearer <token>`, opens the admin routes exactly when the user is an admin, given that parsing accepts what signing produced |
| Api.ApproveRows | backend/cmd/api/main.go:86-91 | approval sets approved and active on the target row, changes no other field of it and no other row, and adds or removes no row |
| Api.ApproveIdempotent | backend/cmd/api/main.go:86-96 | approving twice gives the same table as approving once |
| Api.ApprovedUserCanLogin | backend/cmd/api/main.go:86-91 | after approval, the user logs in successfully with the right password when signing succeeds |
| Api.FreezeRows | backend/cmd/api/main.go:108 | a status update sets only the target row's active flag; approved, the other fields and all other rows are unchanged |
| Api.FreezeLastWins | backend/cmd/api/main.go:108 | of two status updates on one row the later one decides |
| Api.FrozenUserIsForbidden | backend/cmd/api/main.go:108 | a frozen user with the right password is refused with 403 |
| Api.UpsertAutoApprove | backend/cmd/api/main.go:124-133 | afterwards the table has exactly one `auto_approve_users` row, holding `{"enabled": enabled}`, keeping its id if it already existed and taking the next id otherwise; every other setting is unchanged |
| Api.UpsertIdempotent | backend/cmd/api/main.go:124-133 | writing the same value again leaves the table as it was |
| Api.AutoApproveGovernsRegistration | backend/cmd/api/main.go:124-133 | about `Auth.AutoApproveEnabled`, the check at backend/internal/auth/auth.go:56-58: after the setting is written, a non-admin registration is approved and active exactly when the setting was turned on |
| Api.AdminsAlwaysApproved | backend/internal/auth/auth.go:50-53 | an admin registration is approved whatever the settings hold |
| Api.ListUsers | backend/cmd/api/main.go:76-84 | a database error gives 500; otherwise 200 with the JSON of every row exactly once, each under its own id, passwords omitted |
| Api.Approve | backend/cmd/api/main.go:86-97 | on success the users table becomes the approved table and the reply is "User approved", also for a missing id; on a database error 500 and no change; the settings are never touched |
| Api.Freeze | backend/cmd/api/main.go:99-114 | an unparsable body gives 400 and no change; a database error gives 500 and no change; otherwise the target's active flag is set and the reply is "User status updated" |
| Api.SetAutoApprove | backend/cmd/api/main.go:116-140 | an unparsable body gives 400 and no change; a database error gives 500 and no change; otherwise the setting is upserted and returned; the users table is never touched |
| Api.HandleAdmin | backend/cmd/api/main.go:68-73 | a request refused by either middleware gets that refusal and changes nothing; an admitted request runs the handler, with the table changes above |
| Api.ApprovalFlow | backend/internal/auth/auth.go:113-117 | with auto-approve off, a new user's login is refused with 403 until an admin approves the account, after which login succeeds |

## Findings

| source | as written | input that shows it | evidently intended | confidence | as-written member | corrected member |
|---|---|---|---|---|---|---|
| backend/internal/auth/auth.go:151 | `auth[7:]` slices the header with no length check | an `Authorization` header of one to six bytes, e.g. `x`: the slice is out of range and the goroutine panics; no recover middleware is registered (backend/cmd/api/main.go:53-58), so the whole process most likely dies. The middleware is mounted on the `/api/` group (backend/cmd/api/main.go:68-69), so it runs for any `/api` path not matched by an earlier route, and no admin route is needed to reach it | a header too short to hold the `Bearer ` prefix is refused with 401 like any other bad token | high, not executed | Auth.AuthMiddlewareAsWritten (shown by Auth.ShortHeaderPanics; the route chain as registered is Api.AdminGateAsWritten) | Auth.AuthMiddleware (used by Api.AdminGate) |

## Left out

- Fiber plumbing is left out: routing, the logger and CORS middleware, `app.Listen`, request contexts and `c.Locals`. `Api.HandleAdmin` stands in for the route group.
- Only the header and the token are byte sequences. Emails, passwords, roles and configuration values are strings of characters, because nothing in the model measures or slices them by length. The comma split of CORS_ORIGINS gives the same pieces on bytes and on characters, because a comma byte never occurs inside a multi-byte UTF-8 character.
- A parsed body is an `Option`: `None` when parsing fails. Whether `BodyParser(&fiber.Map{"active": &active})` writes through the pointer depends on the library, so the parsed boolean is an input. When `encoding/json` decodes into a non-nil `map[string]interface{}`, it stores a new value for each key rather than writing through the pointer already there. With Fiber's default decoder, `active` and `enabled` then stay `false` (backend/cmd/api/main.go:101-108 and 117-126). Freezing could then never be undone, and auto-approve could never be switched on through the API. The model keeps the boolean as an input and does not assume either behaviour.
- bcrypt, JWT signing and parsing, `encoding/json` and the clock are parameters, because they are foreign library calls. JWT numbers are modelled as integers, not float64.
- GORM and Postgres are reduced to two maps and an availability flag `dbOk`. Left out: AutoMigrate, timestamps, soft deletes, transactions and the `user_settings` table.
- A failed insert does not advance the user id sequence here, although Postgres may skip that value. This does not matter for any stated property.
- The `:id` route parameter is a natural number. A non-numeric id makes Postgres fail the query, which is the `dbOk = false` path.
- Auth.Register: the model does not say why the settings read fails (record not found or a database error). The source drops that error, so both cases leave a non-admin user unapproved, and the insert can still succeed with 201. `settingsReadOk` and `dbOk` are independent inputs.
- Auth.Login: its contract covers the token path. The other outcomes are covered by the lemmas beside it: the two 401s, the 403 and admission. The 400 and 500 answers are only in its body.
- Api.AdminGate, Api.HandleAdmin: both use the corrected `Auth.AuthMiddleware`, so a header of one to six bytes gets 401 "Invalid token" here, where main.go's chain panics because no recover middleware is registered. `Api.AdminGateAsWritten` models the chain as registered.
- Api.HandleAdmin: for an admitted request, its contract gives the table changes of the successful paths only. Its error answers are those of the four handler methods it calls.
- The browser session store and route guard (`@/lib/auth`) are not part of this model, and neither are the frontend pages that use them.
- backend/internal/modules/module.go has only an interface and empty defaults, with no behaviour to verify.
