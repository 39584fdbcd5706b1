/**
 * The persistent records of the backend (backend/internal/models/user.go):
 * roles, users and their JSON view, admin settings, and the JSON column type
 * with its driver conversions.
 */
module Models {
  import opened Wrappers

  /** A byte. A Go string or byte slice, such as a header, a token or a JSON column, is a sequence of these. */
  newtype byte = b: int | 0 <= b < 256

  type Bytes = seq<byte>

  /** A role is any string; only two values are named. */
  type Role = string

  const RoleAdmin: Role := "admin"
  const RoleUser: Role := "user"

  /** A decoded JSON value, as Go's `interface{}` holds it after unmarshalling. */
  datatype JsonValue =
    | JNull
    | JBool(b: bool)
    | JNumber(n: int)
    | JString(s: string)
    | JArray(items: seq<JsonValue>)
    | JObject(fields: map<string, JsonValue>)

  /** The `JSON` column type: a Go map, which may be nil. */
  datatype Json = Nil | Fields(entries: map<string, JsonValue>)

  /** What a reader of the map sees: a nil map reads as an empty one. */
  function Entries(j: Json): map<string, JsonValue>
  {
    match j
    case Nil => map[]
    case Fields(m) => m
  }

  /** A row of the users table (timestamps and soft-delete marker left out). */
  datatype User = User(id: nat, email: string, password: string, role: Role, active: bool, approved: bool)

  /** The JSON encoding of a user: the password carries `json:"-"`. */
  datatype UserView = UserView(id: nat, email: string, role: Role, active: bool, approved: bool)

  function View(u: User): UserView
  {
    UserView(u.id, u.email, u.role, u.active, u.approved)
  }

  /** Two users have the same JSON exactly when they differ at most in the password. */
  lemma ViewHidesOnlyPassword(u: User, w: User)
    ensures View(u) == View(w) <==> u.(password := w.password) == w
  {
  }

  /** A `User` literal that sets only email, password and role: every other field is Go's zero value. */
  function Blank(email: string, password: string, role: Role): User
  {
    User(0, email, password, role, false, false)
  }

  /**
   * The column defaults GORM applies to zero-valued fields on insert:
   * `default:'user'` on Role (the two `default:false` flags equal the zero value).
   */
  function WithColumnDefaults(u: User): (r: User)
    ensures r.role != ""
    ensures u.role != "" ==> r == u
    ensures u.role == "" ==> r.role == RoleUser
    ensures r.(role := u.role) == u
  {
    if u.role == "" then u.(role := RoleUser) else u
  }

  /** A user literal with no role set is stored as an inactive, unapproved "user". */
  lemma FreshUserDefaults(email: string, password: string)
    ensures var u := WithColumnDefaults(Blank(email, password, ""));
      u.role == RoleUser && !u.active && !u.approved
  {
  }

  /**
   * The BeforeSave hook: a non-empty password is replaced by its hash; an empty one
   * is left alone. `hash` stands for bcrypt.GenerateFromPassword, which may fail.
   * The hook writes through its receiver; here it returns the updated user.
   */
  function BeforeSave(u: User, hash: string -> Result<string, string>): (r: Result<User, string>)
    ensures u.password == "" ==> r == Success(u)
    ensures r.Success? ==> r.value.(password := u.password) == u
    ensures u.password != "" ==> match hash(u.password)
      case Success(h) => r.Success? && r.value.password == h
      case Failure(e) => r == Failure(e)
  {
    if u.password != "" then
      match hash(u.password)
      case Success(h) => Success(u.(password := h))
      case Failure(e) => Failure(e)
    else
      Success(u)
  }

  /** An admin setting row. */
  datatype Setting = Setting(id: nat, key: string, value: Json, description: string, moduleName: string)

  /**
   * JSON.Value: the driver value is the marshalled map, with a nil map marshalled as
   * `{}` rather than `null`. `marshal` stands for json.Marshal.
   */
  function Value(j: Json, marshal: map<string, JsonValue> -> Result<Bytes, string>): Result<Bytes, string>
  {
    if j.Nil? then marshal(map[]) else marshal(j.entries)
  }

  /** A nil map and an empty map give the same driver value; a map marshals as itself. */
  lemma ValueNilIsEmpty(marshal: map<string, JsonValue> -> Result<Bytes, string>, m: map<string, JsonValue>)
    ensures Value(Nil, marshal) == Value(Fields(map[]), marshal)
    ensures Value(Fields(m), marshal) == marshal(m)
  {
  }

  /** The dynamic types a database driver hands to Scan: NULL, bytes, or anything else. */
  datatype DriverValue = SqlNull | ByteSlice(data: Bytes) | OtherType

  /** A variable of type JSON, the receiver of Scan. */
  class JsonColumn {
    var j: Json

    constructor (init: Json)
      ensures j == init
    {
      j := init;
    }

    /**
     * JSON.Scan: NULL gives an empty map; bytes are unmarshalled into a map (the JSON
     * text `null` leaves it nil); any other type is an error. On every error the
     * receiver is left as it was. `unmarshal` stands for json.Unmarshal into a map.
     */
    method Scan(value: DriverValue, unmarshal: Bytes -> Result<Json, string>) returns (err: Option<string>)
      modifies this
      ensures value.SqlNull? ==> err.None? && j == Fields(map[])
      ensures value.OtherType? ==> err == Some("type assertion to []byte failed") && j == old(j)
      ensures value.ByteSlice? ==> match unmarshal(value.data)
        case Success(m) => err.None? && j == m
        case Failure(e) => err == Some(e) && j == old(j)
    {
      match value
      case SqlNull =>
        j := Fields(map[]);
        err := None;
      case OtherType =>
        err := Some("type assertion to []byte failed");
      case ByteSlice(data) =>
        match unmarshal(data)
        case Failure(e) =>
          err := Some(e);
        case Success(m) =>
          j := m;
          err := None;
    }
  }
}
