/**
 * Configuration from environment variables (backend/internal/config/config.go).
 * The process environment is a map; a variable that is absent reads as "".
 */
module Configuration {
  import opened Wrappers

  type Env = map<string, string>

  datatype DatabaseConfig = DatabaseConfig(host: string, port: string, user: string, password: string, dbName: string, sslMode: string)

  datatype Config = Config(port: string, corsOrigins: seq<string>, jwtSecret: string, db: DatabaseConfig)

  const DefaultPort := "8080"
  const DefaultCorsOrigins := "http://localhost:3000"
  const DefaultJwtSecret := "your-secret-key"
  const DefaultDbHost := "localhost"
  const DefaultDbPort := "5432"
  const DefaultDbUser := "postgres"
  const DefaultDbPassword := "postgres"
  const DefaultDbName := "liquid_trading"
  const DefaultSslMode := "disable"

  /** os.Getenv: the value of the variable, or "" when it is not set. */
  function Lookup(env: Env, key: string): string
  {
    if key in env then env[key] else ""
  }

  /** The variable is set to a non-empty value. */
  predicate IsSet(env: Env, key: string)
  {
    Lookup(env, key) != ""
  }

  /** getEnv: the environment value when it is non-empty, the default otherwise. */
  function GetEnv(env: Env, key: string, default: string): (r: string)
    ensures IsSet(env, key) ==> key in env && r == env[key]
    ensures !IsSet(env, key) ==> r == default
  {
    var value := Lookup(env, key);
    if value != "" then value else default
  }

  /** A variable set to "" behaves like one that is not set at all. */
  lemma EmptyIsUnset(env: Env, key: string, default: string)
    ensures GetEnv(env[key := ""], key, default) == GetEnv(env - {key}, key, default) == default
  {
  }

  /** strings.Split with a one-character separator. */
  function Split(s: string, sep: char): (parts: seq<string>)
    ensures |parts| >= 1
    ensures forall i :: 0 <= i < |parts| ==> sep !in parts[i]
    decreases |s|
  {
    if s == [] then
      [""]
    else
      var rest := Split(s[1..], sep);
      if s[0] == sep then [""] + rest else [[s[0]] + rest[0]] + rest[1..]
  }

  /** strings.Join with a one-character separator. */
  function Join(parts: seq<string>, sep: char): string
  {
    if |parts| == 0 then ""
    else if |parts| == 1 then parts[0]
    else parts[0] + [sep] + Join(parts[1..], sep)
  }

  /** Joining the pieces of a split gives back the original string. */
  lemma {:induction false} JoinSplit(s: string, sep: char)
    ensures Join(Split(s, sep), sep) == s
    decreases |s|
  {
    if s != [] {
      var rest := Split(s[1..], sep);
      JoinSplit(s[1..], sep);
      if s[0] == sep {
        assert Split(s, sep) == [""] + rest;
        assert ([""] + rest)[1..] == rest;
      } else if |rest| == 1 {
        assert Split(s, sep) == [[s[0]] + rest[0]];
      } else {
        var parts := Split(s, sep);
        assert parts == [[s[0]] + rest[0]] + rest[1..];
        assert parts[1..] == rest[1..];
        assert Join(rest, sep) == rest[0] + [sep] + Join(rest[1..], sep);
      }
    }
  }

  /** Joining one more piece adds the separator and the piece at the end. */
  lemma {:induction false} JoinAppend(parts: seq<string>, last: string, sep: char)
    requires |parts| >= 1
    ensures Join(parts + [last], sep) == Join(parts, sep) + [sep] + last
    decreases |parts|
  {
    if |parts| == 1 {
      assert (parts + [last])[1..] == [last];
    } else {
      assert (parts + [last])[1..] == parts[1..] + [last];
      JoinAppend(parts[1..], last, sep);
    }
  }

  /** A string without the separator splits into itself alone. */
  lemma {:induction false} SplitNoSep(s: string, sep: char)
    requires sep !in s
    ensures Split(s, sep) == [s]
    decreases |s|
  {
    if s != [] {
      SplitNoSep(s[1..], sep);
      assert [s[0]] + s[1..] == s;
    }
  }

  /** A separator-free prefix followed by the separator becomes a piece of its own. */
  lemma {:induction false} SplitPrefix(p: string, rest: string, sep: char)
    requires sep !in p
    ensures Split(p + [sep] + rest, sep) == [p] + Split(rest, sep)
    decreases |p|
  {
    var s := p + [sep] + rest;
    if p == [] {
      assert s[1..] == rest;
    } else {
      assert s[1..] == p[1..] + [sep] + rest;
      SplitPrefix(p[1..], rest, sep);
      assert [p[0]] + p[1..] == p;
    }
  }

  /** Splitting a join of separator-free pieces gives back the pieces. */
  lemma {:induction false} SplitJoin(parts: seq<string>, sep: char)
    requires |parts| >= 1
    requires forall i :: 0 <= i < |parts| ==> sep !in parts[i]
    ensures Split(Join(parts, sep), sep) == parts
    decreases |parts|
  {
    if |parts| == 1 {
      SplitNoSep(parts[0], sep);
    } else {
      SplitJoin(parts[1..], sep);
      SplitPrefix(parts[0], Join(parts[1..], sep), sep);
      assert [parts[0]] + parts[1..] == parts;
    }
  }

  /** Load: every field from its variable or its default; it never fails. */
  function Load(env: Env): (r: Result<Config, string>)
    ensures r.Success?
    ensures |r.value.corsOrigins| >= 1
    ensures Join(r.value.corsOrigins, ',') == GetEnv(env, "CORS_ORIGINS", DefaultCorsOrigins)
  {
    JoinSplit(GetEnv(env, "CORS_ORIGINS", DefaultCorsOrigins), ',');
    Success(Config(
      GetEnv(env, "PORT", DefaultPort),
      Split(GetEnv(env, "CORS_ORIGINS", DefaultCorsOrigins), ','),
      GetEnv(env, "JWT_SECRET", DefaultJwtSecret),
      DatabaseConfig(
        GetEnv(env, "DB_HOST", DefaultDbHost),
        GetEnv(env, "DB_PORT", DefaultDbPort),
        GetEnv(env, "DB_USER", DefaultDbUser),
        GetEnv(env, "DB_PASSWORD", DefaultDbPassword),
        GetEnv(env, "DB_NAME", DefaultDbName),
        GetEnv(env, "DB_SSL_MODE", DefaultSslMode))))
  }

  /** With no variables set, every field takes its default; the origins list holds one entry. */
  lemma LoadEmptyEnv()
    ensures Load(map[]) == Success(Config(
      "8080",
      ["http://localhost:3000"],
      "your-secret-key",
      DatabaseConfig("localhost", "5432", "postgres", "postgres", "liquid_trading", "disable")))
  {
    SplitNoSep(DefaultCorsOrigins, ',');
  }

  /** Defaults apply field by field: a set variable wins, an unset one gives its default. */
  lemma LoadFieldByField(env: Env)
    ensures var c := Load(env).value;
      && (IsSet(env, "PORT") ==> c.port == env["PORT"])
      && (!IsSet(env, "PORT") ==> c.port == DefaultPort)
      && (IsSet(env, "JWT_SECRET") ==> c.jwtSecret == env["JWT_SECRET"])
      && (!IsSet(env, "JWT_SECRET") ==> c.jwtSecret == DefaultJwtSecret)
      && (IsSet(env, "CORS_ORIGINS") ==> c.corsOrigins == Split(env["CORS_ORIGINS"], ','))
      && (IsSet(env, "DB_HOST") ==> c.db.host == env["DB_HOST"])
      && (!IsSet(env, "DB_HOST") ==> c.db.host == DefaultDbHost)
      && (IsSet(env, "DB_USER") ==> c.db.user == env["DB_USER"])
      && (!IsSet(env, "DB_USER") ==> c.db.user == DefaultDbUser)
      && (IsSet(env, "DB_PASSWORD") ==> c.db.password == env["DB_PASSWORD"])
      && (!IsSet(env, "DB_PASSWORD") ==> c.db.password == DefaultDbPassword)
      && (IsSet(env, "DB_NAME") ==> c.db.dbName == env["DB_NAME"])
      && (!IsSet(env, "DB_NAME") ==> c.db.dbName == DefaultDbName)
      && (IsSet(env, "DB_PORT") ==> c.db.port == env["DB_PORT"])
      && (!IsSet(env, "DB_PORT") ==> c.db.port == DefaultDbPort)
      && (IsSet(env, "DB_SSL_MODE") ==> c.db.sslMode == env["DB_SSL_MODE"])
      && (!IsSet(env, "DB_SSL_MODE") ==> c.db.sslMode == DefaultSslMode)
      && (!IsSet(env, "CORS_ORIGINS") ==> c.corsOrigins == [DefaultCorsOrigins])
  {
    SplitNoSep(DefaultCorsOrigins, ',');
  }
}
