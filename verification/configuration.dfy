/** src/configuration.rs: the runtime `Environment`, the configuration files
    it selects, and the Postgres connect options with their SSL mode. */
module Configuration {
  import opened Wrappers
  import Text

  /** The runtime environments the application supports. */
  datatype Environment = Local | Production

  /** `Environment::as_str`. */
  function AsStr(e: Environment): string {
    match e
    case Local => "local"
    case Production => "production"
  }

  /** Text appended to the lowercased input when it names no environment. */
  const UnsupportedSuffix := " is not a supported environment. Use either local or production."

  /** `TryFrom<String> for Environment`: match the lowercased input. */
  function TryFrom(s: string): (r: Result<Environment, string>)
    ensures r.Success? ==> AsStr(r.value) == Text.AsciiLower(s)
    ensures r.Failure? ==> Text.AsciiLower(s) != AsStr(Local) && Text.AsciiLower(s) != AsStr(Production)
                           && Text.AsciiLower(s) <= r.error
  {
    var lower := Text.AsciiLower(s);
    if lower == "local" then Success(Local)
    else if lower == "production" then Success(Production)
    else Failure(lower + UnsupportedSuffix)
  }

  /** The value used when `APP_ENVIRONMENT` is unset (or not valid text). */
  const DefaultEnvironment := "local"

  /** Panic text of the `.expect` on a value that names no environment. */
  const ParsePanic := "Failed to parse APP_ENVIRONMENT"

  /** The environment `get_configuration` runs in, from the variable's value. */
  function EnvironmentFromVar(appEnvironment: Option<string>): Exit<Environment> {
    var raw := match appEnvironment case Some(v) => v case None => DefaultEnvironment;
    match TryFrom(raw)
    case Success(e) => Return(e)
    case Failure(_) => Panic(ParsePanic)
  }

  /** The environment-specific configuration file. */
  function EnvironmentFileName(e: Environment): string {
    AsStr(e) + ".yaml"
  }

  /** The configuration files, in the order they are layered: later ones
      override earlier ones. */
  function ConfigurationFiles(e: Environment): seq<string> {
    ["base.yaml", EnvironmentFileName(e)]
  }

  /** `as_str` yields one of the two names, and different environments get
      different names. */
  lemma AsStrNames(e: Environment, f: Environment)
    ensures AsStr(e) in {"local", "production"}
    ensures AsStr(e) == AsStr(f) ==> e == f
  {
  }

  /** Round trip: parsing a printed environment gives it back. */
  lemma TryFromAsStr(e: Environment)
    ensures TryFrom(AsStr(e)) == Success(e)
  {
    assert Text.AsciiLower("local") == "local";
    assert Text.AsciiLower("production") == "production";
  }

  /** Parsing succeeds exactly on the inputs whose lowercase is a printed
      environment, and gives that environment. */
  lemma TryFromSuccessIff(s: string, e: Environment)
    ensures TryFrom(s) == Success(e) <==> Text.AsciiLower(s) == AsStr(e)
  {
  }

  /** Parsing ignores letter case: any casing of `local` or `production`
      parses. */
  lemma TryFromIgnoresCase(s: string, e: Environment)
    requires Text.IsCasingOf(s, AsStr(e))
    ensures TryFrom(s) == Success(e)
  {
    Text.LowerOfCasing(s, AsStr(e));
  }

  /** Any other input is rejected with the lowercased input followed by the
      fixed explanation. */
  lemma TryFromRejects(s: string)
    requires Text.AsciiLower(s) != "local" && Text.AsciiLower(s) != "production"
    ensures TryFrom(s) == Failure(Text.AsciiLower(s) + " is not a supported environment. Use either local or production.")
  {
  }

  /** An unset variable selects `local`; a set one selects what it parses to,
      and a value naming no environment aborts start-up. */
  lemma EnvironmentSelection(v: string)
    ensures EnvironmentFromVar(None) == Return(Local)
    ensures EnvironmentFromVar(Some(v)).Return? <==> TryFrom(v).Success?
    ensures EnvironmentFromVar(Some(v)).Return? ==> EnvironmentFromVar(Some(v)).value == TryFrom(v).value
  {
    TryFromAsStr(Local);
  }

  /** `base.yaml` comes first, then `<as_str>.yaml`. */
  lemma ConfigurationFilesOrder(e: Environment)
    ensures ConfigurationFiles(e) == ["base.yaml", AsStr(e) + ".yaml"]
    ensures ConfigurationFiles(Local)[1] == "local.yaml" && ConfigurationFiles(Production)[1] == "production.yaml"
  {
  }

  /** The connection's SSL mode. */
  datatype SslMode = Require | Prefer

  /** Statement logging level of the connection, when one is set. */
  datatype LevelFilter = Trace

  /** A TCP port, Rust's `u16`. */
  type Port = x: nat | x < 0x1_0000

  /** `DatabaseSettings`. */
  datatype DatabaseSettings = DatabaseSettings(
    username: string,
    password: string,
    port: Port,
    host: string,
    databaseName: string,
    requireSsl: bool)

  /** The Postgres connect options the settings produce. */
  datatype ConnectOptions = ConnectOptions(
    host: string,
    username: string,
    password: string,
    port: Port,
    sslMode: SslMode,
    database: Option<string>,
    logStatements: Option<LevelFilter>)

  /** `without_db`: server-level options; SSL is required only when asked
      for, and otherwise preferred. */
  function WithoutDb(s: DatabaseSettings): ConnectOptions {
    var sslMode := if s.requireSsl then Require else Prefer;
    ConnectOptions(s.host, s.username, s.password, s.port, sslMode, None, None)
  }

  /** `with_db`: the same options with the database selected and statements
      logged at trace level. */
  function WithDb(s: DatabaseSettings): ConnectOptions {
    WithoutDb(s).(database := Some(s.databaseName), logStatements := Some(Trace))
  }

  /** The SSL mode is `Require` exactly when `require_ssl` is set, and the
      settings' connection fields are carried over unchanged. */
  lemma SslModeChoice(s: DatabaseSettings)
    ensures WithoutDb(s).sslMode == Require <==> s.requireSsl
    ensures WithoutDb(s).sslMode == Prefer <==> !s.requireSsl
    ensures WithoutDb(s).host == s.host && WithoutDb(s).username == s.username
            && WithoutDb(s).password == s.password && WithoutDb(s).port == s.port
    ensures WithoutDb(s).database == None
  {
  }

  /** `with_db` differs from `without_db` only in the selected database and
      the statement logging. */
  lemma WithDbExtendsWithoutDb(s: DatabaseSettings)
    ensures WithDb(s).database == Some(s.databaseName)
    ensures WithDb(s).(database := None, logStatements := None) == WithoutDb(s)
    ensures WithDb(s).sslMode == WithoutDb(s).sslMode
    ensures WithDb(s).logStatements == Some(Trace)
  {
  }
}
