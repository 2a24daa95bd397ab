// The application's configuration, read from the environment with
// defaults, and the connection string built from it.

module Config {
  import opened Strings
  import Database

  datatype Config = Config(
    serverPort: string,
    dbHost: string,
    dbPort: string,
    dbUser: string,
    dbPassword: string,
    dbName: string,
    dbSSLMode: string,
    stockAPIBaseURL: string,
    stockAPIToken: string)

  /** The process environment: the variables that are set, with their values. */
  type Env = map<string, string>

  /** getEnv: the variable's value whenever it is set (even to ""), the
      default only when it is unset. */
  function GetEnv(env: Env, key: string, defaultValue: string): (v: string)
    ensures key in env ==> v == env[key]
    ensures key !in env ==> v == defaultValue
  {
    if key in env then env[key] else defaultValue
  }

  /** NewConfig. */
  function NewConfig(env: Env): (c: Config)
    ensures c.serverPort == GetEnv(env, "SERVER_PORT", "8080")
    ensures c.dbHost == GetEnv(env, "DB_HOST", "localhost")
    ensures c.dbPort == GetEnv(env, "DB_PORT", "26257")
    ensures c.dbUser == GetEnv(env, "DB_USER", "root")
    ensures c.dbPassword == GetEnv(env, "DB_PASSWORD", "")
    ensures c.dbName == GetEnv(env, "DB_NAME", "stockdb")
    ensures c.dbSSLMode == GetEnv(env, "DB_SSL_MODE", "disable")
    ensures c.stockAPIBaseURL == GetEnv(env, "STOCK_API_BASE_URL", "https://api.stockapi.com/v1/stocks")
    ensures c.stockAPIToken == GetEnv(env, "STOCK_API_AUTH_TOKEN", "")
  {
    Config(
      GetEnv(env, "SERVER_PORT", "8080"),
      GetEnv(env, "DB_HOST", "localhost"),
      GetEnv(env, "DB_PORT", "26257"),
      GetEnv(env, "DB_USER", "root"),
      GetEnv(env, "DB_PASSWORD", ""),
      GetEnv(env, "DB_NAME", "stockdb"),
      GetEnv(env, "DB_SSL_MODE", "disable"),
      GetEnv(env, "STOCK_API_BASE_URL", "https://api.stockapi.com/v1/stocks"),
      GetEnv(env, "STOCK_API_AUTH_TOKEN", ""))
  }

  /** A variable set to the empty string overrides its default. */
  lemma EmptyValueOverridesDefault(env: Env)
    requires "DB_NAME" in env && env["DB_NAME"] == ""
    ensures NewConfig(env).dbName == ""
  {
  }

  /** The connection string up to the database name, and what follows it. */
  function ServerPart(c: Config): string
  {
    "postgresql://" + c.dbUser + ":" + c.dbPassword + "@" + c.dbHost + ":" + c.dbPort + "/"
  }

  function QueryPart(c: Config): string
  {
    "?sslmode=" + c.dbSSLMode
  }

  /** GetDBConnectionString: the server part, the database name, then the
      SSL mode as the query. */
  function GetDBConnectionString(c: Config): (dsn: string)
    ensures dsn == ServerPart(c) + c.dbName + QueryPart(c)
  {
    "postgresql://" + c.dbUser + ":" + c.dbPassword + "@" + c.dbHost + ":" + c.dbPort + "/" + c.dbName
      + "?sslmode=" + c.dbSSLMode
  }

  /** With no variable set, the application connects to the local
      insecure cluster's stockdb database as root. */
  lemma DefaultConnectionString()
    ensures GetDBConnectionString(NewConfig(map[])) == "postgresql://root:@localhost:26257/stockdb?sslmode=disable"
  {
    var c := NewConfig(map[]);
    var server := "postgresql://root:@localhost:26257/";
    DefaultServerPart();
    assert server + "stockdb" + ("?sslmode=" + "disable") == "postgresql://root:@localhost:26257/stockdb?sslmode=disable";
  }

  lemma DefaultServerPart()
    ensures ServerPart(NewConfig(map[])) == "postgresql://root:@localhost:26257/"
    ensures NewConfig(map[]).dbName == "stockdb" && NewConfig(map[]).dbSSLMode == "disable"
  {
    var c := NewConfig(map[]);
    assert c.dbUser == "root" && c.dbPassword == "" && c.dbHost == "localhost" && c.dbPort == "26257";
    assert "postgresql://" + "root" + ":" == "postgresql://root:";
    assert "postgresql://root:" + "" + "@" == "postgresql://root:@";
    assert "postgresql://root:@" + "localhost" + ":" == "postgresql://root:@localhost:";
    assert "postgresql://root:@localhost:" + "26257" + "/" == "postgresql://root:@localhost:26257/";
  }

  /** Connect's stripping removes exactly the database name from the
      configured connection string, provided the name has neither '/' nor
      '?' and the SSL mode has no '/'. */
  lemma BaseConnectionStringDropsName(c: Config)
    requires '/' !in c.dbName && '?' !in c.dbName && '/' !in c.dbSSLMode
    ensures Database.BaseConnectionString(GetDBConnectionString(c)) == ServerPart(c) + QueryPart(c)
  {
    var server, query := ServerPart(c), QueryPart(c);
    var s := GetDBConnectionString(c);
    var i := |server| - 1;
    var j := |server| + |c.dbName|;
    assert server[i] == '/';
    assert query[0] == '?';
    assert s[i] == '/' by { assert s[i] == server[i]; }
    assert s[j] == '?' by { assert s[j] == query[0]; }
    forall k | i < k < |s| ensures s[k] != '/' {
      if k < j {
        assert s[k] == c.dbName[k - |server|];
      } else if k > j {
        assert s[k] == query[k - j];
        var sslmode := "?sslmode=";
        assert query == sslmode + c.dbSSLMode;
        if k - j < |sslmode| {
          assert query[k - j] == sslmode[k - j];
        } else {
          assert query[k - j] == c.dbSSLMode[k - j - |sslmode|];
        }
      }
    }
    forall k | i < k < j ensures s[k] != '?' {
      assert s[k] == c.dbName[k - |server|];
    }
    Database.RemovesNameBeforeQuery(s, i, j);
    assert s[..i + 1] == server;
    assert s[j..] == query;
  }
}
