/**
 * The database URL of `core/config.py`: the URL a hosting platform injects (`postgres://…` or
 * `postgresql://…`) is rewritten to the async driver's scheme and made to require TLS; a missing
 * URL falls back to the local SQLite file.
 */
module DbConfig {
  import opened Wrappers
  import Text

  const DevDefault: string := "sqlite+aiosqlite:///./dev.db"
  const Postgres: string := "postgres://"
  const PostgresQl: string := "postgresql://"
  const AsyncPg: string := "postgresql+asyncpg://"
  const SslRequire: string := "sslmode=require"

  /** The scheme rewrite: either platform spelling becomes the async driver's, the rest of the URL kept. */
  function AsyncScheme(u: string): string {
    if Text.StartsWith(u, Postgres) then AsyncPg + u[|Postgres|..]
    else if Text.StartsWith(u, PostgresQl) && !Text.StartsWith(u, AsyncPg) then AsyncPg + u[|PostgresQl|..]
    else u
  }

  /** The separator before an appended query parameter. */
  function QuerySep(u: string): string {
    if Text.Contains(u, "?") then "&" else "?"
  }

  /** An async Postgres URL that does not mention `sslmode=` gets `sslmode=require`. */
  function WithSslMode(u: string): string {
    if Text.StartsWith(u, AsyncPg) && !Text.Contains(u, "sslmode=") then u + QuerySep(u) + SslRequire
    else u
  }

  /** What `_normalize_db_url(url)` returns. */
  function Normalized(url: Option<string>): string {
    if url.None? || url.value == "" then DevDefault
    else WithSslMode(AsyncScheme(Text.Strip(url.value)))
  }

  /** `_normalize_db_url`: `u` is rebound by each rewriting step in turn. */
  method NormalizeDbUrl(url: Option<string>) returns (u: string)
    ensures u == Normalized(url)
    ensures url.None? || url == Some("") ==> u == DevDefault
  {
    if url.None? || url.value == "" {
      return DevDefault;
    }
    u := Text.Strip(url.value);
    if Text.StartsWith(u, Postgres) {
      u := AsyncPg + u[|Postgres|..];
    } else if Text.StartsWith(u, PostgresQl) {
      if !Text.StartsWith(u, AsyncPg) {
        u := AsyncPg + u[|PostgresQl|..];
      }
    }
    if Text.StartsWith(u, AsyncPg) && !Text.Contains(u, "sslmode=") {
      var sep := if Text.Contains(u, "?") then "&" else "?";
      u := u + sep + SslRequire;
    }
  }

  /** A URL of white space only is not the missing case: it is stripped to the empty URL. */
  lemma BlankGivesEmpty(s: string)
    requires s != "" && Text.IsBlank(s)
    ensures Normalized(Some(s)) == ""
  {
    Text.StripEmptyIffBlank(s);
  }

  /** The normalised URL is empty exactly for a non-empty URL of white space only. */
  lemma NormalizedEmptyIff(url: Option<string>)
    ensures Normalized(url) == "" <==> url.Some? && url.value != "" && Text.IsBlank(url.value)
  {
    assert DevDefault[0] == 's';
    if url.Some? && url.value != "" {
      Text.StripEmptyIffBlank(url.value);
      RewritesKeepEmptiness(Text.Strip(url.value));
    }
  }

  /** The two rewriting steps give "" exactly for "". */
  lemma RewritesKeepEmptiness(t: string)
    ensures WithSslMode(AsyncScheme(t)) == "" <==> t == ""
  {
    var a := AsyncScheme(t);
    assert t != "" ==> a != "";
    assert a != "" ==> WithSslMode(a) != "";
  }

  /**
   * `postgres://…` becomes `postgresql+asyncpg://…` with the rest of the URL kept, and gains
   * `sslmode=require` (after "?" or "&") unless the rewritten URL already mentions `sslmode=`.
   */
  lemma PostgresRewritten(s: string)
    requires Text.StartsWith(Text.Strip(s), Postgres)
    ensures Text.StartsWith(Normalized(Some(s)), AsyncPg + Text.Strip(s)[|Postgres|..])
    ensures var u := AsyncPg + Text.Strip(s)[|Postgres|..];
      Normalized(Some(s)) == if Text.Contains(u, "sslmode=") then u else u + QuerySep(u) + SslRequire
  {
    var t := Text.Strip(s);
    assert s != "";
    var a := AsyncPg + t[|Postgres|..];
    assert AsyncScheme(t) == a;
    assert a[..|AsyncPg|] == AsyncPg;
    SslKeepsPrefix(a);
  }

  /**
   * `postgresql://…` becomes `postgresql+asyncpg://…` with the rest of the URL kept, and gains
   * `sslmode=require` (after "?" or "&") unless the rewritten URL already mentions `sslmode=`.
   */
  lemma PostgresQlRewritten(s: string)
    requires Text.StartsWith(Text.Strip(s), PostgresQl)
    ensures Text.StartsWith(Normalized(Some(s)), AsyncPg + Text.Strip(s)[|PostgresQl|..])
    ensures var u := AsyncPg + Text.Strip(s)[|PostgresQl|..];
      Normalized(Some(s)) == if Text.Contains(u, "sslmode=") then u else u + QuerySep(u) + SslRequire
  {
    var t := Text.Strip(s);
    assert s != "";
    PostgresQlScheme(t);
    var a := AsyncScheme(t);
    assert a[..|AsyncPg|] == AsyncPg;
    SslKeepsPrefix(a);
  }

  /** The scheme step on a `postgresql://…` URL. */
  lemma PostgresQlScheme(t: string)
    requires Text.StartsWith(t, PostgresQl)
    ensures AsyncScheme(t) == AsyncPg + t[|PostgresQl|..]
  {
    Text.DiffersAt(t, Postgres, 8);
    AsyncGuardRedundant(t);
  }

  /** The `not u.startswith("postgresql+asyncpg://")` test is always true where it is made. */
  lemma AsyncGuardRedundant(u: string)
    requires Text.StartsWith(u, PostgresQl)
    ensures !Text.StartsWith(u, AsyncPg)
  {
    assert u[10] == PostgresQl[10];
  }

  /** An async URL without `sslmode=` gets `sslmode=require` after "?", or after "&" when it has a query. */
  lemma SslAppended(s: string)
    requires Text.StartsWith(Text.Strip(s), AsyncPg) && !Text.Contains(Text.Strip(s), "sslmode=")
    ensures Normalized(Some(s)) == Text.Strip(s) + (if Text.Contains(Text.Strip(s), "?") then "&" else "?") + "sslmode=require"
  {
    var t := Text.Strip(s);
    assert s != "";
    assert !Text.StartsWith(t, Postgres) by {
      assert t[8] == AsyncPg[8];
    }
    assert AsyncScheme(t) == t;
  }

  /** Any other URL, and an async one that already says `sslmode=`, is returned stripped and otherwise unchanged. */
  lemma OthersOnlyStripped(s: string)
    requires s != ""
    requires !Text.StartsWith(Text.Strip(s), Postgres) && !Text.StartsWith(Text.Strip(s), PostgresQl)
    requires !Text.StartsWith(Text.Strip(s), AsyncPg) || Text.Contains(Text.Strip(s), "sslmode=")
    ensures Normalized(Some(s)) == Text.Strip(s)
  {
  }

  /** Appending to a URL keeps its prefix. */
  lemma SslKeepsPrefix(a: string)
    ensures Text.StartsWith(WithSslMode(a), a)
  {
    var r := WithSslMode(a);
    assert r[..|a|] == a;
  }

  /** The async scheme is not one of the spellings the rewrite replaces. */
  lemma AsyncNotRewritten(x: string)
    requires Text.StartsWith(x, AsyncPg)
    ensures !Text.StartsWith(x, Postgres) && AsyncScheme(x) == x
  {
    assert x[8] == AsyncPg[8];
  }

  /** The development default is a stripped URL that no step rewrites. */
  lemma DevDefaultFixed()
    ensures Text.Strip(DevDefault) == DevDefault && AsyncScheme(DevDefault) == DevDefault
    ensures WithSslMode(DevDefault) == DevDefault
  {
    var d := DevDefault;
    assert d[0] == 's' && d[|d| - 1] == 'b';
    NotPostgresFixed(d);
  }

  /** A trimmed URL that starts with neither letter of a Postgres scheme is returned as it is. */
  lemma NotPostgresFixed(u: string)
    requires u != [] && u[0] != 'p' && !Text.IsSpace(u[0]) && !Text.IsSpace(u[|u| - 1])
    ensures Text.Strip(u) == u && AsyncScheme(u) == u && WithSslMode(u) == u
  {
    Text.DiffersAt(u, Postgres, 0);
    Text.DiffersAt(u, PostgresQl, 0);
    Text.DiffersAt(u, AsyncPg, 0);
    Text.StripOfTrimmed(u);
  }

  /** A trimmed, non-empty URL stays trimmed through the scheme rewrite, and ends with the async scheme or as it was. */
  lemma SchemeShape(t: string)
    requires t != "" && !Text.IsSpace(t[0]) && !Text.IsSpace(t[|t| - 1])
    ensures var a := AsyncScheme(t);
      a != "" && !Text.IsSpace(a[0]) && !Text.IsSpace(a[|a| - 1])
      && (Text.StartsWith(a, AsyncPg) || (a == t && !Text.StartsWith(t, Postgres) && !Text.StartsWith(t, PostgresQl)))
  {
    var a := AsyncScheme(t);
    if a != t {
      assert a[..|AsyncPg|] == AsyncPg;
      assert a[0] == 'p';
      if |a| == |AsyncPg| {
        assert a[|a| - 1] == '/';
      } else {
        assert a[|a| - 1] == t[|t| - 1];
      }
    } else if Text.StartsWith(t, PostgresQl) {
      AsyncGuardRedundant(t);
    }
  }

  /** After the `sslmode` step a trimmed URL is still trimmed, no step rewrites it, and an async one mentions `sslmode=`. */
  lemma SslShape(a: string)
    requires a != "" && !Text.IsSpace(a[0]) && !Text.IsSpace(a[|a| - 1])
    requires Text.StartsWith(a, AsyncPg) || (!Text.StartsWith(a, Postgres) && !Text.StartsWith(a, PostgresQl))
    ensures var r := WithSslMode(a);
      Text.Strip(r) == r && AsyncScheme(r) == r && WithSslMode(r) == r
  {
    var r := WithSslMode(a);
    if Text.StartsWith(a, AsyncPg) {
      SslKeepsPrefix(a);
      assert r[..|AsyncPg|] == a[..|AsyncPg|];
      AsyncNotRewritten(r);
      if r != a {
        var sep := QuerySep(a);
        assert r == a + sep + SslRequire;
        assert r[|r| - 1] == 'e';
        var i := |a + sep|;
        assert r[i..i + 8] == "sslmode=";
        assert Text.OccursAt(r, "sslmode=", i);
      }
    }
    Text.StripOfTrimmed(r);
  }

  /** What normalisation can return, when not empty: a stripped URL that no step rewrites. */
  lemma NormalizedShape(url: Option<string>)
    requires Normalized(url) != ""
    ensures var r := Normalized(url);
      Text.Strip(r) == r && AsyncScheme(r) == r && WithSslMode(r) == r
  {
    if url.None? || url.value == "" {
      DevDefaultFixed();
    } else {
      var t := Text.Strip(url.value);
      Text.StripShape(url.value);
      SchemeShape(t);
      SslShape(AsyncScheme(t));
    }
  }

  /** Normalising a normalised, non-empty URL returns it unchanged. */
  lemma NormalizeIdempotent(url: Option<string>)
    requires Normalized(url) != ""
    ensures Normalized(Some(Normalized(url))) == Normalized(url)
  {
    NormalizedShape(url);
  }

  /** The one exception: a blank URL normalises to "", and "" normalises to the development default. */
  lemma BlankNotIdempotent()
    ensures Normalized(Some(" ")) == ""
    ensures Normalized(Some(Normalized(Some(" ")))) == DevDefault
  {
    BlankGivesEmpty(" ");
  }

  /**
   * The value `BaseSettings` loads into a field: the environment variable when it is set (even
   * to the empty string), else the entry of the `.env` file, else the class default.
   */
  function LoadedField(name: string, env: map<string, string>, dotenv: map<string, string>, default: string): string {
    if name in env then env[name] else if name in dotenv then dotenv[name] else default
  }

  /** The settings object whose URL is overwritten when the module is imported. */
  class Settings {
    var databaseUrl: string

    /** `Settings()`: the URL from the environment, else from `.env`, else the class default. */
    constructor(env: map<string, string>, dotenv: map<string, string>)
      ensures "DATABASE_URL" in env ==> databaseUrl == env["DATABASE_URL"]
      ensures "DATABASE_URL" !in env && "DATABASE_URL" in dotenv ==> databaseUrl == dotenv["DATABASE_URL"]
      ensures "DATABASE_URL" !in env && "DATABASE_URL" !in dotenv ==> databaseUrl == DevDefault
    {
      databaseUrl := LoadedField("DATABASE_URL", env, dotenv, DevDefault);
    }

    /** Line 49: the `DATABASE_URL` environment variable, or the current value when it is unset or empty, normalised. */
    method ApplyEnvironment(env: map<string, string>)
      modifies this
      ensures databaseUrl == Normalized(Some(if "DATABASE_URL" in env && env["DATABASE_URL"] != "" then env["DATABASE_URL"] else old(databaseUrl)))
    {
      var raw := if "DATABASE_URL" in env && env["DATABASE_URL"] != "" then env["DATABASE_URL"] else databaseUrl;
      databaseUrl := NormalizeDbUrl(Some(raw));
    }
  }

  /** The URL the service ends up with: line 49 applied to the loaded settings. */
  function EffectiveDbUrl(env: map<string, string>, dotenv: map<string, string>): string {
    var loaded := LoadedField("DATABASE_URL", env, dotenv, DevDefault);
    Normalized(Some(if "DATABASE_URL" in env && env["DATABASE_URL"] != "" then env["DATABASE_URL"] else loaded))
  }

  /** Importing the module: the settings are loaded, then line 49 overwrites the URL. */
  method ImportConfig(env: map<string, string>, dotenv: map<string, string>) returns (settings: Settings)
    ensures settings.databaseUrl == EffectiveDbUrl(env, dotenv)
  {
    settings := new Settings(env, dotenv);
    settings.ApplyEnvironment(env);
  }

  /** A non-empty environment variable decides the URL, whatever `.env` says. */
  lemma EnvironmentWins(env: map<string, string>, dotenv: map<string, string>)
    requires "DATABASE_URL" in env && env["DATABASE_URL"] != ""
    ensures EffectiveDbUrl(env, dotenv) == Normalized(Some(env["DATABASE_URL"]))
  {
  }

  /**
   * Without the environment variable, the `.env` entry is normalised when there is one; with
   * neither, the development SQLite file is used.
   */
  lemma EffectiveWithoutEnv(env: map<string, string>, dotenv: map<string, string>)
    requires "DATABASE_URL" !in env
    ensures "DATABASE_URL" in dotenv ==> EffectiveDbUrl(env, dotenv) == Normalized(Some(dotenv["DATABASE_URL"]))
    ensures "DATABASE_URL" !in dotenv ==> EffectiveDbUrl(env, dotenv) == DevDefault
  {
    if "DATABASE_URL" !in dotenv {
      NormalizeIdempotent(None);
    }
  }

  /**
   * An environment variable set to the empty string hides the `.env` entry from `Settings()`, and
   * line 49 then falls back to that empty value: the development SQLite file is used.
   */
  lemma EmptyEnvironmentHidesDotenv(env: map<string, string>, dotenv: map<string, string>)
    requires "DATABASE_URL" in env && env["DATABASE_URL"] == ""
    ensures EffectiveDbUrl(env, dotenv) == DevDefault
  {
  }
}
