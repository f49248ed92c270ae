/** How the server decides which database to connect to (`database_lifespan`,
    main.py:49-70): either the `DATABASE_URL` variable, with the SQLAlchemy driver
    decoration removed from its scheme, or a URL composed from five discrete
    variables. The environment is an input value; nothing is read or connected. */
module Config {
  import opened Results
  import opened PyStr

  /** The environment variables the server reads; `None` when a variable is unset. */
  datatype Env = Env(
    databaseUrl: Option<string>,  // DATABASE_URL
    host: Option<string>,         // DATABASE_HOST
    user: Option<string>,         // DATABASE_USER
    password: Option<string>,     // DATABASE_PASSWORD
    port: Option<string>,         // DATABASE_PORT
    name: Option<string>)         // DATABASE_NAME

  /** The one configuration error: no password to compose a URL with. */
  datatype ConfigError = MissingPassword(message: string)

  const PasswordRequired := "DATABASE_PASSWORD is required. Set DATABASE_PASSWORD or DATABASE_URL in .env file"

  const DefaultHost := "localhost"
  const DefaultUser := "postgres"
  const DefaultPort := "5432"
  const DefaultName := "postgres"

  /** The scheme libpq understands, and the SQLAlchemy spelling that names the driver too. */
  const Canonical := "postgresql://"
  const Decorated := "postgresql+psycopg://"

  /** The five discrete connection fields, after defaults are applied. */
  datatype Target = Target(user: string, password: string, host: string, port: string, name: string)

  /** `os.getenv(key, default)`: the default applies only when the variable is unset;
      a variable set to the empty string stays empty. */
  function Getenv(v: Option<string>, default: string): string {
    v.GetOr(default)
  }

  /** `if not database_url`, negated: `DATABASE_URL` is set and non-empty. */
  predicate HasUrl(env: Env) {
    env.databaseUrl.Some? && env.databaseUrl.value != ""
  }

  /** The discrete fields with their defaults; the password defaults to the empty string. */
  function Fields(env: Env): Target {
    Target(
      Getenv(env.user, DefaultUser),
      Getenv(env.password, ""),
      Getenv(env.host, DefaultHost),
      Getenv(env.port, DefaultPort),
      Getenv(env.name, DefaultName))
  }

  /** The f-string `postgresql://{user}:{password}@{host}:{port}/{name}`; no field is escaped. */
  function Compose(t: Target): (url: string)
    ensures StartsWith(url, Canonical)
    ensures |url| == |Canonical| + |t.user| + |t.password| + |t.host| + |t.port| + |t.name| + 4
  {
    Canonical + t.user + ":" + t.password + "@" + t.host + ":" + t.port + "/" + t.name
  }

  /** The connection string the server hands to the driver, or the configuration error it raises. */
  function ResolveDatabaseUrl(env: Env): (r: Result<string, ConfigError>)
    ensures r.Failure? <==> !HasUrl(env) && Fields(env).password == ""
    ensures r.Failure? ==> r.error == MissingPassword(PasswordRequired)
    ensures HasUrl(env) ==> r.Success? && !Contains(r.value, Decorated)
    ensures !HasUrl(env) && r.Success? ==> StartsWith(r.value, Canonical)
    ensures HasUrl(env) ==> |r.value| <= |env.databaseUrl.value|
  {
    if !HasUrl(env) then
      var t := Fields(env);
      if t.password == "" then
        Failure(MissingPassword(PasswordRequired))
      else
        var url := Compose(t);
        assert url == Canonical + (url[|Canonical|..]);
        Success(url)
    else
      var url := env.databaseUrl.value;
      DecorationRemoved(url);
      Success(Replace(url, Decorated, Canonical))
  }

  /** With no URL and a password, the composed string fills every unset field with its default. */
  lemma ComposedWithDefaults(env: Env)
    requires !HasUrl(env) && Getenv(env.password, "") != ""
    ensures ResolveDatabaseUrl(env) == Success(
      "postgresql://" + Getenv(env.user, "postgres") + ":" + env.password.value + "@"
      + Getenv(env.host, "localhost") + ":" + Getenv(env.port, "5432") + "/"
      + Getenv(env.name, "postgres"))
  {
  }

  /** Only a password set: every other field takes its default. */
  lemma OnlyPasswordSet(pw: string)
    requires pw != ""
    ensures ResolveDatabaseUrl(Env(None, None, None, Some(pw), None, None))
      == Success("postgresql://postgres:" + pw + "@localhost:5432/postgres")
  {
    var env := Env(None, None, None, Some(pw), None, None);
    calc {
      Compose(Fields(env));
      Canonical + DefaultUser + ":" + pw + "@" + DefaultHost + ":" + DefaultPort + "/" + DefaultName;
      { assert Canonical + DefaultUser + ":" == "postgresql://postgres:";
        assert "@" + DefaultHost + ":" + DefaultPort + "/" + DefaultName == "@localhost:5432/postgres"; }
      "postgresql://postgres:" + pw + "@localhost:5432/postgres";
    }
  }

  /** A supplied URL without the SQLAlchemy decoration is handed over unchanged. */
  lemma UndecoratedUrlUnchanged(env: Env)
    requires HasUrl(env) && !Contains(env.databaseUrl.value, Decorated)
    ensures ResolveDatabaseUrl(env) == Success(env.databaseUrl.value)
  {
    ReplaceAbsent(env.databaseUrl.value, Decorated, Canonical);
  }

  /** A decorated URL loses exactly its decoration and keeps everything after the scheme. */
  lemma DecoratedUrlCanonicalised(env: Env, rest: string)
    requires env.databaseUrl == Some(Decorated + rest) && !Contains(rest, Decorated)
    ensures ResolveDatabaseUrl(env) == Success(Canonical + rest)
  {
    ReplaceLeading(Decorated, rest, Canonical);
    ReplaceAbsent(rest, Decorated, Canonical);
  }

  /** `y` blocks `p` when its first position disagrees with `p` and the rest of `y` blocks `p`. */
  lemma BlocksCons(y: string, p: string)
    requires |y| > 0 && MismatchFrom(y, p, 0) && Blocks(y[1..], p)
    ensures Blocks(y, p)
  {
    forall k | 1 <= k < |y|
      ensures MismatchFrom(y, p, k)
    {
      assert MismatchFrom(y[1..], p, k - 1);
      var j :| k - 1 <= j < |y| - 1 && j - (k - 1) < |p| && y[1..][j] != p[j - (k - 1)];
      assert y[j + 1] == y[1..][j];
    }
  }

  /** No decorated scheme can start inside the canonical one. */
  lemma CanonicalBlocksDecorated()
    ensures Blocks(Canonical, Decorated)
  {
    assert Canonical[10] != Decorated[10];
    assert MismatchFrom(Canonical, Decorated, 0);
    assert Canonical[1..] == "ostgresql://";
    BlocksWithoutHead(Canonical[1..], Decorated);
    BlocksCons(Canonical, Decorated);
  }

  /** The tail of the decorated scheme cannot run into the beginning of a canonical one. */
  lemma DecorationTailBlocksCanonical()
    ensures Blocks(Decorated[1..], Canonical)
  {
    var ps, pg := "ps", "pg";
    assert ps[1] != Canonical[1] && MismatchFrom(ps, Canonical, 0);
    BlocksWithoutHead(ps[1..], Canonical);
    BlocksCons(ps, Canonical);
    assert pg[1] != Canonical[1] && MismatchFrom(pg, Canonical, 0);
    BlocksWithoutHead(pg[1..], Canonical);
    BlocksCons(pg, Canonical);
    BlocksWithoutHead("ostgresql+", Canonical);
    BlocksWithoutHead("yco", Canonical);
    BlocksWithoutHead("://", Canonical);
    BlocksConcat("ostgresql+", ps, Canonical);
    BlocksConcat("ostgresql+" + ps, "yco", Canonical);
    BlocksConcat("ostgresql+" + ps + "yco", pg, Canonical);
    BlocksConcat("ostgresql+" + ps + "yco" + pg, "://", Canonical);
    assert Decorated[1..] == "ostgresql+" + ps + "yco" + pg + "://";
  }

  /** After the rewrite no decorated scheme is left anywhere in the URL, not even one
      that the rewrite itself could have assembled from the surrounding text. */
  lemma DecorationRemoved(url: string)
    ensures !Contains(Replace(url, Decorated, Canonical), Decorated)
  {
    CanonicalBlocksDecorated();
    DecorationTailBlocksCanonical();
    ReplaceRemovesAll(url, Decorated, Canonical);
  }

  /** The text before and after the first `c` in `s`, when there is one
      (Python's `s.partition(c)` when `c in s`). */
  function SplitFirst(s: string, c: char): (r: Option<(string, string)>)
    ensures r.Some? ==> c !in r.value.0 && s == r.value.0 + [c] + r.value.1
    ensures r.None? <==> c !in s
  {
    if s == [] then None
    else if s[0] == c then Some(([], s[1..]))
    else
      match SplitFirst(s[1..], c)
      case None => None
      case Some((a, b)) => Some(([s[0]] + a, b))
  }

  /** The text before and after the last `c` in `s`, when there is one
      (Python's `s.rpartition(c)` when `c in s`). */
  function SplitLast(s: string, c: char): (r: Option<(string, string)>)
    ensures r.Some? ==> c !in r.value.1 && s == r.value.0 + [c] + r.value.1
    ensures r.None? <==> c !in s
  {
    if s == [] then None
    else if s[|s| - 1] == c then Some((s[..|s| - 1], []))
    else
      match SplitLast(s[..|s| - 1], c)
      case None => None
      case Some((a, b)) => Some((a, b + [s[|s| - 1]]))
  }

  /** Splitting at the first `c` finds the `c` that follows a `c`-free left part. */
  lemma {:induction false} SplitFirstAt(a: string, c: char, b: string)
    requires c !in a
    ensures SplitFirst(a + [c] + b, c) == Some((a, b))
    decreases |a|
  {
    var s := a + [c] + b;
    if a == [] {
      assert s == [c] + b;
    } else {
      assert s[1..] == a[1..] + [c] + b;
      SplitFirstAt(a[1..], c, b);
      assert [s[0]] + a[1..] == a;
    }
  }

  /** Splitting at the last `c` finds the `c` that precedes a `c`-free right part. */
  lemma {:induction false} SplitLastAt(a: string, c: char, b: string)
    requires c !in b
    ensures SplitLast(a + [c] + b, c) == Some((a, b))
    decreases |b|
  {
    var s := a + [c] + b;
    if b == [] {
      assert s[..|s| - 1] == a;
    } else {
      var b' := b[..|b| - 1];
      assert s[..|s| - 1] == a + [c] + b';
      assert s[|s| - 1] == b[|b| - 1];
      SplitLastAt(a, c, b');
      assert b' + [s[|s| - 1]] == b;
    }
  }

  /** A reading of a composed URL back into its fields: after the scheme, the user
      information runs to the first `@` and splits at its first `:`; the location runs
      to the next `/` and splits at its last `:`; the rest is the database name. */
  function Decompose(url: string): Option<Target> {
    if !StartsWith(url, Canonical) then None
    else
      match SplitFirst(url[|Canonical|..], '@')
      case None => None
      case Some((userinfo, location)) =>
        match SplitFirst(userinfo, ':')
        case None => None
        case Some((user, password)) =>
          match SplitFirst(location, '/')
          case None => None
          case Some((hostport, name)) =>
            match SplitLast(hostport, ':')
            case None => None
            case Some((host, port)) => Some(Target(user, password, host, port, name))
  }

  /** Fields whose text cannot be confused with the separators the f-string puts between them. */
  predicate Unreserved(t: Target) {
    && '@' !in t.user && ':' !in t.user
    && '@' !in t.password
    && '/' !in t.host
    && '/' !in t.port && ':' !in t.port
  }

  /** The composed URL can be read back into exactly the fields it was composed from. */
  lemma ComposeRoundTrip(t: Target)
    requires Unreserved(t)
    ensures Decompose(Compose(t)) == Some(t)
  {
    var url := Compose(t);
    var userinfo := t.user + [':'] + t.password;
    var hostport := t.host + [':'] + t.port;
    var location := hostport + ['/'] + t.name;
    assert url == Canonical + (userinfo + ['@'] + location);
    assert url[|Canonical|..] == userinfo + ['@'] + location;
    SplitFirstAt(userinfo, '@', location);
    SplitFirstAt(t.user, ':', t.password);
    SplitFirstAt(hostport, '/', t.name);
    SplitLastAt(t.host, ':', t.port);
  }

  /** With no URL, a password and unreserved fields, the resolved URL reads back as
      the configured fields with their defaults. */
  lemma ResolvedComposedReadsBack(env: Env)
    requires !HasUrl(env) && Fields(env).password != "" && Unreserved(Fields(env))
    ensures ResolveDatabaseUrl(env).Success?
    ensures Decompose(ResolveDatabaseUrl(env).value) == Some(Fields(env))
  {
    ComposeRoundTrip(Fields(env));
  }

  /** Fields are not escaped: a password containing `@` composes into a URL whose
      first `@` falls inside the password, so it no longer reads back as configured. */
  lemma UnescapedPasswordMisread()
    ensures Decompose(Compose(Target("postgres", "p@ss", "localhost", "5432", "postgres")))
      == Some(Target("postgres", "p", "ss@localhost", "5432", "postgres"))
  {
    var t := Target("postgres", "p", "ss@localhost", "5432", "postgres");
    assert "p@ss" == "p" + "@" + "ss";
    assert "ss@localhost" == "ss" + "@" + "localhost";
    MisplacedSeparator("postgres", "p", "ss", "localhost", "5432", "postgres");
    assert Unreserved(t);
    ComposeRoundTrip(t);
  }

  /** An `@` inside the password composes into the same text as an `@` at the start
      of the host: the composed URL cannot tell the two apart. */
  lemma MisplacedSeparator(user: string, p1: string, p2: string, host: string, port: string, name: string)
    ensures Compose(Target(user, p1 + "@" + p2, host, port, name))
      == Compose(Target(user, p1, p2 + "@" + host, port, name))
  {
    var tail := ":" + port + "/" + name;
    calc {
      Compose(Target(user, p1 + "@" + p2, host, port, name));
      (Canonical + user + ":") + (p1 + "@" + p2) + "@" + host + tail;
      (Canonical + user + ":") + p1 + "@" + (p2 + "@" + host) + tail;
      Compose(Target(user, p1, p2 + "@" + host, port, name));
    }
  }
}
