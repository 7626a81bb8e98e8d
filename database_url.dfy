/** `parse_database_url` of api/index.py: turns the database URL into the
    keyword arguments of the PostgreSQL connection. Splitting the URL into
    its components is Python's `urlparse`, which is not modelled: it is a
    parameter, and this module states what the function does around it. */
module DatabaseUrl {
  import opened Schema
  import opened Text

  datatype Result<T> = Ok(value: T) | Err(message: string)

  /** The attributes of `urlparse`'s result that the function reads. */
  datatype UrlParts = UrlParts(
    hostname: Option<string>,
    port: Option<int>,
    path: string,
    username: Option<string>,
    password: Option<string>)

  /** The dictionary handed to `psycopg2.connect`. */
  datatype ConnectionParams = ConnectionParams(
    host: Option<string>,
    port: int,
    database: string,
    user: Option<string>,
    password: Option<string>,
    sslmode: string)

  const PostgresScheme: string := "postgres://"
  const PostgresqlScheme: string := "postgresql://"
  const DefaultPort: int := 5432
  const RequiredSslMode: string := "require"
  const NoUrlMessage: string := "No database URL found"

  /** Python's `s.replace(pat, rep, 1)` for a non-empty `pat`: the first
      occurrence of `pat`, if any, becomes `rep`. */
  function ReplaceFirst(s: string, pat: string, rep: string): (r: string)
    requires pat != []
  {
    if |s| < |pat| then s
    else if s[..|pat|] == pat then rep + s[|pat|..]
    else [s[0]] + ReplaceFirst(s[1..], pat, rep)
  }

  /** The scheme rewrite: a URL that starts with `postgres://` has that
      prefix, and only that prefix, replaced by `postgresql://` (the first
      occurrence that `replace` rewrites is the prefix); any other URL is
      left as it is. */
  function NormalizeScheme(url: string): (r: string)
    ensures StartsWith(url, PostgresScheme) ==>
      r == PostgresqlScheme + url[|PostgresScheme|..]
    ensures !StartsWith(url, PostgresScheme) ==> r == url
  {
    if StartsWith(url, PostgresScheme) then ReplaceFirst(url, PostgresScheme, PostgresqlScheme) else url
  }

  /** The rewritten URL no longer starts with `postgres://`, so normalising
      twice is normalising once. */
  lemma NormalizeSchemeIdempotent(url: string)
    ensures !StartsWith(NormalizeScheme(url), PostgresScheme)
    ensures NormalizeScheme(NormalizeScheme(url)) == NormalizeScheme(url)
  {
    var r := NormalizeScheme(url);
    if StartsWith(url, PostgresScheme) {
      assert r[8] == 'q' && PostgresScheme[8] == ':';
      assert r[..|PostgresScheme|] != PostgresScheme by {
        assert r[..|PostgresScheme|][8] != PostgresScheme[8];
      }
    }
  }

  /** A missing or empty URL is an error; otherwise the connection takes
      host, user and password from the parsed normalised URL, the port from
      it unless that is absent or 0 (`parsed.port or 5432`), the database
      from its path without its leading slashes, and always sslmode
      `require`. */
  function ParseDatabaseUrl(url: Option<string>, urlparse: string -> UrlParts): (r: Result<ConnectionParams>)
    ensures r.Err? <==> url.None? || url.value == []
    ensures r.Err? ==> r.message == NoUrlMessage
    ensures r.Ok? ==>
      var parts := urlparse(NormalizeScheme(url.value));
      var db := r.value.database;
      && r.value.host == parts.hostname
      && r.value.user == parts.username
      && r.value.password == parts.password
      && r.value.sslmode == RequiredSslMode
      && r.value.port != 0
      && ((parts.port.None? || parts.port.value == 0) ==> r.value.port == DefaultPort)
      && (parts.port.Some? && parts.port.value != 0 ==> r.value.port == parts.port.value)
      && |db| <= |parts.path| && db == parts.path[|parts.path| - |db|..]
      && (forall k :: 0 <= k < |parts.path| - |db| ==> parts.path[k] == '/')
      && (db != [] ==> db[0] != '/')
  {
    if url.None? || url.value == [] then Err(NoUrlMessage)
    else
      var parts := urlparse(NormalizeScheme(url.value));
      var port := if parts.port.None? || parts.port.value == 0 then DefaultPort else parts.port.value;
      Ok(ConnectionParams(parts.hostname, port, LStrip(parts.path, '/'),
                          parts.username, parts.password, RequiredSslMode))
  }
}
