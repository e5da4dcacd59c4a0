/**
 Selection and normalisation of the database connection string
 (database.py, lines 4-10). The environment lookup is an `Option<string>`
 argument; the engine built from the URL is not modelled.
 */
module DatabaseUrl {
  import opened Wrappers

  const SqliteFileName: string := "gymprogress.db"

  /** The local file-backed default, `sqlite:///` followed by the file name. */
  const SqliteUrl: string := "sqlite:///" + SqliteFileName

  const PostgresScheme: string := "postgres://"
  const PostgresqlScheme: string := "postgresql://"

  /** Python's `str.startswith`. */
  predicate StartsWith(s: string, prefix: string)
    ensures StartsWith(s, prefix) <==>
              |prefix| <= |s| && forall i :: 0 <= i < |prefix| ==> s[i] == prefix[i]
  {
    |prefix| <= |s| && s[..|prefix|] == prefix
  }

  /** `pat` occurs in `s` at position `i`. */
  predicate OccursAt(s: string, pat: string, i: int) {
    0 <= i && i + |pat| <= |s| && s[i..i + |pat|] == pat
  }

  /** Search for `pat` in `s` from position `from` onwards. */
  function FindFrom(s: string, pat: string, from: nat): (r: Option<nat>)
    requires from <= |s| + 1
    ensures r.Some? ==> from <= r.value && OccursAt(s, pat, r.value)
    ensures r.Some? ==> forall j :: from <= j < r.value ==> !OccursAt(s, pat, j)
    ensures r.None? ==> forall j :: from <= j ==> !OccursAt(s, pat, j)
    decreases |s| + 1 - from
  {
    if from + |pat| > |s| then None
    else if s[from..from + |pat|] == pat then Some(from)
    else FindFrom(s, pat, from + 1)
  }

  /** Python's `str.find`: the lowest index at which `pat` occurs, if any. */
  function FindFirst(s: string, pat: string): (r: Option<nat>)
    ensures r.Some? ==> OccursAt(s, pat, r.value)
    ensures r.Some? ==> forall j :: 0 <= j < r.value ==> !OccursAt(s, pat, j)
    ensures r.None? <==> forall j :: !OccursAt(s, pat, j)
  {
    FindFrom(s, pat, 0)
  }

  /** Python's `s.replace(old, new, 1)`: replace the first occurrence only. */
  function ReplaceOnce(s: string, target: string, replacement: string): (r: string)
    ensures (forall j :: !OccursAt(s, target, j)) ==> r == s
    ensures forall i :: OccursAt(s, target, i) && (forall j :: 0 <= j < i ==> !OccursAt(s, target, j)) ==>
              r == s[..i] + replacement + s[i + |target|..]
  {
    match FindFirst(s, target)
    case None => s
    case Some(i) => s[..i] + replacement + s[i + |target|..]
  }

  /** When `s` starts with `target`, the first occurrence is the prefix itself. */
  lemma ReplaceOnceAtStart(s: string, target: string, replacement: string)
    requires StartsWith(s, target)
    ensures ReplaceOnce(s, target, replacement) == replacement + s[|target|..]
  {
  }

  /** The `DATABASE_URL` lookup, defaulting to `SqliteUrl`. */
  function SelectUrl(env: Option<string>): (url: string)
    ensures env.None? ==> url == "sqlite:///gymprogress.db"
    ensures env.Some? ==> url == env.value
  {
    match env
    case None => SqliteUrl
    case Some(v) => v
  }

  /**
   The rewrite of database.py lines 9-10: a non-empty URL that starts with
   `postgres://` has that first occurrence replaced by `postgresql://`.
   */
  function Normalize(url: string): (r: string)
    ensures StartsWith(url, "postgres://") ==> r == "postgresql://" + url[11..]
    ensures !StartsWith(url, "postgres://") ==> r == url
    ensures StartsWith(url, "postgres://") ==> |r| == |url| + 2
    ensures !StartsWith(r, "postgres://")
  {
    if url != "" && StartsWith(url, PostgresScheme) then
      ReplaceOnceAtStart(url, PostgresScheme, PostgresqlScheme);
      var r := ReplaceOnce(url, PostgresScheme, PostgresqlScheme);
      assert r[..|PostgresScheme|][8] == 'q';
      r
    else
      url
  }

  /** The truthiness test `db_url and` adds nothing: the empty URL cannot start with the scheme. */
  lemma EmptyUrlUnchanged()
    ensures !StartsWith("", PostgresScheme)
    ensures Normalize("") == ""
  {
  }

  /** Normalisation is idempotent. */
  lemma NormalizeIdempotent(url: string)
    ensures Normalize(Normalize(url)) == Normalize(url)
  {
  }

  /** The URL handed to `create_engine` (database.py lines 4-10). */
  function ResolveDatabaseUrl(env: Option<string>): (url: string)
    ensures env.None? ==> url == "sqlite:///gymprogress.db"
    ensures env.Some? && StartsWith(env.value, "postgres://") ==>
              url == "postgresql://" + env.value[11..]
    ensures env.Some? && !StartsWith(env.value, "postgres://") ==> url == env.value
    ensures !StartsWith(url, "postgres://")
  {
    assert SqliteUrl[..11][0] == 's';
    Normalize(SelectUrl(env))
  }
}
