/** `ConfigManager.parse_uri_spec`: the `user:password@host` micro-parser. */
module UriParsing {
  import opened Results
  import opened PyText
  import opened ConfigValues

  /** The text a spec is written as: `user:password@host`. */
  function Format(u: UriSpec): string {
    u.user + ":" + u.password + "@" + u.host
  }

  /**
   * The specs that can be written down and read back: no `@` anywhere before the
   * host's own text, no `:` in user or password. The host may contain `:`.
   */
  predicate WellFormed(u: UriSpec) {
    && '@' !in u.user && ':' !in u.user
    && '@' !in u.password && ':' !in u.password
    && '@' !in u.host
  }

  /**
   * Splits on `@` into exactly two parts, then the first part on `:` into exactly
   * two parts; any other count raises `InvalidUriSpec`. What it returns is a
   * well-formed spec that is written exactly as the input.
   */
  function ParseUriSpec(uriSpec: string): (r: Result<UriSpec, Error>)
    ensures r.Ok? ==> WellFormed(r.value) && Format(r.value) == uriSpec
    ensures r.Err? ==> r.error == InvalidUriSpec(uriSpec)
  {
    var parts := Split(uriSpec, '@');
    if |parts| != 2 then Err(InvalidUriSpec(uriSpec))
    else
      var userPass := Split(parts[0], ':');
      if |userPass| != 2 then Err(InvalidUriSpec(uriSpec))
      else
        var u := UriSpec(userPass[0], userPass[1], parts[1]);
        assert WellFormed(u) && Format(u) == uriSpec by {
          JoinTwo(parts, '@');
          JoinTwo(userPass, ':');
          assert userPass[0] in userPass && userPass[1] in userPass;
          assert parts[0] in parts && parts[1] in parts;
          assert parts[0] == userPass[0] + [':'] + userPass[1];
        }
        Ok(u)
  }

  /** Every well-formed spec is read back from its text. */
  lemma ParseFormat(u: UriSpec)
    requires WellFormed(u)
    ensures ParseUriSpec(Format(u)) == Ok(u)
  {
    var userPass := u.user + ":" + u.password;
    assert Format(u) == userPass + ['@'] + u.host;
    SplitAfterPiece(userPass, '@', u.host);
    SplitNoSep(u.host, '@');
    assert userPass == u.user + [':'] + u.password;
    SplitAfterPiece(u.user, ':', u.password);
    SplitNoSep(u.password, ':');
  }

  /** Parsing succeeds exactly on the texts of well-formed specs. */
  lemma ParseSucceedsIff(s: string)
    ensures ParseUriSpec(s).Ok? <==> exists u :: WellFormed(u) && Format(u) == s
  {
    if exists u :: WellFormed(u) && Format(u) == s {
      var u :| WellFormed(u) && Format(u) == s;
      ParseFormat(u);
    }
  }

  /**
   * Parsing succeeds exactly when the text holds one "@" and the part before it
   * holds one ":".
   */
  lemma ParseSucceedsIffCounts(s: string)
    ensures ParseUriSpec(s).Ok? <==>
      Occurrences(s, '@') == 1 && Occurrences(Split(s, '@')[0], ':') == 1
  {
    SplitCount(s, '@');
    SplitCount(Split(s, '@')[0], ':');
  }

  /** The host is everything after the "@", so it may hold a ":" (a port). */
  lemma HostMayHoldColon()
    ensures ParseUriSpec("user:pass@db:5432") == Ok(UriSpec("user", "pass", "db:5432"))
  {
    var u := UriSpec("user", "pass", "db:5432");
    assert WellFormed(u);
    assert Format(u) == "user:pass@db:5432";
    ParseFormat(u);
  }

  /** A text with no "@" or with more than one is rejected. */
  lemma AtCountRejected(s: string)
    requires Occurrences(s, '@') != 1
    ensures ParseUriSpec(s) == Err(InvalidUriSpec(s))
  {
    SplitCount(s, '@');
  }

  /** A text without a ":" is rejected: a spec always has one between user and password. */
  lemma NoColonRejected(s: string)
    requires ':' !in s
    ensures ParseUriSpec(s) == Err(InvalidUriSpec(s))
  {
  }
}
