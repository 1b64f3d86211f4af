/** The two path helpers of the web UI (src/App.jsx): `buildUserPath` turns the
    form's suffix field into a full mock path under the user's own folder
    `/test/<userId>/`, and `extractUserSuffix` recovers the suffix shown in the
    field from a stored path. The user id is matched literally; ids are uuids, so
    they contain no slash and no regular-expression metacharacter. */
module UserPaths {
  import opened JsString
  import opened Paths

  const DEFAULT_SUFFIX: string := "hello"

  /** Neither end is whitespace: the string is its own trim. */
  predicate IsTrimmed(s: string) {
    s == [] || (!IsWhitespace(s[0]) && !IsWhitespace(s[|s| - 1]))
  }

  /** `/test/<userId>`, the head that `extractUserSuffix` removes. */
  function UserHead(userId: string): string {
    Root(Http) + userId
  }

  /** `/test/<userId>/`, the user's own folder. */
  function UserRoot(userId: string): string {
    UserHead(userId) + "/"
  }

  /** What a well-formed user id is: a non-empty text without slashes. */
  predicate PlainUserId(userId: string) {
    userId != "" && '/' !in userId
  }

  /** A folder the algorithm can work under: it starts and ends with a slash and
      contains no `//`. */
  predicate GoodRoot(p: string) {
    p != [] && p[0] == '/' && p[|p| - 1] == '/' && NoDoubleSlash(p)
  }

  /** A plain user id gives a good folder. */
  lemma UserRootIsGood(userId: string)
    requires PlainUserId(userId)
    ensures GoodRoot(UserRoot(userId))
  {
    MarkerIsGood(Http);
    SlashFreeNoDoubleSlash(userId);
    NoDoubleSlashAppend(Root(Http), userId);
    assert NoDoubleSlash("/");
    NoDoubleSlashAppend(UserHead(userId), "/");
    assert UserRoot(userId)[0] == Root(Http)[0] == '/';
  }

  /** The steps of `buildUserPath` below the user check, for a trimmed input
      `raw` and the user's folder `p`. */
  function BuildUnder(raw: string, p: string): (r: string)
    ensures NoDoubleSlash(r)
    ensures r != []
  {
    if p <= raw && p != [] then CollapseSlashes(raw)
    else
      var cleaned := StripLeadingSlashes(raw);
      CollapseSlashes(p + (if cleaned == "" then DEFAULT_SUFFIX else cleaned))
  }

  /** `buildUserPath(suffixOrFull, userId)`.
      - no user yet: `/test/hello`, whatever the input;
      - the trimmed input already under `/test/<userId>/`: that input with slash
        runs collapsed;
      - otherwise `/test/<userId>/`, then the input without leading slashes (or
        `hello` when nothing is left), slash runs collapsed.
      In every case the result has no `//`. */
  function BuildUserPath(suffixOrFull: string, userId: string): (r: string)
    ensures NoDoubleSlash(r)
    ensures userId == "" ==> r == Root(Http) + DEFAULT_SUFFIX
    ensures userId != "" && UserRoot(userId) <= Trim(suffixOrFull) ==> r == CollapseSlashes(Trim(suffixOrFull))
    ensures userId != "" && !(UserRoot(userId) <= Trim(suffixOrFull)) ==>
      var cleaned := StripLeadingSlashes(Trim(suffixOrFull));
      r == CollapseSlashes(UserRoot(userId) + (if cleaned == "" then DEFAULT_SUFFIX else cleaned))
  {
    if userId == "" then
      MarkerIsGood(Http);
      SlashFreeNoDoubleSlash(DEFAULT_SUFFIX);
      NoDoubleSlashAppend(Root(Http), DEFAULT_SUFFIX);
      Root(Http) + DEFAULT_SUFFIX
    else
      BuildUnder(Trim(suffixOrFull), UserRoot(userId))
  }

  /** `normalizeTestPath(raw, userId)` in the UI is only another name for `buildUserPath`. */
  function NormalizeUserPath(raw: string, userId: string): string {
    BuildUserPath(raw, userId)
  }

  /** Collapsing a good folder followed by a tail keeps the folder in front and
      the tail's last character at the end. */
  lemma CollapseUnder(p: string, tail: string)
    requires GoodRoot(p)
    requires tail == [] || !IsWhitespace(tail[|tail| - 1])
    ensures p <= CollapseSlashes(p + tail)
    ensures IsTrimmed(CollapseSlashes(p + tail))
  {
    CollapseJoin(p, tail);
    var s := p + tail;
    assert s[0] == '/';
    assert s[|s| - 1] == if tail == [] then p[|p| - 1] else tail[|tail| - 1];
  }

  lemma DefaultSuffixIsTrimmed()
    ensures DEFAULT_SUFFIX != [] && !IsWhitespace(DEFAULT_SUFFIX[|DEFAULT_SUFFIX| - 1])
  {
    assert DEFAULT_SUFFIX[4] == 'o';
  }

  /** Under a good folder the result lies in that folder and is already trimmed:
      it starts with a slash and ends with what the input or `hello` ends with. */
  lemma BuildUnderShape(raw: string, p: string)
    requires GoodRoot(p) && IsTrimmed(raw)
    ensures p <= BuildUnder(raw, p)
    ensures IsTrimmed(BuildUnder(raw, p))
  {
    if p <= raw {
      var tail := raw[|p|..];
      assert raw == p + tail;
      CollapseUnder(p, tail);
    } else {
      var cleaned := StripLeadingSlashes(raw);
      if cleaned == "" {
        DefaultSuffixIsTrimmed();
        CollapseUnder(p, DEFAULT_SUFFIX);
      } else {
        assert cleaned[|cleaned| - 1] == raw[|raw| - 1];
        CollapseUnder(p, cleaned);
      }
    }
  }

  /** For a plain user id the result lies in `/test/<userId>/` and is already trimmed. */
  lemma BuildUserPathShape(suffixOrFull: string, userId: string)
    requires PlainUserId(userId)
    ensures UserRoot(userId) <= BuildUserPath(suffixOrFull, userId)
    ensures Trim(BuildUserPath(suffixOrFull, userId)) == BuildUserPath(suffixOrFull, userId)
  {
    var raw, p := Trim(suffixOrFull), UserRoot(userId);
    UserRootIsGood(userId);
    assert IsTrimmed(raw);
    BuildUnderShape(raw, p);
    var r := BuildUserPath(suffixOrFull, userId);
    assert r == BuildUnder(raw, p);
    TrimOfTrimmed(r);
  }

  /** For a plain user id a second call changes nothing: the first result is
      already in the user's folder, trimmed, and free of `//`. */
  lemma BuildUserPathIdempotent(suffixOrFull: string, userId: string)
    requires PlainUserId(userId)
    ensures BuildUserPath(BuildUserPath(suffixOrFull, userId), userId) == BuildUserPath(suffixOrFull, userId)
  {
    var r := BuildUserPath(suffixOrFull, userId);
    BuildUserPathShape(suffixOrFull, userId);
    CollapseNoop(r);
  }

  /** Drops `head` from the start of `path` if it is there, then one slash if
      there is one, then any further leading slashes. */
  function DropHead(path: string, head: string): (r: string)
    ensures r == [] || r[0] != '/'
    ensures IsSuffixOf(r, path)
  {
    var rest := if head <= path then path[|head|..] else path;
    var rest' := if rest != [] && rest[0] == '/' then rest[1..] else rest;
    var r := StripLeadingSlashes(rest');
    assert IsSuffixOf(rest, path);
    assert IsSuffixOf(rest', rest);
    SuffixOfSuffix(r, rest', rest);
    SuffixOfSuffix(r, rest, path);
    r
  }

  /** `extractUserSuffix(path, userId)`: empty when either is empty; otherwise the
      path without a leading `/test/<userId>` and one optional slash, and then
      without any slashes left at its start. */
  function ExtractUserSuffix(path: string, userId: string): (r: string)
    ensures path == "" || userId == "" ==> r == ""
    ensures r == [] || r[0] != '/'
    ensures IsSuffixOf(r, path)
  {
    if path == "" || userId == "" then "" else DropHead(path, UserHead(userId))
  }

  /** A suffix without leading slash or `//` is put under a good folder as it is. */
  lemma BuildUnderPlainSuffix(suffix: string, p: string)
    requires GoodRoot(p)
    requires suffix != "" && suffix[0] != '/' && NoDoubleSlash(suffix)
    ensures BuildUnder(suffix, p) == p + suffix
  {
    StripLeadingSlashesNoop(suffix);
    assert !(p <= suffix) by {
      assert p[0] == '/';
    }
    CollapseJoin(p, suffix);
    CollapseNoop(suffix);
  }

  /** Dropping a head followed by one slash leaves what follows the slash. */
  lemma DropHeadOfJoined(head: string, suffix: string)
    requires suffix == "" || suffix[0] != '/'
    ensures DropHead(head + "/" + suffix, head) == suffix
  {
    var path := head + "/" + suffix;
    assert head <= path;
    assert path[|head|..] == "/" + suffix;
    assert ("/" + suffix)[1..] == suffix;
    StripLeadingSlashesNoop(suffix);
  }

  /** What the form keeps in its suffix field survives a build and an extract:
      a trimmed, non-empty suffix with no leading slash and no `//`, under a
      plain user id. */
  lemma RoundTrip(suffix: string, userId: string)
    requires PlainUserId(userId)
    requires suffix != "" && IsTrimmed(suffix) && suffix[0] != '/' && NoDoubleSlash(suffix)
    ensures ExtractUserSuffix(BuildUserPath(suffix, userId), userId) == suffix
  {
    UserRootIsGood(userId);
    TrimOfTrimmed(suffix);
    BuildUnderPlainSuffix(suffix, UserRoot(userId));
    DropHeadOfJoined(UserHead(userId), suffix);
  }
}
