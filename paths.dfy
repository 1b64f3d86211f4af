/** Path normalisation into the two mock namespaces (server.js `normalizeTestPath`
    and `normalizeWsPath`): HTTP mocks live under `/test/`, WebSocket mocks under
    `/testws/`. Both functions run the same steps with a different root, so the
    steps are defined once for any root `"/" + marker`. */
module Paths {
  import opened Wrappers
  import opened JsString

  datatype PathKind = Http | WebSocket

  /** The literal that is stripped when the input already carries the root. */
  function Marker(kind: PathKind): string {
    match kind
    case Http => "test/"
    case WebSocket => "testws/"
  }

  /** The canonical root of a namespace: `/test/` or `/testws/`. */
  function Root(kind: PathKind): string {
    "/" + Marker(kind)
  }

  /** What the algorithm needs of a marker: it is not empty, does not start with a
      slash, ends with one, and its root contains no `//`. */
  predicate GoodMarker(m: string) {
    m != [] && m[0] != '/' && m[|m| - 1] == '/' && NoDoubleSlash("/" + m)
  }

  lemma MarkerIsGood(kind: PathKind)
    ensures GoodMarker(Marker(kind))
  {
    var w := if kind == Http then "test" else "testws";
    assert Marker(kind) == w + "/";
    SlashFreeNoDoubleSlash(w);
    NoDoubleSlashAppend("/", w);
    NoDoubleSlashAppend("/" + w, "/");
    assert "/" + Marker(kind) == "/" + w + "/";
  }

  /** The part of the input that ends up under the root: trimmed, leading slashes
      dropped, one leading marker dropped, leading slashes dropped again. */
  function SuffixUnder(raw: string, m: string): (r: string)
    ensures r == [] || r[0] != '/'
    ensures IsSuffixOf(r, Trim(raw))
  {
    var trimmed := Trim(raw);
    var cleaned := StripLeadingSlashes(trimmed);
    var withoutPrefix := if m <= cleaned then cleaned[|m|..] else cleaned;
    assert IsSuffixOf(withoutPrefix, cleaned);
    var r := StripLeadingSlashes(withoutPrefix);
    SuffixOfSuffix(r, withoutPrefix, cleaned);
    SuffixOfSuffix(r, cleaned, trimmed);
    r
  }

  /** The normalisation steps for the root `"/" + m`: the suffix is appended to the
      root and every run of slashes is collapsed; this leaves the root intact. */
  function NormalizeUnder(raw: string, m: string): (r: string)
    requires GoodMarker(m)
    ensures r == "/" + m + CollapseSlashes(SuffixUnder(raw, m))
    ensures NoDoubleSlash(r)
  {
    var s := SuffixUnder(raw, m);
    CollapseJoin("/" + m, s);
    StripLeadingSlashesNoop(s);
    CollapseSlashes("/" + m + s)
  }

  /** A root followed by text that does not end in whitespace is its own trim. */
  lemma RootedIsTrimmed(m: string, c: string)
    requires GoodMarker(m)
    requires c == [] || !IsWhitespace(c[|c| - 1])
    ensures Trim("/" + m + c) == "/" + m + c
  {
    var out := "/" + m + c;
    assert out[0] == '/';
    assert out[|out| - 1] == if c == [] then m[|m| - 1] else c[|c| - 1];
    TrimOfTrimmed(out);
  }

  /** Normalising a root followed by text that does not start with a slash and
      does not end in whitespace yields that text as its suffix. */
  lemma SuffixOfRooted(m: string, c: string)
    requires GoodMarker(m)
    requires c == [] || (c[0] != '/' && !IsWhitespace(c[|c| - 1]))
    ensures SuffixUnder("/" + m + c, m) == c
  {
    var out := "/" + m + c;
    RootedIsTrimmed(m, c);
    assert out[1..] == m + c;
    StripLeadingSlashesNoop(m + c);
    assert m <= m + c && (m + c)[|m|..] == c;
    StripLeadingSlashesNoop(c);
  }

  /** The suffix of a normalised path is its own collapsed suffix. */
  lemma SuffixOfNormalized(raw: string, m: string)
    requires GoodMarker(m)
    ensures SuffixUnder(NormalizeUnder(raw, m), m) == CollapseSlashes(SuffixUnder(raw, m))
  {
    var s := SuffixUnder(raw, m);
    var c := CollapseSlashes(s);
    if s != [] {
      var t := Trim(raw);
      LastOfSuffix(s, t);
      assert c[|c| - 1] == t[|t| - 1];
    }
    SuffixOfRooted(m, c);
  }

  lemma NormalizeUnderIdempotent(raw: string, m: string)
    requires GoodMarker(m)
    ensures NormalizeUnder(NormalizeUnder(raw, m), m) == NormalizeUnder(raw, m)
  {
    SuffixOfNormalized(raw, m);
    CollapseIdempotent(SuffixUnder(raw, m));
  }

  /** `normalizeTestPath` (kind Http) and `normalizeWsPath` (kind WebSocket).
      `None` stands for `null`/`undefined`, the only inputs that yield `null`.
      Otherwise the result carries the root, has no `//`, and is the root itself
      when nothing is left of the input once the root and slashes are removed. */
  function Normalize(raw: Option<string>, kind: PathKind): (r: Option<string>)
    ensures r.None? <==> raw.None?
    ensures r.Some? ==> Root(kind) <= r.value && NoDoubleSlash(r.value)
    ensures r.Some? && SuffixUnder(raw.value, Marker(kind)) == [] ==> r.value == Root(kind)
  {
    if raw.None? then None
    else
      MarkerIsGood(kind);
      Some(NormalizeUnder(raw.value, Marker(kind)))
  }

  function NormalizeTestPath(raw: Option<string>): Option<string> {
    Normalize(raw, Http)
  }

  function NormalizeWsPath(raw: Option<string>): Option<string> {
    Normalize(raw, WebSocket)
  }

  /** Normalising a normalised path changes nothing. */
  lemma NormalizeIdempotent(raw: Option<string>, kind: PathKind)
    ensures Normalize(Normalize(raw, kind), kind) == Normalize(raw, kind)
  {
    if raw.Some? {
      MarkerIsGood(kind);
      NormalizeUnderIdempotent(raw.value, Marker(kind));
    }
  }
}
