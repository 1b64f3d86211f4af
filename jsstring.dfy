/** The JavaScript string operations the mock server relies on, on `seq<char>`:
    `trim`, removing a leading run of slashes (`replace(/^\/+/, '')`), collapsing
    every run of two or more slashes into one (`replace(/\/{2,}/g, '/')`) and
    ASCII lower-casing. */
module JsString {

  /** The characters `String.prototype.trim` removes: ECMAScript WhiteSpace and
      LineTerminator code points. */
  predicate IsWhitespace(c: char) {
    var n := c as int;
    (0x09 <= n <= 0x0D) || n == 0x20 || n == 0xA0 || n == 0x1680
    || (0x2000 <= n <= 0x200A) || n == 0x2028 || n == 0x2029
    || n == 0x202F || n == 0x205F || n == 0x3000 || n == 0xFEFF
  }

  /** `r` is what is left of `s` after dropping some leading characters. */
  predicate IsSuffixOf(r: string, s: string) {
    |r| <= |s| && r == s[|s| - |r|..]
  }

  lemma SuffixOfSuffix(a: string, b: string, c: string)
    requires IsSuffixOf(a, b) && IsSuffixOf(b, c)
    ensures IsSuffixOf(a, c)
  {
    assert c[|c| - |b|..][|b| - |a|..] == c[|c| - |a|..];
  }

  /** A nonempty suffix ends where the whole string does. */
  lemma LastOfSuffix(r: string, s: string)
    requires IsSuffixOf(r, s) && r != []
    ensures s != [] && r[|r| - 1] == s[|s| - 1]
  {
    assert r[|r| - 1] == s[|s| - |r|..][|r| - 1];
  }

  function TrimStart(s: string): (r: string)
    ensures IsSuffixOf(r, s)
    ensures r == [] || !IsWhitespace(r[0])
    ensures s == [] || !IsWhitespace(s[0]) ==> r == s
  {
    if |s| > 0 && IsWhitespace(s[0]) then TrimStart(s[1..]) else s
  }

  function TrimEnd(s: string): (r: string)
    ensures r <= s
    ensures r == [] || !IsWhitespace(r[|r| - 1])
    ensures s == [] || !IsWhitespace(s[|s| - 1]) ==> r == s
  {
    if |s| > 0 && IsWhitespace(s[|s| - 1]) then TrimEnd(s[..|s| - 1]) else s
  }

  /** `String.prototype.trim`. */
  function Trim(s: string): (r: string)
    ensures r == [] || (!IsWhitespace(r[0]) && !IsWhitespace(r[|r| - 1]))
  {
    TrimEnd(TrimStart(s))
  }

  /** Every character of `w` is whitespace. */
  predicate AllWhitespace(w: string) {
    forall i :: 0 <= i < |w| ==> IsWhitespace(w[i])
  }

  /** `trimStart` removes only whitespace. */
  lemma {:induction false} TrimStartRemovesWhitespace(s: string)
    ensures AllWhitespace(s[..|s| - |TrimStart(s)|])
  {
    if |s| > 0 && IsWhitespace(s[0]) {
      var t := s[1..];
      TrimStartRemovesWhitespace(t);
      var k := |t| - |TrimStart(t)|;
      assert s[..k + 1] == [s[0]] + t[..k];
    } else {
      assert s[..0] == [];
    }
  }

  /** `trimEnd` removes only whitespace. */
  lemma {:induction false} TrimEndRemovesWhitespace(s: string)
    ensures AllWhitespace(s[|TrimEnd(s)|..])
  {
    if |s| > 0 && IsWhitespace(s[|s| - 1]) {
      var t := s[..|s| - 1];
      TrimEndRemovesWhitespace(t);
      var k := |TrimEnd(t)|;
      assert s[k..] == t[k..] + [s[|s| - 1]];
    } else {
      assert s[|s|..] == [];
    }
  }

  /** The trim is the slice `s[start..end]` of the input, and everything before
      and after that slice is whitespace. */
  lemma TrimRemovesOnlyWhitespace(s: string)
    ensures var start := |s| - |TrimStart(s)|;
      var end := start + |Trim(s)|;
      && end <= |s|
      && Trim(s) == s[start..end]
      && AllWhitespace(s[..start])
      && AllWhitespace(s[end..])
  {
    var t := TrimStart(s);
    var start := |s| - |t|;
    var r := TrimEnd(t);
    assert Trim(s) == r;
    TrimStartRemovesWhitespace(s);
    TrimEndRemovesWhitespace(t);
    assert t == s[start..];
    assert r == t[..|r|];
    assert t[..|r|] == s[start..start + |r|];
    assert t[|r|..] == s[start + |r|..];
  }

  /** A string that neither starts nor ends with whitespace is its own trim. */
  lemma TrimOfTrimmed(s: string)
    requires s == [] || (!IsWhitespace(s[0]) && !IsWhitespace(s[|s| - 1]))
    ensures Trim(s) == s
  {
  }

  /** `s.replace(/^\/+/, '')`. */
  function StripLeadingSlashes(s: string): (r: string)
    ensures IsSuffixOf(r, s)
    ensures r == [] || r[0] != '/'
  {
    if |s| > 0 && s[0] == '/' then StripLeadingSlashes(s[1..]) else s
  }

  /** Only slashes are removed. */
  lemma {:induction false} StripsOnlySlashes(s: string)
    ensures forall i :: 0 <= i < |s| - |StripLeadingSlashes(s)| ==> s[i] == '/'
  {
    if |s| > 0 && s[0] == '/' {
      var t := s[1..];
      StripsOnlySlashes(t);
      forall i | 0 < i < |s| - |StripLeadingSlashes(s)| ensures s[i] == '/' {
        assert s[i] == t[i - 1];
      }
    }
  }

  lemma StripLeadingSlashesNoop(s: string)
    requires s == [] || s[0] != '/'
    ensures StripLeadingSlashes(s) == s
  {
  }

  /** No two consecutive slashes anywhere in `s`. */
  predicate NoDoubleSlash(s: string) {
    |s| < 2 || (!(s[0] == '/' && s[1] == '/') && NoDoubleSlash(s[1..]))
  }

  /** `s.replace(/\/{2,}/g, '/')`: each run of slashes becomes a single slash.
      The first and last characters survive, and no `//` is left. */
  function CollapseSlashes(s: string): (r: string)
    ensures NoDoubleSlash(r)
    ensures |r| <= |s|
    ensures r == [] <==> s == []
    ensures r != [] ==> r[0] == s[0] && r[|r| - 1] == s[|s| - 1]
  {
    if |s| >= 2 && s[0] == '/' && s[1] == '/' then CollapseSlashes(s[1..])
    else if s == [] then []
    else [s[0]] + CollapseSlashes(s[1..])
  }

  /** Collapsing changes nothing in a string that has no `//`. */
  lemma {:induction false} CollapseNoop(s: string)
    requires NoDoubleSlash(s)
    ensures CollapseSlashes(s) == s
  {
    if s != [] {
      CollapseNoop(s[1..]);
      assert s == [s[0]] + s[1..];
    }
  }

  lemma CollapseIdempotent(s: string)
    ensures CollapseSlashes(CollapseSlashes(s)) == CollapseSlashes(s)
  {
    CollapseNoop(CollapseSlashes(s));
  }

  /** Collapsing after a slash swallows the slashes that follow it. */
  lemma {:induction false} CollapseAfterSlash(b: string)
    ensures CollapseSlashes("/" + b) == "/" + CollapseSlashes(StripLeadingSlashes(b))
  {
    if b != [] && b[0] == '/' {
      assert ("/" + b)[1..] == b == "/" + b[1..];
      CollapseAfterSlash(b[1..]);
    } else {
      assert ("/" + b)[1..] == b;
    }
  }

  /** A character that does not start a `//` is kept by collapsing. */
  lemma CollapseCons(c: char, s: string)
    requires !(c == '/' && s != [] && s[0] == '/')
    ensures CollapseSlashes([c] + s) == [c] + CollapseSlashes(s)
  {
    assert ([c] + s)[1..] == s;
  }

  /** A prefix free of `//` that ends in a slash passes through collapsing intact;
      the slashes at the start of what follows it are swallowed. */
  lemma {:induction false} CollapseJoin(p: string, b: string)
    requires p != [] && p[|p| - 1] == '/' && NoDoubleSlash(p)
    ensures CollapseSlashes(p + b) == p + CollapseSlashes(StripLeadingSlashes(b))
  {
    if |p| == 1 {
      assert p == "/";
      CollapseAfterSlash(b);
    } else {
      var t := p[1..];
      var rest := CollapseSlashes(StripLeadingSlashes(b));
      assert NoDoubleSlash(t);
      assert p == [p[0]] + t;
      calc {
        CollapseSlashes(p + b);
        { assert p + b == [p[0]] + (t + b); }
        CollapseSlashes([p[0]] + (t + b));
        { CollapseCons(p[0], t + b); }
        [p[0]] + CollapseSlashes(t + b);
        { CollapseJoin(t, b); }
        [p[0]] + (t + rest);
        p + rest;
      }
    }
  }

  /** Two strings without `//` join into one without `//`, unless the seam is a `//`. */
  lemma {:induction false} NoDoubleSlashAppend(a: string, b: string)
    requires NoDoubleSlash(a) && NoDoubleSlash(b)
    requires !(a != [] && b != [] && a[|a| - 1] == '/' && b[0] == '/')
    ensures NoDoubleSlash(a + b)
  {
    if |a| >= 1 {
      NoDoubleSlashAppend(a[1..], b);
      assert (a + b)[1..] == a[1..] + b;
      assert (a + b)[0] == a[0];
      if |a| == 1 {
        assert a[1..] + b == b;
      } else {
        assert (a + b)[1] == a[1];
      }
    } else {
      assert a + b == b;
    }
  }

  /** A string without slashes has no `//`. */
  lemma {:induction false} SlashFreeNoDoubleSlash(s: string)
    requires '/' !in s
    ensures NoDoubleSlash(s)
  {
    if |s| >= 2 {
      assert s[1..][0] == s[1];
      SlashFreeNoDoubleSlash(s[1..]);
    }
  }

  /** `String.prototype.toLowerCase` on ASCII letters. */
  function LowerChar(c: char): (r: char)
    ensures 'A' <= c <= 'Z' ==> r as int == c as int + 32
    ensures !('A' <= c <= 'Z') ==> r == c
  {
    if 'A' <= c <= 'Z' then (c as int + 32) as char else c
  }

  function ToLower(s: string): (r: string)
    ensures |r| == |s|
    ensures forall i :: 0 <= i < |s| ==> r[i] == LowerChar(s[i])
  {
    if s == [] then [] else [LowerChar(s[0])] + ToLower(s[1..])
  }

  /** `s.split(sep, 1)[0]`: the text before the first `sep`, or all of `s`. */
  function BeforeFirst(s: string, sep: char): (r: string)
    ensures r <= s
    ensures sep !in r
    ensures |r| < |s| ==> s[|r|] == sep
  {
    if s == [] then [] else if s[0] == sep then [] else [s[0]] + BeforeFirst(s[1..], sep)
  }

  /** Whatever follows the first separator does not change what precedes it. */
  lemma {:induction false} BeforeFirstAppend(x: string, sep: char, rest: string)
    ensures BeforeFirst(x + [sep] + rest, sep) == BeforeFirst(x, sep)
  {
    if x != [] {
      assert (x + [sep] + rest)[1..] == x[1..] + [sep] + rest;
      BeforeFirstAppend(x[1..], sep, rest);
    }
  }

  /** Without a separator the head is all of the text. */
  lemma BeforeFirstAbsent(s: string, sep: char)
    requires sep !in s
    ensures BeforeFirst(s, sep) == s
  {
  }

  /** `s.split(sep)`: the pieces between occurrences of `sep`, never empty. */
  function SplitOn(s: string, sep: char): (r: seq<string>)
    ensures |r| > 0
    ensures r[0] == BeforeFirst(s, sep)
    ensures forall i :: 0 <= i < |r| ==> sep !in r[i]
    ensures |r| == 1 <==> sep !in s
  {
    var head := BeforeFirst(s, sep);
    if |head| == |s| then [s] else [head] + SplitOn(s[|head| + 1..], sep)
  }

  /** `pieces.join(sep)`. */
  function Join(pieces: seq<string>, sep: char): string {
    if pieces == [] then []
    else if |pieces| == 1 then pieces[0]
    else pieces[0] + [sep] + Join(pieces[1..], sep)
  }

  /** Splitting loses nothing: joining the pieces with the separator gives the
      text back. */
  lemma {:induction false} JoinSplit(s: string, sep: char)
    ensures Join(SplitOn(s, sep), sep) == s
    decreases |s|
  {
    var head := BeforeFirst(s, sep);
    if |head| < |s| {
      var rest := s[|head| + 1..];
      assert s == head + [sep] + rest;
      SplitOnStep(head, sep, rest);
      JoinSplit(rest, sep);
      JoinCons(head, SplitOn(rest, sep), sep);
    } else {
      assert head == s;
    }
  }

  lemma JoinCons(piece: string, pieces: seq<string>, sep: char)
    requires pieces != []
    ensures Join([piece] + pieces, sep) == piece + [sep] + Join(pieces, sep)
  {
    assert ([piece] + pieces)[1..] == pieces;
  }

  /** A text without the separator is a single piece. */
  lemma SplitOnSingle(a: string, sep: char)
    requires sep !in a
    ensures SplitOn(a, sep) == [a]
  {
    BeforeFirstAbsent(a, sep);
  }

  /** The first piece is the text before the first separator, and the others are
      the pieces of what follows it. */
  lemma SplitOnStep(a: string, sep: char, b: string)
    requires sep !in a
    ensures SplitOn(a + [sep] + b, sep) == [a] + SplitOn(b, sep)
  {
    var s := a + [sep] + b;
    BeforeFirstAppend(a, sep, b);
    BeforeFirstAbsent(a, sep);
    assert s[|a| + 1..] == b;
  }
}
