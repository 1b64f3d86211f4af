/** Small request helpers of server.js: the client address behind a proxy and
    the cookie header parser used to identify a WebSocket client. */
module Requests {
  import opened Wrappers
  import opened JsString

  const USER_COOKIE: string := "x-user-id"
  const GUEST: string := "guest"

  /** `getClientIp`: the first entry of a non-empty `x-forwarded-for`, trimmed;
      otherwise a non-empty `x-real-ip`, trimmed; otherwise `fallback` (the
      framework's own address for the request). */
  function ClientIp(forwardedFor: Option<string>, realIp: Option<string>, fallback: string): (r: string)
    ensures forwardedFor.Some? && forwardedFor.value != "" ==>
      r == Trim(SplitOn(forwardedFor.value, ',')[0])
    ensures !(forwardedFor.Some? && forwardedFor.value != "") && realIp.Some? && realIp.value != "" ==>
      r == Trim(realIp.value)
    ensures !(forwardedFor.Some? && forwardedFor.value != "") && !(realIp.Some? && realIp.value != "") ==>
      r == fallback
  {
    if forwardedFor.Some? && forwardedFor.value != "" then Trim(SplitOn(forwardedFor.value, ',')[0])
    else if realIp.Some? && realIp.value != "" then Trim(realIp.value)
    else fallback
  }

  /** The hop nearest to the client wins: whatever proxies appended after the
      first comma does not change the answer. */
  lemma ClientIpIsFirstHop(client: string, rest: string, realIp: Option<string>, fallback: string)
    requires ',' !in client
    ensures ClientIp(Some(client + [','] + rest), realIp, fallback) == Trim(client)
  {
    var header := client + [','] + rest;
    assert header != "";
    BeforeFirstAppend(client, ',', rest);
    assert SplitOn(header, ',')[0] == BeforeFirst(client, ',');
    assert BeforeFirst(client, ',') == client;
  }

  /** One `;`-separated piece, split at `=`: its key, and its raw value if it has one. */
  datatype Pair = Pair(key: string, value: Option<string>)

  /** `pair.trim().split('=')`: the key is the text before the first `=`, the value
      the text between the first and the second `=` (`undefined` without any `=`). */
  function PairOf(piece: string): (r: Pair)
    ensures r.key == BeforeFirst(Trim(piece), '=')
    ensures r.value.Some? ==> '=' !in r.value.value
    ensures r.value.None? <==> '=' !in Trim(piece)
  {
    var parts := SplitOn(Trim(piece), '=');
    Pair(parts[0], if |parts| >= 2 then Some(parts[1]) else None)
  }

  /** The one key a plain object literal does not store: assigning to it calls
      the `Object.prototype` accessor, which ignores a string value. */
  const PROTO_KEY: string := "__proto__"

  /** A pair sets cookie `k` when its key is `k`, `k` is non-empty and not
      `__proto__`, and it has a value. */
  predicate Defines(p: Pair, k: string) {
    k != "" && k != PROTO_KEY && p.key == k && p.value.Some?
  }

  /** The `reduce` of `parseCookies` over the pairs into `{}`, with
      `decodeURIComponent` as the parameter `decode`: a later pair overwrites an
      earlier one, and a `__proto__` pair leaves the object as it was. */
  function Collect(pairs: seq<Pair>, decode: string -> string): (r: map<string, string>)
    ensures forall k :: k in r ==> k != "" && k != PROTO_KEY
  {
    if pairs == [] then map[]
    else
      var acc := Collect(pairs[..|pairs| - 1], decode);
      var last := pairs[|pairs| - 1];
      if last.key != "" && last.key != PROTO_KEY && last.value.Some? then
        acc[last.key := decode(last.value.value)]
      else acc
  }

  /** A cookie is parsed exactly when some pair sets it. */
  lemma {:induction false} CollectKeys(pairs: seq<Pair>, decode: string -> string, k: string)
    ensures k in Collect(pairs, decode) <==> exists i :: 0 <= i < |pairs| && Defines(pairs[i], k)
  {
    if pairs != [] {
      var init := pairs[..|pairs| - 1];
      CollectKeys(init, decode, k);
      assert forall i :: 0 <= i < |init| ==> init[i] == pairs[i];
    }
  }

  /** Pair `i` sets `k` and no later pair does. */
  predicate IsLastSetter(pairs: seq<Pair>, i: nat, k: string)
    requires i < |pairs|
  {
    Defines(pairs[i], k) && forall j :: i < j < |pairs| ==> !Defines(pairs[j], k)
  }

  /** Pair `i` is the last one to set `k`, and the parsed value is its decoded value. */
  predicate LastValue(pairs: seq<Pair>, decode: string -> string, i: int, k: string) {
    0 <= i < |pairs| && IsLastSetter(pairs, i, k)
    && k in Collect(pairs, decode)
    && Collect(pairs, decode)[k] == decode(pairs[i].value.value)
  }

  /** The stored value of a cookie is the decoded value of the last pair that sets it. */
  lemma {:induction false} LastPairWins(pairs: seq<Pair>, decode: string -> string, k: string)
    requires k in Collect(pairs, decode)
    ensures exists i :: LastValue(pairs, decode, i, k)
  {
    var init := pairs[..|pairs| - 1];
    var last := pairs[|pairs| - 1];
    if Defines(last, k) {
      assert LastValue(pairs, decode, |pairs| - 1, k);
    } else {
      assert k in Collect(init, decode);
      LastPairWins(init, decode, k);
      var i :| LastValue(init, decode, i, k);
      assert pairs[i] == init[i];
      forall j | i < j < |pairs| ensures !Defines(pairs[j], k) {
        if j < |pairs| - 1 {
          assert pairs[j] == init[j];
        }
      }
      assert LastValue(pairs, decode, i, k);
    }
  }

  /** `xs.map(f)`. */
  function MapEach<A, B>(f: A -> B, xs: seq<A>): (r: seq<B>)
    ensures |r| == |xs|
  {
    if xs == [] then [] else [f(xs[0])] + MapEach(f, xs[1..])
  }

  lemma {:induction false} MapEachAt<A, B>(f: A -> B, xs: seq<A>, i: nat)
    requires i < |xs|
    ensures MapEach(f, xs)[i] == f(xs[i])
  {
    if i > 0 {
      MapEachAt(f, xs[1..], i - 1);
      assert xs[1..][i - 1] == xs[i];
    }
  }

  lemma MapEachCons<A, B>(f: A -> B, x: A, xs: seq<A>)
    ensures MapEach(f, [x] + xs) == [f(x)] + MapEach(f, xs)
  {
    var all := [x] + xs;
    assert all[0] == x && all[1..] == xs;
  }

  function Pairs(header: string): (r: seq<Pair>)
    ensures |r| == |SplitOn(header, ';')|
    ensures forall i :: 0 <= i < |r| ==> r[i] == PairOf(SplitOn(header, ';')[i])
  {
    var pieces := SplitOn(header, ';');
    assert forall i :: 0 <= i < |pieces| ==> MapEach(PairOf, pieces)[i] == PairOf(pieces[i]) by {
      forall i | 0 <= i < |pieces| ensures MapEach(PairOf, pieces)[i] == PairOf(pieces[i]) {
        MapEachAt(PairOf, pieces, i);
      }
    }
    MapEach(PairOf, pieces)
  }

  /** A header without `;` is one pair. */
  lemma PairsSingle(a: string)
    requires ';' !in a
    ensures Pairs(a) == [PairOf(a)]
  {
    SplitOnSingle(a, ';');
  }

  /** The pairs of a header are the pair before its first `;`, then the pairs of
      the text after it. */
  lemma PairsStep(a: string, b: string)
    requires ';' !in a
    ensures Pairs(a + ";" + b) == [PairOf(a)] + Pairs(b)
  {
    SplitOnStep(a, ';', b);
    MapEachCons(PairOf, a, SplitOn(b, ';'));
  }

  /** `parseCookies(header)`, the missing header being `''`. */
  function ParseCookies(header: Option<string>, decode: string -> string): (r: map<string, string>)
    ensures forall k :: k in r ==> k != "" && k != PROTO_KEY
    ensures header.None? ==> r == map[]
  {
    var text := if header.Some? then header.value else "";
    var pairs := Pairs(text);
    if header.None? then
      assert SplitOn(text, ';') == [""];
      assert pairs == [PairOf("")];
      assert Trim("") == "";
      assert PairOf("").key == "";
      assert pairs[..0] == [];
      assert Collect(pairs, decode) == Collect(pairs[..0], decode);
      Collect(pairs, decode)
    else Collect(pairs, decode)
  }

  /** `cookies[USER_COOKIE] || 'guest'`. */
  function CookieUser(header: Option<string>, decode: string -> string): (r: string)
    ensures r != ""
    ensures USER_COOKIE in ParseCookies(header, decode) && ParseCookies(header, decode)[USER_COOKIE] != ""
      ==> r == ParseCookies(header, decode)[USER_COOKIE]
    ensures !(USER_COOKIE in ParseCookies(header, decode) && ParseCookies(header, decode)[USER_COOKIE] != "")
      ==> r == GUEST
  {
    var cookies := ParseCookies(header, decode);
    if USER_COOKIE in cookies && cookies[USER_COOKIE] != "" then cookies[USER_COOKIE] else GUEST
  }

  /** A client without the user cookie is a guest. */
  lemma NoCookieIsGuest(decode: string -> string)
    ensures CookieUser(None, decode) == GUEST
  {
  }
}
