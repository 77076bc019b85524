/** A stand-in for the WHATWG `URL` class that linkExtractor.js constructs,
    reduced to hierarchical URLs `scheme "://" host path ["?" query] ["#" fragment]`.
    Parsing lower-cases scheme and host, gives an empty path the root path "/",
    and reads the query the way `searchParams` does (pieces split on '&', empty
    pieces skipped, each split at its first '='). Serialising writes the query
    back as `searchParams` re-serialises it after a `delete`: `name=value`
    pairs joined by '&', and no '?' at all when no pair is left. */
module Urls {
  import opened Text

  datatype Param = Param(name: string, value: string)

  datatype Url = Url(scheme: string, host: string, path: string, query: seq<Param>, fragment: Option<string>)

  predicate IsLetter(c: char) {
    'a' <= c <= 'z' || 'A' <= c <= 'Z'
  }

  predicate SchemeChar(c: char) {
    IsLetter(c) || '0' <= c <= '9' || c == '+' || c == '-' || c == '.'
  }

  predicate ValidScheme(s: string) {
    |s| > 0 && IsLetter(s[0]) && forall i | 0 <= i < |s| :: SchemeChar(s[i])
  }

  /** Characters allowed in `host[:port]`: no space or control character and
      none of the WHATWG forbidden host or domain code points except ':'. */
  predicate HostChar(c: char) {
    && ' ' < c && c != '\U{007F}'
    && c != '#' && c != '/' && c != '<' && c != '>' && c != '?' && c != '@'
    && c != '[' && c != '\\' && c != ']' && c != '^' && c != '|' && c != '%'
  }

  predicate ValidHost(h: string) {
    h != [] && forall i | 0 <= i < |h| :: HostChar(h[i])
  }

  /** A query pair as `searchParams` holds it after parsing. */
  predicate ParamOk(p: Param) {
    '&' !in p.name && '=' !in p.name && '#' !in p.name && '&' !in p.value && '#' !in p.value
  }

  /** The shape of every URL `Parse` produces. */
  predicate WellFormed(u: Url) {
    && ValidScheme(u.scheme) && IsLower(u.scheme)
    && ValidHost(u.host) && IsLower(u.host)
    && |u.path| > 0 && u.path[0] == '/' && '?' !in u.path && '#' !in u.path
    && forall i | 0 <= i < |u.query| :: ParamOk(u.query[i])
  }

  /** `a`, followed by `c` and `b` when `b` is present. */
  function Joined(a: string, c: char, b: Option<string>): string {
    if b.None? then a else a + [c] + b.value
  }

  /** `s` cut at the first `c`: what precedes it and, if `c` occurs, what follows. */
  function SplitAt(s: string, c: char): (r: (string, Option<string>))
    ensures c !in r.0
    ensures Joined(r.0, c, r.1) == s
  {
    var i := IndexOf(s, c);
    if i == |s| then (s, None)
    else
      assert s == s[..i] + [c] + s[i + 1..];
      (s[..i], Some(s[i + 1..]))
  }

  lemma SplitJoined(a: string, c: char, b: Option<string>)
    requires c !in a
    ensures SplitAt(Joined(a, c, b), c) == (a, b)
  {
    if b.None? {
      IndexOfAbsent(a, c);
    } else {
      assert a + [c] + b.value == a + ([c] + b.value);
      IndexOfAfter(a, [c] + b.value, c);
      var s := Joined(a, c, b);
      assert s[..|a|] == a && s[|a| + 1..] == b.value;
    }
  }

  lemma NotInJoined(a: string, c: char, b: Option<string>, d: char)
    requires d !in Joined(a, c, b)
    ensures d !in a && (b.Some? ==> d !in b.value)
  {
    if b.Some? {
      assert Joined(a, c, b) == a + [c] + b.value;
      assert forall i | 0 <= i < |b.value| :: b.value[i] == Joined(a, c, b)[|a| + 1 + i];
    }
  }

  lemma LowerKeepsScheme(s: string)
    requires ValidScheme(s)
    ensures ValidScheme(Lower(s)) && IsLower(Lower(s))
  {
    LowerIsLower(s);
    forall i | 0 <= i < |s| ensures SchemeChar(Lower(s)[i]) {
      assert SchemeChar(s[i]);
    }
  }

  lemma LowerKeepsHost(h: string)
    requires ValidHost(h)
    ensures ValidHost(Lower(h)) && IsLower(Lower(h))
  {
    LowerIsLower(h);
    forall i | 0 <= i < |h| ensures HostChar(Lower(h)[i]) {
      assert HostChar(h[i]);
    }
  }

  /** One query piece: the name up to the first '=', the value after it. */
  function ParseParam(piece: string): (p: Param)
    ensures '&' !in piece && '#' !in piece ==> ParamOk(p)
  {
    var (name, value) := SplitAt(piece, '=');
    Param(name, if value.Some? then value.value else "")
  }

  /** The query's pieces, split on '&', empty pieces skipped. */
  function ParseQuery(s: string): (r: seq<Param>)
    ensures '#' !in s ==> forall i | 0 <= i < |r| :: ParamOk(r[i])
    decreases |s|
  {
    var (piece, rest) := SplitAt(s, '&');
    var tail := if rest.Some? then ParseQuery(rest.value) else [];
    if piece == "" then tail else [ParseParam(piece)] + tail
  }

  function EncodeParam(p: Param): string {
    Joined(p.name, '=', Some(p.value))
  }

  function JoinParams(ps: seq<Param>): string {
    if ps == [] then ""
    else Joined(EncodeParam(ps[0]), '&', if |ps| == 1 then None else Some(JoinParams(ps[1..])))
  }

  /** The query as `href` shows it: no '?' when no pair is left. */
  function QueryPart(ps: seq<Param>): Option<string> {
    if ps == [] then None else Some(JoinParams(ps))
  }

  /** The schemes the URL standard calls special, except "file". */
  const SpecialSchemes: set<string> := {"ftp", "http", "https", "ws", "wss"}

  /** `s` without its leading run of '/'. */
  function DropSlashes(s: string): (r: string)
    ensures r == [] || r[0] != '/'
    ensures |r| <= |s| && r == s[|s| - |r|..]
    ensures forall j | 0 <= j < |s| - |r| :: s[j] == '/'
    decreases |s|
  {
    if s != [] && s[0] == '/' then
      var r := DropSlashes(s[1..]);
      assert s[1..][|s| - 1 - |r|..] == s[|s| - |r|..];
      assert forall j | 1 <= j < |s| - |r| :: s[j] == s[1..][j - 1];
      r
    else s
  }

  /** A run of '/' followed by text that does not start with one is dropped whole. */
  lemma {:induction false} SlashesDropped(slashes: string, rest: string)
    requires forall i | 0 <= i < |slashes| :: slashes[i] == '/'
    requires rest == [] || rest[0] != '/'
    ensures DropSlashes(slashes + rest) == rest
    decreases |slashes|
  {
    if slashes != [] {
      assert (slashes + rest)[1..] == slashes[1..] + rest;
      SlashesDropped(slashes[1..], rest);
    } else {
      assert slashes + rest == rest;
    }
  }

  /** The text where the host starts, after "scheme:". A special scheme
      skips every '/' there, however many (none included); any other
      scheme needs "//". */
  function Authority(scheme: string, rest: Option<string>): Option<string> {
    if rest.None? then None
    else if Lower(scheme) in SpecialSchemes then Some(DropSlashes(rest.value))
    else if StartsWith(rest.value, "//") then Some(rest.value[2..])
    else None
  }

  /** `new URL(s)`: `None` where the constructor throws. */
  function Parse(s: string): (r: Option<Url>)
    ensures r.Some? ==> WellFormed(r.value)
  {
    var (scheme, rest) := SplitAt(s, ':');
    var after := Authority(scheme, rest);
    if !ValidScheme(scheme) || after.None? then None else ParseHierarchy(scheme, after.value)
  }

  /** The part after "scheme://": host, path, query and fragment. */
  function ParseHierarchy(scheme: string, after: string): (r: Option<Url>)
    requires ValidScheme(scheme)
    ensures r.Some? ==> WellFormed(r.value)
  {
    var (body, fragment) := SplitAt(after, '#');
    var (hostAndPath, query) := SplitAt(body, '?');
    NotInJoined(hostAndPath, '?', query, '#');
    var (host, path) := SplitAt(hostAndPath, '/');
    if !ValidHost(host) then None
    else
      LowerKeepsScheme(scheme);
      LowerKeepsHost(host);
      NotInJoined(body, '?', query, '#');
      NotInJoined(hostAndPath, '/', path, '?');
      NotInJoined(hostAndPath, '/', path, '#');
      Some(Url(Lower(scheme), Lower(host), if path.None? then "/" else "/" + path.value,
               if query.Some? then ParseQuery(query.value) else [], fragment))
  }

  /** `url.toString()` (the href) */
  function Serialize(u: Url): string {
    Joined(u.scheme, ':', Some("//" + Joined(Joined(u.host + u.path, '?', QueryPart(u.query)), '#', u.fragment)))
  }

  /** `url.hostname`: the host without its port. */
  function Hostname(u: Url): string {
    SplitAt(u.host, ':').0
  }

  /** `new URL(s)` succeeds: exactly when `s` starts with a valid scheme
      and ':', then "//" unless the scheme is special (a special scheme
      skips any number of '/'), and then a non-empty host of allowed
      characters, the host ending at the first '/', '?' or '#'. */
  predicate Valid(s: string): (ok: bool)
    ensures ok <==>
      var (scheme, rest) := SplitAt(s, ':');
      && ValidScheme(scheme) && rest.Some?
      && var special := Lower(scheme) in SpecialSchemes;
      && (special || StartsWith(rest.value, "//"))
      && var after := if special then DropSlashes(rest.value) else rest.value[2..];
      && ValidHost(SplitAt(SplitAt(SplitAt(after, '#').0, '?').0, '/').0)
  {
    Parse(s).Some?
  }

  lemma ParamChars(ps: seq<Param>)
    requires forall i | 0 <= i < |ps| :: ParamOk(ps[i])
    ensures '#' !in JoinParams(ps)
  {
    if |ps| > 1 {
      ParamChars(ps[1..]);
    }
  }

  /** Reading back a serialised query gives the same pairs. */
  lemma {:induction false} QueryRoundTrip(ps: seq<Param>)
    requires forall i | 0 <= i < |ps| :: ParamOk(ps[i])
    ensures ParseQuery(JoinParams(ps)) == ps
  {
    if ps != [] {
      var p := ps[0];
      SplitJoined(p.name, '=', Some(p.value));
      assert ParseParam(EncodeParam(p)) == p;
      assert '&' !in EncodeParam(p);
      var rest := if |ps| == 1 then None else Some(JoinParams(ps[1..]));
      SplitJoined(EncodeParam(p), '&', rest);
      if |ps| > 1 {
        QueryRoundTrip(ps[1..]);
      }
    }
  }

  lemma NotInHost(h: string, c: char)
    requires ValidHost(h)
    requires !HostChar(c)
    ensures c !in h
  {
  }

  lemma HierarchyRoundTrip(u: Url)
    requires WellFormed(u)
    ensures ParseHierarchy(u.scheme, Joined(Joined(u.host + u.path, '?', QueryPart(u.query)), '#', u.fragment)) == Some(u)
  {
    var hp := u.host + u.path;
    var qp := QueryPart(u.query);
    var hpq := Joined(hp, '?', qp);
    ParamChars(u.query);
    NotInHost(u.host, '#');
    NotInHost(u.host, '?');
    NotInHost(u.host, '/');
    assert '#' !in hpq;
    SplitJoined(hpq, '#', u.fragment);
    assert '?' !in hp;
    SplitJoined(hp, '?', qp);
    assert hp == Joined(u.host, '/', Some(u.path[1..]));
    SplitJoined(u.host, '/', Some(u.path[1..]));
    assert "/" + u.path[1..] == u.path;
    if u.query != [] {
      QueryRoundTrip(u.query);
    }
    assert (if qp.Some? then ParseQuery(qp.value) else []) == u.query;
    LowerOfLower(u.scheme);
    LowerOfLower(u.host);
  }

  /** Parsing a serialised well-formed URL gives it back. */
  lemma RoundTrip(u: Url)
    requires WellFormed(u)
    ensures Parse(Serialize(u)) == Some(u)
  {
    var rest := Joined(Joined(u.host + u.path, '?', QueryPart(u.query)), '#', u.fragment);
    assert ':' !in u.scheme by {
      forall i | 0 <= i < |u.scheme| ensures u.scheme[i] != ':' {
        assert SchemeChar(u.scheme[i]);
      }
    }
    SplitJoined(u.scheme, ':', Some("//" + rest));
    NotInHost(u.host, '/');
    assert rest[0] == u.host[0];
    SlashesDropped("//", rest);
    assert Authority(u.scheme, Some("//" + rest)) == Some(rest);
    HierarchyRoundTrip(u);
  }

  /** What `href` shows after "scheme://": host, path, query and fragment. */
  function HostOnward(u: Url): (r: string)
    ensures Serialize(u) == u.scheme + "://" + r
  {
    var r := Joined(Joined(u.host + u.path, '?', QueryPart(u.query)), '#', u.fragment);
    assert Serialize(u) == u.scheme + [':'] + ("//" + r);
    assert u.scheme + [':'] + ("//" + r) == u.scheme + "://" + r;
    r
  }

  /** After a special scheme any run of '/' before the host, none
      included, reads as the "//" that serialising writes. */
  lemma ExtraSlashesSkipped(u: Url, slashes: string)
    requires WellFormed(u) && u.scheme in SpecialSchemes
    requires forall i | 0 <= i < |slashes| :: slashes[i] == '/'
    ensures Parse(u.scheme + ":" + slashes + HostOnward(u)) == Some(u)
  {
    var rest := HostOnward(u);
    assert ':' !in u.scheme by {
      forall i | 0 <= i < |u.scheme| ensures u.scheme[i] != ':' {
        assert SchemeChar(u.scheme[i]);
      }
    }
    assert u.scheme + ":" + slashes + rest == Joined(u.scheme, ':', Some(slashes + rest));
    SplitJoined(u.scheme, ':', Some(slashes + rest));
    LowerOfLower(u.scheme);
    NotInHost(u.host, '/');
    assert rest[0] == u.host[0];
    SlashesDropped(slashes, rest);
    assert Authority(u.scheme, Some(slashes + rest)) == Some(rest);
    HierarchyRoundTrip(u);
  }
}
