/** The JSON text database.js stores for a post's link lists:
    `JSON.stringify(links)` for an array of `{url, text}` objects, and the
    `JSON.parse` that reads it back. Encoding follows JSON.stringify exactly
    (keys in insertion order, no white space, `"` and `\` escaped, the
    control characters below U+0020 written as `\b \t \n \f \r` or `\u00xx`
    in lower-case hex); decoding accepts that canonical form. */
module LinkJson {
  import opened Text
  import opened Posts

  /** Lower-case hex digit. */
  function HexDigit(d: nat): char
    requires d < 16
  {
    "0123456789abcdef"[d]
  }

  /** The value of a hex digit of either case. */
  function HexValue(c: char): Option<nat> {
    if '0' <= c <= '9' then Some(c as nat - '0' as nat)
    else if 'a' <= c <= 'f' then Some(c as nat - 'a' as nat + 10)
    else if 'A' <= c <= 'F' then Some(c as nat - 'A' as nat + 10)
    else None
  }

  /** How JSON.stringify writes one character inside a string literal. */
  function Escape(c: char): string {
    if c == '"' then "\\\""
    else if c == '\\' then "\\\\"
    else if c == '\U{0008}' then "\\b"
    else if c == '\t' then "\\t"
    else if c == '\n' then "\\n"
    else if c == '\U{000C}' then "\\f"
    else if c == '\r' then "\\r"
    else if c < ' ' then "\\u00" + [HexDigit(c as nat / 16), HexDigit(c as nat % 16)]
    else [c]
  }

  function EscapeAll(s: string): string {
    if s == [] then "" else Escape(s[0]) + EscapeAll(s[1..])
  }

  /** A string literal. */
  function EncodeString(s: string): string {
    "\"" + EscapeAll(s) + "\""
  }

  function EncodeLink(l: RawLink): string {
    "{\"url\":" + EncodeString(l.url) + ",\"text\":" + EncodeString(l.text) + "}"
  }

  function EncodeItems(links: seq<RawLink>): string
    requires links != []
  {
    if |links| == 1 then EncodeLink(links[0]) else EncodeLink(links[0]) + "," + EncodeItems(links[1..])
  }

  /** `JSON.stringify(links)` */
  function Encode(links: seq<RawLink>): string {
    if links == [] then "[]" else "[" + EncodeItems(links) + "]"
  }

  /** The character of a simple escape `\x`, if `x` names one. */
  function Unescape(x: char): Option<char> {
    if x == '"' then Some('"')
    else if x == '\\' then Some('\\')
    else if x == '/' then Some('/')
    else if x == 'b' then Some('\U{0008}')
    else if x == 't' then Some('\t')
    else if x == 'n' then Some('\n')
    else if x == 'f' then Some('\U{000C}')
    else if x == 'r' then Some('\r')
    else None
  }

  /** The code point of four hex digits. */
  function Hex4(t: string): Option<nat>
    requires |t| == 4
  {
    match (HexValue(t[0]), HexValue(t[1]), HexValue(t[2]), HexValue(t[3]))
    case (Some(a), Some(b), Some(c), Some(d)) => Some(((a * 16 + b) * 16 + c) * 16 + d)
    case _ => None
  }

  /** The rest of a string literal after its opening quote: its characters,
      and the text after its closing quote. */
  function DecodeChars(t: string): (r: Option<(string, string)>)
    ensures r.Some? ==> |r.value.1| < |t|
    decreases |t|
  {
    if t == [] then None
    else if t[0] == '"' then Some(("", t[1..]))
    else if t[0] < ' ' then None
    else if t[0] != '\\' then
      match DecodeChars(t[1..])
      case None => None
      case Some((s, rest)) => Some(([t[0]] + s, rest))
    else if |t| < 2 then None
    else
      var simple := Unescape(t[1]);
      if simple.Some? then
        match DecodeChars(t[2..])
        case None => None
        case Some((s, rest)) => Some(([simple.value] + s, rest))
      else if t[1] == 'u' && |t| >= 6 then
        match Hex4(t[2..6])
        case None => None
        case Some(v) =>
          if 0xD800 <= v < 0xE000 then None
          else
            match DecodeChars(t[6..])
            case None => None
            case Some((s, rest)) => Some(([v as char] + s, rest))
      else None
  }

  /** A string literal at the start of `t`, and the text after it. */
  function DecodeString(t: string): (r: Option<(string, string)>)
    ensures r.Some? ==> |r.value.1| < |t|
  {
    if t != [] && t[0] == '"' then DecodeChars(t[1..]) else None
  }

  const UrlKey: string := "{\"url\":"
  const TextKey: string := ",\"text\":"

  /** An object `{"url":…,"text":…}` at the start of `t`, and the text after it. */
  function DecodeLink(t: string): (r: Option<(RawLink, string)>)
    ensures r.Some? ==> |r.value.1| < |t|
  {
    if !StartsWith(t, UrlKey) then None
    else
      match DecodeString(t[|UrlKey|..])
      case None => None
      case Some((url, rest)) =>
        if !StartsWith(rest, TextKey) then None
        else
          match DecodeString(rest[|TextKey|..])
          case None => None
          case Some((text, rest2)) =>
            if rest2 != [] && rest2[0] == '}' then Some((RawLink(url, text), rest2[1..])) else None
  }

  /** Objects separated by commas up to the closing bracket, which must end the text. */
  function DecodeItems(t: string): Option<seq<RawLink>>
    decreases |t|
  {
    match DecodeLink(t)
    case None => None
    case Some((link, rest)) =>
      if rest == "]" then Some([link])
      else if rest != [] && rest[0] == ',' then
        match DecodeItems(rest[1..])
        case None => None
        case Some(more) => Some([link] + more)
      else None
  }

  /** `JSON.parse(text)` for a stored link list; `None` where it would throw
      or where the text is not a list of `{url, text}` objects. */
  function Decode(t: string): Option<seq<RawLink>> {
    if t == "[]" then Some([])
    else if t != [] && t[0] == '[' then DecodeItems(t[1..])
    else None
  }

  lemma HexRoundTrip(c: char)
    requires c < ' '
    ensures Hex4("00" + [HexDigit(c as nat / 16), HexDigit(c as nat % 16)]) == Some(c as nat)
  {
    var hi, lo := c as nat / 16, c as nat % 16;
    assert HexValue(HexDigit(hi)) == Some(hi);
    assert HexValue(HexDigit(lo)) == Some(lo);
  }

  /** The characters JSON.stringify writes as a two-character escape. */
  predicate ShortEscaped(c: char) {
    c == '"' || c == '\\' || c == '\U{0008}' || c == '\t' || c == '\n' || c == '\U{000C}' || c == '\r'
  }

  lemma ShortEscapeReadBack(c: char)
    requires ShortEscaped(c)
    ensures |Escape(c)| == 2 && Escape(c)[0] == '\\' && Unescape(Escape(c)[1]) == Some(c)
  {
  }

  /** Decoding one escaped character in front of more text gives the
      character in front of what that text decodes to. */
  lemma EscapeRoundTrip(c: char, tail: string)
    ensures DecodeChars(Escape(c) + tail) ==
      match DecodeChars(tail)
      case None => None
      case Some((s, rest)) => Some(([c] + s, rest))
  {
    var t := Escape(c) + tail;
    if ShortEscaped(c) {
      ShortEscapeReadBack(c);
      assert t[0] == '\\' && t[1] == Escape(c)[1];
      assert t[2..] == tail;
    } else if c < ' ' {
      HexRoundTrip(c);
      assert Escape(c) == "\\u00" + [HexDigit(c as nat / 16), HexDigit(c as nat % 16)];
      assert t[0] == '\\' && t[1] == 'u' && Unescape('u').None?;
      assert t[2..6] == "00" + [HexDigit(c as nat / 16), HexDigit(c as nat % 16)];
      assert t[6..] == tail;
    } else {
      assert t[1..] == tail;
    }
  }

  lemma {:induction false} CharsRoundTrip(s: string, rest: string)
    ensures DecodeChars(EscapeAll(s) + "\"" + rest) == Some((s, rest))
  {
    if s == [] {
      assert EscapeAll(s) + "\"" + rest == "\"" + rest;
    } else {
      CharsRoundTrip(s[1..], rest);
      assert EscapeAll(s) + "\"" + rest == Escape(s[0]) + (EscapeAll(s[1..]) + "\"" + rest);
      EscapeRoundTrip(s[0], EscapeAll(s[1..]) + "\"" + rest);
      assert [s[0]] + s[1..] == s;
    }
  }

  /** A string literal followed by more text reads back as the string and that text. */
  lemma StringRoundTrip(s: string, rest: string)
    ensures DecodeString(EncodeString(s) + rest) == Some((s, rest))
  {
    var t := EncodeString(s) + rest;
    assert t[1..] == EscapeAll(s) + "\"" + rest;
    CharsRoundTrip(s, rest);
  }

  /** The decoding steps of one object, over any text for its two literals. */
  lemma LinkSteps(a: string, b: string, url: string, text: string, rest: string)
    requires DecodeString(a + (TextKey + (b + ("}" + rest)))) == Some((url, TextKey + (b + ("}" + rest))))
    requires DecodeString(b + ("}" + rest)) == Some((text, "}" + rest))
    ensures DecodeLink(UrlKey + (a + (TextKey + (b + ("}" + rest))))) == Some((RawLink(url, text), rest))
  {
    var r1 := TextKey + (b + ("}" + rest));
    var t := UrlKey + (a + r1);
    assert t[..|UrlKey|] == UrlKey && t[|UrlKey|..] == a + r1;
    assert r1[..|TextKey|] == TextKey && r1[|TextKey|..] == b + ("}" + rest);
    assert ("}" + rest)[1..] == rest;
  }

  lemma LinkRoundTrip(l: RawLink, rest: string)
    ensures DecodeLink(EncodeLink(l) + rest) == Some((l, rest))
  {
    var a, b := EncodeString(l.url), EncodeString(l.text);
    StringRoundTrip(l.url, TextKey + (b + ("}" + rest)));
    StringRoundTrip(l.text, "}" + rest);
    LinkSteps(a, b, l.url, l.text, rest);
    assert EncodeLink(l) == UrlKey + a + TextKey + b + "}";
    Reassociate(UrlKey, a, TextKey, b, "}", rest);
  }

  lemma Reassociate<T>(p: seq<T>, q: seq<T>, r: seq<T>, s: seq<T>, u: seq<T>, v: seq<T>)
    ensures p + q + r + s + u + v == p + (q + (r + (s + (u + v))))
  {
  }

  lemma ItemsLast(t: string, link: RawLink)
    requires DecodeLink(t) == Some((link, "]"))
    ensures DecodeItems(t) == Some([link])
  {
  }

  lemma ItemsStep(t: string, link: RawLink, more: string, tail: seq<RawLink>)
    requires DecodeLink(t) == Some((link, "," + more))
    requires DecodeItems(more) == Some(tail)
    ensures DecodeItems(t) == Some([link] + tail)
  {
    assert ("," + more)[1..] == more;
    assert "," + more != "]" by {
      if more != [] {
        assert ("," + more)[1] == more[0];
      }
    }
  }

  lemma OneItemRoundTrip(link: RawLink)
    ensures DecodeItems(EncodeItems([link]) + "]") == Some([link])
  {
    LinkRoundTrip(link, "]");
    ItemsLast(EncodeLink(link) + "]", link);
  }

  lemma ConsAssoc(e: string, r: string)
    ensures e + "," + r + "]" == e + ("," + (r + "]"))
  {
  }

  lemma EncodeItemsCons(links: seq<RawLink>)
    requires |links| > 1
    ensures EncodeItems(links) + "]" == EncodeLink(links[0]) + ("," + (EncodeItems(links[1..]) + "]"))
  {
    assert EncodeItems(links) == EncodeLink(links[0]) + "," + EncodeItems(links[1..]);
    ConsAssoc(EncodeLink(links[0]), EncodeItems(links[1..]));
  }

  lemma MoreItemsStep(links: seq<RawLink>, e: string, more: string)
    requires |links| > 1
    requires e == EncodeLink(links[0])
    requires DecodeItems(more) == Some(links[1..])
    ensures DecodeItems(e + ("," + more)) == Some(links)
  {
    LinkRoundTrip(links[0], "," + more);
    ItemsStep(e + ("," + more), links[0], more, links[1..]);
    assert [links[0]] + links[1..] == links;
  }

  lemma {:induction false} ItemsRoundTrip(links: seq<RawLink>)
    requires links != []
    ensures DecodeItems(EncodeItems(links) + "]") == Some(links)
  {
    if |links| == 1 {
      assert links == [links[0]];
      OneItemRoundTrip(links[0]);
    } else {
      ItemsRoundTrip(links[1..]);
      EncodeItemsCons(links);
      MoreItemsStep(links, EncodeLink(links[0]), EncodeItems(links[1..]) + "]");
    }
  }

  /** Reading back a stored link list gives the list that was stored. */
  lemma RoundTrip(links: seq<RawLink>)
    ensures Decode(Encode(links)) == Some(links)
  {
    if links != [] {
      var t := Encode(links);
      assert t[1..] == EncodeItems(links) + "]";
      assert t != "[]" by {
        assert t[1] == '{';
      }
      ItemsRoundTrip(links);
    }
  }
}
