/** linkExtractor.js: naming and classifying the links found in a post,
    removing tracking parameters and duplicates, and formatting link lists
    as Discord embed fields. */
module Links {
  import opened Text
  import opened Config
  import opened Urls
  import opened Posts

  /** A link as the extractor describes it. */
  datatype LinkInfo = LinkInfo(url: string, text: string, platform: string, emoji: string, domain: string)

  datatype Category = Source | Download | Other

  datatype Categorized = Categorized(sourceLinks: seq<LinkInfo>, downloadLinks: seq<LinkInfo>, otherLinks: seq<LinkInfo>)

  /** An embed field `{name, value, inline}`. */
  datatype Field = Field(name: string, value: string, inline: bool)

  const DefaultEmoji: string := "\U{1F517}"

  /** The emoji table of the extractor's constructor. */
  const PlatformEmojis: map<string, string> := map[
    "gumroad.com" := "\U{1F6D2}",
    "booth.pm" := "\U{1F3EA}",
    "patreon.com" := "\U{1F3A8}",
    "fanbox.cc" := "\U{1F4E6}",
    "ko-fi.com" := "\U{2615}",
    "artstation.com" := "\U{1F3AD}",
    "itch.io" := "\U{1F3AE}",
    "pixeldrain.com" := "\U{1F5C2}\U{FE0F}",
    "drive.google.com" := "\U{1F4C1}",
    "workupload.com" := "\U{1F4E4}",
    "mediafire.com" := "\U{1F4CE}",
    "mega.nz" := "\U{2601}\U{FE0F}",
    "mega.co.nz" := "\U{2601}\U{FE0F}",
    "dropbox.com" := "\U{1F4CB}",
    "1fichier.com" := "\U{1F4C4}",
    "rapidgator.net" := "\U{26A1}",
    "uploaded.net" := "\U{1F4E4}",
    "turbobit.net" := "\U{1F504}",
    "nitroflare.com" := "\U{1F525}"]

  /** The display-name table of `getPlatformName`. */
  const PlatformNames: map<string, string> := map[
    "gumroad.com" := "Gumroad",
    "booth.pm" := "Booth",
    "patreon.com" := "Patreon",
    "fanbox.cc" := "Fanbox",
    "ko-fi.com" := "Ko-fi",
    "artstation.com" := "ArtStation",
    "itch.io" := "itch.io",
    "pixeldrain.com" := "PixelDrain",
    "drive.google.com" := "Google Drive",
    "workupload.com" := "WorkUpload",
    "mediafire.com" := "MediaFire",
    "mega.nz" := "MEGA",
    "mega.co.nz" := "MEGA",
    "dropbox.com" := "Dropbox",
    "1fichier.com" := "1fichier",
    "rapidgator.net" := "RapidGator",
    "uploaded.net" := "Uploaded",
    "turbobit.net" := "TurboBit",
    "nitroflare.com" := "NitroFlare"]

  /** Every domain named by a link pattern has both a display name and an
      emoji, and the two tables name the same domains. */
  lemma TablesCoverPatterns()
    ensures PlatformNames.Keys == PlatformEmojis.Keys
    ensures forall i | 0 <= i < |SourcePatterns| :: SourcePatterns[i] in PlatformNames
    ensures forall i | 0 <= i < |DownloadPatterns| :: DownloadPatterns[i] in PlatformNames
    ensures forall d | d in PlatformNames :: PlatformNames[d] != "" && PlatformEmojis[d] != ""
  {
  }

  lemma LowerSlices(s: string, i: nat, j: nat)
    requires IsLower(s) && i <= j <= |s|
    ensures IsLower(s[..i] + s[j..])
  {
    assert forall k | 0 <= k < |s[..i] + s[j..]| :: (s[..i] + s[j..])[k] == if k < i then s[k] else s[k - i + j];
  }

  lemma HostnameIsLower(u: Url)
    requires WellFormed(u)
    ensures IsLower(Hostname(u))
  {
    var h := Hostname(u);
    assert h == u.host[..|h|];
  }

  lemma RemoveFirstKeepsLower(h: string, pat: string)
    requires IsLower(h)
    ensures IsLower(RemoveFirst(h, pat))
  {
    if Contains(h, pat) {
      var i: nat :| OccursAt(h, pat, i) && RemoveFirst(h, pat) == h[..i] + h[i + |pat|..];
      assert OccursAt(h, pat, i);
      assert i + |pat| <= |h|;
      LowerSlices(h, i, i + |pat|);
    }
  }

  /** `extractDomain`: the lower-cased host name without its first "www.",
      or the whole input lower-cased when it does not parse. */
  function ExtractDomain(url: string): (d: string)
    ensures IsLower(d)
    ensures Parse(url).None? ==> d == Lower(url)
  {
    match Parse(url)
    case None =>
      LowerIsLower(url);
      Lower(url)
    case Some(u) =>
      HostnameIsLower(u);
      LowerOfLower(Hostname(u));
      RemoveFirstKeepsLower(Hostname(u), "www.");
      RemoveFirst(Lower(Hostname(u)), "www.")
  }

  /** For a parsable URL the domain is the host name with a leading "www."
      dropped, or with its first "www." removed wherever it is. */
  lemma DomainOfParsed(url: string)
    requires Parse(url).Some?
    ensures var h := Hostname(Parse(url).value);
      && (StartsWith(h, "www.") ==> ExtractDomain(url) == h[4..])
      && (!Contains(h, "www.") ==> ExtractDomain(url) == h)
      && (Contains(h, "www.") ==> exists i: nat | OccursAt(h, "www.", i) ::
            ExtractDomain(url) == h[..i] + h[i + 4..] && forall j: nat | j < i :: !OccursAt(h, "www.", j))
  {
    var u := Parse(url).value;
    HostnameIsLower(u);
    LowerOfLower(Hostname(u));
  }

  /** `getPlatformName`: a domain in the table is shown by its table name,
      any other domain as itself. */
  function GetPlatformName(url: string): (name: string)
    ensures ExtractDomain(url) in PlatformNames ==> name == PlatformNames[ExtractDomain(url)] && name != ""
    ensures ExtractDomain(url) !in PlatformNames ==> name == ExtractDomain(url)
  {
    TablesCoverPatterns();
    var d := ExtractDomain(url);
    if d in PlatformNames && PlatformNames[d] != "" then PlatformNames[d] else d
  }

  /** `getEmojiForUrl`: a domain in the name table has the emoji table's
      entry; any other domain gets the link emoji. */
  function GetEmojiForUrl(url: string): (emoji: string)
    ensures emoji != ""
    ensures ExtractDomain(url) in PlatformNames ==> emoji == PlatformEmojis[ExtractDomain(url)]
    ensures ExtractDomain(url) !in PlatformNames ==> emoji == DefaultEmoji
  {
    TablesCoverPatterns();
    var d := ExtractDomain(url);
    if d in PlatformEmojis && PlatformEmojis[d] != "" then PlatformEmojis[d] else DefaultEmoji
  }

  // ---------------------------------------------------------------- categorizeLinks

  /** Source patterns take precedence over download patterns. */
  function CategoryOf(url: string): Category {
    if IsSourceUrl(url) then Source else if IsDownloadUrl(url) then Download else Other
  }

  /** The `linkInfo` record built for one link with a URL. */
  function Describe(link: RawLink): (info: LinkInfo)
    ensures info.url == link.url
    ensures info.text == (if link.text != "" then link.text else GetPlatformName(link.url))
    ensures info.platform == GetPlatformName(link.url) && info.emoji == GetEmojiForUrl(link.url)
  {
    LinkInfo(link.url, if link.text != "" then link.text else GetPlatformName(link.url),
             GetPlatformName(link.url), GetEmojiForUrl(link.url), ExtractDomain(link.url))
  }

  function InfoUrls(xs: seq<LinkInfo>): set<string> {
    set k | 0 <= k < |xs| :: xs[k].url
  }

  function UrlSet(xs: seq<RawLink>): set<string> {
    set k | 0 <= k < |xs| :: xs[k].url
  }

  lemma UrlSetAppend(xs: seq<RawLink>, ys: seq<RawLink>)
    ensures UrlSet(xs + ys) == UrlSet(xs) + UrlSet(ys)
  {
    var zs := xs + ys;
    forall u | u in UrlSet(zs) ensures u in UrlSet(xs) + UrlSet(ys) {
      var k :| 0 <= k < |zs| && zs[k].url == u;
      if k >= |xs| {
        assert ys[k - |xs|].url == u;
      }
    }
    forall u | u in UrlSet(xs) + UrlSet(ys) ensures u in UrlSet(zs) {
      if u in UrlSet(xs) {
        var k :| 0 <= k < |xs| && xs[k].url == u;
        assert zs[k].url == u;
      } else {
        var k :| 0 <= k < |ys| && ys[k].url == u;
        assert zs[|xs| + k].url == u;
      }
    }
  }

  lemma UrlSetSnoc(xs: seq<RawLink>, l: RawLink)
    ensures UrlSet(xs + [l]) == UrlSet(xs) + {l.url}
  {
    UrlSetAppend(xs, [l]);
    assert UrlSet([l]) == {l.url} by {
      assert [l][0] == l;
    }
  }

  /** The links of `links` that have a URL in category `c`, in order. */
  function Filed(links: seq<RawLink>, c: Category): (r: seq<RawLink>)
    ensures forall k | 0 <= k < |r| :: r[k].url != "" && CategoryOf(r[k].url) == c
    ensures UrlSet(r) <= UrlSet(links)
  {
    if links == [] then []
    else
      var init := links[..|links| - 1];
      var last := links[|links| - 1];
      var head := Filed(init, c);
      assert links == init + [last];
      UrlSetAppend(init, [last]);
      if last.url != "" && CategoryOf(last.url) == c then
        UrlSetAppend(head, [last]);
        head + [last]
      else head
  }

  function DescribeAll(links: seq<RawLink>): (r: seq<LinkInfo>)
    ensures |r| == |links| && forall k | 0 <= k < |r| :: r[k] == Describe(links[k])
  {
    seq(|links|, k requires 0 <= k < |links| => Describe(links[k]))
  }

  lemma DescribeAllAppend(links: seq<RawLink>, link: RawLink)
    ensures DescribeAll(links + [link]) == DescribeAll(links) + [Describe(link)]
  {
  }

  /** Describing links keeps their URLs, position by position. */
  lemma DescribeAllUrls(links: seq<RawLink>)
    ensures InfoUrls(DescribeAll(links)) == UrlSet(links)
    ensures NoDupUrls(links) ==> NoDupInfo(DescribeAll(links))
  {
    var r := DescribeAll(links);
    forall k | 0 <= k < |r| ensures r[k].url == links[k].url {
    }
  }

  function Categorize(links: seq<RawLink>): Categorized {
    Categorized(DescribeAll(Filed(links, Source)), DescribeAll(Filed(links, Download)), DescribeAll(Filed(links, Other)))
  }

  /** `categorizeLinks`: one pass that drops links without a URL and files
      every other link under the first category whose patterns match. */
  method CategorizeLinks(links: seq<RawLink>) returns (c: Categorized)
    ensures c == Categorize(links)
  {
    var src: seq<LinkInfo> := [];
    var dl: seq<LinkInfo> := [];
    var other: seq<LinkInfo> := [];
    for i := 0 to |links|
      invariant src == DescribeAll(Filed(links[..i], Source))
      invariant dl == DescribeAll(Filed(links[..i], Download))
      invariant other == DescribeAll(Filed(links[..i], Other))
    {
      assert links[..i + 1][..i] == links[..i];
      var link := links[i];
      if link.url == "" {
        continue;
      }
      var info := Describe(link);
      if IsSourceUrl(link.url) {
        DescribeAllAppend(Filed(links[..i], Source), link);
        src := src + [info];
      } else if IsDownloadUrl(link.url) {
        DescribeAllAppend(Filed(links[..i], Download), link);
        dl := dl + [info];
      } else {
        DescribeAllAppend(Filed(links[..i], Other), link);
        other := other + [info];
      }
    }
    assert links[..|links|] == links;
    c := Categorized(src, dl, other);
  }

  function WithUrl(links: seq<RawLink>): nat {
    if links == [] then 0
    else WithUrl(links[..|links| - 1]) + (if links[|links| - 1].url != "" then 1 else 0)
  }

  lemma {:induction false} FiledCount(links: seq<RawLink>)
    ensures |Filed(links, Source)| + |Filed(links, Download)| + |Filed(links, Other)| == WithUrl(links)
  {
    if links != [] {
      FiledCount(links[..|links| - 1]);
    }
  }

  lemma FiledSnocUrls(links: seq<RawLink>, c: Category)
    requires links != []
    ensures var last := links[|links| - 1];
      UrlSet(Filed(links, c)) ==
        UrlSet(Filed(links[..|links| - 1], c)) + if last.url != "" && CategoryOf(last.url) == c then {last.url} else {}
  {
    var init := links[..|links| - 1];
    var last := links[|links| - 1];
    var keep := last.url != "" && CategoryOf(last.url) == c;
    var extra := if keep then [last] else [];
    assert Filed(links, c) == Filed(init, c) + extra;
    UrlSetAppend(Filed(init, c), extra);
    assert UrlSet(extra) == if keep then {last.url} else {};
  }

  lemma {:induction false} FiledUrls(links: seq<RawLink>)
    ensures UrlSet(Filed(links, Source)) + UrlSet(Filed(links, Download)) + UrlSet(Filed(links, Other))
      == UrlSet(links) - {""}
  {
    if links != [] {
      var init := links[..|links| - 1];
      var last := links[|links| - 1];
      FiledUrls(init);
      assert links == init + [last];
      UrlSetAppend(init, [last]);
      FiledSnocUrls(links, Source);
      FiledSnocUrls(links, Download);
      FiledSnocUrls(links, Other);
    }
  }

  /** Every link with a URL lands in exactly one of the three lists, and the
      three lists together hold exactly the links' URLs. */
  lemma CategorizePartitions(links: seq<RawLink>)
    ensures var c := Categorize(links);
      |c.sourceLinks| + |c.downloadLinks| + |c.otherLinks| == WithUrl(links)
    ensures var c := Categorize(links);
      InfoUrls(c.sourceLinks) + InfoUrls(c.downloadLinks) + InfoUrls(c.otherLinks) == UrlSet(links) - {""}
  {
    FiledCount(links);
    FiledUrls(links);
    DescribeAllUrls(Filed(links, Source));
    DescribeAllUrls(Filed(links, Download));
    DescribeAllUrls(Filed(links, Other));
  }

  /** A URL is filed under category `c` exactly when some link carries it
      and `c` is its category. */
  lemma {:induction false} FiledExactly(links: seq<RawLink>, c: Category)
    ensures forall u :: u in UrlSet(Filed(links, c)) <==> u in UrlSet(links) && u != "" && CategoryOf(u) == c
  {
    if links != [] {
      var init, last := links[..|links| - 1], links[|links| - 1];
      FiledExactly(init, c);
      FiledSnocUrls(links, c);
      assert links == init + [last];
      UrlSetAppend(init, [last]);
      assert UrlSet([last]) == {last.url} by {
        assert [last][0] == last;
      }
    }
  }

  /** Each category keeps its links in the order they were given. */
  lemma {:induction false} FiledKeepsOrder(links: seq<RawLink>, c: Category)
    ensures IsSubsequence(Filed(links, c), links)
  {
    if links != [] {
      var init, last := links[..|links| - 1], links[|links| - 1];
      FiledKeepsOrder(init, c);
      SubsequenceExtend(Filed(init, c), init, last, last.url != "" && CategoryOf(last.url) == c);
      assert init + [last] == links;
    }
  }

  /** Source patterns take precedence over download patterns: a URL that
      matches a source pattern is in the source list and in no other; one
      that matches only a download pattern is in the download list and in no
      other; any other URL is in the list of other links. */
  lemma SourceTakesPrecedence(links: seq<RawLink>)
    ensures var c := Categorize(links);
      forall u | u in UrlSet(links) && u != "" ::
        && (u in InfoUrls(c.sourceLinks) <==> IsSourceUrl(u))
        && (u in InfoUrls(c.downloadLinks) <==> !IsSourceUrl(u) && IsDownloadUrl(u))
        && (u in InfoUrls(c.otherLinks) <==> !IsSourceUrl(u) && !IsDownloadUrl(u))
  {
    FiledExactly(links, Source);
    FiledExactly(links, Download);
    FiledExactly(links, Other);
    DescribeAllUrls(Filed(links, Source));
    DescribeAllUrls(Filed(links, Download));
    DescribeAllUrls(Filed(links, Other));
  }

  /** A URL that matches a source pattern and a download pattern. */
  const BothKinds: string := "https://gumroad.com/l/mega.nz"

  lemma BothKindsIsLower()
    ensures Lower(BothKinds) == BothKinds
  {
  }

  lemma BothKindsIsSource()
    ensures IsSourceUrl(BothKinds)
  {
    BothKindsIsLower();
    assert BothKinds[8..19] == "gumroad.com";
    assert OccursAt(Lower(BothKinds), SourcePatterns[0], 8);
  }

  lemma BothKindsIsDownload()
    ensures IsDownloadUrl(BothKinds)
  {
    BothKindsIsLower();
    assert BothKinds[22..29] == "mega.nz";
    assert OccursAt(Lower(BothKinds), DownloadPatterns[4], 22);
    AnyMatchSome(DownloadPatterns, BothKinds);
  }

  /** Some URL matches both pattern tables, and it is filed as a source link. */
  lemma BothKindsMatchBoth()
    ensures IsSourceUrl(BothKinds) && IsDownloadUrl(BothKinds)
    ensures CategoryOf(BothKinds) == Source
  {
    BothKindsIsSource();
    BothKindsIsDownload();
  }

  // ---------------------------------------------------------------- deduplicateLinks

  predicate NoDupUrls(xs: seq<RawLink>) {
    forall i, j | 0 <= i < j < |xs| :: xs[i].url != xs[j].url
  }

  predicate NoDupInfo(xs: seq<LinkInfo>) {
    forall i, j | 0 <= i < j < |xs| :: xs[i].url != xs[j].url
  }

  /** The first link for each URL, in order. */
  function FirstOccurrences(links: seq<RawLink>): seq<RawLink> {
    if links == [] then []
    else
      var init := links[..|links| - 1];
      var last := links[|links| - 1];
      FirstOccurrences(init) + (if last.url in UrlSet(init) then [] else [last])
  }

  /** `deduplicateLinks`: a filter that remembers the URLs seen so far. */
  method DeduplicateLinks(links: seq<RawLink>) returns (r: seq<RawLink>)
    ensures r == FirstOccurrences(links)
  {
    var seen: set<string> := {};
    r := [];
    for i := 0 to |links|
      invariant seen == UrlSet(links[..i])
      invariant r == FirstOccurrences(links[..i])
    {
      assert links[..i + 1][..i] == links[..i];
      assert UrlSet(links[..i + 1]) == UrlSet(links[..i]) + {links[i].url};
      if links[i].url !in seen {
        seen := seen + {links[i].url};
        r := r + [links[i]];
      }
    }
    assert links[..|links|] == links;
  }

  /** Deduplication keeps one link per URL, loses no URL, and keeps the
      surviving links in their original order. */
  lemma {:induction false} DedupFacts(links: seq<RawLink>)
    ensures NoDupUrls(FirstOccurrences(links))
    ensures UrlSet(FirstOccurrences(links)) == UrlSet(links)
    ensures IsSubsequence(FirstOccurrences(links), links)
  {
    if links != [] {
      var init := links[..|links| - 1];
      var last := links[|links| - 1];
      DedupFacts(init);
      var head := FirstOccurrences(init);
      var keep := last.url !in UrlSet(init);
      assert links == init + [last];
      assert FirstOccurrences(links) == if keep then head + [last] else head;
      DedupStep(head, init, last);
      SubsequenceExtend(head, init, last, keep);
    }
  }

  /** One step of the filter keeps the first two facts above. */
  lemma DedupStep(head: seq<RawLink>, init: seq<RawLink>, last: RawLink)
    requires NoDupUrls(head) && UrlSet(head) == UrlSet(init)
    ensures var r := if last.url in UrlSet(init) then head else head + [last];
      NoDupUrls(r) && UrlSet(r) == UrlSet(init + [last])
  {
    UrlSetAppend(init, [last]);
    UrlSetAppend(head, [last]);
    assert UrlSet([last]) == {last.url} by {
      assert [last][0] == last;
    }
    if last.url !in UrlSet(init) {
      var r := head + [last];
      forall i, j | 0 <= i < j < |r| ensures r[i].url != r[j].url {
        assert r[i] == head[i];
        if j == |head| {
          assert head[i].url in UrlSet(head);
        } else {
          assert r[j] == head[j];
        }
      }
    }
  }

  /** A list without repeated URLs is left as it is. */
  lemma {:induction false} DedupKeepsDistinct(links: seq<RawLink>)
    requires NoDupUrls(links)
    ensures FirstOccurrences(links) == links
  {
    if links != [] {
      var init := links[..|links| - 1];
      DedupKeepsDistinct(init);
      assert links[|links| - 1].url !in UrlSet(init);
      assert links == init + [links[|links| - 1]];
    }
  }

  /** Deduplicating twice is deduplicating once. */
  lemma DedupIdempotent(links: seq<RawLink>)
    ensures FirstOccurrences(FirstOccurrences(links)) == FirstOccurrences(links)
  {
    DedupFacts(links);
    DedupKeepsDistinct(FirstOccurrences(links));
  }

  lemma {:induction false} FiledDistinct(links: seq<RawLink>, c: Category)
    requires NoDupUrls(links)
    ensures NoDupUrls(Filed(links, c))
  {
    if links != [] {
      var init := links[..|links| - 1];
      var last := links[|links| - 1];
      FiledDistinct(init, c);
      assert last.url !in UrlSet(init);
      var head := Filed(init, c);
      assert forall k | 0 <= k < |head| :: head[k].url in UrlSet(head);
    }
  }

  /** Categorising a list without repeated URLs gives lists that, taken
      together, repeat no URL. */
  lemma CategorizedDistinct(links: seq<RawLink>)
    requires NoDupUrls(links)
    ensures var c := Categorize(links);
      NoDupInfo(c.sourceLinks + c.downloadLinks + c.otherLinks)
  {
    var c := Categorize(links);
    forall cat: Category ensures NoDupInfo(DescribeAll(Filed(links, cat))) {
      FiledDistinct(links, cat);
      DescribeAllUrls(Filed(links, cat));
    }
    var all := c.sourceLinks + c.downloadLinks + c.otherLinks;
    var a, b := |c.sourceLinks|, |c.sourceLinks| + |c.downloadLinks|;
    forall i, j | 0 <= i < j < |all| ensures all[i].url != all[j].url {
      if j < a || (a <= i && j < b) || b <= i {
      } else {
        assert CategoryOf(all[i].url) != CategoryOf(all[j].url);
      }
    }
  }

  // ---------------------------------------------------------------- extractLinksFromText

  /** The characters of the class `[^\s<>"\[\]{}|\\^` + "`" + `]`. */
  predicate UrlChar(c: char) {
    && !IsSpace(c)
    && c != '<' && c != '>' && c != '"' && c != '[' && c != ']' && c != '{' && c != '}'
    && c != '|' && c != '\\' && c != '^' && c != '`'
  }

  predicate AllUrlChars(t: string) {
    forall j | 0 <= j < |t| :: UrlChar(t[j])
  }

  /** What the pattern `https?:\/\/[^…]+` with the `i` flag accepts as a whole. */
  predicate WebUrl(t: string) {
    && AllUrlChars(t)
    && ((|t| > 7 && Lower(t[..7]) == "http://") || (|t| > 8 && Lower(t[..8]) == "https://"))
  }

  /** The number of URL characters starting at `i`. */
  function RunLength(s: string, i: nat): (n: nat)
    requires i <= |s|
    ensures i + n <= |s| && AllUrlChars(s[i..i + n])
    ensures i + n < |s| ==> !UrlChar(s[i + n])
    decreases |s| - i
  {
    if i < |s| && UrlChar(s[i]) then
      var n := RunLength(s, i + 1);
      assert s[i..i + 1 + n] == [s[i]] + s[i + 1..i + 1 + n];
      1 + n
    else 0
  }

  /** The scheme "https://" or "http://" at `i`, in any case: its length, or 0. */
  function SchemeAt(s: string, i: nat): nat
    requires i <= |s|
  {
    if i + 8 <= |s| && Lower(s[i..i + 8]) == "https://" then 8
    else if i + 7 <= |s| && Lower(s[i..i + 7]) == "http://" then 7
    else 0
  }

  lemma SchemeIsUrlChars(x: string, scheme: string)
    requires Lower(x) == scheme && AllUrlChars(scheme)
    ensures AllUrlChars(x)
  {
    forall j | 0 <= j < |x| ensures UrlChar(x[j]) {
      assert UrlChar(scheme[j]);
    }
  }

  lemma SchemesAreUrlChars()
    ensures AllUrlChars("https://") && AllUrlChars("http://")
  {
  }

  lemma AllUrlCharsAppend(a: string, b: string)
    requires AllUrlChars(a) && AllUrlChars(b)
    ensures AllUrlChars(a + b)
  {
    forall j | 0 <= j < |a + b| ensures UrlChar((a + b)[j]) {
      if j >= |a| {
        assert (a + b)[j] == b[j - |a|];
      }
    }
  }

  /** A scheme followed by a run of URL characters is a web URL. */
  lemma SchemeThenRun(s: string, i: nat, m: nat, run: nat)
    requires (m == 7 || m == 8) && run > 0 && i + m + run <= |s|
    requires Lower(s[i..i + m]) == if m == 8 then "https://" else "http://"
    requires AllUrlChars(s[i + m..i + m + run])
    ensures WebUrl(s[i..i + m + run])
  {
    var t := s[i..i + m + run];
    assert t == s[i..i + m] + s[i + m..i + m + run];
    assert t[..m] == s[i..i + m];
    SchemesAreUrlChars();
    SchemeIsUrlChars(s[i..i + m], if m == 8 then "https://" else "http://");
    AllUrlCharsAppend(s[i..i + m], s[i + m..i + m + run]);
  }

  /** The length of the match of the URL pattern at `i` (greedy), or 0. */
  function MatchAt(s: string, i: nat): (n: nat)
    requires i <= |s|
    ensures n > 0 ==> i + n <= |s| && WebUrl(s[i..i + n]) && (i + n < |s| ==> !UrlChar(s[i + n]))
  {
    var m := SchemeAt(s, i);
    if m == 0 then 0
    else
      var run := RunLength(s, i + m);
      if run == 0 then 0
      else
        SchemeThenRun(s, i, m, run);
        m + run
  }

  /** `text.match(urlRegex)` with the `g` flag: every match from `i` on,
      each search resuming where the previous match ended. */
  function ScanFrom(s: string, i: nat): (r: seq<string>)
    requires i <= |s|
    ensures forall k | 0 <= k < |r| :: WebUrl(r[k]) && NoSpace(r[k])
    decreases |s| - i
  {
    if i == |s| then []
    else
      var n := MatchAt(s, i);
      if n > 0 then [s[i..i + n]] + ScanFrom(s, i + n) else ScanFrom(s, i + 1)
  }

  /** The record built for one URL found in text. */
  function TextLink(url: string): (info: LinkInfo)
    ensures info.text == info.platform && info.platform == GetPlatformName(url)
    ensures NoSpace(url) ==> info.url == url
  {
    TrimNoSpaceIf(url);
    LinkInfo(Trim(url), GetPlatformName(url), GetPlatformName(url), GetEmojiForUrl(url), ExtractDomain(url))
  }

  lemma TrimNoSpaceIf(url: string)
    ensures NoSpace(url) ==> Trim(url) == url
  {
    if NoSpace(url) {
      TrimNoSpace(url);
    }
  }

  /** `extractLinksFromText`: one record per URL found, named after its platform. */
  function ExtractLinksFromText(text: string): (r: seq<LinkInfo>)
    ensures |r| == |ScanFrom(text, 0)|
    ensures forall k | 0 <= k < |r| :: r[k].url == ScanFrom(text, 0)[k] && WebUrl(r[k].url)
    ensures forall k | 0 <= k < |r| :: r[k].text == r[k].platform
  {
    var urls := ScanFrom(text, 0);
    seq(|urls|, k requires 0 <= k < |urls| => TextLink(urls[k]))
  }

  /** Text with no scheme in it yields no links. */
  lemma {:induction false} NoSchemeNoLinks(s: string, i: nat)
    requires i <= |s|
    requires forall j: nat | i <= j <= |s| :: SchemeAt(s, j) == 0
    ensures ScanFrom(s, i) == []
    decreases |s| - i
  {
    if i < |s| {
      NoSchemeNoLinks(s, i + 1);
    }
  }

  /** A run of URL characters reaching the end of the text is all of the rest. */
  lemma {:induction false} RunToEnd(s: string, i: nat)
    requires i <= |s| && AllUrlChars(s[i..])
    ensures RunLength(s, i) == |s| - i
    decreases |s| - i
  {
    if i < |s| {
      assert s[i] == s[i..][0];
      assert s[i + 1..] == s[i..][1..];
      RunToEnd(s, i + 1);
    }
  }

  /** A web URL on its own is matched whole. */
  lemma WholeUrlMatches(u: string)
    requires WebUrl(u)
    ensures MatchAt(u, 0) == |u|
  {
    assert u[0..] == u;
    var m := if |u| > 8 && Lower(u[..8]) == "https://" then 8 else 7;
    if m == 7 {
      assert Lower(u[..7]) == "http://";
      assert Lower(u[0..8])[4] == LowerChar(u[4]) == Lower(u[..7])[4] == ':';
    }
    assert SchemeAt(u, 0) == m;
    assert AllUrlChars(u[m..]) by {
      forall j | 0 <= j < |u[m..]| ensures UrlChar(u[m..][j]) {
        assert u[m..][j] == u[m + j];
      }
    }
    RunToEnd(u, m);
  }

  /** `extractLinksFromText` finds a lone URL, and only it. */
  lemma LoneUrlFound(u: string)
    requires WebUrl(u)
    ensures ScanFrom(u, 0) == [u]
  {
    WholeUrlMatches(u);
    assert u[0..|u|] == u;
  }

  // Single steps of the scan, of the match and of the run, with the next
  // position passed as a variable.

  lemma ScanStepMatch(s: string, i: nat, n: nat, next: nat)
    requires i < |s| && n == MatchAt(s, i) && n > 0 && next == i + n
    ensures ScanFrom(s, i) == [s[i..next]] + ScanFrom(s, next)
  {
  }

  lemma ScanStepSkip(s: string, i: nat, next: nat)
    requires i < |s| && MatchAt(s, i) == 0 && next == i + 1
    ensures ScanFrom(s, i) == ScanFrom(s, next)
  {
  }

  lemma MatchStep(s: string, i: nat, m: nat, at: nat)
    requires i <= |s| && m == SchemeAt(s, i) && at == i + m
    ensures m == 0 ==> MatchAt(s, i) == 0
    ensures m > 0 ==> MatchAt(s, i) == if RunLength(s, at) == 0 then 0 else m + RunLength(s, at)
  {
  }

  lemma RunStep(s: string, i: nat, next: nat)
    requires i < |s| && next == i + 1
    ensures RunLength(s, i) == if UrlChar(s[i]) then 1 + RunLength(s, next) else 0
  {
  }

  /** Two scans that match the same URL and agree after it agree. */
  lemma ScanSameMatch(s: string, i: nat, t: string, k: nat, n: nat, si: nat, tk: nat)
    requires i < |s| && k < |t| && n > 0 && MatchAt(s, i) == n && MatchAt(t, k) == n
    requires si == i + n && tk == k + n
    requires s[i..si] == t[k..tk] && ScanFrom(s, si) == ScanFrom(t, tk)
    ensures ScanFrom(s, i) == ScanFrom(t, k)
  {
    ScanStepMatch(s, i, n, si);
    ScanStepMatch(t, k, n, tk);
  }

  /** Two scans that match nothing here and agree one further on agree. */
  lemma ScanSameSkip(s: string, i: nat, t: string, k: nat, si: nat, tk: nat)
    requires i < |s| && k < |t| && MatchAt(s, i) == 0 && MatchAt(t, k) == 0
    requires si == i + 1 && tk == k + 1
    requires ScanFrom(s, si) == ScanFrom(t, tk)
    ensures ScanFrom(s, i) == ScanFrom(t, k)
  {
    ScanStepSkip(s, i, si);
    ScanStepSkip(t, k, tk);
  }

  // The scan of `p + b` from position `i`, inside `b`, is the scan of `b`
  // from the same place. The position `i` is passed along with `j` so that
  // both name the same character without arithmetic in between.

  lemma {:induction false} RunLengthShift(p: string, b: string, j: nat, i: nat)
    requires j <= |b| && i == |p| + j
    ensures RunLength(p + b, i) == RunLength(b, j)
    decreases |b| - j
  {
    if j < |b| {
      var j', i' := j + 1, i + 1;
      assert (p + b)[i] == b[j];
      RunLengthShift(p, b, j', i');
      RunStep(p + b, i, i');
      RunStep(b, j, j');
    }
  }

  lemma SchemeAtShift(p: string, b: string, j: nat, i: nat)
    requires j <= |b| && i == |p| + j
    ensures SchemeAt(p + b, i) == SchemeAt(b, j)
  {
    if j + 7 <= |b| {
      SliceRight(p, b, j, j + 7, i, i + 7);
    }
    if j + 8 <= |b| {
      SliceRight(p, b, j, j + 8, i, i + 8);
    }
  }

  lemma MatchAtShift(p: string, b: string, j: nat, i: nat)
    requires j <= |b| && i == |p| + j
    ensures MatchAt(p + b, i) == MatchAt(b, j)
  {
    SchemeAtShift(p, b, j, i);
    var m := SchemeAt(b, j);
    var j', i' := j + m, i + m;
    MatchStep(p + b, i, m, i');
    MatchStep(b, j, m, j');
    if m > 0 {
      RunLengthShift(p, b, j', i');
    }
  }

  lemma {:induction false} ScanShift(p: string, b: string, j: nat, i: nat)
    requires j <= |b| && i == |p| + j
    ensures ScanFrom(p + b, i) == ScanFrom(b, j)
    decreases |b| - j
  {
    if j < |b| {
      var s := p + b;
      MatchAtShift(p, b, j, i);
      var n := MatchAt(b, j);
      var step := if n > 0 then n else 1;
      var j', i' := j + step, i + step;
      ScanShift(p, b, j', i');
      if n > 0 {
        SliceRight(p, b, j, j', i, i');
        ScanSameMatch(s, i, b, j, n, i', j');
      } else {
        ScanSameSkip(s, i, b, j, i', j');
      }
    }
  }

  // A character outside the URL class ends every match before it.

  /** `r` starts with a character outside the URL class. */
  predicate StartsOutside(r: string) {
    r != [] && !UrlChar(r[0])
  }

  lemma LowerStaysOutside(c: char)
    requires !UrlChar(c)
    ensures !UrlChar(LowerChar(c))
  {
  }

  /** No scheme starts at a character outside the URL class, nor runs across one. */
  lemma NoSchemeAcross(s: string, i: nat, j: nat)
    requires i <= j < |s| && !UrlChar(s[j])
    ensures j < i + 7 && i + 7 <= |s| ==> Lower(s[i..i + 7]) != "http://"
    ensures j < i + 8 && i + 8 <= |s| ==> Lower(s[i..i + 8]) != "https://"
  {
    SchemesAreUrlChars();
    LowerStaysOutside(s[j]);
    if j < i + 7 && i + 7 <= |s| {
      assert Lower(s[i..i + 7])[j - i] == LowerChar(s[j]);
      assert UrlChar("http://"[j - i]);
    }
    if j < i + 8 && i + 8 <= |s| {
      assert Lower(s[i..i + 8])[j - i] == LowerChar(s[j]);
      assert UrlChar("https://"[j - i]);
    }
  }

  lemma {:induction false} RunLengthBefore(a: string, r: string, j: nat)
    requires StartsOutside(r) && j <= |a|
    ensures RunLength(a + r, j) == RunLength(a, j)
    decreases |a| - j
  {
    if j < |a| {
      var j' := j + 1;
      assert (a + r)[j] == a[j];
      RunLengthBefore(a, r, j');
      RunStep(a + r, j, j');
      RunStep(a, j, j');
    } else {
      assert (a + r)[|a|] == r[0];
    }
  }

  lemma SchemeAtBefore(a: string, r: string, i: nat)
    requires StartsOutside(r) && i <= |a|
    ensures SchemeAt(a + r, i) == SchemeAt(a, i)
  {
    assert (a + r)[|a|] == r[0];
    NoSchemeAcross(a + r, i, |a|);
    if i + 7 <= |a| {
      SliceLeft(a, r, i, i + 7);
    }
    if i + 8 <= |a| {
      SliceLeft(a, r, i, i + 8);
    }
  }

  lemma MatchAtBefore(a: string, r: string, i: nat)
    requires StartsOutside(r) && i <= |a|
    ensures MatchAt(a + r, i) == MatchAt(a, i)
  {
    SchemeAtBefore(a, r, i);
    var m := SchemeAt(a, i);
    var at := i + m;
    MatchStep(a + r, i, m, at);
    MatchStep(a, i, m, at);
    if m > 0 {
      RunLengthBefore(a, r, at);
    }
  }

  /** A match in `a` followed by the rest of the scan. */
  lemma ScanBeforeMatch(s: string, a: string, i: nat, n: nat, next: nat, rest: seq<string>)
    requires i < |a| && i < |s| && n > 0 && MatchAt(s, i) == n && MatchAt(a, i) == n && next == i + n
    requires s[i..next] == a[i..next] && ScanFrom(s, next) == ScanFrom(a, next) + rest
    ensures ScanFrom(s, i) == ScanFrom(a, i) + rest
  {
    ScanStepMatch(s, i, n, next);
    ScanStepMatch(a, i, n, next);
    AppendAssociates([a[i..next]], ScanFrom(a, next), rest);
  }

  /** No match at `i` in `a`, then the rest of the scan. */
  lemma ScanBeforeSkip(s: string, a: string, i: nat, next: nat, rest: seq<string>)
    requires i < |a| && i < |s| && MatchAt(s, i) == 0 && MatchAt(a, i) == 0 && next == i + 1
    requires ScanFrom(s, next) == ScanFrom(a, next) + rest
    ensures ScanFrom(s, i) == ScanFrom(a, i) + rest
  {
    ScanStepSkip(s, i, next);
    ScanStepSkip(a, i, next);
  }

  lemma {:induction false} ScanBefore(a: string, r: string, i: nat)
    requires StartsOutside(r) && i <= |a|
    ensures ScanFrom(a + r, i) == ScanFrom(a, i) + ScanFrom(a + r, |a|)
    decreases |a| - i
  {
    if i < |a| {
      var s, rest := a + r, ScanFrom(a + r, |a|);
      MatchAtBefore(a, r, i);
      var n := MatchAt(a, i);
      var next := i + if n > 0 then n else 1;
      ScanBefore(a, r, next);
      if n > 0 {
        SliceLeft(a, r, i, next);
        ScanBeforeMatch(s, a, i, n, next, rest);
      } else {
        ScanBeforeSkip(s, a, i, next, rest);
      }
    }
  }

  /** A character outside the URL class splits the text: the URLs found are
      those of the part before it, then those of the part after it. */
  lemma ScanSplits(a: string, c: char, b: string)
    requires !UrlChar(c)
    ensures ScanFrom(a + [c] + b, 0) == ScanFrom(a, 0) + ScanFrom(b, 0)
  {
    var r := [c] + b;
    AppendAssociates(a, [c], b);
    ScanBefore(a, r, 0);
    assert (a + r)[|a|] == c;
    NoSchemeAcross(a + r, |a|, |a|);
    assert MatchAt(a + r, |a|) == 0;
    ScanShift(a, r, 1, |a| + 1);
    ScanShift([c], b, 0, 1);
  }

  // ---------------------------------------------------------------- formatLinksForDiscord

  /** One line `emoji [platform](url)`, with the emoji and platform recomputed when missing. */
  function FormatLine(link: LinkInfo): string {
    var emoji := if link.emoji != "" then link.emoji else GetEmojiForUrl(link.url);
    var platform := if link.platform != "" then link.platform else GetPlatformName(link.url);
    emoji + " [" + platform + "](" + link.url + ")"
  }

  function Lines(links: seq<LinkInfo>): (r: seq<string>)
    ensures |r| == |links| && forall k | 0 <= k < |r| :: r[k] == FormatLine(links[k])
  {
    seq(|links|, k requires 0 <= k < |links| => FormatLine(links[k]))
  }

  /** `formatLinksForDiscord`: no field for a missing or empty list, else a
      non-inline field named `kind` holding one line per link. */
  function FormatLinksForDiscord(links: Option<seq<LinkInfo>>, kind: string): (r: Option<Field>)
    ensures r.None? <==> links.None? || links.value == []
    ensures r.Some? ==> r.value.name == kind && !r.value.inline
  {
    if links.None? || links.value == [] then None
    else Some(Field(kind, Join(Lines(links.value), "\n"), false))
  }

  /** The field for a list is the fields for its two halves, one line apart:
      each link gets its own line, in order. */
  lemma FormatLinksAppend(a: seq<LinkInfo>, b: seq<LinkInfo>, kind: string)
    requires a != [] && b != []
    ensures FormatLinksForDiscord(Some(a + b), kind).value.value ==
      FormatLinksForDiscord(Some(a), kind).value.value + "\n" + FormatLinksForDiscord(Some(b), kind).value.value
  {
    assert Lines(a + b) == Lines(a) + Lines(b);
    JoinAppend(Lines(a), Lines(b), "\n");
  }

  /** A single link is formatted as its line alone. */
  lemma FormatSingleLink(link: LinkInfo, kind: string)
    ensures FormatLinksForDiscord(Some([link]), kind) == Some(Field(kind, FormatLine(link), false))
  {
  }

  // ---------------------------------------------------------------- cleanUrl

  const TrackingParams: seq<string> :=
    ["utm_source", "utm_medium", "utm_campaign", "utm_term", "utm_content", "ref", "referrer"]

  /** `searchParams.delete(name)`: every pair with that name is removed. */
  function Delete(ps: seq<Param>, name: string): seq<Param> {
    if ps == [] then []
    else
      var init := Delete(ps[..|ps| - 1], name);
      if ps[|ps| - 1].name == name then init else init + [ps[|ps| - 1]]
  }

  /** The pairs whose names are not in `names`, in order. */
  function Keep(ps: seq<Param>, names: seq<string>): (r: seq<Param>)
    ensures forall k | 0 <= k < |r| :: r[k] in ps && r[k].name !in names
  {
    if ps == [] then []
    else
      var init := Keep(ps[..|ps| - 1], names);
      if ps[|ps| - 1].name in names then init else init + [ps[|ps| - 1]]
  }

  lemma {:induction false} KeepNothing(ps: seq<Param>)
    ensures Keep(ps, []) == ps
  {
    if ps != [] {
      var init, last := ps[..|ps| - 1], ps[|ps| - 1];
      KeepNothing(init);
      assert last.name !in [];
      assert Keep(ps, []) == init + [last];
      assert ps == init + [last];
    }
  }

  /** Deleting one more name from the kept pairs keeps fewer names' pairs. */
  lemma {:induction false} DeleteAfterKeep(ps: seq<Param>, names: seq<string>, name: string)
    ensures Delete(Keep(ps, names), name) == Keep(ps, names + [name])
  {
    if ps != [] {
      var init := ps[..|ps| - 1];
      var last := ps[|ps| - 1];
      DeleteAfterKeep(init, names, name);
      var k := Keep(init, names);
      if last.name !in names {
        assert (k + [last])[..|k|] == k;
      }
    }
  }

  /** Keeping the same pairs twice changes nothing; the kept pairs are the
      unnamed pairs of the input, in order. */
  lemma {:induction false} KeepFacts(ps: seq<Param>, names: seq<string>)
    ensures Keep(Keep(ps, names), names) == Keep(ps, names)
    ensures IsSubsequence(Keep(ps, names), ps)
    ensures forall k | 0 <= k < |ps| && ps[k].name !in names :: ps[k] in Keep(ps, names)
  {
    if ps != [] {
      var init := ps[..|ps| - 1];
      var last := ps[|ps| - 1];
      KeepFacts(init, names);
      var k := Keep(init, names);
      assert ps == init + [last];
      SubsequenceExtend(k, init, last, last.name !in names);
      if last.name !in names {
        assert (k + [last])[..|k|] == k;
      }
      forall j | 0 <= j < |ps| && ps[j].name !in names ensures ps[j] in Keep(ps, names) {
        if j < |init| {
          assert ps[j] == init[j];
        }
      }
    }
  }

  /** `cleanUrl` as a value: the parsed URL without its tracking pairs,
      serialised; an unparsable input is returned unchanged. */
  function Clean(url: string): (r: string)
    ensures Parse(url).None? ==> r == url
  {
    match Parse(url)
    case None => url
    case Some(u) => Serialize(u.(query := Keep(u.query, TrackingParams)))
  }

  /** `cleanUrl`: parse, delete each tracking parameter in turn, serialise. */
  method CleanUrl(url: string) returns (r: string)
    ensures r == Clean(url)
  {
    var parsed := Parse(url);
    if parsed.None? {
      return url;
    }
    var u := parsed.value;
    var params := DeleteTracking(u.query);
    r := Serialize(u.(query := params));
  }

  /** The `searchParams.delete` loop over the tracking names. */
  method DeleteTracking(query: seq<Param>) returns (params: seq<Param>)
    ensures params == Keep(query, TrackingParams)
  {
    params := query;
    KeepNothing(query);
    for i := 0 to |TrackingParams|
      invariant params == Keep(query, TrackingParams[..i])
    {
      DeleteAfterKeep(query, TrackingParams[..i], TrackingParams[i]);
      assert TrackingParams[..i + 1] == TrackingParams[..i] + [TrackingParams[i]];
      params := Delete(params, TrackingParams[i]);
    }
    assert TrackingParams[..|TrackingParams|] == TrackingParams;
  }

  /** A cleaned URL parses to the input's URL with its tracking pairs gone
      and all other pairs kept in order. */
  lemma CleanEffect(url: string)
    requires Parse(url).Some?
    ensures var u := Parse(url).value;
      && Parse(Clean(url)) == Some(u.(query := Keep(u.query, TrackingParams)))
      && IsSubsequence(Keep(u.query, TrackingParams), u.query)
      && (forall k | 0 <= k < |u.query| && u.query[k].name !in TrackingParams ::
            u.query[k] in Keep(u.query, TrackingParams))
  {
    var u := Parse(url).value;
    var v := u.(query := Keep(u.query, TrackingParams));
    assert WellFormed(v);
    RoundTrip(v);
    KeepFacts(u.query, TrackingParams);
  }

  /** Cleaning a cleaned URL changes nothing. */
  lemma CleanIdempotent(url: string)
    ensures Clean(Clean(url)) == Clean(url)
  {
    if Parse(url).Some? {
      var u := Parse(url).value;
      CleanEffect(url);
      KeepFacts(u.query, TrackingParams);
    }
  }

  /** Cleaning neither makes a bad URL valid nor a valid one bad. */
  lemma CleanKeepsValidity(url: string)
    ensures Valid(Clean(url)) <==> Valid(url)
  {
    if Parse(url).Some? {
      CleanEffect(url);
    }
  }

  // ---------------------------------------------------------------- extractAllLinks

  function AsRaw(infos: seq<LinkInfo>): (r: seq<RawLink>)
    ensures |r| == |infos| && forall k | 0 <= k < |r| :: r[k] == RawLink(infos[k].url, infos[k].text)
  {
    seq(|infos|, k requires 0 <= k < |infos| => RawLink(infos[k].url, infos[k].text))
  }

  /** The links of a post in the order they are gathered: its source links,
      its download links, then those found in its content and its preview. */
  function Gathered(post: Post): seq<RawLink> {
    post.sourceLinks + post.downloadLinks
      + (if post.content != "" then AsRaw(ExtractLinksFromText(post.content)) else [])
      + (if post.preview != "" then AsRaw(ExtractLinksFromText(post.preview)) else [])
  }

  /** Every link with its URL cleaned. */
  function CleanAll(links: seq<RawLink>): (r: seq<RawLink>)
    ensures |r| == |links|
    ensures forall k | 0 <= k < |r| :: r[k] == RawLink(Clean(links[k].url), links[k].text)
  {
    seq(|links|, k requires 0 <= k < |links| => RawLink(Clean(links[k].url), links[k].text))
  }

  /** The links whose URL parses, in order. */
  function ValidOnly(links: seq<RawLink>): (r: seq<RawLink>)
    ensures forall k | 0 <= k < |r| :: Valid(r[k].url)
    ensures forall u :: u in UrlSet(r) <==> u in UrlSet(links) && Valid(u)
  {
    if links == [] then []
    else
      var init := links[..|links| - 1];
      var last := links[|links| - 1];
      assert links == init + [last];
      UrlSetAppend(init, [last]);
      var head := ValidOnly(init);
      if Valid(last.url) then
        UrlSetAppend(head, [last]);
        head + [last]
      else head
  }

  lemma CleanAllSnoc(links: seq<RawLink>, i: nat)
    requires i < |links|
    ensures CleanAll(links[..i + 1]) == CleanAll(links[..i]) + [RawLink(Clean(links[i].url), links[i].text)]
  {
    var a, b := CleanAll(links[..i + 1]), CleanAll(links[..i]) + [RawLink(Clean(links[i].url), links[i].text)];
    assert |a| == |b|;
    forall k | 0 <= k < |a| ensures a[k] == b[k] {
      assert links[..i + 1][k] == links[k];
      if k < i {
        assert links[..i][k] == links[k];
        assert b[k] == CleanAll(links[..i])[k];
      }
    }
  }

  lemma ValidOnlySnoc(links: seq<RawLink>, l: RawLink)
    ensures ValidOnly(links + [l]) == ValidOnly(links) + if Valid(l.url) then [l] else []
  {
    assert (links + [l])[..|links|] == links;
  }

  /** All cleaned URLs are already clean. */
  lemma CleanAllClean(links: seq<RawLink>)
    ensures forall u | u in UrlSet(CleanAll(links)) :: Clean(u) == u
  {
    forall u | u in UrlSet(CleanAll(links)) ensures Clean(u) == u {
      var k :| 0 <= k < |links| && CleanAll(links)[k].url == u;
      CleanIdempotent(links[k].url);
    }
  }

  /** `extractAllLinks` as a value. */
  function AllLinks(post: Post): Categorized {
    Categorize(FirstOccurrences(ValidOnly(CleanAll(Gathered(post)))))
  }

  /** The `.map(cleanUrl).filter(validateUrl)` stage. */
  method CleanAndValidate(links: seq<RawLink>) returns (cleaned: seq<RawLink>)
    ensures cleaned == ValidOnly(CleanAll(links))
  {
    cleaned := [];
    for i := 0 to |links|
      invariant cleaned == ValidOnly(CleanAll(links[..i]))
    {
      var u := CleanUrl(links[i].url);
      var l := RawLink(u, links[i].text);
      CleanAllSnoc(links, i);
      ValidOnlySnoc(CleanAll(links[..i]), l);
      if Valid(u) {
        cleaned := cleaned + [l];
      }
    }
    assert links[..|links|] == links;
  }

  /** `extractAllLinks`: gather, clean, keep the valid, deduplicate, categorise. */
  method ExtractAllLinks(post: Post) returns (c: Categorized)
    ensures c == AllLinks(post)
  {
    var all := post.sourceLinks + post.downloadLinks;
    if post.content != "" {
      all := all + AsRaw(ExtractLinksFromText(post.content));
    }
    if post.preview != "" {
      all := all + AsRaw(ExtractLinksFromText(post.preview));
    }
    assert all == Gathered(post);
    var cleaned := CleanAndValidate(all);
    var unique := DeduplicateLinks(cleaned);
    c := CategorizeLinks(unique);
  }

  /** Every URL in the result is a valid, already-clean URL, no URL is listed
      twice across the three lists, and the lists hold exactly the cleaned
      URLs gathered from the post that are valid. */
  lemma AllLinksFacts(post: Post)
    ensures var c := AllLinks(post);
      var all := c.sourceLinks + c.downloadLinks + c.otherLinks;
      && NoDupInfo(all)
      && (forall u | u in InfoUrls(all) :: Valid(u) && Clean(u) == u)
      && (forall u :: u in InfoUrls(all) <==> u in UrlSet(CleanAll(Gathered(post))) && Valid(u))
  {
    var cleaned := CleanAll(Gathered(post));
    var cv := ValidOnly(cleaned);
    var unique := FirstOccurrences(cv);
    CleanAllClean(Gathered(post));
    DedupFacts(cv);
    CategorizedDistinct(unique);
    CategorizePartitions(unique);
    var c := AllLinks(post);
    var all := c.sourceLinks + c.downloadLinks + c.otherLinks;
    InfoUrlsAppend3(c.sourceLinks, c.downloadLinks, c.otherLinks);
    assert !Valid("");
  }

  lemma InfoUrlsAppend3(a: seq<LinkInfo>, b: seq<LinkInfo>, c: seq<LinkInfo>)
    ensures InfoUrls(a + b + c) == InfoUrls(a) + InfoUrls(b) + InfoUrls(c)
  {
    var z := a + b + c;
    forall u | u in InfoUrls(z) ensures u in InfoUrls(a) + InfoUrls(b) + InfoUrls(c) {
      var k :| 0 <= k < |z| && z[k].url == u;
      if k < |a| {
        assert a[k].url == u;
      } else if k < |a| + |b| {
        assert b[k - |a|].url == u;
      } else {
        assert c[k - |a| - |b|].url == u;
      }
    }
    forall u | u in InfoUrls(a) + InfoUrls(b) + InfoUrls(c) ensures u in InfoUrls(z) {
      if u in InfoUrls(a) {
        var k :| 0 <= k < |a| && a[k].url == u;
        assert z[k].url == u;
      } else if u in InfoUrls(b) {
        var k :| 0 <= k < |b| && b[k].url == u;
        assert z[|a| + k].url == u;
      } else {
        var k :| 0 <= k < |c| && c[k].url == u;
        assert z[|a| + |b| + k].url == u;
      }
    }
  }
}
