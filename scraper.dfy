/** scraper.js: reading the forum's topic listing, reading each topic's
    page for links, an image and text, and merging the two into posts.
    HTML is given already selected: a listing is the sequence of elements
    carrying `data-topic-id`, each reduced to the texts and attributes the
    scraper reads from it, and a topic page is the first post-content
    element reduced to its anchors, its text and its first image. An
    attribute that is absent is the empty string; the code treats both alike. */
module Scraper {
  import opened Text
  import opened Config
  import opened Posts
  import opened Links
  import Urls

  /** The forum origin prepended to relative links. */
  const Origin: string := "https://forum.ripper.store"

  /** One `[data-topic-id]` element: its id attribute, then the text and
      `href` of its first title anchor, the text of its first author anchor,
      the `title` and `datetime` attributes and text of its first time
      element, and the text of its first excerpt element. */
  datatype ListingElement = ListingElement(
    topicId: string,
    titleText: string,
    titleHref: string,
    authorText: string,
    timeTitle: string,
    timeDatetime: string,
    timeText: string,
    previewText: string)

  /** What `parseForumPage` records for one topic. */
  datatype Summary = Summary(id: string, title: string, author: string, url: string, timestamp: string, preview: string)

  /** An anchor of the post content: its `href` and its text. */
  datatype Anchor = Anchor(href: string, text: string)

  /** The first post-content element: its anchors in document order, its
      text, and the `src` of its first image. A page without such an element
      has no anchors, no text and no image. */
  datatype DetailPage = DetailPage(anchors: seq<Anchor>, text: string, imageSrc: string)

  /** What `parsePostContent` returns. */
  datatype Details = Details(sourceLinks: seq<RawLink>, downloadLinks: seq<RawLink>, imageUrl: Option<string>, content: string)

  // ---------------------------------------------------------------- parseForumPage

  /** A topic link made absolute: kept when it starts with "http", else put after the origin. */
  function ForumUrl(href: string): (r: string)
    ensures StartsWith(r, "http")
  {
    if StartsWith(href, "http") then href
    else
      assert (Origin + href)[..4] == "http";
      Origin + href
  }

  /** What every listed topic has: an id, a title without surrounding
      white space, an author, and an absolute link. */
  predicate Listed(s: Summary) {
    && s.id != "" && s.title != "" && s.author != ""
    && !IsSpace(s.title[0]) && !IsSpace(s.title[|s.title| - 1])
    && StartsWith(s.url, "http")
  }

  /** The summary of one element, or `None` when it has no id, no title text or no link. */
  function Summarize(e: ListingElement): (r: Option<Summary>)
    ensures r.None? <==> e.topicId == "" || Trim(e.titleText) == "" || e.titleHref == ""
    ensures r.Some? ==> Listed(r.value) && r.value.id == e.topicId
    ensures r.Some? ==> r.value.title == Trim(e.titleText) && r.value.url == ForumUrl(e.titleHref)
    ensures r.Some? ==> r.value.preview == Trim(e.previewText)
    ensures r.Some? ==> (Trim(e.authorText) != "" ==> r.value.author == Trim(e.authorText))
    ensures r.Some? ==> (Trim(e.authorText) == "" ==> r.value.author == "Unknown")
    ensures r.Some? ==> (e.timeTitle != "" ==> r.value.timestamp == e.timeTitle)
    ensures r.Some? ==> (e.timeTitle == "" && e.timeDatetime != "" ==> r.value.timestamp == e.timeDatetime)
    ensures r.Some? ==> (e.timeTitle == "" && e.timeDatetime == "" ==> r.value.timestamp == Trim(e.timeText))
  {
    var title := Trim(e.titleText);
    if e.topicId == "" || title == "" || e.titleHref == "" then None
    else
      assert title[0] == TrimStart(e.titleText)[0];
      Some(Summary(e.topicId, title, OrElse(Trim(e.authorText), "Unknown"), ForumUrl(e.titleHref),
                   OrElse(e.timeTitle, OrElse(e.timeDatetime, Trim(e.timeText))), Trim(e.previewText)))
  }

  /** A summary for each element that has an id, a title and a link, in order. */
  function Listing(elements: seq<ListingElement>): (r: seq<Summary>)
    ensures |r| <= |elements|
  {
    if elements == [] then []
    else
      var head := Listing(elements[..|elements| - 1]);
      var last := Summarize(elements[|elements| - 1]);
      if last.None? then head else head + [last.value]
  }

  /** The outcome of `Summarize` for each element. */
  function Summaries(elements: seq<ListingElement>): (r: seq<Option<Summary>>)
    ensures |r| == |elements| && forall i | 0 <= i < |elements| :: r[i] == Summarize(elements[i])
  {
    seq(|elements|, i requires 0 <= i < |elements| => Summarize(elements[i]))
  }

  /** Every listed topic has an id, a trimmed title, an author and an absolute link. */
  lemma {:induction false} ListingListed(elements: seq<ListingElement>)
    ensures forall k | 0 <= k < |Listing(elements)| :: Listed(Listing(elements)[k])
  {
    if elements != [] {
      ListingListed(elements[..|elements| - 1]);
    }
  }

  /** Each listed topic is the summary of one of the elements. */
  lemma {:induction false} ListingOrigin(elements: seq<ListingElement>)
    ensures forall k | 0 <= k < |Listing(elements)| :: Some(Listing(elements)[k]) in Summaries(elements)
  {
    if elements != [] {
      var init := elements[..|elements| - 1];
      ListingOrigin(init);
      var xs := Summaries(elements);
      assert Summaries(init) == xs[..|init|];
    }
  }

  /** The element has an id, a title and a link. */
  predicate Complete(e: ListingElement) {
    Summarize(e).Some?
  }

  /** When every element is complete, none is dropped. */
  lemma {:induction false} ListingKeepsComplete(elements: seq<ListingElement>)
    requires forall j | 0 <= j < |elements| :: Complete(elements[j])
    ensures |Listing(elements)| == |elements|
  {
    if elements != [] {
      var init := elements[..|elements| - 1];
      assert forall j | 0 <= j < |init| :: init[j] == elements[j];
      ListingKeepsComplete(init);
    }
  }

  /** The listing of one more element: its summary, when it has one, follows. */
  lemma ListingSnoc(elements: seq<ListingElement>, e: ListingElement)
    ensures Listing(elements + [e]) == Listing(elements) + if Complete(e) then [Summarize(e).value] else []
  {
    assert (elements + [e])[..|elements|] == elements;
  }

  /** One step of `ListingAppend`: one more element after `b`. */
  lemma ListingAppendStep(a: seq<ListingElement>, b: seq<ListingElement>, e: ListingElement)
    requires Listing(a + b) == Listing(a) + Listing(b)
    ensures Listing(a + (b + [e])) == Listing(a) + Listing(b + [e])
  {
    var tail := if Complete(e) then [Summarize(e).value] else [];
    AppendAssociates(a, b, [e]);
    ListingSnoc(a + b, e);
    ListingSnoc(b, e);
    AppendAssociates(Listing(a), Listing(b), tail);
  }

  /** The listing of two runs of elements is the listing of the first
      followed by that of the second: document order is kept. */
  lemma {:induction false} ListingAppend(a: seq<ListingElement>, b: seq<ListingElement>)
    ensures Listing(a + b) == Listing(a) + Listing(b)
    decreases |b|
  {
    if b == [] {
      AppendNothing(a);
      AppendNothing(Listing(a));
    } else {
      var init := b[..|b| - 1];
      ListingAppend(a, init);
      ListingAppendStep(a, init, b[|b| - 1]);
      SplitLast(b);
    }
  }

  /** Every complete element has its summary listed, between the listings
      of the elements before it and of those after it. */
  lemma ListingKeepsEach(elements: seq<ListingElement>, j: nat)
    requires j < |elements| && Complete(elements[j])
    ensures Listing(elements) == Listing(elements[..j]) + [Summarize(elements[j]).value] + Listing(elements[j + 1..])
  {
    var e, before, after := elements[j], elements[..j], elements[j + 1..];
    SplitAround(elements, j);
    ListingAppend(before + [e], after);
    ListingSnoc(before, e);
  }

  /** How many elements the listing loop looks at: it stops at index `maxPosts`. */
  function Examined(count: nat, maxPosts: int): (n: nat)
    ensures n <= count && (maxPosts >= 0 ==> n <= maxPosts)
    ensures maxPosts <= 0 ==> n == 0
    ensures 0 <= maxPosts <= count ==> n == maxPosts
    ensures maxPosts >= count ==> n == count
  {
    if maxPosts <= 0 then 0 else if maxPosts < count then maxPosts else count
  }

  /** `parseForumPage`: walk the elements until index `maxPosts`, skipping
      those without an id, a title or a link. */
  method ParseForumPage(elements: seq<ListingElement>, maxPosts: int) returns (posts: seq<Summary>)
    ensures posts == Listing(elements[..Examined(|elements|, maxPosts)])
  {
    posts := [];
    var i := 0;
    while i < |elements|
      invariant i <= Examined(|elements|, maxPosts)
      invariant posts == Listing(elements[..i])
    {
      if i >= maxPosts {
        assert i == Examined(|elements|, maxPosts);
        break;
      }
      assert elements[..i + 1][..i] == elements[..i];
      var s := Summarize(elements[i]);
      assert Listing(elements[..i + 1]) == Listing(elements[..i]) + (if s.Some? then [s.value] else []);
      if s.Some? {
        posts := posts + [s.value];
      }
      i := i + 1;
    }
    assert i == Examined(|elements|, maxPosts);
  }

  // ---------------------------------------------------------------- parsePostContent

  /** An anchor link made absolute: kept when it starts with "http", else given "https://". */
  function AnchorUrl(href: string): (r: string)
    ensures StartsWith(r, "http")
  {
    if StartsWith(href, "http") then href
    else
      assert ("https://" + href)[..4] == "http";
      "https://" + href
  }

  /** A protocol-relative or root-relative href ("//host/..." or
      "/host/...") gets "https://" in front, and the URL parser skips the
      extra slashes: the link parses as "https://" followed by the href
      without its leading slashes. */
  lemma SlashHrefParses(u: Urls.Url, slashes: string)
    requires Urls.WellFormed(u) && u.scheme == "https"
    requires slashes != [] && forall i | 0 <= i < |slashes| :: slashes[i] == '/'
    ensures Urls.Parse(AnchorUrl(slashes + Urls.HostOnward(u))) == Some(u)
  {
    var href := slashes + Urls.HostOnward(u);
    assert !StartsWith(href, "http") by {
      assert href[0] == '/';
    }
    var all := "//" + slashes;
    assert forall i | 0 <= i < |all| :: all[i] == '/';
    assert AnchorUrl(href) == u.scheme + ":" + all + Urls.HostOnward(u);
    Urls.ExtraSlashesSkipped(u, all);
  }

  datatype Found = Found(sourceLinks: seq<RawLink>, downloadLinks: seq<RawLink>)

  /** The anchor loop's step: an anchor with a link is a source link when
      a source pattern matches its URL or its lower-cased text, else a
      download link when a download pattern does, else it is ignored. */
  function AnchorStep(st: Found, a: Anchor): Found {
    if a.href == "" then st
    else
      var text := Lower(Trim(a.text));
      var url := AnchorUrl(a.href);
      if AnyMatchEither(SourcePatterns, url, text) then
        st.(sourceLinks := st.sourceLinks + [RawLink(url, OrElse(text, "Source Link"))])
      else if AnyMatchEither(DownloadPatterns, url, text) then
        st.(downloadLinks := st.downloadLinks + [RawLink(url, OrElse(text, "Download Link"))])
      else st
  }

  /** What the anchor loop has found after `anchors`. */
  function AnchorPass(anchors: seq<Anchor>): Found {
    if anchors == [] then Found([], [])
    else AnchorStep(AnchorPass(anchors[..|anchors| - 1]), anchors[|anchors| - 1])
  }

  /** The plain-text loop's step: a URL is added as a source link when it
      matches a source pattern and is not yet a source link; otherwise as a
      download link when it matches a download pattern and is not yet a
      download link. */
  function TextStep(st: Found, url: string): (r: Found)
    ensures r.sourceLinks == st.sourceLinks || r.sourceLinks == st.sourceLinks + [RawLink(url, "Source Link")]
    ensures r.sourceLinks != st.sourceLinks <==> IsSourceUrl(url) && url !in UrlSet(st.sourceLinks)
    ensures r.downloadLinks == st.downloadLinks || r.downloadLinks == st.downloadLinks + [RawLink(url, "Download Link")]
    ensures r.downloadLinks != st.downloadLinks <==>
      !(IsSourceUrl(url) && url !in UrlSet(st.sourceLinks)) && IsDownloadUrl(url) && url !in UrlSet(st.downloadLinks)
  {
    if IsSourceUrl(url) && url !in UrlSet(st.sourceLinks) then
      st.(sourceLinks := st.sourceLinks + [RawLink(url, "Source Link")])
    else if IsDownloadUrl(url) && url !in UrlSet(st.downloadLinks) then
      st.(downloadLinks := st.downloadLinks + [RawLink(url, "Download Link")])
    else st
  }

  function TextPass(st: Found, urls: seq<string>): Found {
    if urls == [] then st
    else TextStep(TextPass(st, urls[..|urls| - 1]), urls[|urls| - 1])
  }

  /** The image URL: none without a `src`, else the `src` made absolute against the origin. */
  function ImageUrl(src: string): (r: Option<string>)
    ensures r.None? <==> src == ""
    ensures r.Some? ==> StartsWith(r.value, "http")
  {
    if src == "" then None
    else if StartsWith(src, "http") then Some(src)
    else
      assert (Origin + src)[..4] == "http";
      Some(Origin + src)
  }

  const ContentLimit: nat := 500

  function DetailsOf(page: DetailPage): Details {
    var found := TextPass(AnchorPass(page.anchors), ScanFrom(page.text, 0));
    Details(found.sourceLinks, found.downloadLinks, ImageUrl(page.imageSrc), Take(Trim(page.text), ContentLimit))
  }

  /** `parsePostContent`: the anchor loop, then the plain-text loop over the
      URLs found in the content's text, then the image and the text. */
  method ParsePostContent(page: DetailPage) returns (d: Details)
    ensures d == DetailsOf(page)
  {
    var src: seq<RawLink> := [];
    var dl: seq<RawLink> := [];
    for i := 0 to |page.anchors|
      invariant Found(src, dl) == AnchorPass(page.anchors[..i])
    {
      assert page.anchors[..i + 1][..i] == page.anchors[..i];
      var a := page.anchors[i];
      if a.href == "" {
        continue;
      }
      var text := Lower(Trim(a.text));
      var url := AnchorUrl(a.href);
      if AnyMatchEither(SourcePatterns, url, text) {
        src := src + [RawLink(url, OrElse(text, "Source Link"))];
      } else if AnyMatchEither(DownloadPatterns, url, text) {
        dl := dl + [RawLink(url, OrElse(text, "Download Link"))];
      }
    }
    assert page.anchors[..|page.anchors|] == page.anchors;
    ghost var afterAnchors := Found(src, dl);
    var urls := ScanFrom(page.text, 0);
    for i := 0 to |urls|
      invariant Found(src, dl) == TextPass(afterAnchors, urls[..i])
    {
      assert urls[..i + 1][..i] == urls[..i];
      var url := urls[i];
      if IsSourceUrl(url) && url !in UrlSet(src) {
        src := src + [RawLink(url, "Source Link")];
      } else if IsDownloadUrl(url) && url !in UrlSet(dl) {
        dl := dl + [RawLink(url, "Download Link")];
      }
    }
    assert urls[..|urls|] == urls;
    d := Details(src, dl, ImageUrl(page.imageSrc), Take(Trim(page.text), ContentLimit));
  }

  /** An anchor source link: absolute, and a source pattern matches its URL or its text. */
  predicate SourceOk(l: RawLink) {
    StartsWith(l.url, "http") && (IsSourceUrl(l.url) || IsSourceUrl(l.text))
  }

  /** An anchor download link: absolute, no source pattern matches its URL
      or its text, and a download pattern matches its URL or its text. */
  predicate DownloadOk(l: RawLink) {
    && StartsWith(l.url, "http") && !IsSourceUrl(l.url) && !IsSourceUrl(l.text)
    && (IsDownloadUrl(l.url) || IsDownloadUrl(l.text))
  }

  predicate FoundOk(f: Found) {
    && (forall k | 0 <= k < |f.sourceLinks| :: SourceOk(f.sourceLinks[k]))
    && (forall k | 0 <= k < |f.downloadLinks| :: DownloadOk(f.downloadLinks[k]))
  }

  lemma SourceLinkOk(url: string, text: string)
    requires StartsWith(url, "http")
    requires AnyMatchEither(SourcePatterns, url, text)
    ensures SourceOk(RawLink(url, OrElse(text, "Source Link")))
  {
    AnyMatchEitherSplits(SourcePatterns, url, text);
    if text == "" {
      NothingMatchesEmpty(SourcePatterns);
    }
  }

  lemma DownloadLinkOk(url: string, text: string)
    requires StartsWith(url, "http")
    requires !AnyMatchEither(SourcePatterns, url, text)
    requires AnyMatchEither(DownloadPatterns, url, text)
    ensures DownloadOk(RawLink(url, OrElse(text, "Download Link")))
  {
    AnyMatchEitherSplits(SourcePatterns, url, text);
    AnyMatchEitherSplits(DownloadPatterns, url, text);
    if text == "" {
      NothingMatchesEmpty(DownloadPatterns);
      FallbackTextsMatchNeither();
    }
  }

  /** The texts given to links without one match no pattern. */
  lemma FallbackTextsMatchNeither()
    ensures !IsSourceUrl("Source Link") && !IsDownloadUrl("Source Link")
    ensures !IsSourceUrl("Download Link") && !IsDownloadUrl("Download Link")
  {
    var s, d := "Source Link", "Download Link";
    assert forall i | 0 <= i < |s| :: s[i] != '.';
    assert forall i | 0 <= i < |d| :: d[i] != '.';
    DotlessMatchesNeither(s);
    DotlessMatchesNeither(d);
  }

  lemma AnchorStepSound(st: Found, a: Anchor)
    requires FoundOk(st)
    ensures FoundOk(AnchorStep(st, a))
  {
    if a.href != "" {
      var text := Lower(Trim(a.text));
      var url := AnchorUrl(a.href);
      if AnyMatchEither(SourcePatterns, url, text) {
        SourceLinkOk(url, text);
      } else if AnyMatchEither(DownloadPatterns, url, text) {
        DownloadLinkOk(url, text);
      }
    }
  }

  /** Every link the anchor loop files is absolute and was filed for a
      pattern of its own table matching its URL or its text; a download
      link's URL matches no source pattern. */
  lemma {:induction false} AnchorPassSound(anchors: seq<Anchor>)
    ensures FoundOk(AnchorPass(anchors))
  {
    if anchors != [] {
      AnchorPassSound(anchors[..|anchors| - 1]);
      AnchorStepSound(AnchorPass(anchors[..|anchors| - 1]), anchors[|anchors| - 1]);
    }
  }

  /** The anchor's URL is among the source links of `f` when a source
      pattern matches its URL or lower-cased text, and otherwise among the
      download links when a download pattern does. */
  predicate AnchorFiled(f: Found, a: Anchor) {
    var url, text := AnchorUrl(a.href), Lower(Trim(a.text));
    a.href != "" ==>
      && (AnyMatchEither(SourcePatterns, url, text) ==> url in UrlSet(f.sourceLinks))
      && (!AnyMatchEither(SourcePatterns, url, text) && AnyMatchEither(DownloadPatterns, url, text) ==>
            url in UrlSet(f.downloadLinks))
  }

  /** One anchor step only appends, and files the anchor. */
  lemma AnchorStepFiles(st: Found, a: Anchor)
    ensures var r := AnchorStep(st, a);
      && UrlSet(st.sourceLinks) <= UrlSet(r.sourceLinks) && UrlSet(st.downloadLinks) <= UrlSet(r.downloadLinks)
      && AnchorFiled(r, a)
  {
    if a.href != "" {
      var url, text := AnchorUrl(a.href), Lower(Trim(a.text));
      UrlSetSnoc(st.sourceLinks, RawLink(url, OrElse(text, "Source Link")));
      UrlSetSnoc(st.downloadLinks, RawLink(url, OrElse(text, "Download Link")));
    }
  }

  /** The anchor loop misses no anchor: every anchor with a link whose URL
      or lower-cased text a source pattern matches is a source link, and
      every other one that a download pattern matches is a download link. */
  lemma {:induction false} AnchorPassComplete(anchors: seq<Anchor>)
    ensures forall i | 0 <= i < |anchors| :: AnchorFiled(AnchorPass(anchors), anchors[i])
  {
    if anchors != [] {
      var init := anchors[..|anchors| - 1];
      var before, after := AnchorPass(init), AnchorPass(anchors);
      AnchorPassComplete(init);
      AnchorStepFiles(before, anchors[|anchors| - 1]);
      assert after == AnchorStep(before, anchors[|anchors| - 1]);
      forall i | 0 <= i < |anchors| ensures AnchorFiled(after, anchors[i]) {
        if i < |init| {
          assert anchors[i] == init[i];
          assert AnchorFiled(before, init[i]);
        }
      }
    }
  }

  /** One plain-text step only appends, and leaves a URL that matches a
      source pattern among the source links, and one that matches only a
      download pattern among the download links. */
  lemma TextStepFiles(st: Found, url: string)
    ensures var r := TextStep(st, url);
      && UrlSet(st.sourceLinks) <= UrlSet(r.sourceLinks) && UrlSet(st.downloadLinks) <= UrlSet(r.downloadLinks)
      && (IsSourceUrl(url) ==> url in UrlSet(r.sourceLinks))
      && (!IsSourceUrl(url) && IsDownloadUrl(url) ==> url in UrlSet(r.downloadLinks))
  {
    UrlSetSnoc(st.sourceLinks, RawLink(url, "Source Link"));
    UrlSetSnoc(st.downloadLinks, RawLink(url, "Download Link"));
  }

  /** The plain-text loop misses no URL: afterwards each URL that matches a
      source pattern is a source link, each other URL that matches a
      download pattern is a download link, and what was there stays. */
  lemma {:induction false} TextPassComplete(st: Found, urls: seq<string>)
    ensures var r := TextPass(st, urls);
      && UrlSet(st.sourceLinks) <= UrlSet(r.sourceLinks) && UrlSet(st.downloadLinks) <= UrlSet(r.downloadLinks)
      && forall i | 0 <= i < |urls| ::
           && (IsSourceUrl(urls[i]) ==> urls[i] in UrlSet(r.sourceLinks))
           && (!IsSourceUrl(urls[i]) && IsDownloadUrl(urls[i]) ==> urls[i] in UrlSet(r.downloadLinks))
  {
    if urls != [] {
      var init := urls[..|urls| - 1];
      TextPassComplete(st, init);
      TextStepFiles(TextPass(st, init), urls[|urls| - 1]);
      assert forall i | 0 <= i < |init| :: urls[i] == init[i];
    }
  }

  /** `parsePostContent` files every link it is shown: the anchors as the
      anchor loop files them, then the URLs of the text as the text loop does. */
  lemma ParsePostContentComplete(page: DetailPage)
    ensures var d := DetailsOf(page);
      && (forall i | 0 <= i < |page.anchors| :: AnchorFiled(Found(d.sourceLinks, d.downloadLinks), page.anchors[i]))
      && (forall u | u in ScanFrom(page.text, 0) ::
            && (IsSourceUrl(u) ==> u in UrlSet(d.sourceLinks))
            && (!IsSourceUrl(u) && IsDownloadUrl(u) ==> u in UrlSet(d.downloadLinks)))
  {
    var found := AnchorPass(page.anchors);
    var d := DetailsOf(page);
    AnchorPassComplete(page.anchors);
    TextPassComplete(found, ScanFrom(page.text, 0));
    forall i | 0 <= i < |page.anchors| ensures AnchorFiled(Found(d.sourceLinks, d.downloadLinks), page.anchors[i]) {
      assert AnchorFiled(found, page.anchors[i]);
    }
  }

  /** The plain-text loop never adds a URL to a list that already holds it,
      so a list without repeated URLs keeps none. */
  lemma {:induction false} TextPassKeepsDistinct(st: Found, urls: seq<string>)
    requires NoDupUrls(st.sourceLinks) && NoDupUrls(st.downloadLinks)
    ensures NoDupUrls(TextPass(st, urls).sourceLinks) && NoDupUrls(TextPass(st, urls).downloadLinks)
  {
    if urls != [] {
      var before := TextPass(st, urls[..|urls| - 1]);
      TextPassKeepsDistinct(st, urls[..|urls| - 1]);
      var url := urls[|urls| - 1];
      assert forall k | 0 <= k < |before.sourceLinks| :: before.sourceLinks[k].url in UrlSet(before.sourceLinks);
      assert forall k | 0 <= k < |before.downloadLinks| :: before.downloadLinks[k].url in UrlSet(before.downloadLinks);
    }
  }

  /** The plain-text loop only ever removes nothing: what the anchors found stays, in front. */
  lemma {:induction false} TextPassExtends(st: Found, urls: seq<string>)
    ensures var r := TextPass(st, urls);
      && |st.sourceLinks| <= |r.sourceLinks| && r.sourceLinks[..|st.sourceLinks|] == st.sourceLinks
      && |st.downloadLinks| <= |r.downloadLinks| && r.downloadLinks[..|st.downloadLinks|] == st.downloadLinks
  {
    if urls != [] {
      TextPassExtends(st, urls[..|urls| - 1]);
      var before := TextPass(st, urls[..|urls| - 1]);
      var r := TextPass(st, urls);
      assert r.sourceLinks[..|before.sourceLinks|] == before.sourceLinks;
      assert r.downloadLinks[..|before.downloadLinks|] == before.downloadLinks;
    }
  }

  /** A URL that matches both tables and is already a source link, but not
      a download link, is filed again by the plain-text loop, as a download link. */
  lemma TextPassRefilesSourceAsDownload(st: Found, url: string)
    requires IsSourceUrl(url) && IsDownloadUrl(url)
    requires url in UrlSet(st.sourceLinks) && url !in UrlSet(st.downloadLinks)
    ensures TextStep(st, url) == st.(downloadLinks := st.downloadLinks + [RawLink(url, "Download Link")])
  {
  }

  lemma BothKindsRefiled()
    ensures var st := Found([RawLink(BothKinds, "Source Link")], []);
      TextStep(st, BothKinds).downloadLinks == [RawLink(BothKinds, "Download Link")]
  {
    BothKindsMatchBoth();
    var st := Found([RawLink(BothKinds, "Source Link")], []);
    assert st.sourceLinks[0].url == BothKinds;
    assert BothKinds in UrlSet(st.sourceLinks);
    TextPassRefilesSourceAsDownload(st, BothKinds);
  }

  /** The content is the page text trimmed and cut to 500 characters. */
  lemma ContentBounded(page: DetailPage)
    ensures |DetailsOf(page).content| <= ContentLimit
    ensures |Trim(page.text)| <= ContentLimit ==> DetailsOf(page).content == Trim(page.text)
  {
  }

  // ---------------------------------------------------------------- scrapeNewPosts

  /** `{...summary, ...details, postedAt}` */
  function Merge(s: Summary, d: Details, now: int): Post {
    Post(s.id, s.title, s.author, s.url, s.timestamp, s.preview,
         d.sourceLinks, d.downloadLinks, d.imageUrl, d.content, Some(now))
  }

  /** The listed topics whose page could be fetched, each with its page, in
      listing order. `pages` holds the topic pages that could be fetched, by
      URL; a topic whose request failed or returned nothing is missing. */
  function Paired(summaries: seq<Summary>, pages: map<string, DetailPage>): (r: seq<(Summary, DetailPage)>)
    ensures |r| <= |summaries|
    ensures forall k | 0 <= k < |r| :: r[k].0 in summaries && r[k].0.url in pages && r[k].1 == pages[r[k].0.url]
    ensures (forall j | 0 <= j < |summaries| :: summaries[j].url in pages) ==> |r| == |summaries|
  {
    if summaries == [] then []
    else
      var init := summaries[..|summaries| - 1];
      var s := summaries[|summaries| - 1];
      var head := Paired(init, pages);
      assert forall k | 0 <= k < |head| :: head[k].0 in summaries by {
        forall k | 0 <= k < |head| ensures head[k].0 in summaries {
          assert head[k].0 in init;
        }
      }
      assert (forall j | 0 <= j < |summaries| :: summaries[j].url in pages) ==> forall j | 0 <= j < |init| :: init[j].url in pages by {
        assert forall j | 0 <= j < |init| :: init[j] == summaries[j];
      }
      if s.url in pages then head + [(s, pages[s.url])] else head
  }

  /** The topics of a list of pairs, in order. */
  function Topics(pairs: seq<(Summary, DetailPage)>): (r: seq<Summary>)
    ensures |r| == |pairs| && forall k | 0 <= k < |r| :: r[k] == pairs[k].0
  {
    seq(|pairs|, k requires 0 <= k < |pairs| => pairs[k].0)
  }

  /** The topics kept are listed ones, in listing order. */
  lemma {:induction false} PairedKeepsOrder(summaries: seq<Summary>, pages: map<string, DetailPage>)
    ensures IsSubsequence(Topics(Paired(summaries, pages)), summaries)
  {
    if summaries != [] {
      var init, s := summaries[..|summaries| - 1], summaries[|summaries| - 1];
      PairedKeepsOrder(init, pages);
      var head := Paired(init, pages);
      var keep := s.url in pages;
      var r := Paired(summaries, pages);
      assert r == if keep then head + [(s, pages[s.url])] else head;
      assert Topics(r) == if keep then Topics(head) + [s] else Topics(head);
      SubsequenceExtend(Topics(head), init, s, keep);
      assert init + [s] == summaries;
    }
  }

  /** Every listed topic whose page was fetched has its pair. */
  lemma {:induction false} PairedKeepsFetched(summaries: seq<Summary>, pages: map<string, DetailPage>)
    ensures forall j | 0 <= j < |summaries| && summaries[j].url in pages :: summaries[j] in Topics(Paired(summaries, pages))
  {
    if summaries != [] {
      var init, s := summaries[..|summaries| - 1], summaries[|summaries| - 1];
      PairedKeepsFetched(init, pages);
      var head := Paired(init, pages);
      var r := Paired(summaries, pages);
      assert r == if s.url in pages then head + [(s, pages[s.url])] else head;
      forall j | 0 <= j < |summaries| && summaries[j].url in pages ensures summaries[j] in Topics(r) {
        if j < |init| {
          assert summaries[j] == init[j];
          var k :| 0 <= k < |Topics(head)| && Topics(head)[k] == summaries[j];
          assert Topics(r)[k] == summaries[j];
        } else {
          assert Topics(r)[|Topics(r)| - 1] == s;
        }
      }
    }
  }

  /** The posts whose topic page could be fetched, in listing order: each
      listed topic merged with its parsed page. */
  function Enrich(summaries: seq<Summary>, pages: map<string, DetailPage>, now: int): (r: seq<Post>)
    ensures var fetched := Paired(summaries, pages);
      |r| == |fetched| && forall k | 0 <= k < |r| :: r[k] == Merge(fetched[k].0, DetailsOf(fetched[k].1), now)
  {
    var fetched := Paired(summaries, pages);
    seq(|fetched|, k requires 0 <= k < |fetched| => Merge(fetched[k].0, DetailsOf(fetched[k].1), now))
  }

  /** One more listed topic: its post follows when its page was fetched. */
  lemma EnrichSnoc(summaries: seq<Summary>, s: Summary, pages: map<string, DetailPage>, now: int)
    ensures Enrich(summaries + [s], pages, now) ==
      Enrich(summaries, pages, now) + if s.url in pages then [Merge(s, DetailsOf(pages[s.url]), now)] else []
  {
    assert (summaries + [s])[..|summaries|] == summaries;
    var head, all := Paired(summaries, pages), Paired(summaries + [s], pages);
    assert all == head + if s.url in pages then [(s, pages[s.url])] else [];
  }

  const ListingError: string := "forum page could not be fetched"

  /** `scrapeNewPosts`: read the listing (an error there is thrown on), then
      fetch each topic page; a topic whose page cannot be fetched is left out.
      `listing` is the listing page as fetched, `None` when the request
      failed; `pages` holds each topic page whose request succeeded, by URL;
      `now` is the clock reading stamped on the posts. */
  method ScrapeNewPosts(listing: Option<seq<ListingElement>>, maxPosts: int,
                        pages: map<string, DetailPage>, now: int) returns (r: Result<seq<Post>>)
    ensures listing.None? <==> r.Failure?
    ensures listing.Some? ==>
      r.value == Enrich(Listing(listing.value[..Examined(|listing.value|, maxPosts)]), pages, now)
  {
    if listing.None? {
      return Failure(ListingError);
    }
    var posts := ParseForumPage(listing.value, maxPosts);
    var detailed := FetchDetails(posts, pages, now);
    return Success(detailed);
  }

  /** The loop of `scrapeNewPosts` over the listed topics: each topic whose
      page was fetched is parsed and merged with its summary. */
  method FetchDetails(posts: seq<Summary>, pages: map<string, DetailPage>, now: int) returns (detailed: seq<Post>)
    ensures detailed == Enrich(posts, pages, now)
  {
    detailed := [];
    for i := 0 to |posts|
      invariant detailed == Enrich(posts[..i], pages, now)
    {
      EnrichSnoc(posts[..i], posts[i], pages, now);
      assert posts[..i + 1] == posts[..i] + [posts[i]];
      if posts[i].url in pages {
        var details := ParsePostContent(pages[posts[i].url]);
        detailed := detailed + [Merge(posts[i], details, now)];
      }
    }
    assert posts[..|posts|] == posts;
  }
}
