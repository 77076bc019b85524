/** The records passed between the scraper, the link extractor, the webhook
    and the database. JavaScript's "missing" and "empty" behave alike for
    every string and list field here (both are falsy, and `|| []` turns a
    missing list into an empty one), so both are the empty value. */
module Posts {
  import opened Text

  /** A link `{url, text}` as the scraper builds it. */
  datatype RawLink = RawLink(url: string, text: string)

  /** A topic after detail enrichment: the listing summary spread together
      with the detail-page results. `postedAt` is the clock reading taken
      when the detail page was parsed, as an integer time. */
  datatype Post = Post(
    id: string,
    title: string,
    author: string,
    url: string,
    timestamp: string,
    preview: string,
    sourceLinks: seq<RawLink>,
    downloadLinks: seq<RawLink>,
    imageUrl: Option<string>,
    content: string,
    postedAt: Option<int>)
}
