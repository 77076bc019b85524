# Forum monitor: a Dafny model

This project models the core of a bot that watches the "Gifts/Downloads"
category of a forum and announces new topics on a Discord webhook. The
bot works in four steps:

1. It scrapes the topic listing, then reads each topic page for links, an
   image and some text.
2. It sorts the links into source links (shops such as Gumroad or Booth)
   and download links (file hosts such as MEGA or PixelDrain).
3. It records each topic in an SQLite table, so that no topic is announced
   twice.
4. It posts an embed for every new topic, and status and error reports
   besides.

The checks run on a timer. Five failed checks in a row stop the bot.
Once the bot has run for 24 hours, every check made during the 3 o'clock
hour (local time) deletes, after its posts are handled, the rows created
more than 30 days before.

The model follows the program's files:

| module | file | form |
|---|---|---|
| `Text` | JavaScript string primitives: trim, case mapping, `includes`, `replace`, `join`, `String(n)` | pure |
| `Config` | `config.js`: settings read from the environment, the two pattern lists, `validateConfig` | pure, with a method for the validation |
| `Urls` | the parse and serialise behaviour of `new URL(...)` that `linkExtractor.js` relies on | pure |
| `Posts` | the post and link records that the files pass to each other | data |
| `Links` | `linkExtractor.js` | pure functions, with methods where the source loops |
| `LinkJson` | `JSON.stringify` / `JSON.parse` of the stored link lists | pure |
| `Scraper` | `scraper.js`, with the HTML given already selected | pure functions, with methods where the source loops |
| `Webhook` | `webhook.js`: embeds, payloads and the result of a send | pure functions, with methods where the source pushes fields |
| `Ledger` | `database.js`: the `posted_content` table as a class over a map of rows | class |
| `Bot` | `index.js`: the bot object, its checks, start, stop and failure path | class over specification functions |

Each state-changing class method is proved equal to a specification
function of the old state: `Ledger.Saved`, `Ledger.Pruned`, `Bot.Checked`, `Bot.Started`,
`Bot.Stopped` and `Bot.Failed`. The lemmas state the bot's promises about
those functions:

- between cleanups, a post is announced at most once;
- between cleanups, every scraped post ends up tracked;
- the table only grows between cleanups;
- failures escalate from an alert to a stop.

A cleanup does not spare a topic the forum still lists: a row saved more
than 30 days before is deleted, and the next check announces that topic
again (`Bot.CleanupReannounces`).

Every message the bot posts goes to an `outbox`, in order. An
announcement is recorded by its post (`Bot.Message.Announcement`), and
`Bot.PayloadOf` gives the body that `createWebhookPayload` builds for it.
Status reports and alerts are recorded by their payloads.

## Model

| member | source | states |
|---|---|---|
| Config.Load | config.js:3-19 | interval and maximum are never 0; a parsed non-zero interval or maximum is used as given, and each equals its default exactly when the variable is missing, unparsable, 0 or the default itself; the webhook URL is the variable's value; a non-empty forum URL, user agent or database path is used as given, and a missing or empty one falls back to its non-empty default |
| Config.ValidateConfig | config.js:48-68 | accepted iff the webhook URL is present, contains "discord.com/api/webhooks/" and the interval is at least 1; otherwise exit status 1 with exactly the messages of the failing conditions, in the order "required", "format", "interval" (a missing URL fails both of the first two) |
| Config.AnyMatchSome | config.js:21-44 | `patterns.some(p => p.test(s))` holds iff some pattern of the list matches |
| Config.AnyMatchEitherSplits | scraper.js:112-119 | testing a URL-or-text pair matches iff the list matches the URL or matches the text |
| Config.PatternIsCaseInsensitiveSubstring | config.js:21-44 | an `/x\.y/i` pattern matches iff some window of the string equals the literal once lower-cased |
| Config.PatternTestUnanchored | config.js:21-44 | a match survives any text added before or after |
| Config.PatternTestIgnoresCase | config.js:21-44 | a pattern matches a string iff it matches its lower-cased form |
| Config.NothingMatchesEmpty | linkExtractor.js:85-88 | no pattern of a non-empty literal matches the empty string |
| Config.DotlessNoMatch | config.js:21-44 | a pattern whose literal contains a dot matches no string without a dot |
| Config.DotlessMatchesNeither | config.js:21-44 | a string without a dot matches no source pattern and no download pattern |
| Urls.Parse | linkExtractor.js:153-160 | every URL the parser accepts is well formed: a valid lower-case scheme and host, a path that starts with `/`, and query pairs that contain no `&` or `#` and no `=` in the name |
| Urls.RoundTrip | linkExtractor.js:162-174 | parsing a serialised well-formed URL gives that URL back |
| Urls.QueryRoundTrip | linkExtractor.js:166-170 | parsing a joined list of query pairs gives the list back |
| Urls.Valid | linkExtractor.js:153-160 | `validateUrl` holds exactly when the string starts with a valid scheme and ":"; then, for a special scheme (ftp, http, https, ws, wss, in any case), any run of "/" (none included), and for any other scheme exactly "//"; then a non-empty host of allowed characters ending at the first "/", "?" or "#" |
| Urls.DropSlashes | linkExtractor.js:153-160 | what is left after the leading run of "/" is a suffix that does not start with "/", and everything dropped is "/" |
| Urls.SlashesDropped | linkExtractor.js:153-160 | a run of "/" in front of text that does not start with "/" is dropped whole |
| Urls.ExtraSlashesSkipped | linkExtractor.js:153-160 | after a special scheme and ":", any number of "/" before the host parse as the same URL |
| Links.TablesCoverPatterns | linkExtractor.js:6-29 | the emoji table and the name table have the same domains; every source and download pattern names a domain of the tables; no entry is empty |
| Links.ExtractDomain | linkExtractor.js:37-44 | the domain is always lower case, and is the whole input lower-cased when it does not parse |
| Links.DomainOfParsed | linkExtractor.js:37-44 | for a parsable URL the domain is the host name with its first "www." removed: the tail after a leading "www.", the host itself when it has none, and otherwise the host with the first occurrence cut out |
| Links.GetEmojiForUrl | linkExtractor.js:32-35 | the emoji is never empty: a domain of the table gets its table emoji, any other domain the link emoji |
| Links.GetPlatformName | linkExtractor.js:46-72 | a domain of the table gets its non-empty table name; any other domain is named by itself |
| Links.Describe | linkExtractor.js:90-96 | the record keeps the URL; the text is the link's text or the platform name; platform and emoji are taken from the domain |
| Links.CategorizeLinks | linkExtractor.js:74-108 | the method computes `Categorize` of the links |
| Links.CategorizePartitions | linkExtractor.js:81-105 | every link that has a URL goes to exactly one list, and the three lists together hold exactly the links' non-empty URLs |
| Links.SourceTakesPrecedence | linkExtractor.js:98-104 | for every URL of the input: it is a source link iff it matches a source pattern; a download link iff it matches a download pattern and no source pattern; an other link iff it matches neither |
| Links.BothKindsMatchBoth | linkExtractor.js:98-104 | some URL matches both a source and a download pattern, and it is filed as a source link |
| Links.CategorizedDistinct | linkExtractor.js:74-108 | links without repeated URLs are categorised into lists that together repeat no URL |
| Links.Filed | linkExtractor.js:85-104 | every link filed under a category has a non-empty URL of that category and comes from the input |
| Links.FiledCount | linkExtractor.js:81-105 | the three lists together are as long as the number of links with a URL |
| Links.FiledExactly | linkExtractor.js:85-104 | a URL is filed under a category iff it is a non-empty URL of the input that belongs to the category |
| Links.FiledKeepsOrder | linkExtractor.js:85-104 | each category's list is the input with some links dropped, in input order |
| Links.DeduplicateLinks | linkExtractor.js:141-151 | the method computes `FirstOccurrences` of the links |
| Links.DedupFacts | linkExtractor.js:141-151 | the result repeats no URL, keeps every URL of the input, and is the input with some links dropped, in order |
| Links.DedupKeepsDistinct | linkExtractor.js:141-151 | a list without repeated URLs is returned unchanged |
| Links.DedupIdempotent | linkExtractor.js:141-151 | deduplicating twice is deduplicating once |
| Links.ScanFrom | linkExtractor.js:110-112 | every match of the URL pattern is a web URL made only of URL characters, with no white space |
| Links.NoSchemeNoLinks | linkExtractor.js:110-112 | text in which no "http://" or "https://" starts at any position yields no URL |
| Links.LoneUrlFound | linkExtractor.js:110-112 | a text that is a single web URL yields exactly that URL |
| Links.WholeUrlMatches | linkExtractor.js:110-112 | the pattern matches a web URL on its own in full |
| Links.ScanShift | linkExtractor.js:110-112 | scanning `p + b` from a position inside `b` finds what scanning `b` from there finds: a search never looks behind where it starts |
| Links.ScanBefore | linkExtractor.js:110-112 | when a character outside the URL class follows `a`, the scan of the longer text finds the URLs of `a`, then whatever it finds from that character on |
| Links.ScanSplits | linkExtractor.js:110-112 | a character outside the URL class splits the text: the URLs found are those of the part before it, in order, then those of the part after it |
| Links.ExtractLinksFromText | linkExtractor.js:110-121 | one record per match, in order; each record's URL is the match and its text equals its platform name |
| Links.TextLink | linkExtractor.js:114-120 | the record's text and platform are the platform name of the URL; a URL without white space is kept as it is |
| Links.FormatLinksForDiscord | linkExtractor.js:123-139 | there is no field iff the list is missing or empty; otherwise the field has the given name and is not inline |
| Links.FormatLinksAppend | linkExtractor.js:128-132 | the value for a list is the values for its two halves joined by a line break: one line per link, in order |
| Links.FormatSingleLink | linkExtractor.js:128-137 | a single link's field is its "emoji [platform](url)" line alone |
| Links.Keep | linkExtractor.js:166-169 | every pair kept comes from the query and does not have a tracking name |
| Links.DeleteAfterKeep | linkExtractor.js:167-169 | deleting one more name after the others is keeping the pairs without any of those names |
| Links.KeepFacts | linkExtractor.js:166-169 | removing the tracking pairs is idempotent, keeps the order, and keeps every pair without a tracking name |
| Links.Clean | linkExtractor.js:162-174 | a URL that does not parse is returned unchanged |
| Links.CleanUrl | linkExtractor.js:162-174 | the method computes `Clean` of the URL |
| Links.DeleteTracking | linkExtractor.js:166-169 | deleting each tracking name in turn keeps exactly the pairs without a tracking name |
| Links.CleanEffect | linkExtractor.js:162-174 | a cleaned parsable URL parses to the same URL with its tracking pairs removed and every other pair kept in order |
| Links.CleanIdempotent | linkExtractor.js:162-174 | cleaning a cleaned URL changes nothing |
| Links.CleanKeepsValidity | linkExtractor.js:153-174 | a cleaned URL is valid iff the original URL is valid |
| Links.ValidOnly | linkExtractor.js:205 | only valid URLs are kept, and a URL is kept iff it is in the input and valid |
| Links.CleanAndValidate | linkExtractor.js:199-205 | the method computes `ValidOnly(CleanAll(links))` |
| Links.ExtractAllLinks | linkExtractor.js:176-212 | the method computes `AllLinks` of the post |
| Links.AllLinksFacts | linkExtractor.js:176-212 | no URL repeats across the three lists; every URL is valid and already clean; the lists hold exactly the valid cleaned URLs gathered from the post's links, content and preview |
| LinkJson.RoundTrip | database.js:107-111 | `JSON.parse` of the text `JSON.stringify` made of a link list at save time gives the list back |
| LinkJson.StringRoundTrip | database.js:77-78 | an encoded string decodes back to itself, whatever text follows it |
| LinkJson.LinkRoundTrip | database.js:77-78 | an encoded link record decodes back to itself, whatever text follows it |
| Scraper.ForumUrl | scraper.js:63-65 | a topic URL is always absolute |
| Scraper.Summarize | scraper.js:50-87 | an element is dropped iff it has no id, no trimmed title or no link; a kept summary has the trimmed title, the absolute topic URL and the trimmed preview; its author is the trimmed author text, or "Unknown" when that is empty; its timestamp is the time element's `title`, else its `datetime`, else its trimmed text |
| Scraper.Examined | scraper.js:47-48 | the loop examines the first `maxPostsPerCheck` elements: none when the limit is 0 or less, all when it is at least their number |
| Scraper.ParseForumPage | scraper.js:42-92 | the method returns the summaries of the complete elements among the examined ones, in order |
| Scraper.ListingListed | scraper.js:53-87 | every summary returned meets the listing invariant |
| Scraper.ListingOrigin | scraper.js:47-88 | every summary returned is the summary of some element |
| Scraper.ListingKeepsComplete | scraper.js:53-60 | when every element is complete, none is dropped |
| Scraper.AnchorUrl | scraper.js:109 | an anchor link is always made absolute |
| Scraper.SlashHrefParses | scraper.js:109 | an href of one or more "/" followed by host and rest, given "https://" in front, parses as the https URL with that host and rest |
| Scraper.ListingSnoc | scraper.js:53-87 | one more element adds its summary at the end when it is complete, and nothing otherwise |
| Scraper.ListingAppend | scraper.js:53-87 | the summaries of two runs of elements are those of the first, then those of the second: the order is kept |
| Scraper.ListingKeepsEach | scraper.js:53-87 | a complete element's summary is returned, between the summaries of the elements before it and those after it |
| Scraper.TextStep | scraper.js:139-155 | each list is either unchanged or has the URL appended with the fallback text; the source list grows iff the URL matches a source pattern and is not yet a source link; otherwise the download list grows iff the URL matches a download pattern and is not yet a download link |
| Scraper.ImageUrl | scraper.js:158-162 | there is no image iff there is no `src`; an image URL is absolute |
| Scraper.ParsePostContent | scraper.js:94-174 | the method computes `DetailsOf`: the anchor pass, then the plain-text pass, the image and the first 500 trimmed characters |
| Scraper.ParsePostContentComplete | scraper.js:94-155 | the page's lists miss nothing: every anchor and every plain-text URL is filed as its patterns say |
| Scraper.AnchorPassSound | scraper.js:104-132 | every anchor source link is absolute and matches a source pattern by URL or text; every anchor download link is absolute, neither its URL nor its text matches a source pattern, and one of them matches a download pattern |
| Scraper.AnchorStepFiles | scraper.js:104-132 | one anchor only adds to the lists, and files its URL as its patterns say |
| Scraper.AnchorPassComplete | scraper.js:104-132 | the anchor pass misses no anchor: an anchor with a link whose URL or lower-cased text matches a source pattern is a source link; otherwise, one that matches a download pattern is a download link |
| Scraper.TextPassKeepsDistinct | scraper.js:139-155 | the plain-text pass adds no URL twice to a list that had no repeats |
| Scraper.TextPassExtends | scraper.js:139-155 | the plain-text pass only appends to both lists |
| Scraper.TextStepFiles | scraper.js:139-155 | one plain-text URL only adds to the lists; a URL that matches a source pattern is a source link afterwards, and one that matches only a download pattern is a download link |
| Scraper.TextPassComplete | scraper.js:139-155 | the plain-text pass misses no URL: every source-matching URL ends up a source link, and every other download-matching URL a download link |
| Scraper.FallbackTextsMatchNeither | scraper.js:124-152 | the fallback texts "Source Link" and "Download Link" match no pattern |
| Scraper.TextPassRefilesSourceAsDownload | scraper.js:144-154 | a URL that matches both kinds and is already a source link is added again, as a download link |
| Scraper.BothKindsRefiled | scraper.js:144-154 | an instance of the above, with a concrete URL |
| Scraper.ContentBounded | scraper.js:165-172 | the content is at most 500 characters, and is the whole trimmed text when that text fits |
| Scraper.Paired | scraper.js:185-197 | only topics whose page was fetched are kept, each with its own page and in listing order; when every page was fetched, all topics are kept |
| Scraper.PairedKeepsOrder | scraper.js:185-197 | the topics kept are the listed topics with some dropped, in listing order |
| Scraper.PairedKeepsFetched | scraper.js:185-197 | every listed topic whose page was fetched is kept |
| Scraper.Enrich | scraper.js:185-206 | one post per fetched topic, merging the summary, the details of its page and the scrape time |
| Scraper.ScrapeNewPosts | scraper.js:176-211 | fails iff the listing could not be fetched; otherwise it returns the enriched posts of the parsed listing |
| Scraper.EnrichSnoc | scraper.js:185-206 | one more summary adds its merged post at the end when its page was fetched, and nothing otherwise |
| Scraper.FetchDetails | scraper.js:183-206 | the loop computes `Enrich` of the summaries |
| Webhook.Truncated | webhook.js:39-44 | a description of at most 300 characters is kept; a longer one becomes its first 300 characters and "..." |
| Webhook.FormatPostEmbed | webhook.js:13-92 | the method computes `EmbedOf` the post, the embed built from the post's extracted links |
| Webhook.BuildEmbed | webhook.js:17-91 | the method computes `EmbedWith` the post and links |
| Webhook.PushFields | webhook.js:53-84 | the method computes `EmbedFields`, the fields pushed in the source's order |
| Webhook.EmbedParts | webhook.js:18-89 | the title falls back to "New Forum Post"; author, description and image are present iff the post has them; a description is at most 303 characters; URL, colour and thumbnail are fixed |
| Webhook.EmbedFieldOrder | webhook.js:53-84 | at most three fields; a source field comes first iff there are source links; a download field is present iff there are download links and follows the source field; the inline information field comes last iff the post has a timestamp or an id |
| Webhook.InfoValue | webhook.js:69-83 | the information field reads the "Posted" line and the "Post ID" line, one per line, each only when present |
| Webhook.CreateWebhookPayload | webhook.js:94-106 | the payload carries exactly one embed, the post's; it mentions no one; it has the bot's name and the alert line |
| Webhook.SendResult | webhook.js:108-145 | true iff the answer is 204; false iff another status answered or a 429 refusal; any other refusal, or no answer at all, is an error passed on |
| Webhook.ErrorPayload | webhook.js:204-222 | the error alert is one red "Error Occurred" embed with a description |
| Webhook.ErrorMessageReadBack | webhook.js:214 | the description is the lead line, the message and the closing fence, so the message can be read back unchanged |
| Webhook.StatusColor | webhook.js:235-246 | a listed status takes its colour; any other status falls back to blurple |
| Webhook.StatusTitles | webhook.js:246 | the "running", "stopping" and "error" reports are titled with the status in capitals |
| Webhook.StatusColorTable | webhook.js:235-240 | the four listed statuses have the colours the source assigns to them |
| Webhook.DetailFields | webhook.js:252-256 | one inline field per detail, in order, with the detail's name and `String(value)` |
| Webhook.StatusPayload | webhook.js:233-258 | one embed titled "Bot Status: " with the status in upper case, with the status colour and the detail fields, and no content line |
| Ledger.RowOf | database.js:65-80 | the row has the post's id and the new row id; `posted_at` is the post's time, or now when it has none; `created_at` is now |
| Ledger.Saved | database.js:65-92 | inserting an id already present (`post_id` is UNIQUE) fails and changes nothing; otherwise it adds the post's row under the next row id and returns that id |
| Ledger.SaveFacts | database.js:65-92 | saving keeps the table well formed, and the post is tracked afterwards; it succeeds iff the id was new, and then adds exactly one row; all other rows are unchanged |
| Ledger.SaveTwice | database.js:28 | saving a post a second time is refused with the UNIQUE error and changes nothing |
| Ledger.StoredLinksRoundTrip | database.js:77-111 | the link lists read back from a saved row are the post's lists |
| Ledger.PruneFacts | database.js:132-149 | a row is kept iff it is not older than the cutoff, and it is kept unchanged; kept and deleted rows are disjoint and together account for every row |
| Ledger.PruneAgain | database.js:132-149 | pruning keeps the table well formed; a second pruning at the same cutoff deletes nothing |
| Ledger.Bound | database.js:94-100 | `LIMIT n` returns at most the row count; a negative limit returns all rows; otherwise it returns the smaller of the limit and the count |
| Ledger.Database.constructor | database.js:5-48 | after `init` the table is the one stored in the database file, whatever earlier runs left there (empty on a first run) |
| Ledger.Database.IsPostAlreadyTracked | database.js:51-63 | true iff a row with that post id exists |
| Ledger.Database.SavePost | database.js:65-92 | the new table and result are `Saved` of the old table |
| Ledger.Database.GetPostCount | database.js:118-130 | the count is the number of rows |
| Ledger.Database.Cleanup | database.js:132-149 | the rows become `Pruned` at now minus the given days; the result is the number of expired rows, and kept plus deleted equals the old count |
| Ledger.Database.GetRecentPosts | database.js:94-116 | returns as many rows as the limit allows (50 by default, all when negative): distinct rows, newest first, with no omitted row newer, each with its link lists parsed |
| Ledger.Database.NewestIds | database.js:96-100 | the selection returns `n` distinct ids, newest first, and no row left out is newer than one chosen |
| Bot.Step | index.js:68-94 | a tracked post changes nothing; a new post is saved and announced, and exactly one counter moves: `sent` iff the send reported success, `failed` iff it did not |
| Bot.Process | index.js:68-95 | the posts announced are at most the posts given; sent plus failed equals the number announced |
| Bot.ProcessGrowsTable | index.js:68-95 | after a check the table is still well formed; every earlier row is unchanged; the ids added are exactly those announced |
| Bot.ProcessSendsNewOnce | index.js:68-95 | no two announced posts share an id; none was in the table before; all are in it after |
| Bot.ProcessKeepsOrder | index.js:68-95 | the announced posts are the scraped ones with some dropped, in order |
| Bot.ProcessTracksAll | index.js:68-95 | after a check every scraped post is tracked |
| Bot.ProcessNothingNew | index.js:68-95 | posts that are all tracked already produce no announcement and no change |
| Bot.ProcessTwice | index.js:68-95 | running a check twice over the same posts announces nothing the second time |
| Text.NatToStringReadsBack | index.js:242 | the decimal text of a natural number is all digits and reads back as the number |
| Bot.JsRem | index.js:241 | JavaScript's `%`: the result has the sign of the dividend and is smaller in size than the divisor |
| Bot.HoursAndMinutes | index.js:239-241 | for a non-negative time the minutes are below 60, and hours and minutes bracket the time to the minute; a negative time gives negative hours and minutes between -60 and 0 |
| Bot.Uptime | index.js:238-243 | the same bounds, for the pair `getUptime` prints |
| Bot.UptimeText | index.js:238-243 | for a non-negative uptime the text is the hours' digits, "h ", the minutes' digits and "m", and each digit run reads back as its number |
| Bot.CleanupDue | index.js:138-143 | cleanup is due iff the local hour is 3 and the uptime has reached 24 whole hours |
| Bot.CleanupEveryCheckAtThree | index.js:138-143 | once a day has passed, every later check in the 3 o'clock hour cleans up; no check in any other hour does, and no check within the first day does |
| Bot.Started | index.js:155-199 | starting a running bot changes nothing; otherwise it runs and posts the "running" status; the counters, table, error streak and time of the last check are unchanged |
| Bot.Stopped | index.js:201-224 | the bot is not running afterwards; stopping a stopped bot changes nothing; otherwise it posts the "stopping" status; the counters, table, error streak and time of the last check are unchanged |
| Bot.StartStopIdempotent | index.js:155-205 | starting twice is starting once; stopping twice is stopping once |
| Bot.Checked | index.js:56-136 | a check fails iff the scrape failed; the time of the check is always recorded |
| Bot.StoppingPosted | index.js:201-224 | stopping a running bot appends exactly one message, titled "Bot Status: STOPPING" |
| Bot.FailureEscalates | index.js:112-135 | a failure counts one more streak error and one more error and leaves the table alone; from the third in a row it posts an alert; from the fifth it stops the bot, posting the alert, the "error" status and the "stopping" status in that order |
| Bot.FiveFailuresStop | index.js:112-135 | starting from no streak, two failures post nothing, four post two alerts, and the fifth stops the bot |
| Bot.CheckSucceeds | index.js:56-111 | a completed check resets the streak and returns the counts; it adds the posts scraped to `totalPosts`, the sends to `sentNotifications` and the failed sends to `errors`; it announces exactly the untracked posts; without cleanup every post is tracked afterwards |
| Bot.CleanupReannounces | index.js:71-108 | a cleanup check prunes a listed post saved more than 30 days before, announcing nothing itself, and the next check announces that post again |
| Bot.CheckTwiceAnnouncesOnce | index.js:56-111 | two completed checks over the same posts, with no cleanup, announce each post once: the second check announces nothing and adds no row |
| Bot.ForumBot.constructor | index.js:8-22 | a new bot is stopped, with no streak, no check yet and zero counters, over the table stored by earlier runs |
| Bot.ForumBot.Start | index.js:155-199 | the new state is `Started` of the old |
| Bot.ForumBot.Stop | index.js:201-224 | the new state is `Stopped` of the old |
| Bot.ForumBot.CheckForNewPosts | index.js:56-136 | the new state and result are `Checked` of the old state |
| Bot.ForumBot.Complete | index.js:65-111 | the new state and result are `Completed` of the old state |
| Bot.ForumBot.ProcessPosts | index.js:65-95 | the loop leaves the table, the announcements and the counters as `Process` gives them |
| Bot.ForumBot.HandlePost | index.js:69-94 | one turn of the loop does what `Step` does to the table, the announcements and the counters: a tracked post is skipped |
| Bot.ForumBot.SendNewPost | index.js:73-94 | an untracked post is saved, then announced; it is counted as sent, or, when the send throws, as one more error |
| Bot.ForumBot.HandleFailure | index.js:112-135 | the new state is `Failed` of the old |
| Bot.ForumBot.Tick | index.js:167-174 | a timer tick checks when the bot is running and changes nothing otherwise |

## Left out

- Network and I/O are not modelled: HTTP requests, the SQLite engine,
  `dotenv`, the console logs, the timers (`sleep`, the 1- and 2-second
  delays) and the cron schedule. The listing fetch and the page fetches
  are given to the scraper as inputs: an optional listing and a map from
  URL to page. The webhook's answers are given to a check as one
  `HttpOutcome` per post. The clock is a `now` parameter in milliseconds,
  or seconds for the table, plus the local hour.
- HTML parsing (cheerio) is not modelled. A listing element and a topic
  page are given already selected, as the texts and attributes the scraper
  reads. A missing attribute is the empty string, which the source treats
  like an absent one.
- `Scraper.Merge`: the `rawHtml` field of a summary is not kept, and one
  scrape time stands for the `new Date()` of every page.
- Embeds and payloads carry no ISO `timestamp`, since that value is the
  clock.
- `sendTestMessage`, `init`, `getStatus`, `shutdown`, `close`, `createTables`,
  `fetchForumPage` and the `startBot` entry point are left out. They only
  sequence I/O.
- The 5-second delay before the first check is not modelled. That first
  check is Bot.ForumBot.CheckForNewPosts called directly, without the
  running guard of the cron callback (Bot.ForumBot.Tick), so it runs even
  when the bot was stopped in between, as in the source.
- Urls.Parse models a scheme, the slashes before the host (any number
  after a special scheme, exactly `//` after any other), a host, a path,
  a query and a fragment. It does not model backslashes read as slashes,
  the "file" scheme, percent-encoding, user information, ports, IPv6
  hosts, opaque URLs or the WHATWG host rules beyond lower-casing. It
  does not normalise `.` and `..` path segments either. Nor does it
  strip leading and trailing C0 controls and spaces, or remove tabs and
  newlines, before parsing: an href such as `"https://gumroad.com "` is a
  valid URL in the source but is refused here, so Links.ValidOnly drops
  it, and the trailing space of `"https://gumroad.com/x "` survives
  Links.Clean.
- Ledger.Database.constructor and Bot.ForumBot.constructor take the table
  that `init` finds in the database file as a parameter, assumed well
  formed (as this program writes it); reading the file is not modelled.
- Text.Lower and Text.Upper map ASCII letters only. String lengths count
  code points, not UTF-16 units: the 300- and 500-character cuts differ
  from the source on text outside the Basic Multilingual Plane.
- Links.GetPlatformName: a domain that names a property inherited by
  JavaScript objects (such as `constructor`) is treated as absent from
  the name table, where the source would yield that property.
- Links.GetEmojiForUrl: likewise for the emoji table; for such a domain
  the model gives the link emoji, where the source's `||` would yield
  the inherited property.
- Webhook.SendResult accepts a `Delivered` outcome with any status. In
  the source a status outside 200-299 never arrives as an answer, because
  axios throws on it; such a status is a `Rejected` outcome here, and a
  `Delivered` one with it does not occur.
- LinkJson.Decode accepts only the text that `JSON.stringify` produces
  for a link list, not every JSON text. Other JSON is refused.
- Ledger.Database.SavePost models the UNIQUE failure as the only
  insertion error. The NOT NULL constraints cannot fail, because a
  missing field is the empty string here.
- Ledger.Database.GetRecentPosts: rows with equal `created_at` may come
  back in any order among themselves. SQLite's order for ties is not
  modelled.
- Ledger.Database.Cleanup takes a non-negative number of days. The bot
  always passes 30.
- Bot.CleanupDue compares integer milliseconds with 24 hours, where the
  source divides into fractional hours. The two tests agree.
- Bot.ForumBot.CheckForNewPosts assumes that a database call for a post
  cannot fail. A failing call would count one error and skip to the next
  post, but with the duplicate check before each insert the modelled
  table never fails.
- Scraper.TextStep keeps the source's behaviour: a plain-text URL that
  matches both kinds and is already a source link is added again as a
  download link (`Scraper.TextPassRefilesSourceAsDownload`).
