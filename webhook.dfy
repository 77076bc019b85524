/** webhook.js: the Discord messages the monitor sends (a post
    announcement, an error alert, a status report) and how the answer to a
    send is read. The HTTP request itself is not modelled: a send is given
    its outcome as an input. Embed timestamps are clock readings and are
    left out of the embed records. */
module Webhook {
  import opened Text
  import opened Posts
  import opened Links

  datatype Footer = Footer(text: string, iconUrl: Option<string>)

  datatype Author = Author(name: string, iconUrl: string)

  /** A Discord embed; absent optional parts are `None`. */
  datatype Embed = Embed(
    title: string,
    url: Option<string>,
    description: Option<string>,
    color: int,
    author: Option<Author>,
    image: Option<string>,
    fields: seq<Field>,
    footer: Footer,
    thumbnail: Option<string>)

  /** A webhook request body. `allowedMentions` is the `parse` list of
      `allowed_mentions`, `None` when the body has no such member. */
  datatype Payload = Payload(
    username: string,
    avatarUrl: string,
    content: Option<string>,
    embeds: seq<Embed>,
    allowedMentions: Option<seq<string>>)

  const Username: string := "Forum Monitor"
  const SiteLogo: string := "https://forum.ripper.store/assets/uploads/system/site-logo.png"
  const UserIcon: string := "https://cdn.discordapp.com/emojis/1234567890123456789.png"
  const FooterText: string := "Forum Ripper Store Monitor"
  const Blurple: int := 0x7289DA
  const DefaultTitle: string := "New Forum Post"
  const DescriptionLimit: nat := 300
  const Ellipsis: string := "..."
  const SourceFieldName: string := "\U{1F6D2} Source Links"
  const DownloadFieldName: string := "\U{1F4E5} Download Links"
  const InfoFieldName: string := "\U{1F4CB} Post Information"
  const PostedPrefix: string := "\U{23F0} Posted: "
  const IdPrefix: string := "\U{1F194} Post ID: "
  const AuthorPrefix: string := "\U{1F514} "
  const PostAlert: string := "\U{1F6A8} **New post in Gifts/Downloads!**"

  // ---------------------------------------------------------------- formatPostEmbed

  /** The description: the content, cut to its first 300 characters followed
      by "..." when it is longer. */
  function Truncated(content: string): (r: string)
    ensures |content| <= DescriptionLimit ==> r == content
    ensures |content| > DescriptionLimit ==>
      |r| == DescriptionLimit + |Ellipsis| && r[..DescriptionLimit] == content[..DescriptionLimit] && r[DescriptionLimit..] == Ellipsis
  {
    if |content| > DescriptionLimit then content[..DescriptionLimit] + Ellipsis else content
  }

  /** The lines of the post-information field: when it was posted, then its id, each only when present. */
  function InfoLines(post: Post): (r: seq<string>)
    ensures |r| <= 2
  {
    (if post.timestamp != "" then [PostedPrefix + post.timestamp] else [])
      + (if post.id != "" then [IdPrefix + post.id] else [])
  }

  /** The link fields and the post-information field, in this order, each only when it has something to show. */
  function EmbedFields(links: Categorized, post: Post): seq<Field> {
    var source := FormatLinksForDiscord(Some(links.sourceLinks), SourceFieldName);
    var download := FormatLinksForDiscord(Some(links.downloadLinks), DownloadFieldName);
    var info := InfoLines(post);
    (if source.Some? then [source.value] else [])
      + (if download.Some? then [download.value] else [])
      + (if info != [] then [Field(InfoFieldName, Join(info, "\n"), true)] else [])
  }

  /** The embed announcing `post`, whose links were gathered and sorted into `links`. */
  function EmbedWith(post: Post, links: Categorized): Embed {
    Embed(
      OrElse(post.title, DefaultTitle),
      Some(post.url),
      if post.content != "" then Some(Truncated(post.content)) else None,
      Blurple,
      if post.author != "" then Some(Author(AuthorPrefix + post.author, UserIcon)) else None,
      if post.imageUrl.Some? && post.imageUrl.value != "" then post.imageUrl else None,
      EmbedFields(links, post),
      Footer(FooterText, Some(SiteLogo)),
      Some(SiteLogo))
  }

  /** The embed announcing `post`. */
  function EmbedOf(post: Post): Embed {
    EmbedWith(post, AllLinks(post))
  }

  /** `formatPostEmbed`: the fixed parts, then the optional author,
      description and image, then the fields pushed one by one. */
  method FormatPostEmbed(post: Post) returns (embed: Embed)
    ensures embed == EmbedOf(post)
  {
    var links := ExtractAllLinks(post);
    embed := BuildEmbed(post, links);
  }

  /** The embed built step by step from the post and its sorted links. */
  method BuildEmbed(post: Post, links: Categorized) returns (embed: Embed)
    ensures embed == EmbedWith(post, links)
  {
    embed := Embed(OrElse(post.title, DefaultTitle), Some(post.url), None, Blurple, None, None, [],
                   Footer(FooterText, Some(SiteLogo)), None);
    if post.author != "" {
      embed := embed.(author := Some(Author(AuthorPrefix + post.author, UserIcon)));
    }
    if post.content != "" {
      var description := post.content;
      if |post.content| > DescriptionLimit {
        description := post.content[..DescriptionLimit] + Ellipsis;
      }
      embed := embed.(description := Some(description));
    }
    if post.imageUrl.Some? && post.imageUrl.value != "" {
      embed := embed.(image := post.imageUrl);
    }
    var fields := PushFields(post, links);
    embed := embed.(fields := fields, thumbnail := Some(SiteLogo));
  }

  /** The fields pushed one after the other onto an empty list. */
  method PushFields(post: Post, links: Categorized) returns (fields: seq<Field>)
    ensures fields == EmbedFields(links, post)
  {
    fields := [];
    if |links.sourceLinks| > 0 {
      var field := FormatLinksForDiscord(Some(links.sourceLinks), SourceFieldName);
      if field.Some? {
        fields := fields + [field.value];
      }
    }
    if |links.downloadLinks| > 0 {
      var field := FormatLinksForDiscord(Some(links.downloadLinks), DownloadFieldName);
      if field.Some? {
        fields := fields + [field.value];
      }
    }
    var info: seq<string> := [];
    if post.timestamp != "" {
      info := info + [PostedPrefix + post.timestamp];
    }
    if post.id != "" {
      info := info + [IdPrefix + post.id];
    }
    assert info == InfoLines(post);
    if |info| > 0 {
      fields := fields + [Field(InfoFieldName, Join(info, "\n"), true)];
    }
  }

  /** The optional parts of a post embed: the title falls back to "New Forum
      Post", and the author, description and image are there exactly when the
      post has them. */
  lemma EmbedParts(post: Post, links: Categorized)
    ensures var e := EmbedWith(post, links);
      && (post.title != "" ==> e.title == post.title)
      && (post.title == "" ==> e.title == DefaultTitle)
      && (e.author.Some? <==> post.author != "")
      && (e.description.Some? <==> post.content != "")
      && (e.description.Some? ==> |e.description.value| <= DescriptionLimit + |Ellipsis|)
      && (e.image.Some? <==> post.imageUrl.Some? && post.imageUrl.value != "")
      && e.url == Some(post.url) && e.color == Blurple && e.thumbnail == Some(SiteLogo)
  {
  }

  /** Fields come in a fixed order: the source field when the post has source
      links, then the download field when it has download links, then the
      post-information field (inline) when it has a timestamp or an id. */
  lemma EmbedFieldOrder(post: Post, links: Categorized)
    ensures var fs := EmbedFields(links, post);
      && |fs| <= 3
      && (links.sourceLinks != [] <==> |fs| > 0 && fs[0].name == SourceFieldName)
      && (links.downloadLinks != [] <==> exists i | 0 <= i < |fs| :: fs[i].name == DownloadFieldName)
      && (post.timestamp != "" || post.id != "" <==> |fs| > 0 && fs[|fs| - 1].name == InfoFieldName)
      && (forall i | 0 <= i < |fs| :: fs[i].inline <==> fs[i].name == InfoFieldName)
      && (forall i, j | 0 <= i < |fs| && 0 <= j < |fs| && fs[i].name == SourceFieldName && fs[j].name == DownloadFieldName :: i < j)
  {
    var source := FormatLinksForDiscord(Some(links.sourceLinks), SourceFieldName);
    var download := FormatLinksForDiscord(Some(links.downloadLinks), DownloadFieldName);
    var info := InfoLines(post);
    assert SourceFieldName != DownloadFieldName && SourceFieldName != InfoFieldName && DownloadFieldName != InfoFieldName by {
      assert SourceFieldName[2] != DownloadFieldName[2] && SourceFieldName[2] != InfoFieldName[2] && DownloadFieldName[2] != InfoFieldName[2];
    }
    var fs := EmbedFields(links, post);
    var s := if source.Some? then [source.value] else [];
    var d := if download.Some? then [download.value] else [];
    var n := if info != [] then [Field(InfoFieldName, Join(info, "\n"), true)] else [];
    assert fs == s + d + n;
    assert forall i | 0 <= i < |fs| :: fs[i].name == DownloadFieldName <==> d != [] && i == |s|;
    if d != [] {
      assert fs[|s|].name == DownloadFieldName;
    }
  }

  /** The post-information field reads "⏰ Posted: <timestamp>" and
      "🆔 Post ID: <id>", one per line, each only when present. */
  lemma InfoValue(post: Post)
    ensures post.timestamp != "" && post.id != "" ==>
      Join(InfoLines(post), "\n") == PostedPrefix + post.timestamp + "\n" + IdPrefix + post.id
    ensures post.timestamp != "" && post.id == "" ==> Join(InfoLines(post), "\n") == PostedPrefix + post.timestamp
    ensures post.timestamp == "" && post.id != "" ==> Join(InfoLines(post), "\n") == IdPrefix + post.id
    ensures post.timestamp == "" && post.id == "" ==> InfoLines(post) == []
  {
    if post.timestamp != "" && post.id != "" {
      var lines := InfoLines(post);
      assert lines[1..] == [IdPrefix + post.id];
    }
  }

  // ---------------------------------------------------------------- createWebhookPayload

  /** `createWebhookPayload`: one embed for the post, and no mentions allowed. */
  function CreateWebhookPayload(post: Post): (p: Payload)
    ensures |p.embeds| == 1 && p.embeds[0] == EmbedOf(post)
    ensures p.allowedMentions == Some([])
    ensures p.username == Username && p.content == Some(PostAlert)
  {
    Payload(Username, SiteLogo, Some(PostAlert), [EmbedOf(post)], Some([]))
  }

  // ---------------------------------------------------------------- sendWebhook

  /** How a POST ended: a response the client accepted (a 2xx status), an
      error carrying a response (any other status), or an error without one. */
  datatype HttpOutcome = Delivered(status: int) | Rejected(status: int) | NoResponse(message: string)

  /** `sendWebhook` after the request: `Success(true)` on 204,
      `Success(false)` on another accepted status or on a 429 rejection, and
      the error passed on (`Failure`) otherwise. */
  function SendResult(outcome: HttpOutcome): (r: Result<bool>)
    ensures r == Success(true) <==> outcome == Delivered(204)
    ensures r == Success(false) <==> (outcome.Delivered? && outcome.status != 204) || outcome == Rejected(429)
    ensures r.Failure? <==> (outcome.Rejected? && outcome.status != 429) || outcome.NoResponse?
  {
    match outcome
    case Delivered(status) => Success(status == 204)
    case Rejected(status) => if status == 429 then Success(false) else Failure("Request failed with status code " + IntToString(status))
    case NoResponse(message) => Failure(message)
  }

  // ---------------------------------------------------------------- sendErrorMessage / sendStatusMessage

  const ErrorAlert: string := "\U{1F6A8} **Bot Error Alert**"
  const ErrorTitle: string := "Error Occurred"
  const ErrorLead: string := "The forum monitor bot encountered an error:\n```"
  const Fence: string := "```"
  const Red: int := 0xff0000

  /** The body `sendErrorMessage` posts. Sending it never fails: whatever the
      outcome of the request, the caller goes on, so the message is a plain
      value and not a result. */
  function ErrorPayload(message: string): (p: Payload)
    ensures |p.embeds| == 1 && p.embeds[0].title == ErrorTitle && p.embeds[0].color == Red
    ensures p.embeds[0].description.Some?
  {
    Payload(Username, SiteLogo, Some(ErrorAlert),
            [Embed(ErrorTitle, None, Some(ErrorLead + message + Fence), Red, None, None, [],
                   Footer(FooterText + " - Error", None), None)],
            None)
  }

  /** The error text sits in the alert's description between the lead line
      and the closing fence, so it can be read back unchanged. */
  lemma ErrorMessageReadBack(message: string)
    ensures var d := ErrorPayload(message).embeds[0].description.value;
      |d| == |ErrorLead| + |message| + |Fence|
      && d[..|ErrorLead|] == ErrorLead
      && d[|ErrorLead|..|ErrorLead| + |message|] == message
      && d[|ErrorLead| + |message|..] == Fence
  {
    var d := ErrorLead + message + Fence;
    assert d[|ErrorLead|..|ErrorLead| + |message|] == message;
  }

  /** A status-report value: `String(value)` of a string or a number. */
  datatype DetailValue = Text(s: string) | Number(n: int)

  function Stringify(v: DetailValue): string {
    match v
    case Text(s) => s
    case Number(n) => IntToString(n)
  }

  /** The colour table of `sendStatusMessage`. */
  const StatusColors: map<string, int> := map["starting" := 0xffaa00, "running" := 0x00ff00, "stopping" := 0xff9900, "error" := 0xff0000]

  function StatusColor(status: string): (c: int)
    ensures status in StatusColors ==> c == StatusColors[status]
    ensures status !in StatusColors ==> c == Blurple
  {
    if status in StatusColors then StatusColors[status] else Blurple
  }

  /** One inline field per detail, in order, named by its key and holding its value as text. */
  function DetailFields(details: seq<(string, DetailValue)>): (fs: seq<Field>)
    ensures |fs| == |details|
    ensures forall i | 0 <= i < |fs| :: fs[i] == Field(details[i].0, Stringify(details[i].1), true)
  {
    seq(|details|, i requires 0 <= i < |details| => Field(details[i].0, Stringify(details[i].1), true))
  }

  /** The body `sendStatusMessage` posts; like the error alert it is sent
      without any failure reaching the caller. */
  function StatusPayload(status: string, details: seq<(string, DetailValue)>): (p: Payload)
    ensures |p.embeds| == 1 && p.content.None?
    ensures p.embeds[0].title == "Bot Status: " + Upper(status)
    ensures p.embeds[0].color == StatusColor(status)
    ensures p.embeds[0].fields == DetailFields(details)
  {
    Payload(Username, SiteLogo, None,
            [Embed("Bot Status: " + Upper(status), None, None, StatusColor(status), None, None, DetailFields(details),
                   Footer(FooterText, None), None)],
            None)
  }

  /** A status report is titled with the status in capitals. */
  lemma StatusTitles(details: seq<(string, DetailValue)>)
    ensures StatusPayload("running", details).embeds[0].title == "Bot Status: RUNNING"
    ensures StatusPayload("stopping", details).embeds[0].title == "Bot Status: STOPPING"
    ensures StatusPayload("error", details).embeds[0].title == "Bot Status: ERROR"
  {
    assert Upper("running") == "RUNNING";
    assert Upper("stopping") == "STOPPING";
    assert Upper("error") == "ERROR";
  }

  /** The four known statuses each have their own colour, and every other status is shown in the default blue. */
  lemma StatusColorTable()
    ensures StatusColor("starting") == 0xffaa00 && StatusColor("running") == 0x00ff00
    ensures StatusColor("stopping") == 0xff9900 && StatusColor("error") == 0xff0000
    ensures StatusColor("idle") == Blurple
  {
  }
}
