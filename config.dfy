/** config.js: the settings read from the environment, the two link-pattern
    tables and the start-up validation. */
module Config {
  import opened Text

  /** The source-page patterns `/gumroad\.com/i` … `/itch\.io/i`, each a
      case-insensitive regular expression whose only content is a literal
      domain; the escaped dots are plain dots, so each is kept as that text. */
  const SourcePatterns: seq<string> :=
    ["gumroad.com", "booth.pm", "patreon.com", "fanbox.cc", "ko-fi.com", "artstation.com", "itch.io"]

  /** The file-host patterns `/pixeldrain\.com/i` … `/nitroflare\.com/i`. */
  const DownloadPatterns: seq<string> :=
    ["pixeldrain.com", "drive.google.com", "workupload.com", "mediafire.com", "mega.nz",
     "mega.co.nz", "dropbox.com", "1fichier.com", "rapidgator.net", "uploaded.net",
     "turbobit.net", "nitroflare.com"]

  /** `pattern.test(s)` for an unanchored `/…/i` literal: under the `i` flag
      without `u`, only ASCII letters fold, so the test is "the lower-cased
      text contains the pattern". */
  predicate PatternTest(pattern: string, s: string) {
    Contains(Lower(s), pattern)
  }

  /** `patterns.some(p => p.test(s))`, tried in order. */
  predicate AnyMatch(patterns: seq<string>, s: string) {
    patterns != [] && (PatternTest(patterns[0], s) || AnyMatch(patterns[1..], s))
  }

  /** `some` holds exactly when one of the patterns matches. */
  lemma {:induction false} AnyMatchSome(patterns: seq<string>, s: string)
    ensures AnyMatch(patterns, s) <==> exists i | 0 <= i < |patterns| :: PatternTest(patterns[i], s)
  {
    if patterns != [] {
      AnyMatchSome(patterns[1..], s);
      if exists i | 0 <= i < |patterns| :: PatternTest(patterns[i], s) {
        var i :| 0 <= i < |patterns| && PatternTest(patterns[i], s);
        if i > 0 {
          assert PatternTest(patterns[1..][i - 1], s);
        }
      }
      if exists i | 0 <= i < |patterns[1..]| :: PatternTest(patterns[1..][i], s) {
        var i :| 0 <= i < |patterns[1..]| && PatternTest(patterns[1..][i], s);
        assert PatternTest(patterns[i + 1], s);
      }
    }
  }

  /** `patterns.some(p => p.test(a) || p.test(b))` */
  predicate AnyMatchEither(patterns: seq<string>, a: string, b: string) {
    patterns != [] && (PatternTest(patterns[0], a) || PatternTest(patterns[0], b) || AnyMatchEither(patterns[1..], a, b))
  }

  /** Testing two texts with every pattern is testing each text with some pattern. */
  lemma {:induction false} AnyMatchEitherSplits(patterns: seq<string>, a: string, b: string)
    ensures AnyMatchEither(patterns, a, b) <==> AnyMatch(patterns, a) || AnyMatch(patterns, b)
  {
    if patterns != [] {
      AnyMatchEitherSplits(patterns[1..], a, b);
    }
  }

  /** No pattern of a table matches the empty text: every pattern has a character. */
  lemma {:induction false} NothingMatchesEmpty(patterns: seq<string>)
    requires forall i | 0 <= i < |patterns| :: patterns[i] != ""
    ensures !AnyMatch(patterns, "")
  {
    if patterns != [] {
      assert Lower("") == "";
      NothingMatchesEmpty(patterns[1..]);
    }
  }

  predicate IsSourceUrl(s: string) {
    AnyMatch(SourcePatterns, s)
  }

  predicate IsDownloadUrl(s: string) {
    AnyMatch(DownloadPatterns, s)
  }

  /** A pattern with a dot never matches a text without one, since
      lower-casing makes no dot. */
  lemma DotlessNoMatch(pattern: string, s: string)
    requires '.' in pattern && '.' !in s
    ensures !PatternTest(pattern, s)
  {
    var k :| 0 <= k < |pattern| && pattern[k] == '.';
    var t := Lower(s);
    forall i: nat | i <= |t| ensures !OccursAt(t, pattern, i) {
      if i + |pattern| <= |t| {
        assert s[i + k] in s;
        assert t[i..i + |pattern|][k] == t[i + k] == LowerChar(s[i + k]) != '.';
      }
    }
  }

  /** Every pattern of both tables is a domain with a dot in it, so a text
      without a dot matches neither table. */
  lemma DotlessMatchesNeither(s: string)
    requires '.' !in s
    ensures !IsSourceUrl(s) && !IsDownloadUrl(s)
  {
    forall p | p in SourcePatterns ensures !PatternTest(p, s) {
      DotlessNoMatch(p, s);
    }
    forall p | p in DownloadPatterns ensures !PatternTest(p, s) {
      DotlessNoMatch(p, s);
    }
    AnyMatchSome(SourcePatterns, s);
    AnyMatchSome(DownloadPatterns, s);
  }

  /** The window of `s` at `i`, lower-cased, spells `pattern`. */
  predicate WindowMatches(pattern: string, s: string, i: nat) {
    i + |pattern| <= |s| && Lower(s[i..i + |pattern|]) == pattern
  }

  /** A pattern matches exactly when some window of the text, lower-cased,
      spells the pattern: a case-insensitive substring test. */
  lemma PatternIsCaseInsensitiveSubstring(pattern: string, s: string)
    ensures PatternTest(pattern, s) <==> exists i: nat | i <= |s| :: WindowMatches(pattern, s, i)
  {
    if PatternTest(pattern, s) {
      var i: nat :| i <= |Lower(s)| && OccursAt(Lower(s), pattern, i);
      assert Lower(s[i..i + |pattern|]) == Lower(s)[i..i + |pattern|];
      assert WindowMatches(pattern, s, i);
    }
    if exists i: nat | i <= |s| :: WindowMatches(pattern, s, i) {
      var i: nat :| i <= |s| && WindowMatches(pattern, s, i);
      assert Lower(s[i..i + |pattern|]) == Lower(s)[i..i + |pattern|];
      assert OccursAt(Lower(s), pattern, i);
    }
  }

  /** The patterns are unanchored: text around a match never undoes it. */
  lemma PatternTestUnanchored(pattern: string, a: string, s: string, b: string)
    requires PatternTest(pattern, s)
    ensures PatternTest(pattern, a + s + b)
  {
    LowerAppend(a, s);
    LowerAppend(a + s, b);
    ContainsInside(Lower(a), Lower(s), Lower(b), pattern);
  }

  /** The patterns ignore case: a text and its lower-cased form match alike. */
  lemma PatternTestIgnoresCase(pattern: string, s: string)
    ensures PatternTest(pattern, s) == PatternTest(pattern, Lower(s))
  {
    LowerIsLower(s);
  }

  /** The environment as the process sees it; `parseInt` results are given
      already parsed, `None` standing for NaN (also for an unset variable). */
  datatype Env = Env(
    webhookUrl: Option<string>,
    forumUrl: Option<string>,
    checkIntervalMinutes: Option<int>,
    maxPostsPerCheck: Option<int>,
    userAgent: Option<string>,
    dbPath: Option<string>)

  datatype Settings = Settings(
    webhookUrl: Option<string>,
    forumUrl: string,
    checkIntervalMinutes: int,
    maxPostsPerCheck: int,
    userAgent: string,
    dbPath: string)

  const DefaultForumUrl: string := "https://forum.ripper.store/category/44/gifts-downloads?sort=recently_created"
  const DefaultCheckIntervalMinutes: int := 5
  const DefaultMaxPostsPerCheck: int := 10
  const DefaultUserAgent: string :=
    "Mozilla/5.0 (Windows NT 10.0; Win64; x64) AppleWebKit/537.36 (KHTML, like Gecko) Chrome/91.0.4472.124 Safari/537.36"
  const DefaultDbPath: string := "./posts.db"

  /** `parseInt(v) || d`: NaN and 0 are both falsy. */
  function IntOr(parsed: Option<int>, d: int): int {
    if parsed.Some? && parsed.value != 0 then parsed.value else d
  }

  /** `v || d` for an environment string: unset and empty are both falsy. */
  function StringOr(v: Option<string>, d: string): string {
    if v.Some? && v.value != "" then v.value else d
  }

  /** The `config` object built from the environment. */
  function Load(env: Env): (s: Settings)
    ensures s.checkIntervalMinutes != 0 && s.maxPostsPerCheck != 0
    ensures s.checkIntervalMinutes == DefaultCheckIntervalMinutes <==>
      env.checkIntervalMinutes in {None, Some(0), Some(DefaultCheckIntervalMinutes)}
    ensures s.maxPostsPerCheck == DefaultMaxPostsPerCheck <==>
      env.maxPostsPerCheck in {None, Some(0), Some(DefaultMaxPostsPerCheck)}
    ensures env.checkIntervalMinutes.Some? && env.checkIntervalMinutes.value != 0 ==>
      s.checkIntervalMinutes == env.checkIntervalMinutes.value
    ensures env.maxPostsPerCheck.Some? && env.maxPostsPerCheck.value != 0 ==>
      s.maxPostsPerCheck == env.maxPostsPerCheck.value
    ensures s.webhookUrl == env.webhookUrl
    ensures s.forumUrl != "" && s.userAgent != "" && s.dbPath != ""
    ensures env.forumUrl.Some? && env.forumUrl.value != "" ==> s.forumUrl == env.forumUrl.value
    ensures env.userAgent.Some? && env.userAgent.value != "" ==> s.userAgent == env.userAgent.value
    ensures env.dbPath.Some? && env.dbPath.value != "" ==> s.dbPath == env.dbPath.value
    ensures env.forumUrl in {None, Some("")} ==> s.forumUrl == DefaultForumUrl
    ensures env.userAgent in {None, Some("")} ==> s.userAgent == DefaultUserAgent
    ensures env.dbPath in {None, Some("")} ==> s.dbPath == DefaultDbPath
  {
    Settings(
      env.webhookUrl,
      StringOr(env.forumUrl, DefaultForumUrl),
      IntOr(env.checkIntervalMinutes, DefaultCheckIntervalMinutes),
      IntOr(env.maxPostsPerCheck, DefaultMaxPostsPerCheck),
      StringOr(env.userAgent, DefaultUserAgent),
      StringOr(env.dbPath, DefaultDbPath))
  }

  const RequiredError: string := "DISCORD_WEBHOOK_URL is required"
  const FormatError: string := "Invalid Discord webhook URL format"
  const IntervalError: string := "CHECK_INTERVAL_MINUTES must be at least 1"
  const WebhookMarker: string := "discord.com/api/webhooks/"

  /** `!!config.webhookUrl` */
  predicate HasWebhook(s: Settings) {
    s.webhookUrl.Some? && s.webhookUrl.value != ""
  }

  predicate WebhookWellFormed(s: Settings) {
    HasWebhook(s) && Contains(s.webhookUrl.value, WebhookMarker)
  }

  /** The outcome of `validateConfig`: it returns, or the process exits with a status. */
  datatype Validation = Accepted | Exit(status: int, errors: seq<string>)

  /** `validateConfig`: collect every error, then exit with status 1 if there is any. */
  method ValidateConfig(s: Settings) returns (v: Validation)
    ensures v.Accepted? <==> WebhookWellFormed(s) && s.checkIntervalMinutes >= 1
    ensures v.Exit? ==> v.status == 1 && 1 <= |v.errors| <= 3
    ensures v.Exit? ==> (RequiredError in v.errors <==> !HasWebhook(s))
    ensures v.Exit? ==> (FormatError in v.errors <==> !WebhookWellFormed(s))
    ensures v.Exit? ==> (IntervalError in v.errors <==> s.checkIntervalMinutes < 1)
    ensures !HasWebhook(s) ==> v.Exit? && v.errors[..2] == [RequiredError, FormatError]
    ensures v.Exit? ==> v.errors == (if !HasWebhook(s) then [RequiredError] else [])
                                  + (if !WebhookWellFormed(s) then [FormatError] else [])
                                  + (if s.checkIntervalMinutes < 1 then [IntervalError] else [])
  {
    var errors: seq<string> := [];
    if !HasWebhook(s) {
      errors := errors + [RequiredError];
    }
    if !HasWebhook(s) || !Contains(s.webhookUrl.value, WebhookMarker) {
      errors := errors + [FormatError];
    }
    if s.checkIntervalMinutes < 1 {
      errors := errors + [IntervalError];
    }
    if |errors| > 0 {
      return Exit(1, errors);
    }
    return Accepted;
  }
}
