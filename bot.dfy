/** index.js: the `ForumBot` that ties the pieces together. Each check takes
    the scraped posts, announces those the table has not seen, and keeps
    counters; repeated failures raise alerts and finally stop the bot. The
    scrape result, the outcome of each webhook request, the clock (in
    milliseconds) and the local hour are inputs; every message the bot sends
    or tries to send is appended to `outbox`. */
module Bot {
  import opened Text
  import opened Posts
  import opened Webhook
  import opened Ledger

  /** The `stats` record of the bot. */
  datatype Stats = Stats(totalPosts: nat, sentNotifications: nat, errors: nat, startTime: int)

  /** A message posted to the webhook: the announcement of a post, or a
      status report or alert given by its payload. */
  datatype Message = Announcement(post: Post) | Notice(payload: Payload)

  /** The JSON body posted for a message: an announcement is the payload
      `createWebhookPayload` builds for its post. */
  function PayloadOf(m: Message): Payload {
    match m
    case Announcement(post) => CreateWebhookPayload(post)
    case Notice(payload) => payload
  }

  /** Everything a check can read or change. */
  datatype BotState = BotState(
    isRunning: bool,
    consecutiveErrors: nat,
    lastCheck: Option<int>,
    stats: Stats,
    table: Table,
    outbox: seq<Message>)

  const MaxConsecutiveErrors: nat := 5
  const AlertThreshold: nat := 3
  const CleanupDays: nat := 30
  const MsPerMinute: nat := 60000
  const MsPerHour: nat := 3600000
  const MsPerDay: nat := 86400000
  const CleanupHour: int := 3

  /** The ledger's clock: whole seconds. */
  function Seconds(ms: int): int {
    ms / 1000
  }

  // ---------------------------------------------------------------- the loop over posts

  /** What the loop over one check's posts did: the table after it, the posts
      it saved and sent (in order), and how many sends succeeded or failed. */
  datatype Cycle = Cycle(table: Table, attempted: seq<Post>, sent: nat, failed: nat)

  /** One turn of the loop of `checkForNewPosts`: a post already in the
      table is skipped; otherwise it is saved first and then sent, and a send
      that throws is counted as an error without ending the loop. */
  function Step(c: Cycle, post: Post, outcome: HttpOutcome, now: int): (c': Cycle)
    ensures post.id in c.table.rows ==> c' == c
    ensures post.id !in c.table.rows ==> c'.table == Saved(c.table, post, now).0 && c'.attempted == c.attempted + [post]
    ensures c'.sent + c'.failed == c.sent + c.failed + |c'.attempted| - |c.attempted|
    ensures post.id !in c.table.rows ==>
      && (c'.sent == c.sent + 1 <==> SendResult(outcome).Success?)
      && (c'.failed == c.failed + 1 <==> !SendResult(outcome).Success?)
  {
    if post.id in c.table.rows then c
    else
      var ok := SendResult(outcome).Success?;
      Cycle(Saved(c.table, post, now).0, c.attempted + [post],
            if ok then c.sent + 1 else c.sent, if ok then c.failed else c.failed + 1)
  }

  /** The loop's counters, the table, the announcements posted since
      `outbox0` and the errors counted since `stats0` agree with the cycle `c`. */
  ghost predicate Tallied(c: Cycle, table: Table, newPosts: nat, sent: nat, failed: nat,
                          outbox: seq<Message>, stats: Stats, outbox0: seq<Message>, stats0: Stats) {
    && table == c.table && newPosts == |c.attempted| && sent == c.sent && failed == c.failed
    && outbox == outbox0 + Announcements(c.attempted)
    && stats == stats0.(errors := stats0.errors + failed)
  }

  /** Sending a new post keeps the counters in step with the cycle. */
  lemma TalliedStep(c: Cycle, post: Post, outcome: HttpOutcome, now: int, newPosts: nat, sent: nat, failed: nat,
                    outbox: seq<Message>, stats: Stats, outbox0: seq<Message>, stats0: Stats)
    requires Tallied(c, c.table, newPosts, sent, failed, outbox, stats, outbox0, stats0) && post.id !in c.table.rows
    ensures var ok := SendResult(outcome).Success?;
      Tallied(Step(c, post, outcome, now), Saved(c.table, post, now).0,
              newPosts + 1, if ok then sent + 1 else sent, if ok then failed else failed + 1,
              outbox + [Announcement(post)], if ok then stats else stats.(errors := stats.errors + 1),
              outbox0, stats0)
  {
    var c' := Step(c, post, outcome, now);
    assert c'.attempted == c.attempted + [post];
    AnnouncementsSnoc(c.attempted, post);
  }

  /** The loop of `checkForNewPosts` over `posts`; `outcomes[i]` is how the
      request for `posts[i]` ended, if it was made. */
  function Process(t: Table, posts: seq<Post>, outcomes: seq<HttpOutcome>, now: int): (c: Cycle)
    requires |outcomes| == |posts|
    ensures |c.attempted| <= |posts| && c.sent + c.failed == |c.attempted|
    decreases |posts|
  {
    if posts == [] then Cycle(t, [], 0, 0)
    else Step(Process(t, posts[..|posts| - 1], outcomes[..|posts| - 1], now), posts[|posts| - 1], outcomes[|posts| - 1], now)
  }

  /** The loop after `i + 1` posts is one more turn after `i` posts. */
  lemma ProcessPrefix(t: Table, posts: seq<Post>, outcomes: seq<HttpOutcome>, i: nat, now: int)
    requires |outcomes| == |posts| && i < |posts|
    ensures Process(t, posts[..i + 1], outcomes[..i + 1], now) ==
      Step(Process(t, posts[..i], outcomes[..i], now), posts[i], outcomes[i], now)
  {
    assert posts[..i + 1][..i] == posts[..i] && outcomes[..i + 1][..i] == outcomes[..i];
  }

  /** The announcement posted for each post sent. */
  function Announcements(posts: seq<Post>): (r: seq<Message>)
    ensures |r| == |posts| && forall i | 0 <= i < |r| :: r[i] == Announcement(posts[i])
  {
    seq(|posts|, i requires 0 <= i < |posts| => Announcement(posts[i]))
  }

  lemma AnnouncementsSnoc(posts: seq<Post>, post: Post)
    ensures Announcements(posts + [post]) == Announcements(posts) + [Announcement(post)]
  {
  }

  function Ids(posts: seq<Post>): set<string> {
    set i | 0 <= i < |posts| :: posts[i].id
  }

  lemma IdsSnoc(posts: seq<Post>, post: Post)
    ensures Ids(posts + [post]) == Ids(posts) + {post.id}
  {
    var a := posts + [post];
    assert forall i | 0 <= i < |posts| :: a[i].id == posts[i].id;
    assert a[|posts|].id == post.id;
  }

  /** What one turn does to the table: it stays well formed, keeps every
      row, and gains the post's row exactly when the post is sent. */
  lemma StepGrowsTable(c: Cycle, post: Post, outcome: HttpOutcome, now: int)
    requires WellFormed(c.table)
    ensures var c' := Step(c, post, outcome, now);
      var added: set<string> := if post.id in c.table.rows then {} else {post.id};
      && WellFormed(c'.table)
      && (forall k | k in c.table.rows :: k in c'.table.rows && c'.table.rows[k] == c.table.rows[k])
      && c'.table.rows.Keys == c.table.rows.Keys + added
      && Ids(c'.attempted) == Ids(c.attempted) + added
  {
    if post.id !in c.table.rows {
      SaveFacts(c.table, post, now);
      IdsSnoc(c.attempted, post);
    }
  }

  /** The table after one check: still well formed, every earlier row kept
      unchanged, and one new row for each post sent. */
  lemma {:induction false} ProcessGrowsTable(t: Table, posts: seq<Post>, outcomes: seq<HttpOutcome>, now: int)
    requires WellFormed(t) && |outcomes| == |posts|
    ensures var c := Process(t, posts, outcomes, now);
      && WellFormed(c.table)
      && (forall k | k in t.rows :: k in c.table.rows && c.table.rows[k] == t.rows[k])
      && c.table.rows.Keys == t.rows.Keys + Ids(c.attempted)
    decreases |posts|
  {
    if posts != [] {
      var c := Process(t, posts[..|posts| - 1], outcomes[..|posts| - 1], now);
      ProcessGrowsTable(t, posts[..|posts| - 1], outcomes[..|posts| - 1], now);
      StepGrowsTable(c, posts[|posts| - 1], outcomes[|posts| - 1], now);
    }
  }

  /** The posts sent in one check: no two share an id and none was in the
      table before the check. */
  lemma {:induction false} ProcessSendsNewOnce(t: Table, posts: seq<Post>, outcomes: seq<HttpOutcome>, now: int)
    requires WellFormed(t) && |outcomes| == |posts|
    ensures var c := Process(t, posts, outcomes, now);
      && (forall i, j | 0 <= i < j < |c.attempted| :: c.attempted[i].id != c.attempted[j].id)
      && (forall i | 0 <= i < |c.attempted| :: c.attempted[i].id !in t.rows && c.attempted[i].id in c.table.rows)
    decreases |posts|
  {
    if posts != [] {
      var c := Process(t, posts[..|posts| - 1], outcomes[..|posts| - 1], now);
      ProcessSendsNewOnce(t, posts[..|posts| - 1], outcomes[..|posts| - 1], now);
      ProcessGrowsTable(t, posts[..|posts| - 1], outcomes[..|posts| - 1], now);
      var post := posts[|posts| - 1];
      if post.id !in c.table.rows {
        var a := c.attempted + [post];
        assert forall i | 0 <= i < |c.attempted| :: a[i].id == c.attempted[i].id && a[i].id in Ids(c.attempted);
      }
    }
  }

  /** The posts sent are some of the posts scraped, in their order. */
  lemma {:induction false} ProcessKeepsOrder(t: Table, posts: seq<Post>, outcomes: seq<HttpOutcome>, now: int)
    requires |outcomes| == |posts|
    ensures IsSubsequence(Process(t, posts, outcomes, now).attempted, posts)
    decreases |posts|
  {
    if posts != [] {
      var init := posts[..|posts| - 1];
      var c := Process(t, init, outcomes[..|posts| - 1], now);
      ProcessKeepsOrder(t, init, outcomes[..|posts| - 1], now);
      var post := posts[|posts| - 1];
      SubsequenceExtend(c.attempted, init, post, post.id !in c.table.rows);
      assert init + [post] == posts;
    }
  }

  /** After a check every post it was given is in the table, whether it was
      new or not. */
  lemma {:induction false} ProcessTracksAll(t: Table, posts: seq<Post>, outcomes: seq<HttpOutcome>, now: int)
    requires |outcomes| == |posts|
    ensures var c := Process(t, posts, outcomes, now);
      forall i | 0 <= i < |posts| :: posts[i].id in c.table.rows
    decreases |posts|
  {
    if posts != [] {
      var init := posts[..|posts| - 1];
      var c := Process(t, init, outcomes[..|posts| - 1], now);
      ProcessTracksAll(t, init, outcomes[..|posts| - 1], now);
      var post := posts[|posts| - 1];
      var c' := Process(t, posts, outcomes, now);
      assert c.table.rows.Keys <= c'.table.rows.Keys;
      assert forall i | 0 <= i < |init| :: posts[i] == init[i];
    }
  }

  /** A check over posts that are all in the table already sends nothing and changes nothing. */
  lemma {:induction false} ProcessNothingNew(t: Table, posts: seq<Post>, outcomes: seq<HttpOutcome>, now: int)
    requires |outcomes| == |posts|
    requires forall i | 0 <= i < |posts| :: posts[i].id in t.rows
    ensures Process(t, posts, outcomes, now) == Cycle(t, [], 0, 0)
    decreases |posts|
  {
    if posts != [] {
      ProcessNothingNew(t, posts[..|posts| - 1], outcomes[..|posts| - 1], now);
    }
  }

  /** Checking the same posts a second time announces none of them again,
      whatever the requests return: one row and one announcement per post id. */
  lemma ProcessTwice(t: Table, posts: seq<Post>, first: seq<HttpOutcome>, second: seq<HttpOutcome>, now: int, later: int)
    requires |first| == |posts| && |second| == |posts|
    ensures var c := Process(t, posts, first, now);
      Process(c.table, posts, second, later) == Cycle(c.table, [], 0, 0)
  {
    ProcessTracksAll(t, posts, first, now);
    ProcessNothingNew(Process(t, posts, first, now).table, posts, second, later);
  }

  // ---------------------------------------------------------------- getUptime and shouldPerformCleanup

  /** JavaScript's `%` for a positive divisor: the remainder takes the sign of the dividend. */
  function JsRem(a: int, b: int): (r: int)
    requires b > 0
    ensures -b < r < b
    ensures a >= 0 ==> r == a % b
    ensures a < 0 ==> r == -((-a) % b)
  {
    if a >= 0 then a % b else -((-a) % b)
  }

  /** Whole hours of `ms` and whole minutes of what is left over, each
      rounded down; for a negative time (a clock set back) the remainder
      keeps the sign of `ms`. */
  lemma HoursAndMinutes(ms: int)
    ensures var h, m := ms / MsPerHour, JsRem(ms, MsPerHour) / MsPerMinute;
      ms >= 0 ==> 0 <= h && 0 <= m < 60 && h * MsPerHour + m * MsPerMinute <= ms < h * MsPerHour + m * MsPerMinute + MsPerMinute
    ensures var h, m := ms / MsPerHour, JsRem(ms, MsPerHour) / MsPerMinute;
      ms < 0 ==> h < 0 && -60 <= m <= 0
  {
    var h, m := ms / MsPerHour, JsRem(ms, MsPerHour) / MsPerMinute;
    if ms >= 0 {
      var r := ms % MsPerHour;
      assert ms == h * MsPerHour + r;
      assert r == m * MsPerMinute + r % MsPerMinute;
      assert m < 60;
    } else {
      var r := JsRem(ms, MsPerHour);
      assert -(MsPerHour as int) < r <= 0;
      assert m * MsPerMinute <= r < m * MsPerMinute + MsPerMinute;
    }
  }

  /** `getUptime` for `ms` milliseconds: for a non-negative time the minutes
      are below 60 and the pair names the minute the time falls in; a
      negative time gives negative hours and minutes between -60 and 0. */
  function Uptime(ms: int): (hm: (int, int))
    ensures ms >= 0 ==>
      && 0 <= hm.0 && 0 <= hm.1 < 60
      && hm.0 * MsPerHour + hm.1 * MsPerMinute <= ms < hm.0 * MsPerHour + hm.1 * MsPerMinute + MsPerMinute
    ensures ms < 0 ==> hm.0 < 0 && -60 <= hm.1 <= 0
  {
    HoursAndMinutes(ms);
    (ms / MsPerHour, JsRem(ms, MsPerHour) / MsPerMinute)
  }

  /** The uptime text "<hours>h <minutes>m": for a non-negative time, the
      digits before "h " read back as the hours and those before the final
      'm' as the minutes. */
  function UptimeText(ms: int): (r: string)
    ensures ms >= 0 ==>
      var k := |IntToString(Uptime(ms).0)|;
      && k + 3 <= |r| && r[k..k + 2] == "h " && r[|r| - 1] == 'm'
      && IsDigits(r[..k]) && DigitsValue(r[..k]) == Uptime(ms).0
      && IsDigits(r[k + 2..|r| - 1]) && DigitsValue(r[k + 2..|r| - 1]) == Uptime(ms).1
  {
    var (h, m) := Uptime(ms);
    var r := IntToString(h) + "h " + IntToString(m) + "m";
    if ms >= 0 then
      NatToStringReadsBack(h);
      NatToStringReadsBack(m);
      var k := |IntToString(h)|;
      assert r[..k] == IntToString(h);
      assert r[k + 2..|r| - 1] == IntToString(m);
      r
    else r
  }

  /** `shouldPerformCleanup`: the uptime has reached 24 hours and the local
      hour is 3. */
  predicate CleanupDue(startTime: int, now: int, hour: int): (due: bool)
    ensures due <==> hour == CleanupHour && Uptime(now - startTime).0 >= 24
  {
    now - startTime >= MsPerDay && hour == CleanupHour
  }

  /** The rule holds for every check made during the 3 o'clock hour once a
      day has passed, not only the first one; at any other hour, and during
      the first day, there is no cleanup. */
  lemma CleanupEveryCheckAtThree(startTime: int, now: int)
    requires now - startTime >= MsPerDay
    ensures forall t | t >= now :: CleanupDue(startTime, t, 3)
    ensures forall t, h | h != 3 :: !CleanupDue(startTime, t, h)
    ensures forall t | t - startTime < MsPerDay :: !CleanupDue(startTime, t, 3)
  {
  }

  // ---------------------------------------------------------------- start / stop

  function StartDetails(interval: int): seq<(string, DetailValue)> {
    [("Status", DetailValue.Text("Bot started successfully")),
     ("Check Interval", DetailValue.Text(IntToString(interval) + " minutes")),
     ("Next Check", DetailValue.Text("In progress..."))]
  }

  function StopDetails(s: BotState, now: int): seq<(string, DetailValue)> {
    [("Status", DetailValue.Text("Bot stopped")),
     ("Total Posts Checked", Number(s.stats.totalPosts)),
     ("Notifications Sent", Number(s.stats.sentNotifications)),
     ("Errors", Number(s.stats.errors)),
     ("Uptime", DetailValue.Text(UptimeText(now - s.stats.startTime)))]
  }

  /** `start`: nothing when already running; otherwise running, with a "running" status posted. */
  function Started(s: BotState, interval: int): (s': BotState)
    ensures s.isRunning ==> s' == s
    ensures !s.isRunning ==> s'.isRunning && s'.outbox == s.outbox + [Notice(StatusPayload("running", StartDetails(interval)))]
    ensures s'.stats == s.stats && s'.table == s.table && s'.consecutiveErrors == s.consecutiveErrors
    ensures s'.lastCheck == s.lastCheck
  {
    if s.isRunning then s
    else s.(isRunning := true, outbox := s.outbox + [Notice(StatusPayload("running", StartDetails(interval)))])
  }

  /** `stop`: nothing when not running; otherwise stopped, with a "stopping" status posted. */
  function Stopped(s: BotState, now: int): (s': BotState)
    ensures !s'.isRunning
    ensures !s.isRunning ==> s' == s
    ensures s.isRunning ==> s'.outbox == s.outbox + [Notice(StatusPayload("stopping", StopDetails(s, now)))]
    ensures s'.stats == s.stats && s'.table == s.table && s'.consecutiveErrors == s.consecutiveErrors
    ensures s'.lastCheck == s.lastCheck
  {
    if !s.isRunning then s
    else s.(isRunning := false, outbox := s.outbox + [Notice(StatusPayload("stopping", StopDetails(s, now)))])
  }

  /** Starting twice is starting once, and so is stopping. */
  lemma StartStopIdempotent(s: BotState, interval: int, now: int, later: int)
    ensures Started(Started(s, interval), interval) == Started(s, interval)
    ensures Stopped(Stopped(s, now), later) == Stopped(s, now)
  {
  }

  // ---------------------------------------------------------------- checkForNewPosts

  function FailureAlert(n: nat, message: string): string {
    "Forum check failed " + IntToString(n) + " times: " + message
  }

  function ErrorDetails(n: nat, message: string): seq<(string, DetailValue)> {
    [("Consecutive Errors", Number(n)), ("Last Error", DetailValue.Text(message)), ("Action", DetailValue.Text("Bot stopped"))]
  }

  /** The failure path of a check: one more consecutive error and one more
      error; from the third consecutive failure on an error alert, and from
      the fifth an "error" status followed by `stop`. */
  function Failed(s: BotState, message: string, now: int): (s': BotState) {
    var n := s.consecutiveErrors + 1;
    var s1 := s.(consecutiveErrors := n, stats := s.stats.(errors := s.stats.errors + 1));
    var s2 := if n >= AlertThreshold then s1.(outbox := s1.outbox + [Notice(ErrorPayload(FailureAlert(n, message)))]) else s1;
    if n >= MaxConsecutiveErrors then Stopped(s2.(outbox := s2.outbox + [Notice(StatusPayload("error", ErrorDetails(n, message)))]), now)
    else s2
  }

  /** A completed check: the posts are processed and the counters updated,
      the error streak reset, and the table pruned when cleanup is due. Its
      result is the number of new posts and of notifications sent. */
  function Completed(s: BotState, posts: seq<Post>, outcomes: seq<HttpOutcome>, now: int, hour: int): (r: (BotState, Result<(nat, nat)>))
    requires |outcomes| == |posts|
  {
    var c := Process(s.table, posts, outcomes, Seconds(now));
    var stats := Stats(s.stats.totalPosts + |posts|, s.stats.sentNotifications + c.sent, s.stats.errors + c.failed, s.stats.startTime);
    var table := if CleanupDue(s.stats.startTime, now, hour)
      then Table(Pruned(c.table.rows, Cutoff(Seconds(now), CleanupDays)), c.table.lastId)
      else c.table;
    (s.(table := table, outbox := s.outbox + Announcements(c.attempted), stats := stats, consecutiveErrors := 0),
     Success((|c.attempted|, c.sent)))
  }

  /** A state whose fields are those of a completed check is that check's state. */
  lemma CompletedFrom(s: BotState, posts: seq<Post>, outcomes: seq<HttpOutcome>, now: int, hour: int, s': BotState)
    requires |outcomes| == |posts|
    requires var c := Process(s.table, posts, outcomes, Seconds(now));
      && s'.isRunning == s.isRunning && s'.consecutiveErrors == 0 && s'.lastCheck == s.lastCheck
      && s'.stats == Stats(s.stats.totalPosts + |posts|, s.stats.sentNotifications + c.sent, s.stats.errors + c.failed, s.stats.startTime)
      && s'.table == (if CleanupDue(s.stats.startTime, now, hour)
                      then Table(Pruned(c.table.rows, Cutoff(Seconds(now), CleanupDays)), c.table.lastId) else c.table)
      && s'.outbox == s.outbox + Announcements(c.attempted)
    ensures s' == Completed(s, posts, outcomes, now, hour).0
  {
  }

  /** A check: the time is recorded, then either the check completes or,
      when the scrape failed, the failure path runs and the error is passed on. */
  function Checked(s: BotState, scraped: Result<seq<Post>>, outcomes: seq<HttpOutcome>, now: int, hour: int): (r: (BotState, Result<(nat, nat)>))
    requires scraped.Success? ==> |outcomes| == |scraped.value|
    ensures r.1.Failure? <==> scraped.Failure?
    ensures r.0.lastCheck == Some(now)
  {
    var s1 := s.(lastCheck := Some(now));
    if scraped.Failure? then (Failed(s1, scraped.error, now), Failure(scraped.error))
    else Completed(s1, scraped.value, outcomes, now, hour)
  }

  /** Stopping a running bot appends one message, a "STOPPING" status. */
  lemma StoppingPosted(s: BotState, now: int)
    requires s.isRunning
    ensures var s' := Stopped(s, now);
      && |s'.outbox| == |s.outbox| + 1 && s'.outbox[..|s.outbox|] == s.outbox
      && s'.outbox[|s.outbox|].Notice? && s'.outbox[|s.outbox|].payload.embeds[0].title == "Bot Status: STOPPING"
  {
    var stop := StatusPayload("stopping", StopDetails(s, now));
    StatusTitles(StopDetails(s, now));
    assert Stopped(s, now).outbox == s.outbox + [Notice(stop)];
  }

  /** A failed check counts the failure, alerts from the third consecutive
      failure on, and stops a running bot from the fifth on, posting the
      alert, the "error" status and the "stopping" status in that order. */
  lemma FailureEscalates(s: BotState, message: string, now: int)
    ensures var s' := Failed(s, message, now);
      var n := s.consecutiveErrors + 1;
      && s'.consecutiveErrors == n && s'.stats.errors == s.stats.errors + 1
      && s'.table == s.table
      && (n < AlertThreshold ==> s'.outbox == s.outbox && s'.isRunning == s.isRunning)
      && (AlertThreshold <= n < MaxConsecutiveErrors ==>
            s'.outbox == s.outbox + [Notice(ErrorPayload(FailureAlert(n, message)))] && s'.isRunning == s.isRunning)
      && (n >= MaxConsecutiveErrors ==> !s'.isRunning)
      && (n >= MaxConsecutiveErrors && s.isRunning ==>
            |s'.outbox| == |s.outbox| + 3
            && s'.outbox[|s.outbox|] == Notice(ErrorPayload(FailureAlert(n, message)))
            && s'.outbox[|s.outbox| + 1] == Notice(StatusPayload("error", ErrorDetails(n, message)))
            && s'.outbox[|s.outbox| + 2].payload.embeds[0].title == "Bot Status: STOPPING")
  {
    var n := s.consecutiveErrors + 1;
    var s1 := s.(consecutiveErrors := n, stats := s.stats.(errors := s.stats.errors + 1));
    var s2 := if n >= AlertThreshold then s1.(outbox := s1.outbox + [Notice(ErrorPayload(FailureAlert(n, message)))]) else s1;
    if n >= MaxConsecutiveErrors {
      var s3 := s2.(outbox := s2.outbox + [Notice(StatusPayload("error", ErrorDetails(n, message)))]);
      assert Failed(s, message, now) == Stopped(s3, now);
      if s.isRunning {
        StoppingPosted(s3, now);
      }
    } else {
      assert Failed(s, message, now) == s2;
    }
  }

  /** From a running bot with no error streak, the first two failed checks
      post nothing, the third and fourth post an alert each, and the fifth
      stops the bot. */
  lemma {:induction false} FiveFailuresStop(s: BotState, m1: string, m2: string, m3: string, m4: string, m5: string, now: int)
    requires s.isRunning && s.consecutiveErrors == 0
    ensures var s2 := Failed(Failed(s, m1, now), m2, now);
      var s4 := Failed(Failed(s2, m3, now), m4, now);
      var s5 := Failed(s4, m5, now);
      && s2.outbox == s.outbox && s2.isRunning
      && |s4.outbox| == |s.outbox| + 2 && s4.isRunning
      && !s5.isRunning && s5.consecutiveErrors == 5 && s5.stats.errors == s.stats.errors + 5
  {
    var s1 := Failed(s, m1, now);
    FailureEscalates(s, m1, now);
    var s2 := Failed(s1, m2, now);
    FailureEscalates(s1, m2, now);
    var s3 := Failed(s2, m3, now);
    FailureEscalates(s2, m3, now);
    var s4 := Failed(s3, m4, now);
    FailureEscalates(s3, m4, now);
    FailureEscalates(s4, m5, now);
  }

  /** A completed check resets the error streak, adds the number of posts
      scraped to `totalPosts` and the successful sends to
      `sentNotifications`, announces exactly the posts that were not in the
      table, and leaves the bot running or not as it was. */
  lemma CheckSucceeds(s: BotState, posts: seq<Post>, outcomes: seq<HttpOutcome>, now: int, hour: int)
    requires |outcomes| == |posts| && WellFormed(s.table)
    ensures var (s', r) := Checked(s, Success(posts), outcomes, now, hour);
      var c := Process(s.table, posts, outcomes, Seconds(now));
      && r == Success((|c.attempted|, c.sent))
      && s'.consecutiveErrors == 0 && s'.isRunning == s.isRunning && s'.lastCheck == Some(now)
      && s'.stats.totalPosts == s.stats.totalPosts + |posts|
      && s'.stats.sentNotifications == s.stats.sentNotifications + c.sent
      && s'.stats.errors == s.stats.errors + c.failed
      && c.sent + c.failed == |c.attempted|
      && s'.outbox == s.outbox + Announcements(c.attempted)
      && (forall i | 0 <= i < |c.attempted| :: c.attempted[i].id !in s.table.rows)
      && (forall i | 0 <= i < |posts| :: posts[i].id in s.table.rows || posts[i].id in Ids(c.attempted))
      && (!CleanupDue(s.stats.startTime, now, hour) ==> forall i | 0 <= i < |posts| :: posts[i].id in s'.table.rows)
  {
    var c := Process(s.table, posts, outcomes, Seconds(now));
    ProcessGrowsTable(s.table, posts, outcomes, Seconds(now));
    ProcessSendsNewOnce(s.table, posts, outcomes, Seconds(now));
    ProcessTracksAll(s.table, posts, outcomes, Seconds(now));
    forall i | 0 <= i < |posts| ensures posts[i].id in s.table.rows || posts[i].id in Ids(c.attempted) {
      assert posts[i].id in c.table.rows;
    }
  }

  /** Two completed checks over the same posts with no cleanup between
      announce each post once: the second announces nothing. */
  lemma CheckTwiceAnnouncesOnce(s: BotState, posts: seq<Post>, first: seq<HttpOutcome>, second: seq<HttpOutcome>,
                                 now: int, hour: int, later: int, laterHour: int)
    requires |first| == |posts| && |second| == |posts|
    requires !CleanupDue(s.stats.startTime, now, hour) && !CleanupDue(s.stats.startTime, later, laterHour)
    ensures var s1 := Checked(s, Success(posts), first, now, hour).0;
      var (s2, r) := Checked(s1, Success(posts), second, later, laterHour);
      s2.outbox == s1.outbox && s2.table == s1.table && r == Success((0, 0))
  {
    var s1 := Checked(s, Success(posts), first, now, hour).0;
    ProcessTwice(s.table, posts, first, second, Seconds(now), Seconds(later));
    assert Announcements([]) == [];
  }

  /** The loop over a single post is one turn from an empty cycle. */
  lemma ProcessLone(t: Table, post: Post, outcome: HttpOutcome, now: int)
    ensures Process(t, [post], [outcome], now) == Step(Cycle(t, [], 0, 0), post, outcome, now)
  {
    assert [post][..0] == [] && [outcome][..0] == [];
  }

  /** Announcing each post once holds only between cleanups. A cleanup check
      prunes a post saved more than 30 days before, even while the forum
      still lists it (a pinned topic, say): the check itself announces
      nothing, since the loop runs before the pruning, and the next check
      finds the post untracked and announces it again. */
  lemma CleanupReannounces(s: BotState, post: Post, first: HttpOutcome, second: HttpOutcome,
                           now: int, later: int, laterHour: int)
    requires post.id in s.table.rows && s.table.rows[post.id].createdAt < Cutoff(Seconds(now), CleanupDays)
    requires CleanupDue(s.stats.startTime, now, CleanupHour) && !CleanupDue(s.stats.startTime, later, laterHour)
    ensures var s1 := Checked(s, Success([post]), [first], now, CleanupHour).0;
      var s2 := Checked(s1, Success([post]), [second], later, laterHour).0;
      && s1.outbox == s.outbox && post.id !in s1.table.rows
      && s2.outbox == s1.outbox + [Announcement(post)] && post.id in s2.table.rows
  {
    ProcessLone(s.table, post, first, Seconds(now));
    assert Announcements([]) == [];
    var s1 := Checked(s, Success([post]), [first], now, CleanupHour).0;
    assert post.id !in s1.table.rows;
    ProcessLone(s1.table, post, second, Seconds(later));
    assert Announcements([post]) == [Announcement(post)];
  }

  // ---------------------------------------------------------------- the bot object

  class ForumBot {
    const database: Database
    const interval: int
    var isRunning: bool
    var consecutiveErrors: nat
    var lastCheck: Option<int>
    var stats: Stats
    var outbox: seq<Message>

    function State(): BotState
      reads this, database
    {
      BotState(isRunning, consecutiveErrors, lastCheck, stats, database.State(), outbox)
    }

    ghost predicate Valid()
      reads this, database
    {
      database.Valid()
    }

    /** A stopped bot with zeroed counters, started at `startTime`, over the
        table `stored` in the database file (empty on a first run), checking
        every `interval` minutes. */
    constructor (startTime: int, interval: int, stored: Table)
      requires WellFormed(stored)
      ensures Valid() && fresh(database) && this.interval == interval
      ensures State() == BotState(false, 0, None, Stats(0, 0, 0, startTime), stored, [])
    {
      database := new Database(stored);
      this.interval := interval;
      isRunning := false;
      consecutiveErrors := 0;
      lastCheck := None;
      stats := Stats(0, 0, 0, startTime);
      outbox := [];
    }

    method Start()
      modifies this
      ensures State() == Started(old(State()), interval)
    {
      if isRunning {
        return;
      }
      isRunning := true;
      outbox := outbox + [Notice(StatusPayload("running", StartDetails(interval)))];
    }

    method Stop(now: int)
      modifies this
      ensures State() == Stopped(old(State()), now)
    {
      if !isRunning {
        return;
      }
      var report := Notice(StatusPayload("stopping", StopDetails(State(), now)));
      isRunning := false;
      outbox := outbox + [report];
    }

    /** `checkForNewPosts`, given how the scrape and each webhook request
        end, the time and the local hour. */
    method CheckForNewPosts(scraped: Result<seq<Post>>, outcomes: seq<HttpOutcome>, now: int, hour: int)
      returns (r: Result<(nat, nat)>)
      requires Valid()
      requires scraped.Success? ==> |outcomes| == |scraped.value|
      modifies this, database
      ensures Valid()
      ensures (State(), r) == Checked(old(State()), scraped, outcomes, now, hour)
    {
      lastCheck := Some(now);
      if scraped.Failure? {
        HandleFailure(scraped.error, now);
        r := Failure(scraped.error);
      } else {
        r := Complete(scraped.value, outcomes, now, hour);
      }
    }

    /** The part of `checkForNewPosts` after a successful scrape. */
    method Complete(posts: seq<Post>, outcomes: seq<HttpOutcome>, now: int, hour: int) returns (r: Result<(nat, nat)>)
      requires Valid() && |outcomes| == |posts|
      modifies this, database
      ensures Valid()
      ensures (State(), r) == Completed(old(State()), posts, outcomes, now, hour)
    {
      ghost var s0 := State();
      var newPosts, sent, failed := ProcessPosts(posts, outcomes, Seconds(now));
      stats := stats.(totalPosts := stats.totalPosts + |posts|, sentNotifications := stats.sentNotifications + sent);
      consecutiveErrors := 0;
      if CleanupDue(stats.startTime, now, hour) {
        var _ := database.Cleanup(CleanupDays, Seconds(now));
      }
      r := Success((newPosts, sent));
      CompletedFrom(s0, posts, outcomes, now, hour, State());
    }

    /** The loop over the scraped posts. */
    method ProcessPosts(posts: seq<Post>, outcomes: seq<HttpOutcome>, now: int) returns (newPosts: nat, sent: nat, failed: nat)
      requires Valid() && |outcomes| == |posts|
      modifies this`stats, this`outbox, database
      ensures Valid()
      ensures var c := Process(old(database.State()), posts, outcomes, now);
        && database.State() == c.table && newPosts == |c.attempted| && sent == c.sent && failed == c.failed
        && outbox == old(outbox) + Announcements(c.attempted)
        && stats == old(stats).(errors := old(stats).errors + c.failed)
    {
      ghost var t0 := database.State();
      ghost var c := Cycle(t0, [], 0, 0);
      newPosts, sent, failed := 0, 0, 0;
      for i := 0 to |posts|
        invariant c == Process(t0, posts[..i], outcomes[..i], now)
        invariant Valid() && Counted(c, newPosts, sent, failed, old(outbox), old(stats))
      {
        ProcessPrefix(t0, posts, outcomes, i, now);
        newPosts, sent, failed := HandlePost(c, posts[i], outcomes[i], now, newPosts, sent, failed, old(outbox), old(stats));
        c := Step(c, posts[i], outcomes[i], now);
      }
      assert posts[..|posts|] == posts && outcomes[..|outcomes|] == outcomes;
    }

    /** The bot and the loop's counters agree with the cycle `c`. */
    ghost predicate Counted(c: Cycle, newPosts: nat, sent: nat, failed: nat, outbox0: seq<Message>, stats0: Stats)
      reads this, database
    {
      Tallied(c, database.State(), newPosts, sent, failed, outbox, stats, outbox0, stats0)
    }

    /** One turn of the loop: a post the table does not have is saved, then
        sent, and counted as delivered or, when the send throws, as an error;
        a tracked post is skipped. The turn does what `Step` does. */
    method HandlePost(ghost c: Cycle, post: Post, outcome: HttpOutcome, now: int, newPosts: nat, sent: nat, failed: nat,
                      ghost outbox0: seq<Message>, ghost stats0: Stats)
      returns (newPosts': nat, sent': nat, failed': nat)
      requires Valid() && Counted(c, newPosts, sent, failed, outbox0, stats0)
      modifies this`stats, this`outbox, database
      ensures Valid() && Counted(Step(c, post, outcome, now), newPosts', sent', failed', outbox0, stats0)
    {
      var tracked := database.IsPostAlreadyTracked(post.id);
      if tracked {
        newPosts', sent', failed' := newPosts, sent, failed;
      } else {
        newPosts', sent', failed' := SendNewPost(c, post, outcome, now, newPosts, sent, failed, outbox0, stats0);
      }
    }

    /** A post the table does not have: saved, then sent. */
    method SendNewPost(ghost c: Cycle, post: Post, outcome: HttpOutcome, now: int, newPosts: nat, sent: nat, failed: nat,
                       ghost outbox0: seq<Message>, ghost stats0: Stats)
      returns (newPosts': nat, sent': nat, failed': nat)
      requires Valid() && Counted(c, newPosts, sent, failed, outbox0, stats0) && post.id !in c.table.rows
      modifies this`stats, this`outbox, database
      ensures Valid() && Counted(Step(c, post, outcome, now), newPosts', sent', failed', outbox0, stats0)
    {
      TalliedStep(c, post, outcome, now, newPosts, sent, failed, outbox, stats, outbox0, stats0);
      var ok := SendResult(outcome).Success?;
      var _ := database.SavePost(post, now);
      outbox := outbox + [Announcement(post)];
      newPosts', sent', failed' := newPosts + 1, if ok then sent + 1 else sent, if ok then failed else failed + 1;
      stats := if ok then stats else stats.(errors := stats.errors + 1);
    }

    /** The failure path of `checkForNewPosts`. */
    method HandleFailure(message: string, now: int)
      modifies this
      ensures State() == Failed(old(State()), message, now)
    {
      consecutiveErrors := consecutiveErrors + 1;
      stats := stats.(errors := stats.errors + 1);
      if consecutiveErrors >= AlertThreshold {
        outbox := outbox + [Notice(ErrorPayload(FailureAlert(consecutiveErrors, message)))];
      }
      if consecutiveErrors >= MaxConsecutiveErrors {
        outbox := outbox + [Notice(StatusPayload("error", ErrorDetails(consecutiveErrors, message)))];
        ghost var before := State();
        assert Failed(old(State()), message, now) == Stopped(before, now);
        Stop(now);
      }
    }

    /** A scheduled tick: a check runs only while the bot is running, and its
        error, already handled, goes no further. */
    method Tick(scraped: Result<seq<Post>>, outcomes: seq<HttpOutcome>, now: int, hour: int)
      requires Valid()
      requires scraped.Success? ==> |outcomes| == |scraped.value|
      modifies this, database
      ensures Valid()
      ensures old(isRunning) ==> State() == Checked(old(State()), scraped, outcomes, now, hour).0
      ensures !old(isRunning) ==> State() == old(State())
    {
      if isRunning {
        var _ := CheckForNewPosts(scraped, outcomes, now, hour);
      }
    }
  }
}
