/**
 * The navigation guard run on every route change of the public site:
 * route exemptions, settings with secure defaults, the user-agent keyword
 * deny and the per-minute page-view limit over a session log.
 */
module BotProtection {
  import opened Wrappers
  import opened Text
  import opened RateWindow
  import opened SecurityConfig
  import opened ClientStorage

  const AccessDeniedPath := "/access-denied"
  const AdminPrefix := "/admin"
  const OneMinuteMs := 60000
  const BotKeywords: seq<string> := ["bot", "spider", "crawler", "scraper", "headless", "selenium", "puppeteer"]

  /** What reading the remote document gave: an error, no document, or the document. */
  datatype FetchResult = FetchFailed | NoDocument | Fetched(doc: SecurityDoc)

  datatype BotSettings = BotSettings(botProtection: bool, maxPageViewsPerMinute: int)

  const DefaultBotSettings := BotSettings(true, 60)

  /**
   * The defaults with the fetched document spread over them: a field the
   * document holds wins, a missing field keeps its default, and a failed
   * fetch or a missing document keeps all defaults.
   */
  function Merge(f: FetchResult): (s: BotSettings)
    ensures !f.Fetched? ==> s == DefaultBotSettings
    ensures f.Fetched? && f.doc.botProtection.Some? ==> s.botProtection == f.doc.botProtection.value
    ensures f.Fetched? && f.doc.botProtection.None? ==> s.botProtection
    ensures f.Fetched? && f.doc.maxPageViewsPerMinute.Some? ==> s.maxPageViewsPerMinute == f.doc.maxPageViewsPerMinute.value
    ensures f.Fetched? && f.doc.maxPageViewsPerMinute.None? ==> s.maxPageViewsPerMinute == 60
  {
    match f
    case Fetched(doc) =>
      BotSettings(doc.botProtection.GetOr(true), doc.maxPageViewsPerMinute.GetOr(60))
    case _ => DefaultBotSettings
  }

  /** The page-view limit in force: `maxPageViewsPerMinute || 60`, so a zero limit means 60. */
  function ViewLimit(s: BotSettings): (n: int)
    ensures n != 0
    ensures s.maxPageViewsPerMinute != 0 ==> n == s.maxPageViewsPerMinute
    ensures s.maxPageViewsPerMinute == 0 ==> n == 60
  {
    OrDefault(Some(s.maxPageViewsPerMinute), 60)
  }

  /** The access-denied page and every path under `/admin` are never guarded. */
  predicate Exempt(path: string) {
    path == AccessDeniedPath || AdminPrefix <= path
  }

  /** The lower-cased user agent contains one of the automation keywords. */
  predicate LooksLikeBot(ua: string) {
    exists k :: 0 <= k < |BotKeywords| && Contains(ToLower(ua), BotKeywords[k])
  }

  datatype NavOutcome = Proceed | Redirect(to: string)

  /** The guard's decision and the session log it leaves behind. */
  datatype Guard = Guard(outcome: NavOutcome, pageViews: seq<int>)

  /** `checkBot` for one route change at time `now`, over the session log `views`. */
  function GuardStep(path: string, ua: string, f: FetchResult, views: seq<int>, now: int): (g: Guard)
    ensures Exempt(path) || !Merge(f).botProtection ==> g == Guard(Proceed, views)
    ensures g.outcome.Redirect? ==> g.outcome.to == AccessDeniedPath && g.pageViews == views
    ensures !Exempt(path) && Merge(f).botProtection && LooksLikeBot(ua) ==>
              g == Guard(Redirect(AccessDeniedPath), views)
    ensures !Exempt(path) && Merge(f).botProtection && !LooksLikeBot(ua) ==>
              (g.outcome.Redirect? <==> |Recent(views, now, OneMinuteMs)| >= ViewLimit(Merge(f)))
    ensures !Exempt(path) && Merge(f).botProtection && g.outcome == Proceed ==>
              && g.pageViews == Recent(views, now, OneMinuteMs) + [now]
              && |g.pageViews| <= ViewLimit(Merge(f))
              && forall i :: 0 <= i < |g.pageViews| ==> g.pageViews[i] > now - OneMinuteMs
  {
    if Exempt(path) then Guard(Proceed, views)
    else
      var settings := Merge(f);
      if !settings.botProtection then Guard(Proceed, views)
      else if LooksLikeBot(ua) then Guard(Redirect(AccessDeniedPath), views)
      else
        var recent := Recent(views, now, OneMinuteMs);
        if |recent| >= ViewLimit(settings) then Guard(Redirect(AccessDeniedPath), views)
        else Guard(Proceed, recent + [now])
  }

  /** The recent views are exactly the logged views later than one minute ago. */
  lemma RecentViewsLastMinute(views: seq<int>, now: int, t: int)
    ensures t in Recent(views, now, OneMinuteMs) <==> t in views && t > now - OneMinuteMs
  {
    RecentMembers(views, now, OneMinuteMs, t);
  }

  /**
   * Once the log holds at most the limit of views inside the last minute, it
   * does so at every later route change too, whatever the guard decides.
   */
  lemma GuardKeepsLogBounded(path: string, ua: string, f: FetchResult, views: seq<int>, before: int, now: int, later: int)
    requires before <= now <= later
    requires |Recent(views, before, OneMinuteMs)| <= ViewLimit(Merge(f))
    ensures |Recent(GuardStep(path, ua, f, views, now).pageViews, later, OneMinuteMs)| <= ViewLimit(Merge(f))
  {
    var g := GuardStep(path, ua, f, views, now);
    if g.pageViews == views {
      CountFallsLater(views, before, later, OneMinuteMs);
    } else {
      CountFallsLater(g.pageViews, now, later, OneMinuteMs);
    }
  }

  /** The keyword test ignores letter case. */
  lemma BotCheckIgnoresCase(ua: string)
    ensures LooksLikeBot(ua) <==> LooksLikeBot(ToLower(ua))
  {
    ToLowerIdempotent(ua);
  }

  /** The guard reads its own two fields only: the reload shield's switch does not turn it off. */
  lemma GuardIgnoresShieldSwitch(path: string, ua: string, doc: SecurityDoc, on: bool, views: seq<int>, now: int)
    ensures GuardStep(path, ua, Fetched(doc.(enabled := Some(on))), views, now) ==
            GuardStep(path, ua, Fetched(doc), views, now)
  {
  }

  /** `checkBot` on the session storage; the outcome is where to navigate. */
  method CheckBot(store: BrowserStorage, path: string, ua: string, f: FetchResult, now: int) returns (o: NavOutcome)
    modifies store`pageViews
    ensures Guard(o, store.pageViews) == GuardStep(path, ua, f, old(store.pageViews), now)
  {
    o := Proceed;
    if path == AccessDeniedPath || AdminPrefix <= path {
      return;
    }
    var settings := Merge(f);
    if !settings.botProtection {
      return;
    }
    if LooksLikeBot(ua) {
      o := Redirect(AccessDeniedPath);
      return;
    }
    // time > now - 60000, that is now - time < 60000
    var recentViews := Prune(store.pageViews, now, OneMinuteMs);
    if |recentViews| >= ViewLimit(settings) {
      o := Redirect(AccessDeniedPath);
      return;
    }
    recentViews := recentViews + [now];
    store.pageViews := recentViews;
  }
}
