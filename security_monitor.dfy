/**
 * The reload-flood shield that wraps the public site: remote settings,
 * the load step that counts page loads and starts blocks, the one-second
 * countdown tick that ends them, the `m:ss` countdown text and the choice
 * of what the component renders.
 *
 * Times are integer milliseconds. `blockDuration` is in minutes and
 * `timeWindow` in seconds, as in the remote document.
 */
module SecurityMonitor {
  import opened Wrappers
  import opened Text
  import opened RateWindow
  import opened SecurityConfig
  import opened ClientStorage

  // ---------------------------------------------------------------- settings

  datatype Settings = Settings(enabled: bool, maxReloads: int, timeWindow: int, blockDuration: int)
  {
    function DurationMs(): int { blockDuration * 60 * 1000 }
    function WindowMs(): int { timeWindow * 1000 }
  }

  /** The settings before the first snapshot arrives. */
  const InitialSettings := Settings(false, 5, 10, 30)

  /**
   * The settings a snapshot of the remote document yields: the shield is on
   * only for a literal `true`, and each number falls back to its default
   * (5 reloads, 10 seconds, 30 minutes) when it is missing or zero.
   */
  function Normalise(doc: SecurityDoc): (s: Settings)
    ensures s.enabled <==> doc.enabled == Some(true)
    ensures s.maxReloads != 0 && s.timeWindow != 0 && s.blockDuration != 0
    ensures doc.maxReloads in {None, Some(0)} ==> s.maxReloads == 5
    ensures doc.timeWindow in {None, Some(0)} ==> s.timeWindow == 10
    ensures doc.blockDuration in {None, Some(0)} ==> s.blockDuration == 30
    ensures doc.maxReloads.Some? && doc.maxReloads.value != 0 ==> s.maxReloads == doc.maxReloads.value
    ensures doc.timeWindow.Some? && doc.timeWindow.value != 0 ==> s.timeWindow == doc.timeWindow.value
    ensures doc.blockDuration.Some? && doc.blockDuration.value != 0 ==> s.blockDuration == doc.blockDuration.value
  {
    Settings(
      doc.enabled == Some(true),
      OrDefault(doc.maxReloads, 5),
      OrDefault(doc.timeWindow, 10),
      OrDefault(doc.blockDuration, 30))
  }

  // ------------------------------------------------------------------- state

  /**
   * What the shield reads and writes: the two localStorage keys and the
   * component's `blockedUntil` and `timeLeft`.
   */
  datatype Shield = Shield(blockStart: Option<int>, reloads: seq<int>, blockedUntil: Option<int>, timeLeft: nat)

  /** The recorded block is still running under the CURRENT duration. */
  predicate BlockActive(s: Settings, blockStart: Option<int>, now: int) {
    blockStart.Some? && now - blockStart.value < s.DurationMs()
  }

  /** A load is counted when settings have arrived, the shield is on and no block is running. */
  predicate Counts(s: Settings, loading: bool, st: Shield, now: int) {
    !loading && s.enabled && !BlockActive(s, st.blockStart, now)
  }

  /** A running block and a non-empty reload log never coexist: starting a block clears the log. */
  predicate Consistent(st: Shield) {
    st.blockStart.Some? ==> st.reloads == []
  }

  // --------------------------------------------------------------- load step

  /**
   * The load step: runs on a page load once settings have arrived, and again
   * on every later snapshot.
   */
  function ReloadStep(s: Settings, loading: bool, st: Shield, now: int): Shield
  {
    if loading || !s.enabled then st
    else if BlockActive(s, st.blockStart, now) then
      st.(blockedUntil := Some(st.blockStart.value + s.DurationMs()))
    else
      var until := if st.blockStart.Some? then None else st.blockedUntil;
      var log := Recent(st.reloads, now, s.WindowMs()) + [now];
      if |log| > s.maxReloads then
        st.(blockStart := Some(now), reloads := [], blockedUntil := Some(now + s.DurationMs()))
      else
        st.(blockStart := None, reloads := log, blockedUntil := until)
  }

  /**
   * What the load step promises: while loading or disabled nothing changes;
   * a running block is shown until start + current duration and storage is
   * left alone; otherwise the load is counted, and a block starts exactly
   * when the pruned log plus this load exceeds `maxReloads`.
   */
  lemma ReloadStepContract(s: Settings, loading: bool, st: Shield, now: int)
    ensures var r := ReloadStep(s, loading, st, now);
      && r.timeLeft == st.timeLeft
      && (loading || !s.enabled ==> r == st)
      && (!loading && s.enabled && BlockActive(s, st.blockStart, now) ==>
            r == st.(blockedUntil := Some(st.blockStart.value + s.DurationMs())))
      && (Counts(s, loading, st, now) ==>
            (r.blockStart.Some? <==> |Recent(st.reloads, now, s.WindowMs())| + 1 > s.maxReloads))
      && (Counts(s, loading, st, now) && r.blockStart.Some? ==>
            r.blockStart == Some(now) && r.reloads == [] && r.blockedUntil == Some(now + s.DurationMs()))
      && (Counts(s, loading, st, now) && r.blockStart.None? ==>
            && r.reloads == Recent(st.reloads, now, s.WindowMs()) + [now]
            && |r.reloads| <= s.maxReloads
            && r.blockedUntil == (if st.blockStart.Some? then None else st.blockedUntil))
      && (Counts(s, loading, st, now) && r.blockStart.None? && s.timeWindow > 0 ==>
            forall i :: 0 <= i < |r.reloads| ==> InWindow(r.reloads[i], now, s.WindowMs()))
  {
  }

  /** The shield after page loads at `times`, one after another, with settings already loaded. */
  function RunLoads(s: Settings, st: Shield, times: seq<int>): Shield
  {
    if times == [] then st
    else ReloadStep(s, false, RunLoads(s, st, times[..|times| - 1]), times[|times| - 1])
  }

  /** Every time lies in [lo, hi], a span shorter than the window. */
  predicate WithinOneWindow(times: seq<int>, lo: int, hi: int, windowMs: int) {
    hi - lo < windowMs && forall i :: 0 <= i < |times| ==> lo <= times[i] <= hi
  }

  /** A counted load over a log that pruning keeps whole: the log grows by one, or the block starts. */
  lemma LoadOverWholeLog(s: Settings, before: Shield, now: int)
    requires s.enabled && before.blockStart.None?
    requires Recent(before.reloads, now, s.WindowMs()) == before.reloads
    ensures ReloadStep(s, false, before, now) ==
            if |before.reloads| + 1 > s.maxReloads
            then before.(blockStart := Some(now), reloads := [], blockedUntil := Some(now + s.DurationMs()))
            else before.(reloads := before.reloads + [now])
  {
  }

  /** The last load of a run acts on the shield the earlier loads left. */
  lemma RunLoadsLast(s: Settings, st: Shield, times: seq<int>, before: Shield)
    requires times != [] && RunLoads(s, st, times[..|times| - 1]) == before
    ensures RunLoads(s, st, times) == ReloadStep(s, false, before, times[|times| - 1])
  {
  }

  /** The last load of a run within one window sees every earlier load of the run in its window. */
  lemma LastLoadSeesRun(times: seq<int>, lo: int, hi: int, windowMs: int)
    requires times != [] && WithinOneWindow(times, lo, hi, windowMs)
    ensures WithinOneWindow(times[..|times| - 1], lo, hi, windowMs)
    ensures Recent(times[..|times| - 1], times[|times| - 1], windowMs) == times[..|times| - 1]
  {
    RecentKeepsWindow(times[..|times| - 1], times[|times| - 1], windowMs);
  }

  /** Up to `maxReloads` loads within one window are all logged and start no block. */
  lemma {:induction false} LoadsUpToLimit(s: Settings, st: Shield, times: seq<int>, lo: int, hi: int)
    requires s.enabled && st.blockStart.None? && st.reloads == []
    requires WithinOneWindow(times, lo, hi, s.WindowMs())
    requires |times| <= s.maxReloads
    ensures RunLoads(s, st, times) == st.(reloads := times)
  {
    if times != [] {
      var init, now := times[..|times| - 1], times[|times| - 1];
      LastLoadSeesRun(times, lo, hi, s.WindowMs());
      LoadsUpToLimit(s, st, init, lo, hi);
      var before := st.(reloads := init);
      RunLoadsLast(s, st, times, before);
      LoadOverWholeLog(s, before, now);
      assert init + [now] == times;
    }
  }

  /**
   * The load after `maxReloads` loads within one window starts a block at
   * its own time, sets `blockedUntil` one duration later and empties the log.
   */
  lemma FloodBlocksOnExtraLoad(s: Settings, st: Shield, times: seq<int>, lo: int, hi: int)
    requires s.enabled && st.blockStart.None? && st.reloads == [] && s.maxReloads >= 0
    requires WithinOneWindow(times, lo, hi, s.WindowMs()) && |times| == s.maxReloads + 1
    ensures var now := times[|times| - 1];
            RunLoads(s, st, times) ==
            st.(blockStart := Some(now), reloads := [], blockedUntil := Some(now + s.DurationMs()))
  {
    var init, now := times[..|times| - 1], times[|times| - 1];
    var before := st.(reloads := init);
    assert RunLoads(s, st, init) == before && Recent(init, now, s.WindowMs()) == init by {
      LastLoadSeesRun(times, lo, hi, s.WindowMs());
      LoadsUpToLimit(s, st, init, lo, hi);
    }
    RunLoadsLast(s, st, times, before);
    LoadOverWholeLog(s, before, now);
  }

  /**
   * Six loads one second apart under 5 reloads per 10 seconds and a
   * one-minute block: the sixth load is blocked until a minute after it and
   * the log is empty.
   */
  lemma SixReloadsInTenSeconds(st: Shield, t: int)
    requires st.blockStart.None? && st.reloads == []
    ensures var s := Settings(true, 5, 10, 1);
            RunLoads(s, st, [t, t + 1000, t + 2000, t + 3000, t + 4000, t + 5000]) ==
            st.(blockStart := Some(t + 5000), reloads := [], blockedUntil := Some(t + 5000 + 60000))
  {
    FloodBlocksOnExtraLoad(Settings(true, 5, 10, 1), st, [t, t + 1000, t + 2000, t + 3000, t + 4000, t + 5000], t, t + 5000);
  }

  /** Both steps keep a running block and a non-empty log apart. */
  lemma StepsKeepConsistent(s: Settings, loading: bool, st: Shield, now: int)
    requires Consistent(st)
    ensures Consistent(ReloadStep(s, loading, st, now))
    ensures Consistent(TickStep(s, st, now).shield)
  {
  }

  /**
   * The first load after a block has run out is counted against an empty
   * log, so it never starts a new block by itself.
   */
  lemma FirstLoadAfterBlock(s: Settings, st: Shield, now: int)
    requires Consistent(st) && s.enabled && s.maxReloads >= 1
    requires st.blockStart.Some? && !BlockActive(s, st.blockStart, now)
    ensures ReloadStep(s, false, st, now) == st.(blockStart := None, reloads := [now], blockedUntil := None)
  {
  }

  // --------------------------------------------------------------- tick step

  datatype TickResult = TickResult(shield: Shield, reload: bool)

  /**
   * One tick of the countdown interval, which exists only while
   * `blockedUntil` is set: refresh the time left and end the block once the
   * CURRENT duration has elapsed since its start, asking for a page reload.
   */
  function TickStep(s: Settings, st: Shield, now: int): (r: TickResult)
    ensures st.blockedUntil.None? ==> r == TickResult(st, false)
    ensures st.blockedUntil.Some? ==>
              && r.shield.timeLeft >= st.blockedUntil.value - now
              && (r.shield.timeLeft == 0 || r.shield.timeLeft == st.blockedUntil.value - now)
    ensures r.shield.reloads == st.reloads
    ensures r.reload <==>
              && st.blockedUntil.Some?
              && !BlockActive(s, st.blockStart, now)
              && (st.blockStart.None? ==> st.blockedUntil.value <= now)
    ensures r.reload ==> r.shield.blockStart.None? && r.shield.blockedUntil.None?
    ensures !r.reload ==> r.shield.blockStart == st.blockStart && r.shield.blockedUntil == st.blockedUntil
  {
    if st.blockedUntil.None? then TickResult(st, false)
    else
      var remaining := if st.blockedUntil.value - now > 0 then st.blockedUntil.value - now else 0;
      var counted := st.(timeLeft := remaining);
      if st.blockStart.Some? then
        if now - st.blockStart.value >= s.DurationMs() then
          TickResult(counted.(blockedUntil := None, blockStart := None), true)
        else TickResult(counted, false)
      else if remaining <= 0 then TickResult(counted.(blockedUntil := None), true)
      else TickResult(counted, false)
  }

  /**
   * A block ends when the duration configured NOW has elapsed, whatever
   * `blockedUntil` was computed from: shortening the duration shortens a
   * block in progress, and the page the reload brings up counts its load
   * normally.
   */
  lemma ShortenedDurationEndsBlock(s: Settings, st: Shield, now: int)
    requires Consistent(st) && st.blockedUntil.Some? && st.blockStart.Some?
    requires now - st.blockStart.value >= s.DurationMs()
    ensures var r := TickStep(s, st, now);
            && r.reload
            && r.shield.blockStart.None? && r.shield.blockedUntil.None? && r.shield.reloads == []
            && (s.enabled && s.maxReloads >= 1 ==>
                  ReloadStep(s, false, r.shield, now).blockStart.None?)
  {
  }

  // ------------------------------------------------------------------ render

  /** formatTime's fields: whole minutes, and whole seconds of the minute begun. */
  function ClockFields(ms: nat): (f: (nat, nat))
    ensures f.1 < 60
    ensures f.0 * 60000 + f.1 * 1000 <= ms < f.0 * 60000 + f.1 * 1000 + 1000
  {
    (ms / 60000, (ms % 60000) / 1000)
  }

  /** formatTime: minutes, a colon, and the seconds padded to two digits. */
  function FormatClock(ms: nat): string {
    NatToString(ClockFields(ms).0) + ":" + PadStart(NatToString(ClockFields(ms).1), 2, '0')
  }

  /** Reads an `m:ss` text back into minutes and seconds; None for any other text. */
  function ParseClock(t: string): Option<(nat, nat)> {
    if |t| >= 4 && t[|t| - 3] == ':' && AllDigits(t[..|t| - 3]) && AllDigits(t[|t| - 2..])
    then Some((ParseNat(t[..|t| - 3]), ParseNat(t[|t| - 2..])))
    else None
  }

  /** The countdown text shows exactly the whole minutes and seconds left, seconds as two digits. */
  lemma FormatClockRoundTrip(ms: nat)
    ensures ParseClock(FormatClock(ms)) == Some(ClockFields(ms))
  {
    var (m, sec) := ClockFields(ms);
    var mt, st := NatToString(m), NatToString(sec);
    var padded := PadStart(st, 2, '0');
    assert |st| <= 2 by {
      if sec >= 10 {
        assert NatToString(sec / 10) == [DigitChar(sec / 10)];
      }
    }
    ParseNatToString(m);
    ParseNatToString(sec);
    if |st| == 1 {
      assert padded == ['0'] + st;
      ParseNatLeadingZero(st);
    } else {
      assert padded == st;
    }
    var t := mt + ":" + padded;
    assert t == FormatClock(ms);
    assert t[..|t| - 3] == mt;
    assert t[|t| - 2..] == padded;
  }

  datatype Screen = Blank | SecurityAlert(countdown: string) | Children

  /**
   * What the component renders: nothing until settings arrive, the alert
   * with its countdown while `blockedUntil` is set, the site otherwise.
   */
  function View(loading: bool, blockedUntil: Option<int>, timeLeft: nat): (v: Screen)
    ensures v == Children <==> !loading && blockedUntil.None?
    ensures v == Blank <==> loading
    ensures v.SecurityAlert? ==> v.countdown == FormatClock(timeLeft)
  {
    if loading then Blank
    else if blockedUntil.Some? then SecurityAlert(FormatClock(timeLeft))
    else Children
  }

  /**
   * With the shield turned off, a freshly loaded page (no `blockedUntil` yet)
   * leaves storage alone, even a stored block start, and renders the site.
   */
  lemma DisabledShieldOpensOnReload(s: Settings, st: Shield, now: int)
    requires !s.enabled && st.blockedUntil.None?
    ensures ReloadStep(s, false, st, now) == st
    ensures View(false, ReloadStep(s, false, st, now).blockedUntil, st.timeLeft) == Children
  {
  }

  // -------------------------------------------------------------- component

  /** One mounted SecurityMonitor: its React state over the browser's storage. */
  class Monitor {
    const store: BrowserStorage
    var settings: Settings
    var loading: bool
    var blockedUntil: Option<int>
    var timeLeft: nat

    /** A page load mounts the component: waiting for settings, nothing blocked yet. */
    constructor (store: BrowserStorage)
      ensures this.store == store
      ensures settings == InitialSettings && loading && blockedUntil == None && timeLeft == 0
    {
      this.store := store;
      settings := InitialSettings;
      loading := true;
      blockedUntil := None;
      timeLeft := 0;
    }

    function State(): Shield
      reads this, store
    {
      Shield(store.blockStart, store.reloads, blockedUntil, timeLeft)
    }

    /**
     * A snapshot of the remote document arrives. A document replaces the
     * settings; the first snapshot ends loading; either change re-runs the
     * load step, so every snapshot with a document counts as a load.
     */
    method OnSnapshot(snap: Option<SecurityDoc>, now: int)
      modifies this`settings, this`loading, this`blockedUntil, store`blockStart, store`reloads
      ensures settings == if snap.Some? then Normalise(snap.value) else old(settings)
      ensures !loading
      ensures State() == if snap.Some? || old(loading) then ReloadStep(settings, false, old(State()), now)
                         else old(State())
    {
      var wasLoading := loading;
      if snap.Some? {
        settings := Normalise(snap.value);
      }
      loading := false;
      if snap.Some? || wasLoading {
        CheckReloads(now);
      }
    }

    /** The load step on the storage keys and the component state. */
    method CheckReloads(now: int)
      modifies this`blockedUntil, store`blockStart, store`reloads
      ensures State() == ReloadStep(settings, loading, old(State()), now)
    {
      if loading || !settings.enabled {
        return;
      }
      var durationMs := settings.blockDuration * 60 * 1000;
      if store.blockStart.Some? {
        var startTime := store.blockStart.value;
        var elapsed := now - startTime;
        if elapsed < durationMs {
          blockedUntil := Some(startTime + durationMs);
          return;
        } else {
          store.blockStart := None;
          blockedUntil := None;
        }
      }
      var windowMs := settings.timeWindow * 1000;
      var reloads := Prune(store.reloads, now, windowMs);
      reloads := reloads + [now];
      store.reloads := reloads;
      if |reloads| > settings.maxReloads {
        store.blockStart := Some(now);
        blockedUntil := Some(now + durationMs);
        store.reloads := [];
      }
    }

    /** One tick of the countdown interval; `reload` asks for `window.location.reload()`. */
    method Tick(now: int) returns (reload: bool)
      modifies this`blockedUntil, this`timeLeft, store`blockStart
      ensures TickResult(State(), reload) == TickStep(settings, old(State()), now)
    {
      reload := false;
      if blockedUntil.None? {
        return;
      }
      var remaining := if blockedUntil.value - now > 0 then blockedUntil.value - now else 0;
      timeLeft := remaining;
      if store.blockStart.Some? {
        var startTime := store.blockStart.value;
        var durationMs := settings.blockDuration * 60 * 1000;
        if now - startTime >= durationMs {
          blockedUntil := None;
          store.blockStart := None;
          reload := true;
        }
      } else if remaining <= 0 {
        blockedUntil := None;
        reload := true;
      }
    }

    /** What the mounted component shows now. */
    function Render(): Screen
      reads this
    {
      View(loading, blockedUntil, timeLeft)
    }
  }
}
