# Security shield of the Vrundavan computer-class site, in Dafny

This project models the client-side "security shield" of the public site. The shield has three parts:

- **Reload shield** (`SecurityMonitor`). A wrapper component reads the remote settings document `settings/security`. On each page load it keeps a rolling log of load timestamps in localStorage. When more loads than `maxReloads` fall inside `timeWindow` seconds, it starts a block. The block lasts `blockDuration` minutes and is always measured against the duration configured *now*. A one-second countdown tick refreshes the time left and ends the block. While a block runs, the component shows a "Security Alert" screen with an `m:ss` countdown.
- **Navigation guard** (`BotProtection`). It runs on every route change outside `/access-denied` and `/admin*`. It sends a user agent containing an automation keyword to `/access-denied`. It keeps a session log of page views and sends the visitor to the same page when the views of the last minute have reached `maxPageViewsPerMinute`.
- **Access-denied page** (`AccessDenied`). A counter starts at 1600 seconds and loses one per tick down to 0. It is shown as `Mm Ss`.

Module layout:

- `Wrappers`: `Option`.
- `Text`: the JavaScript string operations the shield uses, over ASCII: number to string, `padStart`, `toLowerCase` and `includes`. It also holds `ParseNat`, the inverse of number to string, and `IndexOf`; both serve only to read the countdown texts back.
- `RateWindow`: the `filter` that prunes a timestamp log. `Recent` is the specification; `Prune` is the loop.
- `SecurityConfig`: the remote document.
- `ClientStorage`: the browser storage class. It holds the keys `security_block_start`, `security_reloads` and `page_views`.
- `SecurityMonitor`, `BotProtection` and `AccessDenied`: one module per source file.

Each stateful operation is written twice:

- a pure step function (`ReloadStep`, `TickStep`, `GuardStep`) whose contract states what the source promises (for `ReloadStep`, the lemma `ReloadStepContract` holds that contract);
- a class method (`Monitor.CheckReloads`, `Monitor.Tick`, `CheckBot`) that updates the storage object and the component fields in place. Each method is proved equal to its step function.

Clock readings, fetched settings and the user agent are parameters. Navigation and `window.location.reload()` are returned as outcomes. A page reload is a new `Monitor` over the same `BrowserStorage`.

## Model

| member | source | states |
|---|---|---|
| `Text.NatToString` | src/pages/AccessDenied.jsx:18 | the numeral of a number is non-empty, all digits, starts with 0 only for 0, and is one digit exactly below 10 |
| `Text.ParseNatToString` | src/components/SecurityMonitor.jsx:115 | reading the numeral back gives the number, so distinct numbers print differently |
| `Text.PadStart` | src/components/SecurityMonitor.jsx:115 | `padStart` gives length max(width, original), ends with the original text and is filled in front |
| `Text.ToLower` | src/hooks/useBotProtection.js:30 | lower-casing keeps the length and maps each character on its own |
| `Text.ContainsAt` | src/hooks/useBotProtection.js:32 | `Contains` (`includes`) holds exactly when the needle occurs at some position |
| `RateWindow.Recent` | src/components/SecurityMonitor.jsx:62 | pruning never lengthens the log, and every survivor is inside the window |
| `RateWindow.RecentMultiplicity` | src/components/SecurityMonitor.jsx:62 | pruning keeps every in-window occurrence of a timestamp and drops every other one |
| `RateWindow.RecentMembers` | src/components/SecurityMonitor.jsx:62 | a timestamp survives pruning exactly when it was logged and is inside the window |
| `RateWindow.RecentKeepsWindow` | src/components/SecurityMonitor.jsx:62 | a log entirely inside the window is kept whole |
| `RateWindow.RecentLater` | src/components/SecurityMonitor.jsx:58-68 | a log pruned and stored at one time, then pruned later, equals the raw log pruned later |
| `RateWindow.CountFallsLater` | src/hooks/useBotProtection.js:41-45 | the in-window count of a stored log can only fall as time passes |
| `RateWindow.Prune` | src/components/SecurityMonitor.jsx:62 | the filter loop returns exactly the in-window entries, in order |
| `SecurityMonitor.Normalise` | src/components/SecurityMonitor.jsx:21-27 | the shield is on only for a literal `true`; each number, through `SecurityConfig.OrDefault` (`x \|\| d`), is kept when non-zero and otherwise falls back to 5, 10 or 30; no normalised number is 0 |
| `SecurityMonitor.ReloadStepContract` | src/components/SecurityMonitor.jsx:35-78 | of the load step `ReloadStep`: while loading or disabled nothing changes; a running block sets `blockedUntil` = start + current duration and leaves storage alone; otherwise the load is counted, and a block starts exactly when the pruned count plus this load exceeds `maxReloads`; a block stores start = now, `blockedUntil` = now + duration and an empty log; without a block the log is the survivors followed by now, at most `maxReloads` long and (for a positive window) inside the window; an expired block drops `blockedUntil` |
| `SecurityMonitor.LoadsUpToLimit` | src/components/SecurityMonitor.jsx:58-71 | up to `maxReloads` loads inside one window are all logged and start no block (the tie is unblocked) |
| `SecurityMonitor.FloodBlocksOnExtraLoad` | src/components/SecurityMonitor.jsx:58-76 | the load after `maxReloads` loads inside one window blocks at its own time until one duration later and empties the log |
| `SecurityMonitor.SixReloadsInTenSeconds` | src/components/SecurityMonitor.jsx:58-76 | with 5 reloads per 10 s and a one-minute block, six loads a second apart block the sixth until 60 s after it, with an empty log |
| `SecurityMonitor.StepsKeepConsistent` | src/components/SecurityMonitor.jsx:71-99 | load and tick steps keep the invariant that a stored block start and a non-empty reload log never coexist |
| `SecurityMonitor.FirstLoadAfterBlock` | src/components/SecurityMonitor.jsx:42-71 | the first load after a block has run out drops the block, logs only itself and is not blocked (for `maxReloads` >= 1) |
| `SecurityMonitor.TickStep` | src/components/SecurityMonitor.jsx:82-106 | no tick runs without `blockedUntil`; the time left is max(0, `blockedUntil` - now); the log is untouched; a reload is requested exactly when the current duration has elapsed since the stored start, or, with no start stored, when `blockedUntil` has passed; a reload clears the start and `blockedUntil`, and otherwise both stay |
| `SecurityMonitor.ShortenedDurationEndsBlock` | src/components/SecurityMonitor.jsx:89-99 | once the current duration has elapsed, whatever `blockedUntil` was computed from, the tick ends the block and asks for a reload, and the reloaded page's load is not blocked |
| `SecurityMonitor.ClockFields` | src/components/SecurityMonitor.jsx:112-114 | seconds are in 0..59 and minutes·60000 + seconds·1000 is the time left rounded down to a whole second |
| `SecurityMonitor.FormatClockRoundTrip` | src/components/SecurityMonitor.jsx:112-116 | the `m:ss` text of `FormatClock` reads back to exactly those minutes and seconds, with the seconds as two digits |
| `SecurityMonitor.View` | src/components/SecurityMonitor.jsx:118-161 | nothing is rendered exactly while loading; the site is rendered exactly when loaded and not blocked; the alert shows the formatted time left |
| `SecurityMonitor.DisabledShieldOpensOnReload` | src/components/SecurityMonitor.jsx:7-36 | with the shield off, a freshly loaded page leaves storage, including a stored block start, untouched and renders the site |
| `SecurityMonitor.Monitor.constructor` | src/components/SecurityMonitor.jsx:7-15 | a mounted component waits for settings with defaults off/5/10/30, nothing blocked and 0 time left |
| `SecurityMonitor.Monitor.OnSnapshot` | src/components/SecurityMonitor.jsx:18-32 | a document replaces the settings and the first snapshot ends loading; either change re-runs the load step |
| `SecurityMonitor.Monitor.CheckReloads` | src/components/SecurityMonitor.jsx:35-78 | the storage keys and `blockedUntil` become what the load step `ReloadStep` gives; nothing else changes |
| `SecurityMonitor.Monitor.Tick` | src/components/SecurityMonitor.jsx:84-106 | `timeLeft`, `blockedUntil` and the block key become what `TickStep` gives, and the reload request is its outcome |
| `ClientStorage.BrowserStorage.constructor` | src/components/SecurityMonitor.jsx:58 | a fresh browser has no block start and empty logs |
| `BotProtection.Merge` | src/hooks/useBotProtection.js:16-25 | defaults are protection on and 60 views; a fetched field overrides its default; a failed fetch or a missing document keeps the defaults |
| `BotProtection.ViewLimit` | src/hooks/useBotProtection.js:47 | the limit is the configured one when non-zero, and exactly 60 when it is 0 |
| `BotProtection.GuardStep` | src/hooks/useBotProtection.js:12-57 | paths that are `Exempt` and disabled protection proceed without touching the log; a user agent that `LooksLikeBot` is redirected with the log untouched; otherwise the guard redirects exactly when the views of the last minute before this one reach the limit, and a redirect never writes the log; a view that proceeds is logged as the recent views plus now, at most the limit long, all after now - 60000 |
| `BotProtection.RecentViewsLastMinute` | src/hooks/useBotProtection.js:41-45 | the recent views are exactly the logged views later than now - 60000 |
| `BotProtection.GuardKeepsLogBounded` | src/hooks/useBotProtection.js:41-54 | if the log held at most the limit of views within a minute, it still does at every later time, whatever the guard decided |
| `BotProtection.BotCheckIgnoresCase` | src/hooks/useBotProtection.js:30-32 | the keyword test gives the same answer for a user agent and its lower-cased form |
| `BotProtection.GuardIgnoresShieldSwitch` | src/hooks/useBotProtection.js:16-27 | the guard's decision does not depend on the reload shield's `enabled` field |
| `BotProtection.CheckBot` | src/hooks/useBotProtection.js:14-55 | the navigation outcome and the new session log are what `GuardStep` gives; only the session log changes |
| `AccessDenied.RemainingClosedForm` | src/pages/AccessDenied.jsx:6-11 | after n ticks of `Decrement` the counter reads 1600 - n, and 0 from the 1600th tick on |
| `AccessDenied.CountdownSettles` | src/pages/AccessDenied.jsx:6-11 | the counter stays in 0..1600, never rises, and stays 0 once it reaches 0 |
| `AccessDenied.MinSec` | src/pages/AccessDenied.jsx:15-17 | seconds are in 0..59 and minutes·60 + seconds equals the input |
| `AccessDenied.FormatMinSecRoundTrip` | src/pages/AccessDenied.jsx:15-19 | the `Mm Ss` text of `FormatMinSec` reads back to exactly the seconds left |
| `AccessDenied.DeniedPage.constructor` | src/pages/AccessDenied.jsx:6 | the page starts at 1600 seconds with no ticks |
| `AccessDenied.DeniedPage.Tick` | src/pages/AccessDenied.jsx:8-13 | each tick decrements a positive counter, otherwise leaves 0, and keeps the counter equal to its closed form |

The model keeps these details of the code:

- The navigation guard compares the count of earlier views with `>=` before it adds the current view. So within a minute the view after `maxPageViewsPerMinute` views is redirected, not the view that reaches the limit.
- The access-denied countdown is a fixed 1600-second counter that decrements. It is not read from any stored block end time, and the navigation guard writes no block record.
- Until the settings snapshot arrives, the reload shield renders nothing. The subscription has no error handler, so a failed subscription leaves the site blank rather than open.
- Numeric settings fall back to their defaults only when missing or zero. Negative values are used as they are.
- The load step depends on the settings object. It therefore runs again on every snapshot that carries a document, and each such snapshot counts as a load (`Monitor.OnSnapshot`).
- Block expiry always uses the current duration (`ShortenedDurationEndsBlock`). Turning the shield off leaves an alert already on screen until the tick ends the block, but any reload then shows the site: the load step returns before reading the stored block start, and `blockedUntil` starts empty (`DisabledShieldOpensOnReload`).

## Left out

- Firestore (`onSnapshot`, `getDoc`), `navigate`, `window.location.reload` and the real `localStorage`/`sessionStorage` are left out. They become a settings parameter, returned outcomes and the fields of `BrowserStorage`. Storage writes cannot fail.
- Async ordering, late responses, interval setup and teardown, and races between tabs are left out. Each tick and each snapshot is an explicit call.
- `JSON.parse` and `parseInt` of corrupted storage are left out. Storage holds well-typed integers. An absent reload key and an empty log are the same value, as they are to every reader in the source.
- Fractional settings (the admin form allows steps of 0.1) and non-integer times are left out. All numbers are integers.
- Remote fields of the wrong type, such as a string `enabled` or a string count, are treated like missing fields.
- `page_views` lives in sessionStorage and the other keys in localStorage. A new tab or session would start with an empty view log but keep the reload log and block start; `BrowserStorage` has one lifetime for all three, and no operation models a new session.
- Lower-casing and substring search cover ASCII letters only. Unicode case mapping is not modelled.
- `SecurityMonitor.View`, `SecurityMonitor.TickStep`: a `blockedUntil` of exactly 0 ms since the epoch, which JavaScript treats as absent, is treated as present: the alert is shown and the tick runs and may ask for a reload, where the source renders the site and starts no interval.
- The access-denied page's "Return to Home" link is plain navigation into the guarded site and is not modelled.
- The admin screens, diagnostics page, presentational pages, routing, scrolling helpers and static course data are not part of this model.
