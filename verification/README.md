# Dial-up splash: interception and connection-state engine

A Dafny model of the part of the DialUpSimulator browser extension that
decides when a navigation is diverted to the dial-up splash page. It also
covers how the extension remembers that a site has "connected". The
background script keeps four kinds of state in `chrome.storage.local`:

- the `settings` record (allowlist, timeout in minutes, volume, enabled);
- the `connectionTimes` map;
- short-lived `bypass_<key>` markers, which let the one redirect after a
  completed splash through;
- `pending_<tabId>` entries, which remember a tab's destination while the
  splash page plays, and which a periodic sweep reclaims.

The model is functional. The store is an immutable record `Store.State`.
Every handler is a pure function that takes the current time `now` as an
integer (milliseconds). It returns the handler's result (a decision, or an
action for the browser) together with the new state.

The repository holds two variants of the background script, and both are
modelled over the same abstract URL:

- `extension/background.js` (module `DomainEngine`) keys every per-site
  slot by the allowlist entry the hostname first matches.
- `background.js` (module `OriginEngine`) keys per-site state by the URL's
  origin. It checks the bypass marker before reading the settings, and it
  marks any parsable URL connected.

`Scenarios.KeyingContrast` shows the practical difference. `www.reddit.com`
and then `old.reddit.com` share one connection time under domain keying.
Under origin keying they do not.

Modules:

- `Wrappers`: `Option`.
- `Strings`: JavaScript `endsWith`, `trim`, `split('\n')` and
  `join('\n')`.
- `Store`: the state, the inputs and actions, the constants (5000 ms
  bypass window, 5-minute pending age, defaults) and the timing predicates.
- `Allowlist`: the suffix-domain matcher.
- `Registry`: pending entries and the sweep.
- `Lifecycle`: install defaults and reset.
- `DomainEngine`, `OriginEngine`: the two variants.
- `SettingsForm`: the options page.
- `Popup`: the enable toggle.
- `Scenarios`: end-to-end runs.

Modelling conventions:

- `new URL(href)` is not modelled. A `Store.Target` carries the URL text
  and `parsed: Option<Location(hostname, origin)>`. None stands for the
  constructor throwing.
- `parseInt` is not modelled either. A `SettingsForm.Form` field holds the
  parsed number, or None for NaN.
- JavaScript truthiness is kept where the code relies on it:
  - a timestamp of 0 is falsy, so a marker of 0 is ignored;
  - a connection time of 0 counts as "never connected";
  - a pending entry stamped 0 is never swept;
  - `find(...) || null` turns a first match on the empty entry `""` into
    null.
- An absent `connectionTimes` is the same state as `{}`, because every
  reader writes `connectionTimes || {}`.
- A thrown TypeError that is caught, from reading absent settings, is
  modelled as the value the surrounding `catch` produces.
- The `bypass` map is keyed by the text after `bypass_`. The key `"null"`
  is the literal storage key `bypass_null`.

Three behaviours of the code that are easy to miss:

- A bypass marker 5000 ms old or older is not deleted by
  `shouldShowSplash`. The removal under the comment "Clear the bypass
  flag" runs only inside the freshness test
  (`extension/background.js:45-49`). A stale marker therefore stays in the
  store until the next completion overwrites it.
- Completing a splash for a URL that matches no allowlist entry still
  writes a marker. The template literal at
  `extension/background.js:125-126` turns the null entry into the text
  "null", so the key is `bypass_null`.
- Missing settings yield "do not intercept" only because reading
  `config.enabled` at `extension/background.js:31` throws a TypeError. The
  `catch` at lines 62-65 turns that error into `false`.

## Model

| member | source | states |
|---|---|---|
| Allowlist.Find | extension/background.js:17-18 | `Array.find` with the suffix-domain test: a result is the first entry in list order that the hostname equals or ends with "." + entry; None means no entry matches |
| Allowlist.GetAllowlistDomain | extension/background.js:16-20 | returns the first matching entry, which is never the empty string; returns null exactly when nothing matches or the first match is the falsy entry "" |
| Allowlist.IsAllowlisted | background.js:39-41 | `allowlist.some(...)` holds iff some entry equals the hostname or is a "."-suffix of it |
| Allowlist.MatcherAgreesWithSome | background.js:39-45 | the two variants' allowlist tests agree: a resolved hostname is allowlisted, and an allowlisted one resolves unless the list holds "" |
| DomainEngine.ResolveDomain | extension/background.js:71-75 | an unparsable URL or absent settings resolve to nothing; a parsable URL with settings stored resolves to exactly the matcher's answer for its hostname |
| DomainEngine.ShouldShowSplash | extension/background.js:23-66 | false with the store unchanged for an unparsable URL, absent or disabled settings, or no match; a fresh (truthy, under 5000 ms) marker for the matched entry gives false and is removed, the only write; otherwise nothing is written, a stale marker stays, and the result is true iff the entry was never (truthily) connected or `now - last >= timeoutMinutes*60000` |
| DomainEngine.MarkConnected | extension/background.js:69-84 | sets `connectionTimes[matched entry] = now` and leaves every other entry and every other key unchanged; writes nothing when parsing fails, settings are absent or nothing matches; `enabled` is not consulted |
| DomainEngine.SetBypass | extension/background.js:128-129 | writes `bypass_<key> = now` and touches no other key |
| DomainEngine.CompleteConnection | extension/background.js:120-141 | for a parsable URL with settings stored: connection time as `markConnected`, then `bypass_<entry or null> = now`, then `pending_<tab>` removed, then a navigation of the tab to the URL; an unmatched URL writes `bypass_null` and no connection time; an unparsable URL or absent settings leave the store and the tab untouched |
| DomainEngine.OnBeforeNavigate | extension/background.js:95-116 | sub-frame navigations do nothing; a top-level navigation redirects to the splash iff `shouldShowSplash` says so, and then writes `pending_<tab> = {url, now}`, overwriting an older entry; a let-through navigation writes at most the bypass removal |
| DomainEngine.MarkConnectedIdempotent | extension/background.js:77-80 | marking the same URL twice leaves only the later timestamp, with no other difference |
| DomainEngine.TimeoutBoundary | extension/background.js:58-61 | with the last connection exactly `timeoutMinutes` minutes ago the splash is shown; one millisecond sooner it is not |
| DomainEngine.StaleBypassIsKept | extension/background.js:43-49 | a marker 5000 ms old or older neither suppresses interception nor is deleted |
| DomainEngine.SameEntrySharesState | extension/background.js:51-53 | two URLs resolving to the same entry get identical decisions, connection marks and completions: they share one slot |
| OriginEngine.ShouldShowSplash | background.js:16-61 | an unparsable URL gives false with nothing written; a fresh `bypass_<origin>` is consumed and gives false before settings are read; otherwise nothing is written and the result is true iff settings exist and are enabled, some entry matches the hostname, and the origin was never connected or `elapsed >= timeoutMinutes*60000` |
| OriginEngine.MarkConnected | background.js:64-81 | sets `connectionTimes[origin] = now` for any parsable URL, with no allowlist check, and leaves other entries unchanged |
| OriginEngine.CompleteConnection | background.js:117-136 | for a parsable URL: origin marked connected, then `bypass_<origin> = now`, then `pending_<tab>` removed, then a navigation to the URL, whatever the settings; an unparsable URL changes nothing |
| OriginEngine.OnBeforeNavigate | background.js:92-113 | sub-frames ignored; redirects to the splash page iff this variant's decision says so, recording `pending_<tab> = {url, now}` |
| OriginEngine.FreshBypassIgnoresSettings | background.js:21-36 | a fresh origin marker lets the navigation through and is consumed even when settings are absent or disabled |
| Registry.Intercept | extension/background.js:95-116 | the listener body both variants share: a non-zero `frameId` changes nothing; otherwise the tab is redirected exactly when the splash decision says so, and the new store is then the decision's store with `pending_<tab> = {url, now}` added and nothing else changed; a let-through keeps only the decision's own writes; it never navigates |
| Registry.RegisterPending | extension/background.js:105-110 | `pending_<tab> = {url, now}` replaces any earlier entry for the tab and leaves other tabs and keys unchanged |
| Registry.ClearPending | extension/background.js:131-132 | removes exactly `pending_<tab>` |
| Registry.PendingReadAfterWrite | extension/background.js:143-149 | GET_PENDING_URL sees the tab's latest registration, answers null after its removal, and is unaffected by registering or removing another tab |
| Registry.CollectExpired | extension/background.js:167-179 | the loop over the stored entries collects exactly the pending keys with a truthy timestamp and `now - timestamp > 300000` |
| Registry.Sweep | extension/background.js:167-184 | the sweep keeps exactly the pending entries that are not expired, with their values unchanged, and touches no settings, connection times or bypass markers |
| Registry.RunSweep | extension/background.js:181-183 | removing the collected keys from the store is the sweep |
| Registry.SweepIdempotent | extension/background.js:172-178 | a second sweep at the same instant removes nothing more |
| Registry.RegistrationSurvivesSweep | extension/background.js:173-177 | an entry at most 5 minutes old, including one exactly 5 minutes old, survives the sweep and is still readable by the splash page |
| Registry.StaleRegistrationSwept | background.js:168-172 | an entry with a non-zero timestamp more than 5 minutes old is gone after the sweep |
| Lifecycle.OnInstalled | extension/background.js:87-92 | installation writes the defaults only when no settings are stored; afterwards settings are always present |
| Lifecycle.ResetSettings | extension/background.js:158-163 | RESET_SETTINGS answers success and leaves exactly the default settings, touching no other key |
| Lifecycle.OnInstalledIdempotent | extension/background.js:88-91 | installing twice equals installing once, and installing after a reset changes nothing |
| SettingsForm.CleanLines | options.js:37-38 | trimming each line and dropping empty ones yields at most as many lines, each non-empty and trimmed, and never adds a newline |
| SettingsForm.CleanLinesMembers | options.js:37-38 | a line is kept exactly when it is the non-empty trim of some input line |
| SettingsForm.CleanLinesAppend | options.js:37-38 | the cleaner works line by line: cleaning two blocks of lines one after the other gives the two cleaned blocks in the same order |
| SettingsForm.ParseAllowlist | options.js:34-38 | every parsed entry is non-empty, has no surrounding whitespace and no newline; blank text parses to the empty list |
| SettingsForm.ParseEmptyIffBlank | options.js:34-38 | the parsed allowlist is empty exactly when the text is whitespace only |
| SettingsForm.CleanLinesKeepsClean | options.js:37-38 | a list of already-clean lines passes through unchanged, in order |
| SettingsForm.ParseJoinRoundTrip | options.js:20-38 | joining with '\n' and parsing back returns the original allowlist when every entry is non-empty, single-line and has no surrounding whitespace |
| SettingsForm.SaveSettings | options.js:27-71 | writes iff settings are stored, the parsed allowlist is non-empty, the timeout parses within 1..1440 and the volume within 0..100; the written record holds the parsed values, copies `enabled` and passes the validity checks; otherwise nothing is written, and the outcome names the first failed check in the order settings, allowlist, timeout, volume |
| SettingsForm.SaveRejectsBlank | options.js:33-43 | with settings stored, a save is refused as an empty allowlist exactly when the text is whitespace only |
| SettingsForm.SaveAcceptsValidForm | options.js:58-66 | a form passing every check is written as the parsed allowlist, timeout and volume with the stored `enabled` |
| SettingsForm.LoadSettings | options.js:10-24 | the form is filled iff settings are stored, with the allowlist joined by '\n', the stored timeout and the stored volume |
| SettingsForm.LoadSaveRoundTrip | options.js:10-66 | saving the form exactly as it was loaded writes back the same valid record and leaves the store as it was |
| SettingsForm.DefaultsValid | extension/background.js:2-13 | the default settings pass every check the options page applies |
| Popup.ToggleEnabled | popup.js:27-39 | flips `enabled` and keeps the allowlist, timeout, volume and every other key; no settings means no write |
| Popup.ToggleTwice | popup.js:32 | toggling twice restores the store |
| Scenarios.DomainBypassSingleUse | extension/background.js:120-135 | after a completion at `t`, the next navigation to the same entry within 5000 ms passes and consumes the marker; a later one is intercepted iff `now >= t + timeoutMinutes*60000` |
| Scenarios.OriginBypassSingleUse | background.js:119-127 | after a completion, the redirect to the same origin within 5000 ms passes and consumes the marker |
| Scenarios.InterceptThenComplete | extension/background.js:103-132 | an intercepted navigation's destination is readable by the splash page, and completion navigates there and removes the entry |
| Scenarios.OriginSiblingIntercepted | background.js:47-50 | under origin keying, completing one origin leaves an allowlisted sibling origin with no history intercepted |
| Scenarios.WwwRedditResolves | extension/background.js:16-20 | www.reddit.com resolves to the entry reddit.com |
| Scenarios.OldRedditResolves | extension/background.js:16-20 | old.reddit.com resolves to the entry reddit.com and is allowlisted in the origin variant's sense |
| Scenarios.DomainKeyingScenario | extension/background.js:51-61 | on allowlist ["reddit.com"] with a 10-minute timeout: www.reddit.com is intercepted, completion records `connectionTimes["reddit.com"] = t` and navigates back, the redirect one second later passes, and old.reddit.com five minutes later is let through |
| Scenarios.OriginKeyingScenario | background.js:47-56 | the same visits under origin keying: intercepted, completed, the redirect passes, but old.reddit.com five minutes later is intercepted again |
| Scenarios.KeyingContrast | extension/background.js:51-53 | after the same visits, old.reddit.com is let through under domain keying but intercepted under origin keying |
| Strings.Trim | options.js:34 | `trim` leaves no leading or trailing whitespace, adds no characters, keeps trimmed text as it is, and empties exactly all-whitespace text |
| Strings.TrimIsSlice | options.js:34 | the result of `trim` is one contiguous slice of the input with only whitespace before and after it |
| Strings.TrimStripsPadding | options.js:34 | trimmed text wrapped in any whitespace padding trims back to exactly itself |
| Strings.Split | options.js:36 | `split('\n')` gives at least one piece, no piece contains a newline, and joining the pieces with '\n' gives back the text |
| Strings.SplitJoin | options.js:20 | splitting the '\n'-join of a non-empty list of newline-free lines returns that list |
| Strings.JoinTrimmed | options.js:20 | joining non-empty trimmed lines gives trimmed text that starts with the first line's first character |

## Left out

- Chrome APIs are not modelled: `chrome.storage.local`, `tabs.update`,
  `runtime.sendMessage` and the listener wiring. Storage is the `State`
  record. A redirect or navigation is the returned `Action`.
- `new URL` parsing is abstract (`Target.parsed`). How hostname and origin
  derive from the text is not modelled, and neither is the `parseInt`
  prefix grammar (`Form` holds the parsed value).
- Time: each handler reads `Date.now()` once as `now`. The source calls it
  again between awaits, and that drift is not modelled.
- Async interleavings are not modelled. That covers the lost update when
  two `markConnected` calls read and write `connectionTimes` concurrently,
  and a sweep racing a registration. Every handler runs to completion
  atomically.
- The `setInterval` schedule (every 60 s) is not modelled. The sweep is a
  function of `now`.
- The enumeration order of `Object.entries` is a parameter of
  `Registry.RunSweep`. The result does not depend on it.
- The GET_SETTINGS handler is a pure read of `settings` with no decision,
  so it has no member.
- splash.js (the timed audio/visual sequence), popup.js's status text and
  options.js's `showStatus` and DOM updates are presentation and are not
  modelled.
- `resetSettings`' `confirm` dialog is not modelled.
- Volume is an integer percentage. The `/ 100` conversion to a float and
  `Math.round(volume * 100)` when loading are not modelled. This also
  makes `SettingsForm.LoadSaveRoundTrip` exact, where floats could differ.
- `console.error` logging is not modelled. A caught error is only its
  fallback value.
- Allowlist entries named after `Object.prototype` members (`constructor`,
  `toString`, `__proto__` and the like) are not modelled. `connectionTimes`
  is a plain object in the source, so `times[entry]`
  (`extension/background.js:53`) can read an inherited value, and
  `times["__proto__"] = now` (line 78) stores nothing. The model's `map`
  has no inherited keys.
- Stored values of the wrong JavaScript type (a settings record without an
  allowlist, a non-numeric timestamp) are not modelled. Every stored value
  has the shape the extension itself writes.
