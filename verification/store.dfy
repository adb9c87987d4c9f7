/**
 * The extension's persisted state (`chrome.storage.local`) as an immutable
 * record, together with the navigation inputs and the actions a handler
 * asks the browser to perform.
 */
module Store {
  import opened Wrappers

  /** The single settings record. Volume is kept as an integer percentage. */
  datatype Settings = Settings(
    allowlist: seq<string>,
    timeoutMinutes: int,
    volumePercent: int,
    enabled: bool)

  /** The value stored under `pending_<tabId>` */
  datatype PendingEntry = PendingEntry(url: string, timestamp: int)

  /**
   * The whole store:
   * - `settings`: the `settings` key, absent before installation;
   * - `connectionTimes`: the `connectionTimes` map (every reader treats an
   *   absent map as `{}`, so absent and empty are one state here);
   * - `bypass`: the `bypass_<k>` keys, indexed by the text `k` after the
   *   prefix (a key `"null"` is the literal key `bypass_null`);
   * - `pending`: the `pending_<tabId>` keys, indexed by tab id.
   */
  datatype State = State(
    settings: Option<Settings>,
    connectionTimes: map<string, int>,
    bypass: map<string, int>,
    pending: map<int, PendingEntry>)

  /** The parts of a parsed `URL` object the engine reads */
  datatype Location = Location(hostname: string, origin: string)

  /**
   * A URL as received from the browser: its text and the result of
   * `new URL(href)`, which is None when the constructor throws.
   */
  datatype Target = Target(href: string, parsed: Option<Location>)

  /** What a handler asks the browser to do with a tab */
  datatype Action =
    | NoAction
    | RedirectToSplash(tab: int)
    | Navigate(tab: int, url: string)

  /** A decision of `shouldShowSplash` and the store after it */
  datatype Decision = Decision(show: bool, state: State)

  /** An event handler's action and the store after it */
  datatype Step = Step(action: Action, state: State)

  /** A bypass marker younger than this lets one navigation through */
  const BypassWindowMs: int := 5000

  /** Pending entries older than this are swept */
  const PendingMaxAgeMs: int := 5 * 60 * 1000

  const MsPerMinute: int := 60 * 1000

  /** `DEFAULT_SETTINGS` (volume 0.3 as 30 percent) */
  const DefaultSettings: Settings := Settings(
    ["facebook.com", "instagram.com", "reddit.com", "twitter.com", "x.com"],
    10, 30, true)

  /** A bypass marker that is present, truthy (non-zero) and under 5000 ms old */
  predicate FreshBypass(marker: int, now: int) {
    marker != 0 && now - marker < BypassWindowMs
  }

  /**
   * No usable connection time: the key is absent or holds the falsy
   * timestamp 0.
   */
  predicate NeverConnected(times: map<string, int>, key: string) {
    key !in times || times[key] == 0
  }

  /** The idle timeout has run out (inclusive at the boundary) */
  predicate TimeoutElapsed(last: int, timeoutMinutes: int, now: int) {
    now - last >= timeoutMinutes * MsPerMinute
  }

  /** The sweep's test: a truthy timestamp strictly more than 5 minutes old */
  predicate Expired(p: PendingEntry, now: int) {
    p.timestamp != 0 && now - p.timestamp > PendingMaxAgeMs
  }
}
