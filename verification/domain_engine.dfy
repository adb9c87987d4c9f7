/**
 * The interception engine of extension/background.js: every piece of
 * per-site state (connection time, bypass marker) is keyed by the
 * allowlist entry the hostname first matches.
 */
module DomainEngine {
  import opened Wrappers
  import opened Store
  import opened Allowlist
  import Registry

  /**
   * The allowlist entry a URL's hostname resolves to under the stored
   * settings; None when the URL does not parse, no settings are stored
   * (the TypeError the handlers catch) or nothing matches.
   */
  function ResolveDomain(s: State, url: Target): (r: Option<string>)
    ensures r.Some? ==> url.parsed.Some? && s.settings.Some?
    ensures url.parsed.Some? && s.settings.Some? ==>
      r == GetAllowlistDomain(url.parsed.value.hostname, s.settings.value.allowlist)
  {
    if url.parsed.None? || s.settings.None? then None
    else GetAllowlistDomain(url.parsed.value.hostname, s.settings.value.allowlist)
  }

  /** The URL parses and settings are stored with `enabled` set */
  predicate Active(s: State, url: Target) {
    url.parsed.Some? && s.settings.Some? && s.settings.value.enabled
  }

  /**
   * `shouldShowSplash(url)` at time `now`. Checks, in order: the URL parses,
   * settings exist and are enabled, the hostname matches an allowlist entry
   * `d`; then a fresh `bypass_<d>` is consumed and lets the navigation
   * through; otherwise the splash is shown when `d` was never connected or
   * its timeout has elapsed (inclusive). Removing the fresh marker is the
   * only write; a marker 5000 ms old or older stays in the store.
   */
  function ShouldShowSplash(s: State, url: Target, now: int): (r: Decision)
    ensures !Active(s, url) || ResolveDomain(s, url).None? ==> r == Decision(false, s)
    ensures Active(s, url) && ResolveDomain(s, url).Some? ==>
      var d := ResolveDomain(s, url).value;
      if d in s.bypass && FreshBypass(s.bypass[d], now) then
        !r.show && r.state == s.(bypass := s.bypass - {d})
      else
        r.state == s &&
        (r.show <==> NeverConnected(s.connectionTimes, d)
                     || TimeoutElapsed(s.connectionTimes[d], s.settings.value.timeoutMinutes, now))
    ensures r.state.settings == s.settings && r.state.connectionTimes == s.connectionTimes
    ensures r.state.pending == s.pending && r.state.bypass.Keys <= s.bypass.Keys
  {
    if !Active(s, url) then Decision(false, s)
    else
      var config := s.settings.value;
      match GetAllowlistDomain(url.parsed.value.hostname, config.allowlist)
      case None => Decision(false, s)
      case Some(d) =>
        if d in s.bypass && FreshBypass(s.bypass[d], now) then
          Decision(false, s.(bypass := s.bypass - {d}))
        else if NeverConnected(s.connectionTimes, d) then
          Decision(true, s)
        else
          Decision(TimeoutElapsed(s.connectionTimes[d], config.timeoutMinutes, now), s)
  }

  /**
   * `markConnected(url)`: stamps the matched allowlist entry with `now` and
   * leaves every other connection time alone; writes nothing when the URL
   * does not parse, no settings are stored or nothing matches. Does not
   * consult `enabled`.
   */
  function MarkConnected(s: State, url: Target, now: int): (r: State)
    ensures ResolveDomain(s, url).None? ==> r == s
    ensures ResolveDomain(s, url).Some? ==>
      var d := ResolveDomain(s, url).value;
      && r.connectionTimes.Keys == s.connectionTimes.Keys + {d}
      && r.connectionTimes[d] == now
      && (forall k :: k in s.connectionTimes && k != d ==> r.connectionTimes[k] == s.connectionTimes[k])
    ensures r.settings == s.settings && r.bypass == s.bypass && r.pending == s.pending
  {
    match ResolveDomain(s, url)
    case None => s
    case Some(d) => s.(connectionTimes := s.connectionTimes[d := now])
  }

  /** The suffix of the bypass key: the matched entry, or the text "null" (`bypass_null`) */
  function BypassKey(domain: Option<string>): (k: string)
    ensures domain.Some? ==> k == domain.value
    ensures domain.None? ==> k == "null"
  {
    match domain
    case Some(d) => d
    case None => "null"
  }

  /** `chrome.storage.local.set({[bypass_<key>]: now})` */
  function SetBypass(s: State, key: string, now: int): (r: State)
    ensures r.bypass.Keys == s.bypass.Keys + {key} && r.bypass[key] == now
    ensures forall k :: k in s.bypass && k != key ==> r.bypass[k] == s.bypass[k]
    ensures r.settings == s.settings && r.connectionTimes == s.connectionTimes && r.pending == s.pending
  {
    s.(bypass := s.bypass[key := now])
  }

  /**
   * CONNECTION_COMPLETE(tab, url): marks the matched entry connected, then
   * sets `bypass_<entry>` (literally `bypass_null` when nothing matches),
   * then removes `pending_<tab>`, and only then navigates the tab to `url`.
   * When the URL does not parse or no settings are stored the chain throws
   * after `markConnected` (which wrote nothing) and the tab stays put.
   */
  function CompleteConnection(s: State, tab: int, url: Target, now: int): (r: Step)
    ensures url.parsed.None? || s.settings.None? ==> r == Step(NoAction, s)
    ensures url.parsed.Some? && s.settings.Some? ==>
      && r.action == Navigate(tab, url.href)
      && r.state.settings == s.settings
      && r.state.connectionTimes == MarkConnected(s, url, now).connectionTimes
      && r.state.bypass.Keys == s.bypass.Keys + {BypassKey(ResolveDomain(s, url))}
      && r.state.bypass[BypassKey(ResolveDomain(s, url))] == now
      && (forall k :: k in s.bypass && k != BypassKey(ResolveDomain(s, url)) ==> r.state.bypass[k] == s.bypass[k])
      && r.state.pending == s.pending - {tab}
    ensures url.parsed.Some? && s.settings.Some? && ResolveDomain(s, url).None? ==>
      r.state.connectionTimes == s.connectionTimes && "null" in r.state.bypass
  {
    var marked := MarkConnected(s, url, now);
    if url.parsed.None? || marked.settings.None? then Step(NoAction, marked)
    else
      var domain := GetAllowlistDomain(url.parsed.value.hostname, marked.settings.value.allowlist);
      var bypassed := SetBypass(marked, BypassKey(domain), now);
      var cleared := Registry.ClearPending(bypassed, tab);
      Step(Navigate(tab, url.href), cleared)
  }

  /**
   * onBeforeNavigate(tab, url, frameId): sub-frame navigations are ignored;
   * an intercepted top-level navigation records `pending_<tab> = {url, now}`
   * (overwriting an older entry) and redirects the tab to the splash page.
   */
  function OnBeforeNavigate(s: State, tab: int, frameId: int, url: Target, now: int): (r: Step)
    ensures frameId != 0 ==> r == Step(NoAction, s)
    ensures r.action.RedirectToSplash? <==> frameId == 0 && ShouldShowSplash(s, url, now).show
    ensures r.action.RedirectToSplash? ==>
      r.action.tab == tab && r.state == Registry.RegisterPending(s, tab, url.href, now)
    ensures r.action.NoAction? ==> r.state == ShouldShowSplash(s, url, now).state || frameId != 0
    ensures !r.action.Navigate?
  {
    Registry.Intercept(s, tab, frameId, url.href, now, ShouldShowSplash(s, url, now))
  }

  /** Marking the same URL connected twice keeps only the later time */
  lemma MarkConnectedIdempotent(s: State, url: Target, t1: int, t2: int)
    ensures MarkConnected(MarkConnected(s, url, t1), url, t2) == MarkConnected(s, url, t2)
  {
  }

  /**
   * Timeout boundary: with a last connection exactly `timeoutMinutes`
   * minutes ago the splash is shown; one millisecond sooner it is not.
   */
  lemma TimeoutBoundary(s: State, url: Target, d: string, last: int)
    requires Active(s, url) && ResolveDomain(s, url) == Some(d)
    requires d in s.connectionTimes && s.connectionTimes[d] == last && last != 0
    requires d !in s.bypass
    ensures ShouldShowSplash(s, url, last + s.settings.value.timeoutMinutes * MsPerMinute).show
    ensures !ShouldShowSplash(s, url, last + s.settings.value.timeoutMinutes * MsPerMinute - 1).show
  {
  }

  /**
   * A stale marker (present but 5000 ms or older) neither lets the
   * navigation through nor is removed: the decision falls to the timeout.
   */
  lemma StaleBypassIsKept(s: State, url: Target, d: string, now: int)
    requires Active(s, url) && ResolveDomain(s, url) == Some(d)
    requires d in s.bypass && s.bypass[d] != 0 && now - s.bypass[d] >= BypassWindowMs
    ensures ShouldShowSplash(s, url, now).state == s
    ensures d in ShouldShowSplash(s, url, now).state.bypass
    ensures NeverConnected(s.connectionTimes, d) ==> ShouldShowSplash(s, url, now).show
  {
  }

  /**
   * Domain keying: two URLs whose hostnames resolve to the same allowlist
   * entry (www.reddit.com and old.reddit.com for reddit.com) read and write
   * one connection-time slot and one bypass marker, so every operation
   * treats them alike.
   */
  lemma SameEntrySharesState(s: State, u1: Target, u2: Target, tab: int, now: int)
    requires u1.parsed.Some? && u2.parsed.Some?
    requires ResolveDomain(s, u1) == ResolveDomain(s, u2)
    ensures MarkConnected(s, u1, now) == MarkConnected(s, u2, now)
    ensures ShouldShowSplash(s, u1, now) == ShouldShowSplash(s, u2, now)
    ensures CompleteConnection(s, tab, u1, now).state == CompleteConnection(s, tab, u2, now).state
  {
  }
}
