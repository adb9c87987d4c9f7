/**
 * The interception engine of the top-level background.js: per-site state
 * is keyed by the URL's origin, the bypass marker is consulted before the
 * settings are read, and any parsable URL is marked connected.
 */
module OriginEngine {
  import opened Wrappers
  import opened Store
  import opened Allowlist
  import Registry

  /**
   * `shouldShowSplash(url)` at time `now`. A fresh `bypass_<origin>` is
   * consumed first and lets the navigation through whatever the settings
   * say. Otherwise nothing is written and the splash is shown exactly when
   * settings are stored and enabled, some allowlist entry matches the
   * hostname, and the origin was never connected or its timeout has
   * elapsed (inclusive). An unparsable URL is let through untouched.
   */
  function ShouldShowSplash(s: State, url: Target, now: int): (r: Decision)
    ensures url.parsed.None? ==> r == Decision(false, s)
    ensures url.parsed.Some? ==>
      var o := url.parsed.value.origin;
      if o in s.bypass && FreshBypass(s.bypass[o], now) then
        r == Decision(false, s.(bypass := s.bypass - {o}))
      else
        r.state == s &&
        (r.show <==>
          && s.settings.Some? && s.settings.value.enabled
          && (exists i :: 0 <= i < |s.settings.value.allowlist|
                && Matches(url.parsed.value.hostname, s.settings.value.allowlist[i]))
          && (NeverConnected(s.connectionTimes, o)
              || TimeoutElapsed(s.connectionTimes[o], s.settings.value.timeoutMinutes, now)))
  {
    if url.parsed.None? then Decision(false, s)
    else
      var loc := url.parsed.value;
      if loc.origin in s.bypass && FreshBypass(s.bypass[loc.origin], now) then
        Decision(false, s.(bypass := s.bypass - {loc.origin}))
      else if s.settings.None? || !s.settings.value.enabled then
        Decision(false, s)
      else if !IsAllowlisted(loc.hostname, s.settings.value.allowlist) then
        Decision(false, s)
      else if NeverConnected(s.connectionTimes, loc.origin) then
        Decision(true, s)
      else
        Decision(TimeoutElapsed(s.connectionTimes[loc.origin], s.settings.value.timeoutMinutes, now), s)
  }

  /**
   * `markConnected(url)`: stamps the URL's origin with `now`, with no
   * allowlist or settings check, leaving every other connection time alone;
   * an unparsable URL writes nothing.
   */
  function MarkConnected(s: State, url: Target, now: int): (r: State)
    ensures url.parsed.None? ==> r == s
    ensures url.parsed.Some? ==>
      var o := url.parsed.value.origin;
      && r.connectionTimes.Keys == s.connectionTimes.Keys + {o}
      && r.connectionTimes[o] == now
      && (forall k :: k in s.connectionTimes && k != o ==> r.connectionTimes[k] == s.connectionTimes[k])
    ensures r.settings == s.settings && r.bypass == s.bypass && r.pending == s.pending
  {
    match url.parsed
    case None => s
    case Some(loc) => s.(connectionTimes := s.connectionTimes[loc.origin := now])
  }

  /**
   * CONNECTION_COMPLETE(tab, url): marks the origin connected, then sets
   * `bypass_<origin>`, then removes `pending_<tab>`, then navigates the tab
   * to `url`; stored settings play no part. An unparsable URL leaves the
   * store and the tab as they were.
   */
  function CompleteConnection(s: State, tab: int, url: Target, now: int): (r: Step)
    ensures url.parsed.None? ==> r == Step(NoAction, s)
    ensures url.parsed.Some? ==>
      var o := url.parsed.value.origin;
      && r.action == Navigate(tab, url.href)
      && r.state.settings == s.settings
      && r.state.connectionTimes == MarkConnected(s, url, now).connectionTimes
      && r.state.bypass.Keys == s.bypass.Keys + {o} && r.state.bypass[o] == now
      && (forall k :: k in s.bypass && k != o ==> r.state.bypass[k] == s.bypass[k])
      && r.state.pending == s.pending - {tab}
  {
    var marked := MarkConnected(s, url, now);
    match url.parsed
    case None => Step(NoAction, marked)
    case Some(loc) =>
      var bypassed := marked.(bypass := marked.bypass[loc.origin := now]);
      var cleared := Registry.ClearPending(bypassed, tab);
      Step(Navigate(tab, url.href), cleared)
  }

  /**
   * onBeforeNavigate(tab, url, frameId), as in the domain-keyed variant but
   * driven by this variant's decision.
   */
  function OnBeforeNavigate(s: State, tab: int, frameId: int, url: Target, now: int): (r: Step)
    ensures frameId != 0 ==> r == Step(NoAction, s)
    ensures r.action.RedirectToSplash? <==> frameId == 0 && ShouldShowSplash(s, url, now).show
    ensures r.action.RedirectToSplash? ==>
      r.action.tab == tab && r.state == Registry.RegisterPending(s, tab, url.href, now)
    ensures r.action.NoAction? ==> r.state == ShouldShowSplash(s, url, now).state || frameId != 0
    ensures !r.action.Navigate?
  {
    Registry.Intercept(s, tab, frameId, url.href, now, ShouldShowSplash(s, url, now))
  }

  /**
   * The bypass check comes before the settings: a fresh marker is consumed
   * and the navigation let through even with the extension disabled, no
   * settings stored, or a hostname on no allowlist.
   */
  lemma FreshBypassIgnoresSettings(s: State, url: Target, now: int)
    requires url.parsed.Some?
    requires url.parsed.value.origin in s.bypass && FreshBypass(s.bypass[url.parsed.value.origin], now)
    requires s.settings.None? || !s.settings.value.enabled
    ensures !ShouldShowSplash(s, url, now).show
    ensures url.parsed.value.origin !in ShouldShowSplash(s, url, now).state.bypass
  {
  }
}
