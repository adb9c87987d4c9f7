/**
 * End-to-end runs of the handlers: the splash round trip, the single-use
 * bypass, and the difference the keying policy makes for two subdomains of
 * one allowlisted site.
 */
module Scenarios {
  import opened Wrappers
  import opened Store
  import opened Allowlist
  import Registry
  import DomainEngine
  import OriginEngine

  /**
   * Domain-keyed round trip. After CONNECTION_COMPLETE at time `t` for a
   * URL resolving to entry `d`, the next navigation to any URL resolving to
   * `d` within 5000 ms passes and consumes the marker; a later one passes
   * while the timeout has not run out and is intercepted once it has.
   */
  lemma DomainBypassSingleUse(s: State, tab: int, u: Target, u2: Target, d: string, t: int, now1: int, now2: int)
    requires DomainEngine.Active(s, u) && u2.parsed.Some?
    requires DomainEngine.ResolveDomain(s, u) == Some(d) && DomainEngine.ResolveDomain(s, u2) == Some(d)
    requires t > 0 && s.settings.value.timeoutMinutes >= 1
    requires t <= now1 < t + BypassWindowMs && now1 <= now2
    ensures var s1 := DomainEngine.CompleteConnection(s, tab, u, t).state;
      var first := DomainEngine.ShouldShowSplash(s1, u2, now1);
      && !first.show
      && d !in first.state.bypass
      && (DomainEngine.ShouldShowSplash(first.state, u2, now2).show
          <==> now2 >= t + s.settings.value.timeoutMinutes * MsPerMinute)
  {
    var s1 := DomainEngine.CompleteConnection(s, tab, u, t).state;
    assert DomainEngine.ResolveDomain(s1, u2) == Some(d);
    var first := DomainEngine.ShouldShowSplash(s1, u2, now1);
    assert first.state.connectionTimes[d] == t;
    assert DomainEngine.ResolveDomain(first.state, u2) == Some(d);
  }

  /**
   * Origin-keyed round trip: after CONNECTION_COMPLETE at `t`, the next
   * navigation to the same origin within 5000 ms passes and consumes the
   * marker, whatever the settings.
   */
  lemma OriginBypassSingleUse(s: State, tab: int, u: Target, t: int, now1: int)
    requires u.parsed.Some? && t > 0
    requires t <= now1 < t + BypassWindowMs
    ensures var s1 := OriginEngine.CompleteConnection(s, tab, u, t).state;
      var first := OriginEngine.ShouldShowSplash(s1, u, now1);
      !first.show && u.parsed.value.origin !in first.state.bypass
  {
  }

  /**
   * An intercepted navigation leaves the destination where the splash page
   * reads it (without consuming it), and completing the connection for that
   * tab removes it.
   */
  lemma InterceptThenComplete(s: State, tab: int, u: Target, now: int, later: int)
    requires DomainEngine.OnBeforeNavigate(s, tab, 0, u, now).action.RedirectToSplash?
    ensures var s1 := DomainEngine.OnBeforeNavigate(s, tab, 0, u, now).state;
      && Registry.GetPendingUrl(s1, tab) == Some(PendingEntry(u.href, now))
      && DomainEngine.CompleteConnection(s1, tab, u, later).action == Navigate(tab, u.href)
      && Registry.GetPendingUrl(DomainEngine.CompleteConnection(s1, tab, u, later).state, tab) == None
  {
  }

  /**
   * Origin keying, generally: completing the splash for one origin leaves
   * every other origin unconnected, so an enabled, allowlisted navigation to
   * a different origin with no history is intercepted even right after the
   * redirect has passed through.
   */
  lemma OriginSiblingIntercepted(s: State, tab: int, u1: Target, u2: Target, t: int, now1: int, now2: int)
    requires u1.parsed.Some? && u2.parsed.Some? && t > 0
    requires u1.parsed.value.origin != u2.parsed.value.origin
    requires u2.parsed.value.origin !in s.connectionTimes && u2.parsed.value.origin !in s.bypass
    requires s.settings.Some? && s.settings.value.enabled
    requires IsAllowlisted(u2.parsed.value.hostname, s.settings.value.allowlist)
    ensures var s1 := OriginEngine.CompleteConnection(s, tab, u1, t).state;
      var first := OriginEngine.ShouldShowSplash(s1, u1, now1);
      OriginEngine.ShouldShowSplash(first.state, u2, now2).show
  {
  }

  /** The settings of the worked example: only reddit.com, 10 minutes */
  const RedditOnly: Settings := Settings(["reddit.com"], 10, 30, true)

  /** A store holding those settings and nothing else */
  const Fresh: State := State(Some(RedditOnly), map[], map[], map[])

  const WwwReddit: Target :=
    Target("https://www.reddit.com/r/test", Some(Location("www.reddit.com", "https://www.reddit.com")))

  const OldReddit: Target :=
    Target("https://old.reddit.com/r/test", Some(Location("old.reddit.com", "https://old.reddit.com")))

  /** www.reddit.com matches the entry "reddit.com" */
  lemma WwwRedditResolves()
    ensures DomainEngine.ResolveDomain(Fresh, WwwReddit) == Some("reddit.com")
  {
    assert "www.reddit.com"[3..] == ".reddit.com";
    assert IsFirstMatch("www.reddit.com", RedditOnly.allowlist, 0);
  }

  /** old.reddit.com matches the entry "reddit.com" too */
  lemma OldRedditResolves()
    ensures DomainEngine.ResolveDomain(Fresh, OldReddit) == Some("reddit.com")
    ensures IsAllowlisted("old.reddit.com", RedditOnly.allowlist)
  {
    assert "old.reddit.com"[3..] == ".reddit.com";
    assert IsFirstMatch("old.reddit.com", RedditOnly.allowlist, 0);
  }

  /**
   * Keyed by allowlist entry: visit www.reddit.com at `t` (intercepted),
   * complete the splash, pass through on the redirect one second later,
   * then old.reddit.com five minutes later shares the connection time and
   * is let through.
   */
  lemma DomainKeyingScenario(t: int)
    requires t > 0
    ensures var d0 := DomainEngine.OnBeforeNavigate(Fresh, 7, 0, WwwReddit, t);
      var d1 := DomainEngine.CompleteConnection(d0.state, 7, WwwReddit, t);
      var d2 := DomainEngine.ShouldShowSplash(d1.state, WwwReddit, t + 1000);
      var d3 := DomainEngine.ShouldShowSplash(d2.state, OldReddit, t + 5 * MsPerMinute);
      && d0.action == RedirectToSplash(7)
      && d1.action == Navigate(7, WwwReddit.href)
      && d1.state.connectionTimes["reddit.com"] == t
      && !d2.show && !d3.show
  {
    WwwRedditResolves();
    OldRedditResolves();
    var d0 := DomainEngine.OnBeforeNavigate(Fresh, 7, 0, WwwReddit, t);
    DomainBypassSingleUse(d0.state, 7, WwwReddit, OldReddit, "reddit.com", t, t + 1000, t + 5 * MsPerMinute);
    var d1 := DomainEngine.CompleteConnection(d0.state, 7, WwwReddit, t);
    DomainEngine.SameEntrySharesState(d1.state, WwwReddit, OldReddit, 7, t + 1000);
  }

  /**
   * Keyed by origin: the same visits, but old.reddit.com has no connection
   * time of its own and is intercepted again.
   */
  lemma OriginKeyingScenario(t: int)
    requires t > 0
    ensures var o0 := OriginEngine.OnBeforeNavigate(Fresh, 7, 0, WwwReddit, t);
      var o1 := OriginEngine.CompleteConnection(o0.state, 7, WwwReddit, t);
      var o2 := OriginEngine.ShouldShowSplash(o1.state, WwwReddit, t + 1000);
      var o3 := OriginEngine.ShouldShowSplash(o2.state, OldReddit, t + 5 * MsPerMinute);
      && o0.action == RedirectToSplash(7)
      && o1.action == Navigate(7, WwwReddit.href)
      && !o2.show && o3.show
  {
    OldRedditResolves();
    assert IsAllowlisted("www.reddit.com", RedditOnly.allowlist) by {
      assert "www.reddit.com"[3..] == ".reddit.com";
      assert Matches("www.reddit.com", RedditOnly.allowlist[0]);
    }
    assert "https://old.reddit.com" != "https://www.reddit.com" by {
      assert "https://old.reddit.com"[8] != "https://www.reddit.com"[8];
    }
    var o0 := OriginEngine.OnBeforeNavigate(Fresh, 7, 0, WwwReddit, t);
    OriginSiblingIntercepted(o0.state, 7, WwwReddit, OldReddit, t, t + 1000, t + 5 * MsPerMinute);
  }

  /**
   * The keying contrast on the worked example: after the same visits,
   * old.reddit.com is let through under domain keying and intercepted
   * under origin keying.
   */
  lemma KeyingContrast(t: int)
    requires t > 0
    ensures var d0 := DomainEngine.OnBeforeNavigate(Fresh, 7, 0, WwwReddit, t);
      var d1 := DomainEngine.CompleteConnection(d0.state, 7, WwwReddit, t);
      var d2 := DomainEngine.ShouldShowSplash(d1.state, WwwReddit, t + 1000);
      !DomainEngine.ShouldShowSplash(d2.state, OldReddit, t + 5 * MsPerMinute).show
    ensures var o0 := OriginEngine.OnBeforeNavigate(Fresh, 7, 0, WwwReddit, t);
      var o1 := OriginEngine.CompleteConnection(o0.state, 7, WwwReddit, t);
      var o2 := OriginEngine.ShouldShowSplash(o1.state, WwwReddit, t + 1000);
      OriginEngine.ShouldShowSplash(o2.state, OldReddit, t + 5 * MsPerMinute).show
  {
    DomainKeyingScenario(t);
    OriginKeyingScenario(t);
  }
}
