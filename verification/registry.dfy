/**
 * The pending-navigation registry: `pending_<tabId>` entries that remember
 * a tab's destination while it shows the splash page, and the periodic
 * sweep that reclaims abandoned ones. Both variants share this code.
 */
module Registry {
  import opened Wrappers
  import opened Store

  /** Stores `{url, timestamp: now}` for the tab, overwriting any earlier entry */
  function RegisterPending(s: State, tab: int, url: string, now: int): (r: State)
    ensures r.pending.Keys == s.pending.Keys + {tab}
    ensures r.pending[tab] == PendingEntry(url, now)
    ensures forall t :: t in s.pending && t != tab ==> r.pending[t] == s.pending[t]
    ensures r.settings == s.settings && r.connectionTimes == s.connectionTimes && r.bypass == s.bypass
  {
    s.(pending := s.pending[tab := PendingEntry(url, now)])
  }

  /** GET_PENDING_URL: reads the tab's entry (`data || null`) without deleting it */
  function GetPendingUrl(s: State, tab: int): (r: Option<PendingEntry>)
    ensures r.Some? <==> tab in s.pending
    ensures r.Some? ==> r.value == s.pending[tab]
  {
    if tab in s.pending then Some(s.pending[tab]) else None
  }

  /** `remove('pending_<tabId>')`: drops that tab's entry and nothing else */
  function ClearPending(s: State, tab: int): (r: State)
    ensures r.pending.Keys == s.pending.Keys - {tab}
    ensures forall t :: t in r.pending ==> r.pending[t] == s.pending[t]
    ensures r.settings == s.settings && r.connectionTimes == s.connectionTimes && r.bypass == s.bypass
  {
    s.(pending := s.pending - {tab})
  }

  /**
   * Reading a tab's pending entry sees the latest registration or removal
   * for that tab, and nothing done for another tab.
   */
  lemma PendingReadAfterWrite(s: State, tab: int, other: int, url: string, now: int)
    requires other != tab
    ensures GetPendingUrl(RegisterPending(s, tab, url, now), tab) == Some(PendingEntry(url, now))
    ensures GetPendingUrl(ClearPending(s, tab), tab) == None
    ensures GetPendingUrl(RegisterPending(s, other, url, now), tab) == GetPendingUrl(s, tab)
    ensures GetPendingUrl(ClearPending(s, other), tab) == GetPendingUrl(s, tab)
  {
  }

  /**
   * The navigation listener around a splash decision: subframes are
   * ignored; a top-level navigation the decision intercepts records the
   * destination and redirects the tab, otherwise only the decision's own
   * store changes remain.
   */
  function Intercept(s: State, tab: int, frameId: int, href: string, now: int, decision: Decision): (r: Step)
    ensures frameId != 0 ==> r == Step(NoAction, s)
    ensures r.action.RedirectToSplash? <==> frameId == 0 && decision.show
    ensures r.action.RedirectToSplash? ==>
      && r.action.tab == tab
      && r.state.pending.Keys == decision.state.pending.Keys + {tab}
      && r.state.pending[tab] == PendingEntry(href, now)
      && r.state == RegisterPending(decision.state, tab, href, now)
    ensures frameId == 0 && !decision.show ==> r.state == decision.state
    ensures !r.action.Navigate?
  {
    if frameId != 0 then Step(NoAction, s)
    else if decision.show then
      Step(RedirectToSplash(tab), RegisterPending(decision.state, tab, href, now))
    else
      Step(NoAction, decision.state)
  }

  /**
   * The sweep's loop over `Object.entries(items)`: `keys` enumerates the
   * pending tab ids in some order, and the loop collects exactly those whose
   * entry has a truthy timestamp more than five minutes old.
   */
  method CollectExpired(pending: map<int, PendingEntry>, keys: seq<int>, now: int) returns (toRemove: set<int>)
    requires forall t :: t in pending <==> t in keys
    ensures forall t :: t in toRemove <==> t in pending && Expired(pending[t], now)
  {
    toRemove := {};
    var i := 0;
    while i < |keys|
      invariant 0 <= i <= |keys|
      invariant forall t :: t in toRemove <==> t in keys[..i] && Expired(pending[t], now)
    {
      var t := keys[i];
      if Expired(pending[t], now) {
        toRemove := toRemove + {t};
      }
      assert keys[..i + 1] == keys[..i] + [t];
      i := i + 1;
    }
    assert keys[..i] == keys;
  }

  /**
   * The periodic sweep at time `now`: removes exactly the expired pending
   * entries; kept entries, settings, connection times and bypass markers
   * are untouched.
   */
  function Sweep(s: State, now: int): (r: State)
    ensures forall t :: t in r.pending <==> t in s.pending && !Expired(s.pending[t], now)
    ensures forall t :: t in r.pending ==> r.pending[t] == s.pending[t]
    ensures r.settings == s.settings && r.connectionTimes == s.connectionTimes && r.bypass == s.bypass
  {
    s.(pending := map t | t in s.pending && !Expired(s.pending[t], now) :: s.pending[t])
  }

  /** The loop's removal set applied to the store is the sweep */
  method RunSweep(s: State, keys: seq<int>, now: int) returns (r: State)
    requires forall t :: t in s.pending <==> t in keys
    ensures r == Sweep(s, now)
  {
    var toRemove := CollectExpired(s.pending, keys, now);
    r := s.(pending := s.pending - toRemove);
    var swept := Sweep(s, now);
    assert forall t :: t in r.pending <==> t in swept.pending;
    assert forall t :: t in r.pending ==> r.pending[t] == swept.pending[t];
    assert r.pending == swept.pending;
  }

  /** A second sweep at the same instant changes nothing */
  lemma SweepIdempotent(s: State, now: int)
    ensures Sweep(Sweep(s, now), now) == Sweep(s, now)
  {
  }

  /**
   * A registration is immune to every sweep at most five minutes younger
   * than it (an entry exactly five minutes old is kept), and the splash
   * page can still read it back.
   */
  lemma RegistrationSurvivesSweep(s: State, tab: int, url: string, registeredAt: int, now: int)
    requires now - registeredAt <= PendingMaxAgeMs
    ensures GetPendingUrl(Sweep(RegisterPending(s, tab, url, registeredAt), now), tab)
            == Some(PendingEntry(url, registeredAt))
  {
  }

  /** A registration with a non-zero timestamp is gone after a sweep more than five minutes later */
  lemma StaleRegistrationSwept(s: State, tab: int, url: string, registeredAt: int, now: int)
    requires registeredAt != 0 && now - registeredAt > PendingMaxAgeMs
    ensures GetPendingUrl(Sweep(RegisterPending(s, tab, url, registeredAt), now), tab) == None
  {
  }
}
