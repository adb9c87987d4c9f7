/** Installation default and the RESET_SETTINGS request, shared by both variants. */
module Lifecycle {
  import opened Wrappers
  import opened Store

  /** onInstalled: writes the defaults only when no settings are stored */
  function OnInstalled(s: State): (r: State)
    ensures r.settings.Some?
    ensures s.settings.Some? ==> r == s
    ensures s.settings.None? ==> r.settings == Some(DefaultSettings)
    ensures r.connectionTimes == s.connectionTimes && r.bypass == s.bypass && r.pending == s.pending
  {
    if s.settings.None? then s.(settings := Some(DefaultSettings)) else s
  }

  /** RESET_SETTINGS: overwrites the settings with the defaults and answers success */
  function ResetSettings(s: State): (r: (bool, State))
    ensures r.0
    ensures r.1.settings == Some(DefaultSettings)
    ensures r.1.connectionTimes == s.connectionTimes && r.1.bypass == s.bypass && r.1.pending == s.pending
  {
    (true, s.(settings := Some(DefaultSettings)))
  }

  /** Installing twice is installing once, and never undoes a reset or a user's edits */
  lemma OnInstalledIdempotent(s: State)
    ensures OnInstalled(OnInstalled(s)) == OnInstalled(s)
    ensures OnInstalled(ResetSettings(s).1) == ResetSettings(s).1
  {
  }
}
