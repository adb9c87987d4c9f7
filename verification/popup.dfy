/** The toolbar popup's only state change: flipping `enabled`. */
module Popup {
  import opened Wrappers
  import opened Store

  /** `toggleEnabled`: flips `enabled` and nothing else; no settings stored means no write */
  function ToggleEnabled(s: State): (r: State)
    ensures s.settings.None? ==> r == s
    ensures s.settings.Some? ==>
      && r.settings.Some?
      && r.settings.value.enabled == !s.settings.value.enabled
      && r.settings.value.allowlist == s.settings.value.allowlist
      && r.settings.value.timeoutMinutes == s.settings.value.timeoutMinutes
      && r.settings.value.volumePercent == s.settings.value.volumePercent
    ensures r.connectionTimes == s.connectionTimes && r.bypass == s.bypass && r.pending == s.pending
  {
    match s.settings
    case None => s
    case Some(st) => s.(settings := Some(st.(enabled := !st.enabled)))
  }

  /** Toggling twice restores the store */
  lemma ToggleTwice(s: State)
    ensures ToggleEnabled(ToggleEnabled(s)) == s
  {
  }
}
