/**
 * The options page: turning the form back into a settings record
 * (`saveSettings`) and filling the form from the stored record
 * (`loadSettings`). `parseInt` is abstract: a form field holds the number
 * it parses to, or None for NaN.
 */
module SettingsForm {
  import opened Wrappers
  import opened Strings
  import opened Store

  /** The three inputs `saveSettings` reads */
  datatype Form = Form(allowlistText: string, timeout: Option<int>, volumePercent: Option<int>)

  /** Why a save wrote nothing, or the record it wrote */
  datatype SaveOutcome =
    | NotInitialized
    | EmptyAllowlist
    | InvalidTimeout
    | InvalidVolume
    | Saved(settings: Settings)

  datatype SaveResult = SaveResult(outcome: SaveOutcome, state: State)

  const MinTimeoutMinutes: int := 1
  const MaxTimeoutMinutes: int := 1440
  const MaxVolumePercent: int := 100

  /** An allowlist entry as the parser produces it: non-empty, trimmed, one line */
  predicate CleanEntry(d: string) {
    d != "" && IsTrimmed(d) && '\n' !in d
  }

  /** A settings record the options page could have written */
  predicate ValidSettings(st: Settings) {
    && |st.allowlist| > 0
    && (forall i :: 0 <= i < |st.allowlist| ==> CleanEntry(st.allowlist[i]))
    && MinTimeoutMinutes <= st.timeoutMinutes <= MaxTimeoutMinutes
    && 0 <= st.volumePercent <= MaxVolumePercent
  }

  /** `.map(line => line.trim()).filter(line => line.length > 0)`, order kept */
  function CleanLines(lines: seq<string>): (r: seq<string>)
    ensures |r| <= |lines|
    ensures forall i :: 0 <= i < |r| ==> r[i] != "" && IsTrimmed(r[i])
    ensures (forall i :: 0 <= i < |lines| ==> '\n' !in lines[i]) ==> forall i :: 0 <= i < |r| ==> '\n' !in r[i]
    decreases |lines|
  {
    if |lines| == 0 then []
    else
      var line := Trim(lines[0]);
      var rest := CleanLines(lines[1..]);
      assert forall i :: 0 < i < |lines| ==> lines[i] == lines[1..][i - 1];
      if line == "" then rest else [line] + rest
  }

  /** The cleaner works line by line, so it keeps the lines' order */
  lemma {:induction false} CleanLinesAppend(a: seq<string>, b: seq<string>)
    ensures CleanLines(a + b) == CleanLines(a) + CleanLines(b)
    decreases |a|
  {
    if |a| > 0 {
      assert (a + b)[0] == a[0];
      assert (a + b)[1..] == a[1..] + b;
      CleanLinesAppend(a[1..], b);
    } else {
      assert a + b == b;
    }
  }

  /** Every kept line is the non-empty trim of some input line */
  lemma {:induction false} CleanLinesSound(lines: seq<string>, d: string)
    requires d in CleanLines(lines)
    ensures d != "" && exists i :: 0 <= i < |lines| && Trim(lines[i]) == d
    decreases |lines|
  {
    var tail := lines[1..];
    if d != Trim(lines[0]) {
      CleanLinesSound(tail, d);
      var k :| 0 <= k < |tail| && Trim(tail[k]) == d;
      assert lines[k + 1] == tail[k];
    }
  }

  /** Every input line whose trim is non-empty is kept, trimmed */
  lemma {:induction false} CleanLinesComplete(lines: seq<string>, i: int)
    requires 0 <= i < |lines| && Trim(lines[i]) != ""
    ensures Trim(lines[i]) in CleanLines(lines)
    decreases i
  {
    var tail := lines[1..];
    var line := Trim(lines[0]);
    if i == 0 {
      assert CleanLines(lines) == [line] + CleanLines(tail);
    } else {
      assert tail[i - 1] == lines[i];
      CleanLinesComplete(tail, i - 1);
      if line != "" {
        assert CleanLines(lines) == [line] + CleanLines(tail);
      }
    }
  }

  /** The cleaner keeps exactly the non-empty trimmed lines */
  lemma CleanLinesMembers(lines: seq<string>)
    ensures forall d :: d in CleanLines(lines) <==> d != "" && exists i :: 0 <= i < |lines| && Trim(lines[i]) == d
  {
    forall d | d in CleanLines(lines) ensures d != "" && exists i :: 0 <= i < |lines| && Trim(lines[i]) == d {
      CleanLinesSound(lines, d);
    }
    forall i | 0 <= i < |lines| && Trim(lines[i]) != "" ensures Trim(lines[i]) in CleanLines(lines) {
      CleanLinesComplete(lines, i);
    }
  }

  /** When the cleaner drops every line, each line was whitespace only */
  lemma CleanLinesEmpty(lines: seq<string>)
    requires CleanLines(lines) == []
    ensures forall i :: 0 <= i < |lines| ==> AllWhitespace(lines[i])
  {
    CleanLinesMembers(lines);
    forall i | 0 <= i < |lines| ensures Trim(lines[i]) == "" {
      assert Trim(lines[i]) !in CleanLines(lines);
    }
  }

  /**
   * The allowlist text parsed as on lines 34-38: trimmed, split on '\n',
   * each line trimmed, empty lines dropped. Every entry is clean.
   */
  function ParseAllowlist(text: string): (list: seq<string>)
    ensures forall i :: 0 <= i < |list| ==> CleanEntry(list[i])
    ensures AllWhitespace(text) ==> list == []
  {
    if AllWhitespace(text) then
      assert Split("") == [""];
      assert CleanLines([""]) == [];
      CleanLines(Split(Trim(text)))
    else
      CleanLines(Split(Trim(text)))
  }

  /** The parsed allowlist is empty exactly when the text is blank */
  lemma ParseEmptyIffBlank(text: string)
    ensures ParseAllowlist(text) == [] <==> AllWhitespace(text)
  {
    var lines := Split(Trim(text));
    if CleanLines(lines) == [] {
      CleanLinesEmpty(lines);
      JoinAllWhitespace(lines);
    }
  }

  /** `settings.allowlist.join('\n')` as shown in the textarea */
  function AllowlistText(allowlist: seq<string>): string {
    Join(allowlist)
  }

  /** A list of clean entries passes through the line cleaner unchanged */
  lemma {:induction false} CleanLinesKeepsClean(lines: seq<string>)
    requires forall i :: 0 <= i < |lines| ==> CleanEntry(lines[i])
    ensures CleanLines(lines) == lines
    decreases |lines|
  {
    if |lines| > 0 {
      var tail := lines[1..];
      CleanLinesKeepsClean(tail);
      assert Trim(lines[0]) == lines[0];
      HeadTail(lines);
    }
  }

  /** A non-empty sequence is its head followed by its tail */
  lemma HeadTail<T>(s: seq<T>)
    requires |s| > 0
    ensures [s[0]] + s[1..] == s
  {
  }

  /**
   * Showing an allowlist in the textarea and parsing it back returns the
   * same list, provided every entry is non-empty, single-line and has no
   * surrounding whitespace.
   */
  lemma {:induction false} ParseJoinRoundTrip(allowlist: seq<string>)
    requires forall i :: 0 <= i < |allowlist| ==> CleanEntry(allowlist[i])
    ensures ParseAllowlist(AllowlistText(allowlist)) == allowlist
  {
    if |allowlist| == 0 {
      assert Split("") == [""];
    } else {
      var text := Join(allowlist);
      JoinTrimmed(allowlist);
      assert Trim(text) == text;
      SplitJoin(allowlist);
      CleanLinesKeepsClean(allowlist);
    }
  }

  /** The timeout field parses to a whole number of minutes in 1..1440 */
  predicate ValidTimeout(timeout: Option<int>) {
    timeout.Some? && MinTimeoutMinutes <= timeout.value <= MaxTimeoutMinutes
  }

  /** The volume field parses to a percentage in 0..100 */
  predicate ValidVolume(volumePercent: Option<int>) {
    volumePercent.Some? && 0 <= volumePercent.value <= MaxVolumePercent
  }

  /**
   * `saveSettings`: with settings stored, a non-empty parsed allowlist, a
   * timeout in 1..1440 and a volume in 0..100 it writes the new record,
   * copying `enabled` from the stored one; on the first failed check (in
   * that order) it writes nothing and reports that check.
   */
  function SaveSettings(s: State, form: Form): (r: SaveResult)
    ensures r.outcome.Saved? <==>
      s.settings.Some? && ParseAllowlist(form.allowlistText) != [] && ValidTimeout(form.timeout) && ValidVolume(form.volumePercent)
    ensures r.outcome.Saved? ==>
      && ValidSettings(r.outcome.settings)
      && r.outcome.settings.allowlist == ParseAllowlist(form.allowlistText)
      && r.outcome.settings.timeoutMinutes == form.timeout.value
      && r.outcome.settings.volumePercent == form.volumePercent.value
      && r.outcome.settings.enabled == s.settings.value.enabled
      && r.state == s.(settings := Some(r.outcome.settings))
    ensures !r.outcome.Saved? ==> r.state == s
    ensures r.outcome == NotInitialized <==> s.settings.None?
    ensures r.outcome == EmptyAllowlist <==> s.settings.Some? && ParseAllowlist(form.allowlistText) == []
    ensures r.outcome == InvalidTimeout <==>
      s.settings.Some? && ParseAllowlist(form.allowlistText) != [] && !ValidTimeout(form.timeout)
    ensures r.outcome == InvalidVolume <==>
      s.settings.Some? && ParseAllowlist(form.allowlistText) != [] && ValidTimeout(form.timeout) && !ValidVolume(form.volumePercent)
  {
    if s.settings.None? then SaveResult(NotInitialized, s)
    else
      var allowlist := ParseAllowlist(form.allowlistText);
      if |allowlist| == 0 then SaveResult(EmptyAllowlist, s)
      else if form.timeout.None? || form.timeout.value < MinTimeoutMinutes || form.timeout.value > MaxTimeoutMinutes then
        SaveResult(InvalidTimeout, s)
      else if form.volumePercent.None? || form.volumePercent.value < 0 || form.volumePercent.value > MaxVolumePercent then
        SaveResult(InvalidVolume, s)
      else
        var settings := Settings(allowlist, form.timeout.value, form.volumePercent.value, s.settings.value.enabled);
        SaveResult(Saved(settings), s.(settings := Some(settings)))
  }

  /** Once settings are stored, a save is refused as empty exactly when the text is blank */
  lemma SaveRejectsBlank(s: State, form: Form)
    requires s.settings.Some?
    ensures SaveSettings(s, form).outcome == EmptyAllowlist <==> AllWhitespace(form.allowlistText)
  {
    ParseEmptyIffBlank(form.allowlistText);
  }

  /**
   * `loadSettings`: the form filled from the stored record, or None when no
   * settings are stored (the TypeError is caught and only reported).
   */
  function LoadSettings(s: State): (r: Option<Form>)
    ensures r.Some? <==> s.settings.Some?
    ensures r.Some? ==>
      && r.value.allowlistText == Join(s.settings.value.allowlist)
      && r.value.timeout == Some(s.settings.value.timeoutMinutes)
      && r.value.volumePercent == Some(s.settings.value.volumePercent)
  {
    match s.settings
    case None => None
    case Some(st) => Some(Form(AllowlistText(st.allowlist), Some(st.timeoutMinutes), Some(st.volumePercent)))
  }

  /**
   * Saving the form exactly as `loadSettings` filled it writes back the
   * stored record unchanged, for any record the options page could have
   * written.
   */
  lemma {:induction false} LoadSaveRoundTrip(s: State)
    requires s.settings.Some? && ValidSettings(s.settings.value)
    ensures LoadSettings(s).Some?
    ensures SaveSettings(s, LoadSettings(s).value) == SaveResult(Saved(s.settings.value), s)
  {
    var st := s.settings.value;
    var form := Form(AllowlistText(st.allowlist), Some(st.timeoutMinutes), Some(st.volumePercent));
    assert LoadSettings(s) == Some(form);
    ParseJoinRoundTrip(st.allowlist);
    SaveAcceptsValidForm(s, form);
    assert s.(settings := Some(st)) == s;
  }

  /** A form that passes every check is written as parsed, with the stored `enabled` */
  lemma SaveAcceptsValidForm(s: State, form: Form)
    requires s.settings.Some? && ParseAllowlist(form.allowlistText) != []
    requires ValidTimeout(form.timeout) && ValidVolume(form.volumePercent)
    ensures var st := Settings(ParseAllowlist(form.allowlistText), form.timeout.value,
                               form.volumePercent.value, s.settings.value.enabled);
      SaveSettings(s, form) == SaveResult(Saved(st), s.(settings := Some(st)))
  {
  }


  /** A non-empty host name of lower-case letters and dots is a clean entry */
  lemma LowercaseHostClean(d: string)
    requires |d| > 0 && forall i :: 0 <= i < |d| ==> 'a' <= d[i] <= 'z' || d[i] == '.'
    ensures CleanEntry(d)
  {
  }

  /** The defaults installed at first run are a record the options page accepts */
  lemma DefaultsValid()
    ensures ValidSettings(DefaultSettings)
  {
    LowercaseHostClean("facebook.com");
    LowercaseHostClean("instagram.com");
    LowercaseHostClean("reddit.com");
    LowercaseHostClean("twitter.com");
    LowercaseHostClean("x.com");
  }
}
