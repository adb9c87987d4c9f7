/** The allowlist matcher: suffix-domain matching of a hostname. */
module Allowlist {
  import opened Wrappers
  import opened Strings

  /** `hostname === domain || hostname.endsWith('.' + domain)` */
  predicate Matches(hostname: string, domain: string) {
    hostname == domain || EndsWith(hostname, "." + domain)
  }

  /** Entry `i` matches and no earlier entry does */
  ghost predicate IsFirstMatch(hostname: string, allowlist: seq<string>, i: int) {
    && 0 <= i < |allowlist|
    && Matches(hostname, allowlist[i])
    && (forall j :: 0 <= j < i ==> !Matches(hostname, allowlist[j]))
  }

  ghost predicate NoMatch(hostname: string, allowlist: seq<string>) {
    forall i :: 0 <= i < |allowlist| ==> !Matches(hostname, allowlist[i])
  }

  /** `allowlist.find(domain => Matches(hostname, domain))` */
  function Find(hostname: string, allowlist: seq<string>): (r: Option<string>)
    ensures r.Some? ==> exists i :: IsFirstMatch(hostname, allowlist, i) && allowlist[i] == r.value
    ensures r.None? ==> NoMatch(hostname, allowlist)
    decreases |allowlist|
  {
    if |allowlist| == 0 then None
    else if Matches(hostname, allowlist[0]) then
      assert IsFirstMatch(hostname, allowlist, 0);
      Some(allowlist[0])
    else
      var r := Find(hostname, allowlist[1..]);
      assert r.Some? ==> exists i :: IsFirstMatch(hostname, allowlist, i) && allowlist[i] == r.value by {
        if r.Some? {
          var i :| IsFirstMatch(hostname, allowlist[1..], i) && allowlist[1..][i] == r.value;
          assert IsFirstMatch(hostname, allowlist, i + 1);
        }
      }
      assert r.None? ==> NoMatch(hostname, allowlist) by {
        if r.None? {
          forall i | 0 < i < |allowlist| ensures !Matches(hostname, allowlist[i]) {
            assert allowlist[i] == allowlist[1..][i - 1];
          }
        }
      }
      r
  }

  /**
   * `getAllowlistDomain`: `find(...) || null`. The first matching entry in
   * list order, or None when nothing matches. Because `|| null` also maps
   * the falsy empty string to null, a first match that is the entry ""
   * yields None as well.
   */
  function GetAllowlistDomain(hostname: string, allowlist: seq<string>): (r: Option<string>)
    ensures r.Some? ==> r.value != "" && exists i :: IsFirstMatch(hostname, allowlist, i) && allowlist[i] == r.value
    ensures r.None? <==> NoMatch(hostname, allowlist) || exists i :: IsFirstMatch(hostname, allowlist, i) && allowlist[i] == ""
  {
    FirstMatchUnique(hostname, allowlist);
    match Find(hostname, allowlist)
    case None => None
    case Some(d) => if d == "" then None else Some(d)
  }

  /** There is at most one first match */
  lemma FirstMatchUnique(hostname: string, allowlist: seq<string>)
    ensures forall i, j :: IsFirstMatch(hostname, allowlist, i) && IsFirstMatch(hostname, allowlist, j) ==> i == j
  {
  }

  /** `allowlist.some(domain => Matches(hostname, domain))` */
  function IsAllowlisted(hostname: string, allowlist: seq<string>): (r: bool)
    ensures r <==> exists i :: 0 <= i < |allowlist| && Matches(hostname, allowlist[i])
    decreases |allowlist|
  {
    if |allowlist| == 0 then false
    else
      var rest := IsAllowlisted(hostname, allowlist[1..]);
      assert rest <==> exists i :: 0 < i < |allowlist| && Matches(hostname, allowlist[i]) by {
        if rest {
          var i :| 0 <= i < |allowlist[1..]| && Matches(hostname, allowlist[1..][i]);
          assert allowlist[i + 1] == allowlist[1..][i];
        }
        if exists i :: 0 < i < |allowlist| && Matches(hostname, allowlist[i]) {
          var i :| 0 < i < |allowlist| && Matches(hostname, allowlist[i]);
          assert allowlist[1..][i - 1] == allowlist[i];
        }
      }
      Matches(hostname, allowlist[0]) || rest
  }

  /**
   * The two variants' allowlist tests agree except on the empty entry:
   * a hostname the domain-keyed matcher resolves is allowlisted, and an
   * allowlisted hostname resolves unless its first match is "".
   */
  lemma MatcherAgreesWithSome(hostname: string, allowlist: seq<string>)
    ensures GetAllowlistDomain(hostname, allowlist).Some? ==> IsAllowlisted(hostname, allowlist)
    ensures IsAllowlisted(hostname, allowlist) && (forall i :: 0 <= i < |allowlist| ==> allowlist[i] != "")
            ==> GetAllowlistDomain(hostname, allowlist).Some?
  {
  }
}
