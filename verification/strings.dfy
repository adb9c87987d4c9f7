/**
 * The few JavaScript string operations the extension relies on, over
 * `string` (= seq<char>): `endsWith`, `trim`, `split('\n')` and
 * `Array.prototype.join('\n')`.
 */
module Strings {

  /** `s.endsWith(suffix)` */
  predicate EndsWith(s: string, suffix: string) {
    |suffix| <= |s| && s[|s| - |suffix|..] == suffix
  }

  /**
   * The characters `String.prototype.trim` strips: ECMAScript WhiteSpace
   * (TAB, VT, FF, ZWNBSP and every Zs space) and LineTerminator
   * (LF, CR, LS, PS).
   */
  const Whitespace: set<char> := {
    '\t', '\n', '\U{000B}', '\U{000C}', '\r', ' ', '\U{00A0}', '\U{1680}',
    '\U{2000}', '\U{2001}', '\U{2002}', '\U{2003}', '\U{2004}', '\U{2005}',
    '\U{2006}', '\U{2007}', '\U{2008}', '\U{2009}', '\U{200A}',
    '\U{2028}', '\U{2029}', '\U{202F}', '\U{205F}', '\U{3000}', '\U{FEFF}'
  }

  predicate IsWhitespace(c: char) {
    c in Whitespace
  }

  predicate AllWhitespace(s: string) {
    forall i :: 0 <= i < |s| ==> IsWhitespace(s[i])
  }

  /** Neither starts nor ends with whitespace (vacuously true of "") */
  predicate IsTrimmed(s: string) {
    |s| == 0 || (!IsWhitespace(s[0]) && !IsWhitespace(s[|s| - 1]))
  }

  /** The index of the first non-whitespace character at or after `i`, or |s| when there is none */
  function SkipLeading(s: string, i: nat): (k: nat)
    requires i <= |s|
    ensures i <= k <= |s|
    ensures forall m :: i <= m < k ==> IsWhitespace(s[m])
    ensures k == |s| || !IsWhitespace(s[k])
    decreases |s| - i
  {
    if i < |s| && IsWhitespace(s[i]) then SkipLeading(s, i + 1) else i
  }

  /**
   * Moving the end `j` back over whitespace, but not below `lo`: the end of
   * the last non-whitespace character of `s[lo..j]`, or `lo`.
   */
  function SkipTrailing(s: string, lo: nat, j: nat): (k: nat)
    requires lo <= j <= |s|
    ensures lo <= k <= j
    ensures forall m :: k <= m < j ==> IsWhitespace(s[m])
    ensures k == lo || !IsWhitespace(s[k - 1])
    decreases j
  {
    if j > lo && IsWhitespace(s[j - 1]) then SkipTrailing(s, lo, j - 1) else j
  }

  /** `s.trim()` */
  function Trim(s: string): (r: string)
    ensures IsTrimmed(r)
    ensures |r| <= |s|
    ensures forall c :: c in r ==> c in s
    ensures IsTrimmed(s) ==> r == s
    ensures r == "" <==> AllWhitespace(s)
  {
    var i := SkipLeading(s, 0);
    var j := SkipTrailing(s, i, |s|);
    assert IsTrimmed(s) && |s| > 0 ==> i == 0 && j == |s|;
    s[i..j]
  }

  /** `trim` removes only surrounding whitespace: its result is one contiguous slice of the input */
  lemma TrimIsSlice(s: string)
    ensures exists i, j :: 0 <= i <= j <= |s| && Trim(s) == s[i..j] && AllWhitespace(s[..i]) && AllWhitespace(s[j..])
  {
    var i := SkipLeading(s, 0);
    var j := SkipTrailing(s, i, |s|);
    assert AllWhitespace(s[..i]) by {
      forall m | 0 <= m < i ensures IsWhitespace(s[..i][m]) {
        assert s[..i][m] == s[m];
      }
    }
    assert AllWhitespace(s[j..]) by {
      forall m | 0 <= m < |s| - j ensures IsWhitespace(s[j..][m]) {
        assert s[j..][m] == s[j + m];
      }
    }
  }

  /**
   * `trim` is exactly the removal of surrounding whitespace: trimmed text
   * wrapped in any whitespace padding trims back to itself.
   */
  lemma TrimStripsPadding(pre: string, core: string, post: string)
    requires AllWhitespace(pre) && AllWhitespace(post) && IsTrimmed(core)
    ensures Trim(pre + core + post) == core
  {
    var x := pre + core + post;
    if core == "" {
      assert x == pre + post;
      assert AllWhitespace(x);
    } else {
      var a, b := |pre|, |pre| + |core|;
      assert forall m :: 0 <= m < a ==> x[m] == pre[m];
      assert forall m :: b <= m < |x| ==> x[m] == post[m - b];
      assert x[a] == core[0] && x[b - 1] == core[|core| - 1];
      var i := SkipLeading(x, 0);
      assert i == a;
      var j := SkipTrailing(x, i, |x|);
      assert j == b;
      assert x[a..b] == core;
    }
  }

  /** `lines.join('\n')` */
  function Join(lines: seq<string>): (r: string)
    decreases |lines|
  {
    if |lines| == 0 then ""
    else if |lines| == 1 then lines[0]
    else lines[0] + "\n" + Join(lines[1..])
  }

  /** Joining lines of whitespace only with '\n' gives whitespace only */
  lemma {:induction false} JoinAllWhitespace(lines: seq<string>)
    requires forall i :: 0 <= i < |lines| ==> AllWhitespace(lines[i])
    ensures AllWhitespace(Join(lines))
    decreases |lines|
  {
    if |lines| >= 2 {
      JoinAllWhitespace(lines[1..]);
      assert Join(lines) == lines[0] + "\n" + Join(lines[1..]);
    }
  }

  /** `s.indexOf(c)` for a character known to occur: the position of its first occurrence */
  function IndexOf(s: string, c: char): (i: nat)
    requires c in s
    ensures i < |s| && s[i] == c
    ensures c !in s[..i]
    decreases |s|
  {
    if s[0] == c then 0
    else
      assert c in s[1..] by { assert s == [s[0]] + s[1..]; }
      var j := IndexOf(s[1..], c);
      assert s[..j + 1] == [s[0]] + s[1..][..j];
      j + 1
  }

  /**
   * `s.split('\n')`: at least one piece, no piece holds a newline, and
   * joining the pieces with newlines gives back `s`.
   */
  function Split(s: string): (parts: seq<string>)
    ensures |parts| >= 1
    ensures forall i :: 0 <= i < |parts| ==> '\n' !in parts[i]
    ensures Join(parts) == s
    decreases |s|
  {
    if '\n' !in s then [s]
    else
      var i := IndexOf(s, '\n');
      var rest := Split(s[i + 1..]);
      var parts := [s[..i]] + rest;
      assert parts[1..] == rest;
      assert s == s[..i] + "\n" + s[i + 1..];
      parts
  }

  /** Splitting text that starts with a newline-free line followed by a newline */
  lemma SplitLine(a: string, t: string)
    requires '\n' !in a
    ensures Split(a + "\n" + t) == [a] + Split(t)
  {
    var s := a + "\n" + t;
    assert s[..|a|] == a && s[|a|] == '\n';
    assert s[|a| + 1..] == t;
  }

  /** Split undoes Join for any non-empty list of newline-free lines */
  lemma {:induction false} SplitJoin(lines: seq<string>)
    requires |lines| >= 1
    requires forall i :: 0 <= i < |lines| ==> '\n' !in lines[i]
    ensures Split(Join(lines)) == lines
    decreases |lines|
  {
    if |lines| > 1 {
      SplitJoin(lines[1..]);
      SplitLine(lines[0], Join(lines[1..]));
      assert [lines[0]] + lines[1..] == lines;
    }
  }

  /** Joining non-empty, trimmed lines gives trimmed text */
  lemma {:induction false} JoinTrimmed(lines: seq<string>)
    requires forall i :: 0 <= i < |lines| ==> lines[i] != "" && IsTrimmed(lines[i])
    ensures IsTrimmed(Join(lines))
    ensures |lines| >= 1 ==> |Join(lines)| >= 1 && Join(lines)[0] == lines[0][0]
    decreases |lines|
  {
    if |lines| >= 2 {
      JoinTrimmed(lines[1..]);
      var r := Join(lines[1..]);
      assert Join(lines) == lines[0] + "\n" + r;
      assert Join(lines)[|Join(lines)| - 1] == r[|r| - 1];
    }
  }
}
