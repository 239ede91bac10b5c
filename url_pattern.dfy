/**
 * The URL validator: the regular expression
 *
 *   ^(?:http(s)?:\/\/)?[\w.-]+(?:\.[\w\.-]+)+[\w\-\._~:/?#[\]@!\$&'\(\)\*\+,;=.]+$
 *
 * with the flags `g` and `m`, and `RegExp.prototype.test` on it.
 *
 * `Matches` is the language of the pattern between its anchors, written as the
 * pattern reads; `Accepts` decides it; `Test` is one call of `test`, which with
 * the `g` flag reads and writes the expression's `lastIndex`, and with the `m`
 * flag lets `^` and `$` stand at line boundaries.
 */
module UrlPattern {
  import opened Optional

  // ---------------------------------------------------------------------------
  // Character classes
  // ---------------------------------------------------------------------------

  /** `\w`: ASCII letters, digits and the underscore. */
  predicate IsWordChar(c: char) {
    ('a' <= c <= 'z') || ('A' <= c <= 'Z') || ('0' <= c <= '9') || c == '_'
  }

  /** The class `[\w.-]` of the host runs. */
  predicate IsHostChar(c: char) {
    IsWordChar(c) || c == '.' || c == '-'
  }

  /** The final class: `\w` and `- . _ ~ : / ? # [ ] @ ! $ & ' ( ) * + , ; =`. */
  predicate IsTailChar(c: char) {
    IsHostChar(c) || c == '~' || c == ':' || c == '/' || c == '?' || c == '#' || c == '[' || c == ']'
    || c == '@' || c == '!' || c == '$' || c == '&' || c == '\'' || c == '(' || c == ')' || c == '*'
    || c == '+' || c == ',' || c == ';' || c == '='
  }

  /** The line terminators at which `^` and `$` match under the `m` flag. */
  predicate IsLineTerminator(c: char) {
    c == '\n' || c == '\r' || c == '\U{2028}' || c == '\U{2029}'
  }

  predicate AllHost(s: string) {
    forall k :: 0 <= k < |s| ==> IsHostChar(s[k])
  }

  predicate AllTail(s: string) {
    forall k :: 0 <= k < |s| ==> IsTailChar(s[k])
  }

  predicate SingleLine(s: string) {
    forall k :: 0 <= k < |s| ==> !IsLineTerminator(s[k])
  }

  // ---------------------------------------------------------------------------
  // The language of the pattern
  // ---------------------------------------------------------------------------

  /** The optional group `(?:http(s)?:\/\/)?`. */
  predicate IsScheme(p: string) {
    p == "" || p == "http://" || p == "https://"
  }

  /** One run `[\w.-]+`. */
  predicate IsRun(r: string) {
    |r| > 0 && AllHost(r)
  }

  /** The repeated groups `(?:\.[\w\.-]+)`, one per run, concatenated. */
  function Dotted(runs: seq<string>): string {
    if runs == [] then "" else "." + runs[0] + Dotted(runs[1..])
  }

  /** `[\w.-]+(?:\.[\w\.-]+)+`: a run followed by one or more dotted runs. */
  ghost predicate IsHostPart(h: string) {
    exists first: string, runs: seq<string> ::
      IsRun(first) && |runs| > 0 && (forall k :: 0 <= k < |runs| ==> IsRun(runs[k])) && h == first + Dotted(runs)
  }

  /** The whole pattern between `^` and `$`: scheme, host part, one or more final-class characters. */
  ghost predicate Matches(s: string): (m: bool)
    ensures m ==> |s| >= 4 && '.' in s
  {
    exists scheme: string, host: string, tail: string ::
      IsScheme(scheme) && IsHostPart(host) && |tail| > 0 && AllTail(tail) && s == scheme + host + tail
  }

  /**
   * Decides the part after the scheme: every character is in the final class,
   * and some `.` at index i >= 1 has a run before it and one host character
   * after it, with at least one character left for the final class.
   */
  predicate BodyAccepts(b: string) {
    AllTail(b) && exists i :: 1 <= i <= |b| - 3 && b[i] == '.' && AllHost(b[..i + 2])
  }

  /** Decides `Matches`: the body with no scheme, after `http://` or after `https://`. */
  predicate Accepts(s: string): (ok: bool)
    ensures ok ==> |s| >= 4 && '.' in s
  {
    BodyAccepts(s)
    || (|s| >= 7 && s[..7] == "http://" && BodyAccepts(s[7..]))
    || (|s| >= 8 && s[..8] == "https://" && BodyAccepts(s[8..]))
  }

  lemma {:induction false} DottedIsHost(runs: seq<string>)
    requires forall k :: 0 <= k < |runs| ==> IsRun(runs[k])
    ensures AllHost(Dotted(runs))
    ensures |runs| > 0 ==> |Dotted(runs)| >= 2 && Dotted(runs)[0] == '.'
  {
    if runs != [] {
      DottedIsHost(runs[1..]);
      var d := Dotted(runs);
      var rest := Dotted(runs[1..]);
      assert d == "." + runs[0] + rest;
      forall k | 0 <= k < |d|
        ensures IsHostChar(d[k])
      {
        if k == 0 {
        } else if k <= |runs[0]| {
          assert d[k] == runs[0][k - 1];
        } else {
          assert d[k] == rest[k - 1 - |runs[0]|];
        }
      }
    }
  }

  /** A host part followed by a final-class tail is an accepted body. */
  lemma HostTailAccepted(host: string, tail: string)
    requires IsHostPart(host) && |tail| > 0 && AllTail(tail)
    ensures BodyAccepts(host + tail)
  {
    var first, runs :| IsRun(first) && |runs| > 0 && (forall k :: 0 <= k < |runs| ==> IsRun(runs[k]))
                       && host == first + Dotted(runs);
    DottedIsHost(runs);
    var d := Dotted(runs);
    var b := host + tail;
    var i := |first|;
    assert AllHost(host) by {
      forall k | 0 <= k < |host| ensures IsHostChar(host[k]) {
        if k < i { assert host[k] == first[k]; } else { assert host[k] == d[k - i]; }
      }
    }
    assert AllTail(b) by {
      forall k | 0 <= k < |b| ensures IsTailChar(b[k]) {
        if k < |host| { assert b[k] == host[k]; } else { assert b[k] == tail[k - |host|]; }
      }
    }
    assert b[i] == d[0] == '.';
    var pre := b[..i + 2];
    assert AllHost(pre) by {
      forall k | 0 <= k < |pre| ensures IsHostChar(pre[k]) {
        assert pre[k] == host[k];
      }
    }
    assert 1 <= i <= |b| - 3 && b[i] == '.' && AllHost(b[..i + 2]);
  }

  /** An accepted body splits into a host part and a final-class tail. */
  lemma BodySplit(b: string) returns (host: string, tail: string)
    requires BodyAccepts(b)
    ensures IsHostPart(host) && |tail| > 0 && AllTail(tail) && b == host + tail
  {
    var i :| 1 <= i <= |b| - 3 && b[i] == '.' && AllHost(b[..i + 2]);
    host, tail := b[..i + 2], b[i + 2..];
    var first := b[..i];
    var runs := [b[i + 1..i + 2]];
    assert AllHost(first) by {
      forall k | 0 <= k < i ensures IsHostChar(first[k]) { assert first[k] == b[..i + 2][k]; }
    }
    assert IsRun(runs[0]) by { assert runs[0][0] == b[..i + 2][i + 1]; }
    assert Dotted(runs) == "." + runs[0] + Dotted([]);
    assert host == first + Dotted(runs);
    assert IsRun(first) && |runs| > 0 && host == first + Dotted(runs);
    assert AllTail(tail) by {
      forall k | 0 <= k < |tail| ensures IsTailChar(tail[k]) { assert tail[k] == b[k + i + 2]; }
    }
  }

  /** A scheme followed by an accepted body is accepted. */
  lemma SchemeBodyAccepted(scheme: string, body: string)
    requires IsScheme(scheme) && BodyAccepts(body)
    ensures Accepts(scheme + body)
  {
    var s := scheme + body;
    if scheme == "http://" {
      assert s[..7] == scheme && s[7..] == body;
    } else if scheme == "https://" {
      assert s[..8] == scheme && s[8..] == body;
    } else {
      assert s == body;
    }
  }

  /** An accepted string is a scheme followed by an accepted body. */
  lemma AcceptsSplit(s: string) returns (scheme: string, body: string)
    requires Accepts(s)
    ensures IsScheme(scheme) && BodyAccepts(body) && s == scheme + body
  {
    if BodyAccepts(s) {
      scheme, body := "", s;
    } else if |s| >= 7 && s[..7] == "http://" && BodyAccepts(s[7..]) {
      scheme, body := "http://", s[7..];
      assert s == s[..7] + s[7..];
    } else {
      scheme, body := "https://", s[8..];
      assert s == s[..8] + s[8..];
    }
  }

  lemma MatchesAccepted(s: string)
    requires Matches(s)
    ensures Accepts(s)
  {
    var scheme, host, tail :| IsScheme(scheme) && IsHostPart(host) && |tail| > 0 && AllTail(tail)
                               && s == scheme + host + tail;
    HostTailAccepted(host, tail);
    assert s == scheme + (host + tail);
    SchemeBodyAccepted(scheme, host + tail);
  }

  lemma AcceptedMatches(s: string)
    requires Accepts(s)
    ensures Matches(s)
  {
    var scheme, body := AcceptsSplit(s);
    var host, tail := BodySplit(body);
    assert s == scheme + host + tail;
  }

  /** `Accepts` decides exactly the language of the pattern. */
  lemma AcceptsMatches(s: string)
    ensures Accepts(s) <==> Matches(s)
  {
    if Matches(s) {
      MatchesAccepted(s);
    }
    if Accepts(s) {
      AcceptedMatches(s);
    }
  }

  lemma SchemeIsTail(scheme: string)
    requires IsScheme(scheme)
    ensures AllTail(scheme)
  {
  }

  lemma AllTailConcat(a: string, b: string)
    requires AllTail(a) && AllTail(b)
    ensures AllTail(a + b)
  {
  }

  /**
   * Every string the pattern matches is at least four characters long, holds a
   * `.` and is made of final-class characters only (so no space and no line
   * terminator).
   */
  lemma MatchesShape(s: string)
    requires Matches(s)
    ensures |s| >= 4 && '.' in s && AllTail(s) && SingleLine(s)
  {
    AcceptsMatches(s);
    var scheme, body := AcceptsSplit(s);
    var i :| 1 <= i <= |body| - 3 && body[i] == '.' && AllHost(body[..i + 2]);
    assert body[i] in body;
    SchemeIsTail(scheme);
    AllTailConcat(scheme, body);
  }

  // ---------------------------------------------------------------------------
  // `test` with the `g` and `m` flags
  // ---------------------------------------------------------------------------

  /** `^` under `m`: at the start, or just after a line terminator. */
  predicate AtLineStart(s: string, p: nat)
    requires p <= |s|
  {
    p == 0 || IsLineTerminator(s[p - 1])
  }

  /** `$` under `m`: at the end, or just before a line terminator. */
  predicate AtLineEnd(s: string, e: nat)
    requires e <= |s|
  {
    e == |s| || IsLineTerminator(s[e])
  }

  /** The first line boundary at or after `p`. */
  function LineEnd(s: string, p: nat): (e: nat)
    requires p <= |s|
    ensures p <= e <= |s| && AtLineEnd(s, e)
    ensures forall k :: p <= k < e ==> !IsLineTerminator(s[k])
    decreases |s| - p
  {
    if p == |s| || IsLineTerminator(s[p]) then p else LineEnd(s, p + 1)
  }

  /**
   * One attempt of the matcher at position `p`: the end of the match, if any.
   * No character of the pattern is a line terminator, so a match from a line
   * start runs exactly to the end of that line (see `MatchAtIsAnchoredMatch`).
   */
  function MatchAt(s: string, p: nat): (r: Option<nat>)
    requires p <= |s|
    ensures r.Some? ==> p + 4 <= r.value <= |s|
  {
    var e := LineEnd(s, p);
    if AtLineStart(s, p) && Accepts(s[p..e]) then Some(e) else None
  }

  /** A boundary with no line terminator before it from `p` on is the line end of `p`. */
  lemma LineEndUnique(s: string, p: nat, e: nat)
    requires p <= e <= |s| && AtLineEnd(s, e)
    requires forall k :: p <= k < e ==> !IsLineTerminator(s[k])
    ensures LineEnd(s, p) == e
  {
  }

  /** `MatchAt(s, p)` finds `e` exactly when `s[p..e]` is anchored by `^` and `$` and matches. */
  lemma MatchAtIsAnchoredMatch(s: string, p: nat, e: nat)
    requires p <= e <= |s|
    ensures MatchAt(s, p) == Some(e) <==> AtLineStart(s, p) && AtLineEnd(s, e) && Matches(s[p..e])
  {
    AcceptsMatches(s[p..e]);
    if AtLineStart(s, p) && AtLineEnd(s, e) && Matches(s[p..e]) {
      MatchesShape(s[p..e]);
      assert forall k :: p <= k < e ==> s[k] == s[p..e][k - p];
      LineEndUnique(s, p, e);
    }
  }

  /** The matcher tried at `p`, `p + 1`, ..., `|s|` in turn: the end of the first match. */
  function SearchFrom(s: string, p: nat): (r: Option<nat>)
    requires p <= |s|
    ensures r.Some? ==> p + 4 <= r.value <= |s|
    decreases |s| - p
  {
    match MatchAt(s, p)
    case Some(e) => Some(e)
    case None => if p == |s| then None else SearchFrom(s, p + 1)
  }

  /** `SearchFrom` finds nothing exactly when no position from `p` on has a match. */
  lemma {:induction false} SearchFromNone(s: string, p: nat)
    requires p <= |s|
    ensures SearchFrom(s, p).None? <==> forall q :: p <= q <= |s| ==> MatchAt(s, q).None?
    decreases |s| - p
  {
    if MatchAt(s, p).None? && p < |s| {
      SearchFromNone(s, p + 1);
      assert SearchFrom(s, p) == SearchFrom(s, p + 1);
    }
  }

  /** What `SearchFrom` finds is the match at the first position from `p` on that has one. */
  lemma {:induction false} SearchFromFindsFirst(s: string, p: nat)
    requires p <= |s| && SearchFrom(s, p).Some?
    ensures exists q :: p <= q <= |s| && MatchAt(s, q) == SearchFrom(s, p)
                        && forall q' :: p <= q' < q ==> MatchAt(s, q').None?
    decreases |s| - p
  {
    if MatchAt(s, p).Some? {
      assert p <= p <= |s| && MatchAt(s, p) == SearchFrom(s, p);
    } else {
      assert p < |s| && SearchFrom(s, p) == SearchFrom(s, p + 1);
      SearchFromFindsFirst(s, p + 1);
      var q :| p + 1 <= q <= |s| && MatchAt(s, q) == SearchFrom(s, p + 1)
               && forall q' :: p + 1 <= q' < q ==> MatchAt(s, q').None?;
    }
  }

  /**
   * One call of `test` on the expression, whose `lastIndex` is `lastIndex`:
   * whether it matched, and the new `lastIndex` (the end of the match, or 0
   * after a failure; a `lastIndex` past the end fails at once).
   */
  function Test(lastIndex: nat, s: string): (r: (bool, nat))
    ensures r.0 ==> lastIndex + 4 <= r.1 <= |s|
    ensures !r.0 ==> r.1 == 0
  {
    if lastIndex > |s| then (false, 0)
    else match SearchFrom(s, lastIndex)
      case Some(e) => (true, e)
      case None => (false, 0)
  }

  /** `test` succeeds exactly when some line starting at or after `lastIndex` matches the pattern. */
  lemma TestFindsLine(lastIndex: nat, s: string)
    ensures Test(lastIndex, s).0 <==>
              exists p :: lastIndex <= p <= |s| && AtLineStart(s, p) && Matches(s[p..LineEnd(s, p)])
  {
    if lastIndex <= |s| {
      SearchFromNone(s, lastIndex);
      forall p | lastIndex <= p <= |s|
        ensures MatchAt(s, p).Some? <==> AtLineStart(s, p) && Matches(s[p..LineEnd(s, p)])
      {
        AcceptsMatches(s[p..LineEnd(s, p)]);
      }
    }
  }

  /** No position after the start of a single-line string is a line start, so no search from there finds anything. */
  lemma {:induction false} NoMatchAfterStart(s: string, p: nat)
    requires SingleLine(s) && 1 <= p <= |s|
    ensures SearchFrom(s, p) == None
    decreases |s| - p
  {
    assert !IsLineTerminator(s[p - 1]);
    if p < |s| {
      NoMatchAfterStart(s, p + 1);
    }
  }

  /** From `lastIndex` 0, `test` on a single-line string is the pattern, and a match ends at the end. */
  lemma TestFromStart(s: string)
    requires SingleLine(s)
    ensures Test(0, s) == if Matches(s) then (true, |s|) else (false, 0)
  {
    assert LineEnd(s, 0) == |s|;
    assert s[0..|s|] == s;
    AcceptsMatches(s);
    if 0 < |s| {
      NoMatchAfterStart(s, 1);
    }
  }

  /** From any `lastIndex` above 0, `test` on a single-line string fails and resets `lastIndex`. */
  lemma RetestFails(lastIndex: nat, s: string)
    requires SingleLine(s) && lastIndex > 0
    ensures Test(lastIndex, s) == (false, 0)
  {
    if lastIndex <= |s| {
      NoMatchAfterStart(s, lastIndex);
    }
  }

  /**
   * As written, with the `g` flag: once a value has passed, the next `test`
   * of any single-line value (valid or not, the same or another) fails.
   */
  lemma SecondTestFails(s: string, t: string)
    requires SingleLine(s) && SingleLine(t) && Matches(s)
    ensures Test(0, s) == (true, |s|)
    ensures Test(Test(0, s).1, t) == (false, 0)
  {
    TestFromStart(s);
    MatchesShape(s);
    RetestFails(|s|, t);
  }

  /**
   * The validation as evidently intended: the same expression without the
   * `g` flag, which starts every `test` at index 0 and keeps no state.
   */
  function Validate(s: string): (ok: bool)
    ensures SingleLine(s) ==> (ok <==> Matches(s))
  {
    var r := Test(0, s);
    assert SingleLine(s) ==> (r.0 <==> Matches(s)) by {
      if SingleLine(s) { TestFromStart(s); }
    }
    r.0
  }

  /** A validated value holds a matching line, so it is at least four characters long and holds a `.`. */
  lemma ValidatedShape(s: string)
    requires Validate(s)
    ensures |s| >= 4 && '.' in s
  {
    TestFindsLine(0, s);
    var p :| 0 <= p <= |s| && AtLineStart(s, p) && Matches(s[p..LineEnd(s, p)]);
    var line := s[p..LineEnd(s, p)];
    MatchesShape(line);
    var k :| 0 <= k < |line| && line[k] == '.';
    assert s[p + k] == '.';
  }

  /**
   * What validation rejects: the empty string, a string without `.`, a string
   * shorter than four characters and, when it is one line, a string holding a
   * space.
   */
  lemma ValidateRejects(s: string)
    ensures s == "" ==> !Validate(s)
    ensures '.' !in s ==> !Validate(s)
    ensures Validate(s) ==> |s| >= 4
    ensures SingleLine(s) && ' ' in s ==> !Validate(s)
  {
    if Validate(s) {
      ValidatedShape(s);
      if SingleLine(s) {
        MatchesShape(s);
        assert !IsTailChar(' ');
      }
    }
  }

  /** The `m` flag lets a value through when some other line of it is valid. */
  lemma OtherLineAccepted()
    ensures ' ' in "a b\nexample.com" && Validate("a b\nexample.com")
  {
    var s := "a b\nexample.com";
    var line := "example.com";
    assert s[4..] == line;
    assert SingleLine(line);
    ExampleAccepted();
    assert LineEnd(s, 4) == |s|;
    TestFindsLine(0, s);
    assert AtLineStart(s, 4) && Matches(s[4..LineEnd(s, 4)]);
  }

  /** Two values the pattern accepts. */
  lemma ExampleAccepted()
    ensures Matches("example.com")
  {
    var b := "example.com";
    assert b[7] == '.' && b[..9] == "example.c";
    assert AllHost(b[..9]);
    assert BodyAccepts(b);
    SchemeBodyAccepted("", b);
    assert "" + b == b;
    AcceptedMatches(b);
  }

  lemma ExamplePathAccepted()
    ensures Matches("https://example.com/path?x=1")
  {
    var host, path := "example.com", "/path?x=1";
    assert AllHost(host);
    assert AllTail(host);
    assert AllTail(path);
    AllTailConcat(host, path);
    var c := host + path;
    assert c[7] == '.' && c[..9] == host[..9];
    assert AllHost(c[..9]);
    assert BodyAccepts(c);
    SchemeBodyAccepted("https://", c);
    assert "https://" + c == "https://example.com/path?x=1";
    AcceptedMatches("https://example.com/path?x=1");
  }
}
