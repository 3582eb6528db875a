/**
 * `getPrefix(fPath, cwd)`: the namespace prefix derived from a module's
 * relative path. The source applies
 *   `fPath.replace(/^[\/]?(.+?)(?:\/default)?(?:\.js)?$/, '$1')`
 * and then collapses every run of backslashes into one `/`.
 */
module Prefix {

  /** The characters JavaScript's regular-expression `.` does not match. */
  predicate IsLineTerminator(c: char) {
    c == '\n' || c == '\r' || c == '\U{2028}' || c == '\U{2029}'
  }

  predicate HasLineTerminator(s: string) {
    exists i :: 0 <= i < |s| && IsLineTerminator(s[i])
  }

  predicate EndsWith(s: string, suffix: string) {
    |suffix| <= |s| && s[|s| - |suffix|..] == suffix
  }

  /** The tails that `(?:\/default)?(?:\.js)?$` accepts. */
  predicate IsRemovableSuffix(u: string) {
    u == "" || u == ".js" || u == "/default" || u == "/default.js"
  }

  /**
   * The lazy group `(.+?)` of `t`, trying cut points from `k` upward: the
   * first cut whose tail the optional suffixes accept. The result is the
   * SHORTEST prefix of `t` of length at least `k` whose tail is removable.
   */
  function LazyCapture(t: string, k: nat): (r: string)
    requires 1 <= k <= |t|
    ensures k <= |r| <= |t|
    decreases |t| - k
  {
    if IsRemovableSuffix(t[k..]) then t[..k] else LazyCapture(t, k + 1)
  }

  /**
   * The capture is a prefix of `t` whose tail is removable, and no cut
   * between `k` and it leaves a removable tail.
   */
  lemma {:induction false} LazyCaptureCuts(t: string, k: nat)
    requires 1 <= k <= |t|
    ensures var r := LazyCapture(t, k);
      r == t[..|r|] && IsRemovableSuffix(t[|r|..]) &&
      forall j :: k <= j < |r| ==> !IsRemovableSuffix(t[j..])
    decreases |t| - k
  {
    if !IsRemovableSuffix(t[k..]) {
      LazyCaptureCuts(t, k + 1);
    }
  }

  /**
   * The first replace: the whole input when the pattern does not match
   * (the empty string, or a line terminator anywhere), otherwise the capture.
   * The optional `[\/]?` takes a leading `/` only when a character remains
   * for the capture; for the input "/" the engine backtracks and captures "/".
   */
  function StripPattern(s: string): (r: string)
    ensures |r| <= |s|
    ensures |s| == 0 || HasLineTerminator(s) ==> r == s
    ensures |s| >= 1 && !HasLineTerminator(s) ==> 1 <= |r| <= |Body(s)|
  {
    if |s| == 0 || HasLineTerminator(s) then s
    else if s[0] == '/' && |s| >= 2 then LazyCapture(s[1..], 1)
    else LazyCapture(s, 1)
  }

  /** The part of `s` left after `[\/]?`: one leading `/` dropped when something follows it. */
  function Body(s: string): (t: string)
    requires |s| >= 1
    ensures |t| >= 1
  {
    if s[0] == '/' && |s| >= 2 then s[1..] else s
  }

  /** `s` with the leading backslashes dropped. */
  function SkipBackslashes(s: string): (r: string)
    ensures |r| <= |s|
    ensures r == [] || r[0] != '\\'
  {
    if s != [] && s[0] == '\\' then SkipBackslashes(s[1..]) else s
  }

  /** The second replace, `.replace(/\\+/g, '/')`: each maximal run of backslashes becomes one `/`. */
  function CollapseBackslashes(s: string): (r: string)
    ensures |r| <= |s|
    ensures forall i :: 0 <= i < |r| ==> r[i] != '\\'
    decreases |s|
  {
    if s == [] then []
    else if s[0] == '\\' then "/" + CollapseBackslashes(SkipBackslashes(s[1..]))
    else [s[0]] + CollapseBackslashes(s[1..])
  }

  /** `getPrefix(fPath, cwd)`; `cwd` is accepted and ignored, as in the source. */
  function GetPrefix(fPath: string, cwd: string): (r: string)
    ensures forall i :: 0 <= i < |r| ==> r[i] != '\\'
  {
    CollapseBackslashes(StripPattern(fPath))
  }

  /** The reference definition: remove the longest of "/default.js", "/default", ".js" that leaves something. */
  function StripLongestSuffix(t: string): string
    requires |t| >= 1
  {
    if |t| > 11 && EndsWith(t, "/default.js") then t[..|t| - 11]
    else if |t| > 8 && EndsWith(t, "/default") then t[..|t| - 8]
    else if |t| > 3 && EndsWith(t, ".js") then t[..|t| - 3]
    else t
  }

  /** A string of `n` backslashes. */
  function Backslashes(n: nat): (r: string)
    ensures |r| == n && forall i :: 0 <= i < n ==> r[i] == '\\'
  {
    if n == 0 then [] else ['\\'] + Backslashes(n - 1)
  }

  /** The cut the reference definition makes is removable and no shorter non-empty cut is. */
  lemma StripLongestSuffixIsMinimalCut(t: string)
    requires |t| >= 1
    ensures var c := StripLongestSuffix(t);
      1 <= |c| <= |t| && c == t[..|c|] && IsRemovableSuffix(t[|c|..]) &&
      forall j :: 1 <= j < |c| ==> !IsRemovableSuffix(t[j..])
  {
    var c := StripLongestSuffix(t);
    forall j | 1 <= j < |c|
      ensures !IsRemovableSuffix(t[j..])
    {
      var u := t[j..];
      if u == "/default.js" {
        assert EndsWith(t, "/default.js");
      } else if u == "/default" {
        assert EndsWith(t, "/default");
      } else if u == ".js" {
        assert EndsWith(t, ".js");
      }
    }
  }

  /**
   * The regex engine's lazy search finds exactly the longest removable
   * suffix that leaves a non-empty capture.
   */
  lemma LazyCaptureIsStripLongestSuffix(t: string)
    requires |t| >= 1
    ensures LazyCapture(t, 1) == StripLongestSuffix(t)
  {
    var r := LazyCapture(t, 1);
    var c := StripLongestSuffix(t);
    LazyCaptureCuts(t, 1);
    StripLongestSuffixIsMinimalCut(t);
  }

  /**
   * Where the pattern matches, the first replace drops one leading `/` (when
   * something follows it) and then the longest removable suffix.
   */
  lemma StripPatternSpec(s: string)
    requires |s| >= 1 && !HasLineTerminator(s)
    ensures StripPattern(s) == StripLongestSuffix(Body(s))
  {
    LazyCaptureIsStripLongestSuffix(Body(s));
  }

  /** Where the pattern does not match, the first replace leaves its input alone. */
  lemma StripPatternNoMatch(s: string)
    requires |s| == 0 || HasLineTerminator(s)
    ensures StripPattern(s) == s
  {
  }

  /** A leading `/` before a path that does not itself start with `/` makes no difference. */
  lemma {:induction false} LeadingSlashIgnored(t: string)
    requires |t| >= 1 && t[0] != '/' && !HasLineTerminator(t)
    ensures GetPrefix("/" + t, "") == GetPrefix(t, "")
  {
    var s := "/" + t;
    assert s[1..] == t;
    assert !HasLineTerminator(s) by {
      forall i | 0 <= i < |s|
        ensures !IsLineTerminator(s[i])
      {
        if i > 0 { assert s[i] == t[i - 1]; }
      }
    }
  }

  /** A string without backslashes passes the second replace unchanged. */
  lemma {:induction false} CollapseWithoutBackslashes(s: string)
    requires forall i :: 0 <= i < |s| ==> s[i] != '\\'
    ensures CollapseBackslashes(s) == s
  {
    if s != [] {
      CollapseWithoutBackslashes(s[1..]);
    }
  }

  /** The second replace is idempotent. */
  lemma CollapseIdempotent(s: string)
    ensures CollapseBackslashes(CollapseBackslashes(s)) == CollapseBackslashes(s)
  {
    CollapseWithoutBackslashes(CollapseBackslashes(s));
  }

  /** A run of `n >= 1` backslashes followed by something else becomes exactly one `/`. */
  lemma CollapseLeadingRun(n: nat, rest: string)
    requires n >= 1
    requires rest == [] || rest[0] != '\\'
    ensures CollapseBackslashes(Backslashes(n) + rest) == "/" + CollapseBackslashes(rest)
  {
    var x := Backslashes(n) + rest;
    var tail := Backslashes(n - 1) + rest;
    assert x == ['\\'] + tail;
    assert x[0] == '\\' && x[1..] == tail;
    SkipRun(n - 1, rest);
    CollapseStep(x);
  }

  /** One unfolding of the second replace at a backslash. */
  lemma CollapseStep(s: string)
    requires s != [] && s[0] == '\\'
    ensures CollapseBackslashes(s) == "/" + CollapseBackslashes(SkipBackslashes(s[1..]))
  {
  }

  /** Text without backslashes passes through the second replace, and the run after it becomes one `/`. */
  lemma {:induction false} CollapseRun(plain: string, n: nat, rest: string)
    requires forall i :: 0 <= i < |plain| ==> plain[i] != '\\'
    requires n >= 1
    requires rest == [] || rest[0] != '\\'
    ensures CollapseBackslashes(plain + Backslashes(n) + rest) == plain + "/" + CollapseBackslashes(rest)
  {
    if plain == [] {
      assert plain + Backslashes(n) + rest == Backslashes(n) + rest;
      CollapseLeadingRun(n, rest);
    } else {
      var x := plain + Backslashes(n) + rest;
      var tail := plain[1..] + Backslashes(n) + rest;
      assert x[0] == plain[0] && x[1..] == tail;
      CollapseRun(plain[1..], n, rest);
      assert [plain[0]] + plain[1..] == plain;
    }
  }

  lemma {:induction false} SkipRun(n: nat, rest: string)
    requires rest == [] || rest[0] != '\\'
    ensures SkipBackslashes(Backslashes(n) + rest) == rest
  {
    if n > 0 {
      assert (Backslashes(n) + rest)[1..] == Backslashes(n - 1) + rest;
      SkipRun(n - 1, rest);
    } else {
      assert Backslashes(n) + rest == rest;
    }
  }

  /** "/default.js" goes in one piece: "foo/bar/default.js" gives "foo/bar". */
  lemma GetPrefixDropsDefaultJs(x: string)
    requires |x| >= 1 && x[0] != '/' && !HasLineTerminator(x)
    requires forall i :: 0 <= i < |x| ==> x[i] != '\\'
    ensures GetPrefix(x + "/default.js", "") == x
  {
    var s := x + "/default.js";
    assert !HasLineTerminator(s) by {
      forall i | 0 <= i < |s|
        ensures !IsLineTerminator(s[i])
      {
        if i < |x| { assert s[i] == x[i]; }
      }
    }
    StripPatternSpec(s);
    assert s[|s| - 11..] == "/default.js";
    assert s[..|s| - 11] == x;
    CollapseWithoutBackslashes(x);
  }

  /** ".js" alone goes when no "/default" precedes it. */
  lemma GetPrefixDropsJs(x: string)
    requires |x| >= 1 && x[0] != '/' && !HasLineTerminator(x) && !EndsWith(x, "/default")
    requires forall i :: 0 <= i < |x| ==> x[i] != '\\'
    ensures GetPrefix(x + ".js", "") == x
  {
    var s := x + ".js";
    assert !HasLineTerminator(s) by {
      forall i | 0 <= i < |s|
        ensures !IsLineTerminator(s[i])
      {
        if i < |x| { assert s[i] == x[i]; }
      }
    }
    StripPatternSpec(s);
    assert EndsWith(s, ".js") by { assert s[|s| - 3..] == ".js"; }
    JsAfterNonDefault(x);
    StripJsOnly(s);
    assert s[..|s| - 3] == x;
    CollapseWithoutBackslashes(x);
  }

  /** A text that does not end in "/default" does not end in "/default.js" once ".js" is appended. */
  lemma JsAfterNonDefault(x: string)
    requires !EndsWith(x, "/default")
    ensures !EndsWith(x + ".js", "/default.js")
  {
    var s := x + ".js";
    if |s| >= 11 {
      assert s[|s| - 11..|s| - 3] == x[|x| - 8..];
    }
  }

  /** "x.js" gives "x", and "/a/b" gives "a/b". */
  lemma GetPrefixJsAndSlash()
    ensures GetPrefix("x.js", "") == "x"
    ensures GetPrefix("/a/b", "") == "a/b"
  {
    StripPatternSpec("x.js");
    CollapseWithoutBackslashes("x");
    StripPatternSpec("/a/b");
    CollapseWithoutBackslashes("a/b");
  }

  /** "a\\b\\c.js" gives "a/b/c". */
  lemma GetPrefixBackslashes(s: string)
    requires s == "a\\b\\c.js"
    ensures GetPrefix(s, "") == "a/b/c"
  {
    assert !HasLineTerminator(s);
    StripPatternSpec(s);
    assert StripLongestSuffix(s) == "a" + Backslashes(1) + ("b" + Backslashes(1) + "c");
    CollapseRun("a", 1, "b" + Backslashes(1) + "c");
    CollapseRun("b", 1, "c");
    CollapseWithoutBackslashes("c");
  }

  lemma StripBeforeBackslashDefault(x: string)
    requires |x| >= 1 && x[0] != '/' && !HasLineTerminator(x)
    ensures StripPattern(x + "\\default.js") == x + "\\default"
  {
    var s := x + "\\default.js";
    BackslashDefaultJsShape(x);
    StripPatternSpec(s);
    StripJsOnly(s);
  }

  /** The shape of `x + "\\default.js"` that the first replace looks at. */
  lemma BackslashDefaultJsShape(x: string)
    requires |x| >= 1 && x[0] != '/' && !HasLineTerminator(x)
    ensures var s := x + "\\default.js";
      && s[0] != '/' && |s| > 3 && !HasLineTerminator(s)
      && EndsWith(s, ".js") && !EndsWith(s, "/default.js")
      && s[..|s| - 3] == x + "\\default"
  {
    var s := x + "\\default.js";
    assert !HasLineTerminator(s) by {
      forall i | 0 <= i < |s|
        ensures !IsLineTerminator(s[i])
      {
        if i < |x| { assert s[i] == x[i]; }
      }
    }
    assert EndsWith(s, ".js") by { assert s[|s| - 3..] == ".js"; }
    assert !EndsWith(s, "/default.js") by { assert s[|s| - 11] == '\\'; }
    assert s[..|s| - 3] == x + "\\default";
  }

  /** Text ending in ".js" but not in "/default.js" loses only the ".js". */
  lemma StripJsOnly(t: string)
    requires |t| > 3 && EndsWith(t, ".js") && !EndsWith(t, "/default.js")
    ensures StripLongestSuffix(t) == t[..|t| - 3]
  {
    assert !EndsWith(t, "/default") by { assert t[|t| - 1] == 's'; }
  }

  /** One backslash between two texts without backslashes becomes one `/`. */
  lemma CollapseOneBackslash(x: string, y: string)
    requires forall i :: 0 <= i < |x| ==> x[i] != '\\'
    requires forall i :: 0 <= i < |y| ==> y[i] != '\\'
    ensures CollapseBackslashes(x + "\\" + y) == x + "/" + y
  {
    assert Backslashes(1) == "\\";
    CollapseRun(x, 1, y);
    CollapseWithoutBackslashes(y);
  }

  /**
   * Backslashes are collapsed only after the suffixes are matched, so a
   * backslash before "default.js" keeps the "default": "a\\default.js"
   * gives "a/default", not "a".
   */
  lemma GetPrefixNormalisesAfterStripping(x: string)
    requires |x| >= 1 && x[0] != '/' && !HasLineTerminator(x)
    requires forall i :: 0 <= i < |x| ==> x[i] != '\\'
    ensures GetPrefix(x + "\\default.js", "") == x + "/default"
  {
    StripBeforeBackslashDefault(x);
    assert x + "\\default" == x + "\\" + "default";
    CollapseOneBackslash(x, "default");
  }

  /** A leading `/` goes only when something follows it, and only one goes. */
  lemma GetPrefixSlashes()
    ensures GetPrefix("/", "") == "/"
    ensures GetPrefix("//a", "") == "/a"
  {
    StripPatternSpec("/");
    CollapseWithoutBackslashes("/");
    StripPatternSpec("//a");
    CollapseWithoutBackslashes("/a");
  }
}
