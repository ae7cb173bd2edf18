/**
 * The pieces of PHP's and Python's string library that the harness relies on:
 * lower-casing, basename and extension, decimal rendering, line splitting and
 * substring replacement.
 */
module Text {

  /** ASCII lower-casing of one character (PHP 8's strtolower is ASCII-only). */
  function Lower(c: char): char {
    if 'A' <= c <= 'Z' then (c as int + 32) as char else c
  }

  function LowerStr(s: string): (r: string)
    ensures |r| == |s|
    ensures forall i :: 0 <= i < |s| ==> r[i] == Lower(s[i])
  {
    seq(|s|, i requires 0 <= i < |s| => Lower(s[i]))
  }

  /**
   * strtolower leaves no upper-case letter, turns each one into a lower-case
   * letter, keeps every other character, and changes nothing when applied again.
   */
  lemma LowerStrLowers(s: string)
    ensures forall i :: 0 <= i < |s| ==> !('A' <= LowerStr(s)[i] <= 'Z')
    ensures forall i :: 0 <= i < |s| && 'A' <= s[i] <= 'Z' ==> 'a' <= LowerStr(s)[i] <= 'z'
    ensures forall i :: 0 <= i < |s| && !('A' <= s[i] <= 'Z') ==> LowerStr(s)[i] == s[i]
    ensures LowerStr(LowerStr(s)) == LowerStr(s)
  {
  }

  /** Position of the first occurrence of `c` in `s`, or -1. */
  function IndexOf(s: string, c: char): (k: int)
    ensures -1 <= k < |s|
    ensures k >= 0 ==> s[k] == c
  {
    if s == [] then -1
    else if s[0] == c then 0
    else
      var k := IndexOf(s[1..], c);
      if k < 0 then -1 else k + 1
  }

  /** No occurrence of `c` precedes the one IndexOf finds. */
  lemma {:induction false} IndexOfIsFirst(s: string, c: char)
    ensures var k := IndexOf(s, c);
      forall j :: 0 <= j < |s| && (k < 0 || j < k) ==> s[j] != c
  {
    if s != [] && s[0] != c {
      IndexOfIsFirst(s[1..], c);
      assert forall j :: 1 <= j < |s| ==> s[j] == s[1..][j - 1];
    }
  }

  /**
   * The last path component: PHP's basename() and Python's Path.name for a file path.
   * A path ending in '/' gives "" here, where both libraries would first strip the
   * trailing slashes; the checkers only ever pass paths of regular files.
   */
  function Basename(path: string): string
    decreases |path|
  {
    if path == [] || path[|path| - 1] == '/' then []
    else Basename(path[..|path| - 1]) + [path[|path| - 1]]
  }

  /** The basename is the longest suffix of the path free of '/'. */
  lemma {:induction false} BasenameIsLastComponent(path: string)
    ensures var name := Basename(path);
      && '/' !in name
      && |name| <= |path| && name == path[|path| - |name|..]
      && (|name| < |path| ==> path[|path| - |name| - 1] == '/')
    decreases |path|
  {
    if path != [] && path[|path| - 1] != '/' {
      var front := path[..|path| - 1];
      BasenameIsLastComponent(front);
      assert path == front + [path[|path| - 1]];
    }
  }

  lemma {:induction false} BasenameWithoutSlash(path: string)
    requires '/' !in path
    ensures Basename(path) == path
    decreases |path|
  {
    if path != [] {
      var front := path[..|path| - 1];
      assert '/' !in front by {
        assert forall c :: c in front ==> c in path;
      }
      BasenameWithoutSlash(front);
      assert path == front + [path[|path| - 1]];
    }
  }

  /** SplFileInfo::getExtension(): what follows the last '.' of the name, or "". */
  function Extension(name: string): string {
    var (found, ext) := AfterLastDot(name);
    if found then ext else []
  }

  /** Whether `s` holds a '.', and what follows the last one. */
  function AfterLastDot(s: string): (bool, string) {
    if s == [] then (false, [])
    else if s[|s| - 1] == '.' then (true, [])
    else
      var (found, ext) := AfterLastDot(s[..|s| - 1]);
      (found, ext + [s[|s| - 1]])
  }

  /** The extension is the '.'-free suffix that follows a '.', or "" when there is no '.'. */
  lemma {:induction false} AfterLastDotIsSuffix(s: string)
    ensures var (found, ext) := AfterLastDot(s);
      && '.' !in ext
      && |ext| <= |s| && ext == s[|s| - |ext|..]
      && (found ==> |ext| < |s| && s[|s| - |ext| - 1] == '.')
      && (!found ==> '.' !in s)
  {
    if s != [] && s[|s| - 1] != '.' {
      var front := s[..|s| - 1];
      AfterLastDotIsSuffix(front);
      assert s == front + [s[|s| - 1]];
    }
  }

  /** A '.' at `k` with none after it ends the search there. */
  lemma {:induction false} AfterLastDotAt(s: string, k: nat)
    requires k < |s| && s[k] == '.'
    requires forall j :: k < j < |s| ==> s[j] != '.'
    ensures AfterLastDot(s) == (true, s[k + 1..])
  {
    if k < |s| - 1 {
      var front := s[..|s| - 1];
      AfterLastDotAt(front, k);
      assert s[k + 1..] == front[k + 1..] + [s[|s| - 1]];
    }
  }

  function Digit(d: nat): char
    requires d < 10
  {
    ('0' as int + d) as char
  }

  /** Decimal rendering of a natural number, as string interpolation prints it. */
  function Decimal(n: nat): (r: string)
    ensures r != []
    ensures forall i :: 0 <= i < |r| ==> '0' <= r[i] <= '9'
  {
    if n < 10 then [Digit(n)] else Decimal(n / 10) + [Digit(n % 10)]
  }

  /** The number a string of decimal digits denotes, most significant digit first. */
  function DigitsValue(s: string): nat
    requires forall i :: 0 <= i < |s| ==> '0' <= s[i] <= '9'
  {
    if s == [] then 0 else DigitsValue(s[..|s| - 1]) * 10 + (s[|s| - 1] as int - '0' as int)
  }

  /** The rendering reads back as the number it renders. */
  lemma {:induction false} DecimalValue(n: nat)
    ensures DigitsValue(Decimal(n)) == n
  {
    if n >= 10 {
      DecimalValue(n / 10);
      var r := Decimal(n);
      assert r[..|r| - 1] == Decimal(n / 10);
    }
  }

  /** Different numbers are rendered differently, so a rendered count determines the count. */
  lemma DecimalInjective(m: nat, n: nat)
    requires Decimal(m) == Decimal(n)
    ensures m == n
  {
    DecimalValue(m);
    DecimalValue(n);
  }

  /** Decimal rendering of an integer with a leading '-' when negative. */
  function IntToString(i: int): string {
    if i < 0 then "-" + Decimal(-i) else Decimal(i)
  }

  /** str_repeat / Python's string multiplication. */
  function Repeat(c: char, n: nat): (r: string)
    ensures |r| == n
    ensures forall i :: 0 <= i < n ==> r[i] == c
  {
    seq(n, _ => c)
  }

  /** Writing each line followed by "\n", as the reports are written. */
  function UnLines(lines: seq<string>): string {
    if lines == [] then "" else lines[0] + "\n" + UnLines(lines[1..])
  }

  /** Reading text back as its lines; a last line without "\n" still counts. */
  function SplitLines(s: string): seq<string>
    decreases |s|
  {
    if s == [] then []
    else
      var k := IndexOf(s, '\n');
      if k < 0 then [s] else [s[..k]] + SplitLines(s[k + 1..])
  }

  predicate NoNewline(s: string) {
    '\n' !in s
  }

  lemma NewlineFoundAfter(a: string, b: string)
    requires NoNewline(a)
    ensures IndexOf(a + "\n" + b, '\n') == |a|
  {
    var s := a + "\n" + b;
    assert s[|a|] == '\n';
    assert forall j :: 0 <= j < |a| ==> s[j] == a[j];
    IndexOfIsFirst(s, '\n');
  }

  lemma SplitLinesAt(s: string, k: nat)
    requires k < |s| && IndexOf(s, '\n') == k
    ensures SplitLines(s) == [s[..k]] + SplitLines(s[k + 1..])
  {
  }

  /** Lines written with UnLines read back unchanged. */
  lemma {:induction false} SplitUnLines(lines: seq<string>)
    requires forall i :: 0 <= i < |lines| ==> NoNewline(lines[i])
    ensures SplitLines(UnLines(lines)) == lines
  {
    if lines != [] {
      var rest := UnLines(lines[1..]);
      var s := UnLines(lines);
      assert s == lines[0] + "\n" + rest;
      NewlineFoundAfter(lines[0], rest);
      SplitLinesAt(s, |lines[0]|);
      assert s[..|lines[0]|] == lines[0];
      assert s[|lines[0]| + 1..] == rest;
      SplitUnLines(lines[1..]);
    }
  }

  predicate HasPrefix(s: string, prefix: string) {
    |prefix| <= |s| && s[..|prefix|] == prefix
  }

  /** Python's `pat in s`. */
  predicate Contains(s: string, pat: string) {
    exists i :: 0 <= i <= |s| && HasPrefix(s[i..], pat)
  }

  /** Python's str.replace: every non-overlapping occurrence, scanning left to right. */
  function ReplaceAll(s: string, pat: string, rep: string): string
    requires pat != []
    decreases |s|
  {
    if |s| < |pat| then s
    else if s[..|pat|] == pat then rep + ReplaceAll(s[|pat|..], pat, rep)
    else [s[0]] + ReplaceAll(s[1..], pat, rep)
  }

  /** `sep.join(parts)`. */
  function Join(parts: seq<string>, sep: string): string {
    if parts == [] then ""
    else if |parts| == 1 then parts[0]
    else parts[0] + sep + Join(parts[1..], sep)
  }

  lemma {:induction false} ReplaceAllAbsent(s: string, pat: string, rep: string)
    requires pat != [] && !Contains(s, pat)
    ensures ReplaceAll(s, pat, rep) == s
    decreases |s|
  {
    if |s| >= |pat| {
      assert s[0..] == s;
      assert !HasPrefix(s[0..], pat);
      forall i | 0 <= i <= |s[1..]|
        ensures !HasPrefix(s[1..][i..], pat)
      {
        assert s[1..][i..] == s[i + 1..];
      }
      ReplaceAllAbsent(s[1..], pat, rep);
      assert [s[0]] + s[1..] == s;
    }
  }

  /** No occurrence of a pattern in a text means none in the text without its first character. */
  lemma AbsentFromTail(a: string, pat: string)
    requires a != [] && !Contains(a, pat)
    ensures !Contains(a[1..], pat)
  {
    forall i | 0 <= i <= |a[1..]|
      ensures !HasPrefix(a[1..][i..], pat)
    {
      assert a[1..][i..] == a[i + 1..];
    }
  }

  /**
   * No occurrence starts at the front of a non-empty text free of the pattern and
   * followed by an occurrence (or by nothing), when the pattern's first character
   * does not recur in it.
   */
  lemma NoOccurrenceAtFront(a: string, rest: string, pat: string)
    requires pat != [] && pat[0] !in pat[1..]
    requires a != [] && !Contains(a, pat)
    requires rest == [] || HasPrefix(rest, pat)
    requires |a + rest| >= |pat|
    ensures (a + rest)[..|pat|] != pat
  {
    var s := a + rest;
    if |a| >= |pat| {
      assert !HasPrefix(a[0..], pat);
      assert a[0..][..|pat|] == s[..|pat|];
    } else {
      assert s[..|pat|][|a|] == rest[0] == pat[0];
      assert pat[|a|] == pat[1..][|a| - 1];
      assert s[..|pat|][|a|] != pat[|a|];
    }
  }

  /**
   * A text holding no occurrence of a pattern whose first character does not recur
   * in it, followed by an occurrence (or by nothing): no occurrence starts inside
   * the text, so it is copied as it is.
   */
  lemma {:induction false} ReplaceAllPassesText(a: string, rest: string, pat: string, rep: string)
    requires pat != [] && pat[0] !in pat[1..]
    requires !Contains(a, pat)
    requires rest == [] || HasPrefix(rest, pat)
    ensures ReplaceAll(a + rest, pat, rep) == a + ReplaceAll(rest, pat, rep)
    decreases |a|
  {
    var s := a + rest;
    if a == [] {
      assert s == rest;
    } else if |s| < |pat| {
      assert s == a;
    } else {
      NoOccurrenceAtFront(a, rest, pat);
      AbsentFromTail(a, pat);
      assert s[1..] == a[1..] + rest;
      calc {
        ReplaceAll(s, pat, rep);
        [s[0]] + ReplaceAll(a[1..] + rest, pat, rep);
        { ReplaceAllPassesText(a[1..], rest, pat, rep); }
        [a[0]] + (a[1..] + ReplaceAll(rest, pat, rep));
        { assert [a[0]] + a[1..] == a; }
        a + ReplaceAll(rest, pat, rep);
      }
    }
  }

  /**
   * Replacing the separator of a join whose parts hold no occurrence of it puts
   * the replacement in every slot, when the separator's first character does not
   * recur in it (so no occurrence can straddle a part and a separator).
   */
  lemma {:induction false} ReplaceAllJoin(parts: seq<string>, pat: string, rep: string)
    requires pat != [] && pat[0] !in pat[1..]
    requires forall i :: 0 <= i < |parts| ==> !Contains(parts[i], pat)
    ensures ReplaceAll(Join(parts, pat), pat, rep) == Join(parts, rep)
  {
    if |parts| == 1 {
      ReplaceAllAbsent(parts[0], pat, rep);
    } else if |parts| > 1 {
      var tail := Join(parts[1..], pat);
      assert Join(parts, pat) == parts[0] + (pat + tail);
      assert (pat + tail)[..|pat|] == pat;
      ReplaceAllPassesText(parts[0], pat + tail, pat, rep);
      assert (pat + tail)[|pat|..] == tail;
      ReplaceAllJoin(parts[1..], pat, rep);
    }
  }

  /** Replacing an occurrence that is there puts the replacement in the result. */
  lemma {:induction false} ReplaceAllInserts(s: string, pat: string, rep: string)
    requires pat != [] && Contains(s, pat)
    ensures Contains(ReplaceAll(s, pat, rep), rep)
    decreases |s|
  {
    var i :| 0 <= i <= |s| && HasPrefix(s[i..], pat);
    var r := ReplaceAll(s, pat, rep);
    if s[..|pat|] == pat {
      assert r[0..][..|rep|] == rep;
    } else {
      assert i != 0;
      assert s[1..][i - 1..] == s[i..];
      ReplaceAllInserts(s[1..], pat, rep);
      var rest := ReplaceAll(s[1..], pat, rep);
      var j :| 0 <= j <= |rest| && HasPrefix(rest[j..], rep);
      assert r == [s[0]] + rest;
      assert r[j + 1..] == rest[j..];
    }
  }

  lemma JoinContains(parts: seq<string>, sep: string)
    requires |parts| >= 2
    ensures Contains(Join(parts, sep), sep)
  {
    var s := Join(parts, sep);
    assert s == parts[0] + (sep + Join(parts[1..], sep));
    assert s[|parts[0]|..] == sep + Join(parts[1..], sep);
    assert HasPrefix(s[|parts[0]|..], sep);
  }
}
