/**
 * Python string primitives the scanner relies on: `str.isspace` (also the
 * meaning of `\s` in a `str` regular expression), `str.strip`, ASCII case
 * folding, and the two ways the scanner breaks text into lines:
 * `str.splitlines` and iterating over a file opened in text mode.
 */
module Strings {

  /** `str.isspace` for one character (Python's whitespace table). */
  predicate IsSpace(c: char)
  {
    || c == ' '
    || ('\t' <= c <= '\r')
    || ('\U{1C}' <= c <= '\U{1F}')
    || c == '\U{85}' || c == '\U{A0}' || c == '\U{1680}'
    || ('\U{2000}' <= c <= '\U{200A}')
    || c == '\U{2028}' || c == '\U{2029}' || c == '\U{202F}'
    || c == '\U{205F}' || c == '\U{3000}'
  }

  /** Line boundaries of `str.splitlines` (`\r\n` counts as one). */
  predicate IsLineBoundary(c: char)
  {
    || c == '\n' || c == '\r' || c == '\U{0B}' || c == '\U{0C}'
    || ('\U{1C}' <= c <= '\U{1E}')
    || c == '\U{85}' || c == '\U{2028}' || c == '\U{2029}'
  }

  /** Line boundaries of a text-mode file read with universal newlines. */
  predicate IsNewline(c: char)
  {
    c == '\n' || c == '\r'
  }

  /** The boundary set in use: all of `splitlines` when `all`, else newlines only. */
  predicate IsBreak(c: char, all: bool)
  {
    if all then IsLineBoundary(c) else IsNewline(c)
  }

  function AsciiLower(c: char): (r: char)
    ensures 'A' <= c <= 'Z' ==> 'a' <= r <= 'z'
    ensures !('A' <= c <= 'Z') ==> r == c
  {
    if 'A' <= c <= 'Z' then (c as int + 32) as char else c
  }

  /** Equality of two characters, up to ASCII case when `ignoreCase`. */
  predicate CharEq(c: char, p: char, ignoreCase: bool)
  {
    if ignoreCase then AsciiLower(c) == AsciiLower(p) else c == p
  }

  function Lower(s: string): (r: string)
    ensures |r| == |s|
    ensures forall k :: 0 <= k < |s| ==> r[k] == AsciiLower(s[k])
  {
    seq(|s|, k requires 0 <= k < |s| => AsciiLower(s[k]))
  }

  /** `s` starts with `lit`, comparing ASCII letters case-insensitively. */
  predicate PrefixIgnoreCase(s: string, lit: string)
  {
    |lit| <= |s| && forall k :: 0 <= k < |lit| ==> CharEq(s[k], lit[k], true)
  }

  predicate EqualsIgnoreCase(s: string, lit: string)
  {
    |s| == |lit| && PrefixIgnoreCase(s, lit)
  }

  predicate IsLowerAscii(lit: string)
  {
    forall k :: 0 <= k < |lit| ==> !('A' <= lit[k] <= 'Z')
  }

  /** For a lower-case literal, case-insensitive prefix means `s.lower().startswith(lit)`. */
  lemma PrefixIgnoreCaseIsLowerPrefix(s: string, lit: string)
    requires IsLowerAscii(lit)
    ensures PrefixIgnoreCase(s, lit) <==> (|lit| <= |s| && Lower(s)[..|lit|] == lit)
  {
    if PrefixIgnoreCase(s, lit) {
      assert forall k :: 0 <= k < |lit| ==> Lower(s)[..|lit|][k] == lit[k];
    }
    if |lit| <= |s| && Lower(s)[..|lit|] == lit {
      forall k | 0 <= k < |lit|
        ensures CharEq(s[k], lit[k], true)
      {
        assert Lower(s)[..|lit|][k] == AsciiLower(s[k]);
      }
    }
  }

  // ---------------------------------------------------------------------
  // str.strip()

  /** Number of leading whitespace characters. */
  function StripFrom(s: string): (a: nat)
    ensures a <= |s|
    decreases |s|
  {
    if s == [] || !IsSpace(s[0]) then 0 else 1 + StripFrom(s[1..])
  }

  /** Everything before `StripFrom(s)` is whitespace, and the character there is not. */
  lemma {:induction false} StripFromFacts(s: string)
    ensures forall k :: 0 <= k < StripFrom(s) ==> IsSpace(s[k])
    ensures StripFrom(s) < |s| ==> !IsSpace(s[StripFrom(s)])
    decreases |s|
  {
    if s != [] && IsSpace(s[0]) {
      StripFromFacts(s[1..]);
      assert forall k :: 1 <= k < StripFrom(s) ==> s[k] == s[1..][k - 1];
    }
  }

  /** End of the text once trailing whitespace at or after `lo` is dropped. */
  function StripTo(s: string, lo: nat): (b: nat)
    requires lo <= |s|
    ensures lo <= b <= |s|
    decreases |s|
  {
    if |s| == lo || !IsSpace(s[|s| - 1]) then |s| else StripTo(s[..|s| - 1], lo)
  }

  /** Everything from `StripTo(s, lo)` on is whitespace, and the character before it is not. */
  lemma {:induction false} StripToFacts(s: string, lo: nat)
    requires lo <= |s|
    ensures forall k :: StripTo(s, lo) <= k < |s| ==> IsSpace(s[k])
    ensures StripTo(s, lo) > lo ==> !IsSpace(s[StripTo(s, lo) - 1])
    decreases |s|
  {
    if |s| != lo && IsSpace(s[|s| - 1]) {
      StripToFacts(s[..|s| - 1], lo);
    }
  }

  /** `str.strip()` with no argument. */
  function Strip(s: string): (r: string)
  {
    var a := StripFrom(s);
    s[a..StripTo(s, a)]
  }

  predicate NoSurroundingSpace(s: string)
  {
    s != [] ==> !IsSpace(s[0]) && !IsSpace(s[|s| - 1])
  }

  /**
   * What `strip` promises: the result is the slice of `s` that remains once
   * every leading and trailing whitespace character is removed.
   */
  lemma StripIsTrimmedSlice(s: string)
    ensures var a, b := StripFrom(s), StripTo(s, StripFrom(s));
      && a <= b <= |s| && Strip(s) == s[a..b]
      && (forall k :: 0 <= k < a ==> IsSpace(s[k]))
      && (forall k :: b <= k < |s| ==> IsSpace(s[k]))
      && NoSurroundingSpace(Strip(s))
  {
    var a := StripFrom(s);
    var b := StripTo(s, a);
    StripFromFacts(s);
    StripToFacts(s, a);
    StripEnds(s);
    SliceEnds(s, a, b);
  }

  /** The kept stretch starts and ends on non-blank characters. */
  lemma StripEnds(s: string)
    ensures var a := StripFrom(s); var b := StripTo(s, a);
      a < b ==> !IsSpace(s[a]) && !IsSpace(s[b - 1])
  {
    StripFromFacts(s);
    StripToFacts(s, StripFrom(s));
  }

  /** A slice that starts and ends on non-blank characters has no surrounding space. */
  lemma SliceEnds(s: string, a: nat, b: nat)
    requires a <= b <= |s|
    requires a < b ==> !IsSpace(s[a]) && !IsSpace(s[b - 1])
    ensures NoSurroundingSpace(s[a..b])
  {
    if a < b {
      assert s[a..b][0] == s[a] && s[a..b][b - a - 1] == s[b - 1];
    }
  }

  /** `a` occurs in `b` as a contiguous stretch. */
  predicate IsSubstring(a: string, b: string)
  {
    exists i, j :: 0 <= i <= j <= |b| && b[i..j] == a
  }

  lemma StripIdempotent(s: string)
    ensures Strip(Strip(s)) == Strip(s)
  {
    var t := Strip(s);
    StripIsTrimmedSlice(s);
    if t != [] {
      assert StripFrom(t) == 0;
      assert StripTo(t, 0) == |t|;
    } else {
      assert Strip(t) == [];
    }
  }

  /** Whatever non-blank stretch of `s` there is, `strip` keeps it. */
  lemma StripKeepsInner(s: string, i: nat, j: nat)
    requires i < j <= |s|
    requires !IsSpace(s[i]) && !IsSpace(s[j - 1])
    ensures StripFrom(s) <= i && j <= StripTo(s, StripFrom(s))
  {
    StripFromFacts(s);
    StripToFacts(s, StripFrom(s));
  }

  /** A slice of a slice is the slice at the summed offsets `c == lo + a` and `d == lo + b`. */
  lemma SliceOfSlice(s: string, lo: nat, hi: nat, a: nat, b: nat, c: nat, d: nat)
    requires lo <= hi <= |s| && a <= b <= hi - lo && c == lo + a && d == lo + b
    ensures s[lo..hi][a..b] == s[c..d]
  {
    assert forall k :: 0 <= k < b - a ==> s[lo..hi][a..b][k] == s[c + k];
  }

  /** Stripping a window of `s` leaves a slice of `s`. */
  lemma StripWindowIsSlice(s: string, lo: nat, hi: nat)
    requires lo <= hi <= |s|
    ensures var w := s[lo..hi]; var a := StripFrom(w);
      Strip(w) == s[lo + a..lo + StripTo(w, a)]
  {
    var w := s[lo..hi];
    var a := StripFrom(w);
    var b := StripTo(w, a);
    SliceOfSlice(s, lo, hi, a, b, lo + a, lo + b);
  }

  lemma SliceIsSubstring(s: string, c: nat, d: nat)
    requires c <= d <= |s|
    ensures IsSubstring(s[c..d], s)
  {
  }

  lemma SliceInSlice(s: string, c: nat, d: nat, i: nat, j: nat)
    requires c <= i <= j <= d <= |s|
    ensures IsSubstring(s[i..j], s[c..d])
  {
    SliceOfSlice(s, c, d, i - c, j - c, i, j);
  }

  /**
   * Stripping a window of `s` keeps every stretch of the window that starts
   * and ends on a non-blank character; the result is a part of `s` no longer
   * than the window.
   */
  lemma StripWindow(s: string, lo: nat, hi: nat, i: nat, j: nat)
    requires lo <= i < j <= hi <= |s|
    requires !IsSpace(s[i]) && !IsSpace(s[j - 1])
    ensures IsSubstring(s[i..j], Strip(s[lo..hi]))
    ensures IsSubstring(Strip(s[lo..hi]), s)
    ensures |Strip(s[lo..hi])| <= hi - lo
  {
    var w := s[lo..hi];
    assert w[i - lo] == s[i] && w[j - lo - 1] == s[j - 1];
    StripKeepsInner(w, i - lo, j - lo);
    var a := StripFrom(w);
    var b := StripTo(w, a);
    StripWindowIsSlice(s, lo, hi);
    SliceInSlice(s, lo + a, lo + b, i, j);
    SliceIsSubstring(s, lo + a, lo + b);
  }

  // ---------------------------------------------------------------------
  // Line splitting

  /** Index of the first break character at or after `i`, or `|s|`. */
  function BreakIndex(s: string, all: bool, i: nat): (e: nat)
    requires i <= |s|
    ensures i <= e <= |s|
    ensures forall k :: i <= k < e ==> !IsBreak(s[k], all)
    ensures e < |s| ==> IsBreak(s[e], all)
    decreases |s| - i
  {
    if i == |s| || IsBreak(s[i], all) then i else BreakIndex(s, all, i + 1)
  }

  /** Where the next line starts, past the break at `e` (`\r\n` is one break). */
  function NextLineStart(s: string, e: nat): (n: nat)
    requires e < |s|
    ensures e < n <= |s|
  {
    if s[e] == '\r' && e + 1 < |s| && s[e + 1] == '\n' then e + 2 else e + 1
  }

  /**
   * The lines of `s`, without their terminators: `s.splitlines()` when `all`,
   * the lines a text-mode file yields when not. No empty line follows a final
   * terminator, and the empty text has no lines.
   */
  function Lines(s: string, all: bool): (ls: seq<string>)
    ensures forall i, k :: 0 <= i < |ls| && 0 <= k < |ls[i]| ==> !IsBreak(ls[i][k], all)
    ensures |ls| <= |s|
    decreases |s|
  {
    if s == [] then []
    else
      var e := BreakIndex(s, all, 0);
      if e == |s| then [s] else [s[..e]] + Lines(s[NextLineStart(s, e)..], all)
  }

  function SplitLines(s: string): (ls: seq<string>)
  {
    Lines(s, true)
  }

  function ReadLines(s: string): (ls: seq<string>)
  {
    Lines(s, false)
  }

  predicate NoBreaks(line: string, all: bool)
  {
    forall k :: 0 <= k < |line| ==> !IsBreak(line[k], all)
  }

  /** The lines joined with `\n` between them (the inverse of `Lines`). */
  function Join(ls: seq<string>): (s: string)
  {
    if |ls| == 0 then ""
    else if |ls| == 1 then ls[0]
    else ls[0] + "\n" + Join(ls[1..])
  }

  /** A line ending: `\r\n` as one, or one break character (a lone `\r` only when no `\n` follows). */
  predicate Terminates(term: string, rest: string, all: bool)
  {
    || term == "\r\n"
    || (|term| == 1 && IsBreak(term[0], all) && (term[0] == '\r' ==> rest == [] || rest[0] != '\n'))
  }

  /** A break-free line and its ending give that one line; splitting goes on after the ending. */
  lemma LinesOfTerminatedLine(a: string, term: string, rest: string, all: bool)
    requires NoBreaks(a, all) && Terminates(term, rest, all)
    ensures Lines(a + term + rest, all) == [a] + Lines(rest, all)
  {
    var s := a + term + rest;
    assert forall k :: 0 <= k < |a| ==> s[k] == a[k];
    assert s[|a|] == term[0];
    assert BreakIndex(s, all, 0) == |a|;
    assert s[..|a|] == a;
    if term == "\r\n" {
      assert s[|a| + 1] == '\n';
    } else if term[0] == '\r' && |a| + 1 < |s| {
      assert s[|a| + 1] == rest[0];
    }
    assert NextLineStart(s, |a|) == |a| + |term|;
    assert s[|a| + |term|..] == rest;
  }

  /** A final line ending yields no empty line after it. */
  lemma LinesOfFinalLine(a: string, term: string, all: bool)
    requires NoBreaks(a, all) && Terminates(term, "", all)
    ensures Lines(a + term, all) == [a]
  {
    LinesOfTerminatedLine(a, term, "", all);
    assert a + term + "" == a + term;
  }

  /** `\r\n` ends one line, not two. */
  lemma SplitCrLfExample()
    ensures SplitLines("a\r\nb") == ["a", "b"]
  {
    LinesOfTerminatedLine("a", "\r\n", "b", true);
    assert "a" + "\r\n" + "b" == "a\r\nb";
    assert BreakIndex("b", true, 0) == 1;
  }

  /** Two lone `\r` end two lines, the second one empty. */
  lemma SplitCrCrExample()
    ensures SplitLines("a\r\rb") == ["a", "", "b"]
  {
    LinesOfTerminatedLine("a", "\r", "\rb", true);
    assert "a" + "\r" + "\rb" == "a\r\rb";
    LinesOfTerminatedLine("", "\r", "b", true);
    assert "" + "\r" + "b" == "\rb";
    assert BreakIndex("b", true, 0) == 1;
  }

  /** A trailing `\n` adds no empty last line; a lone `\n` is one empty line. */
  lemma SplitTrailingExample()
    ensures SplitLines("a\n") == ["a"] && SplitLines("\n") == [""]
  {
    LinesOfFinalLine("a", "\n", true);
    assert "a" + "\n" == "a\n";
    LinesOfFinalLine("", "\n", true);
    assert "" + "\n" == "\n";
  }

  /** A vertical tab breaks a line for `splitlines` but not when reading a file. */
  lemma SplitVerticalTabExample()
    ensures SplitLines("a\U{0B}b") == ["a", "b"] && ReadLines("a\U{0B}b") == ["a\U{0B}b"]
  {
    LinesOfTerminatedLine("a", "\U{0B}", "b", true);
    assert "a" + "\U{0B}" + "b" == "a\U{0B}b";
    assert BreakIndex("b", true, 0) == 1;
    var s := "a\U{0B}b";
    assert BreakIndex(s, false, 2) == 3;
    assert BreakIndex(s, false, 1) == 3;
    assert BreakIndex(s, false, 0) == 3;
  }

  lemma LinesOfLineThenRest(a: string, rest: string, all: bool)
    requires NoBreaks(a, all)
    ensures Lines(a + "\n" + rest, all) == [a] + Lines(rest, all)
  {
    var s := a + "\n" + rest;
    assert s[|a|] == '\n';
    assert forall k :: 0 <= k < |a| ==> s[k] == a[k];
    assert BreakIndex(s, all, 0) == |a|;
    assert s[..|a|] == a;
    if |a| + 1 < |s| {
      assert s[|a| + 1] == rest[0];
    }
    assert NextLineStart(s, |a|) == |a| + 1 by {
      if s[|a|] == '\r' { assert false; }
    }
    assert s[|a| + 1..] == rest;
  }

  /**
   * Round trip: splitting the `\n`-join of break-free lines gives the lines
   * back, unless the last one is empty (a final terminator yields no line).
   */
  lemma {:induction false} LinesOfJoin(ls: seq<string>, all: bool)
    requires forall i :: 0 <= i < |ls| ==> NoBreaks(ls[i], all)
    requires ls != [] ==> ls[|ls| - 1] != ""
    ensures Lines(Join(ls), all) == ls
    decreases |ls|
  {
    if |ls| == 1 {
      var s := ls[0];
      assert BreakIndex(s, all, 0) == |s|;
    } else if |ls| > 1 {
      LinesOfLineThenRest(ls[0], Join(ls[1..]), all);
      LinesOfJoin(ls[1..], all);
    }
  }
}
