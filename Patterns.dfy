/**
 * The extraction patterns: the four default call forms of DEFAULT_PATTERNS,
 * optionally wrapped for whole-word matching, and a hand-written matcher that
 * does what `re.finditer` does with them on one line.
 *
 * Each default pattern is `Name\(\s*["']([^"']+)["']\s*\)`: the function
 * name, `(`, optional whitespace, a quote (`"` or `'`), a non-empty run of
 * non-quote characters (the key, group 1), a quote (not necessarily the same
 * one), optional whitespace and `)`. Every part is forced (a greedy run is
 * always followed by a character it cannot contain), so at a given start
 * position there is at most one match and backtracking never finds another.
 */
module Patterns {
  import opened Wrappers
  import opened Strings

  datatype CallForm = Pressed | Down | Released | Value

  function FunctionName(f: CallForm): (n: string)
    ensures |n| >= 9 && n[..5] == "Input" && forall k :: 1 <= k < |n| ==> n[k] != 'I'
  {
    match f
    case Pressed => "InputPressed"
    case Down => "InputDown"
    case Released => "InputReleased"
    case Value => "InputValue"
  }

  /** A pattern: a default call form, or a pattern wrapped in `\b ... \b`. */
  datatype Pattern = Call(form: CallForm) | WordBounded(inner: Pattern)
  {
    /** The call form a pattern is built on. */
    function Form(): (f: CallForm)
    {
      match this
      case Call(f) => f
      case WordBounded(q) => q.Form()
    }
  }

  /** DEFAULT_PATTERNS, in their order. */
  const DefaultPatterns: seq<Pattern> := [Call(Pressed), Call(Down), Call(Released), Call(Value)]

  /** The regular-expression text of a pattern, as the scanner holds it. */
  function Source(p: Pattern): (s: string)
  {
    match p
    case Call(f) => FunctionName(f) + "\\(\\s*[\"\\']([^\"\\']+)[\"\\']\\s*\\)"
    case WordBounded(q) => "\\b" + Source(q) + "\\b"
  }

  /** A compiled pattern: the pattern and whether `re.IGNORECASE` was set. */
  datatype Compiled = Compiled(pattern: Pattern, ignoreCase: bool)

  /** What the scanner compiles `p` into: wrapped in `\b ... \b` for whole-word matching. */
  function CompilePattern(p: Pattern, ignoreCase: bool, wholeWord: bool): (c: Compiled)
    ensures c.ignoreCase == ignoreCase && c.pattern.Form() == p.Form()
    ensures Source(c.pattern) == if wholeWord then "\\b" + Source(p) + "\\b" else Source(p)
  {
    Compiled(if wholeWord then WordBounded(p) else p, ignoreCase)
  }

  /** The compiled patterns, in the order of the patterns. */
  function CompileAll(ps: seq<Pattern>, ignoreCase: bool, wholeWord: bool): (cs: seq<Compiled>)
    ensures |cs| == |ps| && forall i :: 0 <= i < |ps| ==> cs[i] == CompilePattern(ps[i], ignoreCase, wholeWord)
  {
    seq(|ps|, i requires 0 <= i < |ps| => CompilePattern(ps[i], ignoreCase, wholeWord))
  }

  /** One match: `[start, end)` is group 0 and `[keyStart, keyEnd)` group 1. */
  datatype Hit = Hit(start: nat, end: nat, keyStart: nat, keyEnd: nat)

  /** Group 1 lies strictly inside group 0, and both inside the line. */
  predicate ValidHit(line: string, h: Hit)
  {
    h.start < h.keyStart < h.keyEnd < h.end <= |line|
  }

  predicate IsQuote(c: char)
  {
    c == '"' || c == '\''
  }

  /** `\w`, restricted to ASCII. */
  predicate IsWordChar(c: char)
  {
    ('a' <= c <= 'z') || ('A' <= c <= 'Z') || ('0' <= c <= '9') || c == '_'
  }

  predicate NameAt(line: string, i: nat, name: string, ignoreCase: bool)
  {
    i + |name| <= |line| && forall k :: 0 <= k < |name| ==> CharEq(line[i + k], name[k], ignoreCase)
  }

  predicate AllSpace(s: string)
  {
    forall k :: 0 <= k < |s| ==> IsSpace(s[k])
  }

  predicate NoQuote(s: string)
  {
    forall k :: 0 <= k < |s| ==> !IsQuote(s[k])
  }

  /** `\s*` from `j`: the first index at or after `j` that is not whitespace. */
  function SkipSpaces(line: string, j: nat): (r: nat)
    requires j <= |line|
    ensures j <= r <= |line|
    ensures forall k :: j <= k < r ==> IsSpace(line[k])
    ensures r < |line| ==> !IsSpace(line[r])
    decreases |line| - j
  {
    if j == |line| || !IsSpace(line[j]) then j else SkipSpaces(line, j + 1)
  }

  /** `[^"']+` from `j`, greedily: the first index at or after `j` holding a quote. */
  function SkipKey(line: string, j: nat): (r: nat)
    requires j <= |line|
    ensures j <= r <= |line|
    ensures forall k :: j <= k < r ==> !IsQuote(line[k])
    ensures r < |line| ==> IsQuote(line[r])
    decreases |line| - j
  {
    if j == |line| || IsQuote(line[j]) then j else SkipKey(line, j + 1)
  }

  /** The layout of a hit of the call pattern for function `name`, stated position by position. */
  predicate CallShape(name: string, ignoreCase: bool, line: string, h: Hit)
  {
    var n := |name|;
    && h.start + n + 2 <= h.keyStart < h.keyEnd < h.end - 1 && h.end <= |line|
    && NameAt(line, h.start, name, ignoreCase)
    && line[h.start + n] == '('
    && (forall k :: h.start + n + 1 <= k < h.keyStart - 1 ==> IsSpace(line[k]))
    && IsQuote(line[h.keyStart - 1])
    && (forall k :: h.keyStart <= k < h.keyEnd ==> !IsQuote(line[k]))
    && IsQuote(line[h.keyEnd])
    && (forall k :: h.keyEnd + 1 <= k < h.end - 1 ==> IsSpace(line[k]))
    && line[h.end - 1] == ')'
  }

  /** The call pattern for function `n`, tried at position `i` of `line`. */
  function CallAt(n: string, ignoreCase: bool, line: string, i: nat): (r: Option<Hit>)
    requires i <= |line|
    ensures r.Some? ==> r.value.start == i && ValidHit(line, r.value) && line[r.value.end - 1] == ')'
  {
    if !NameAt(line, i, n, ignoreCase) || i + |n| >= |line| || line[i + |n|] != '(' then None
    else
      var q := SkipSpaces(line, i + |n| + 1);
      if q == |line| || !IsQuote(line[q]) then None
      else
        var k := SkipKey(line, q + 1);
        if k == q + 1 || k == |line| then None
        else
          var m := SkipSpaces(line, k + 1);
          if m == |line| || line[m] != ')' then None
          else Some(Hit(i, m + 1, q + 1, k))
  }

  /**
   * Whole-word as the scanner means it: the match is not glued to a word
   * character on either side. (The regular expression `\b...\b` says
   * something else for these patterns; see MatchAtAsWritten.)
   */
  predicate Isolated(line: string, h: Hit)
    requires h.start <= h.end <= |line|
  {
    && (h.start == 0 || !IsWordChar(line[h.start - 1]))
    && (h.end == |line| || !IsWordChar(line[h.end]))
  }

  /** The match of pattern `p` that starts at position `i`, if there is one. */
  function MatchAt(p: Pattern, ignoreCase: bool, line: string, i: nat): (r: Option<Hit>)
    requires i <= |line|
    ensures r.Some? ==> r.value.start == i && ValidHit(line, r.value) && line[r.value.end - 1] == ')'
  {
    match p
    case Call(f) => CallAt(FunctionName(f), ignoreCase, line, i)
    case WordBounded(q) =>
      match MatchAt(q, ignoreCase, line, i)
      case None => None
      case Some(h) => if Isolated(line, h) then Some(h) else None
  }

  /** Python's `\b` at position `j`: a word character on exactly one side. */
  predicate WordBoundary(line: string, j: nat)
    requires j <= |line|
  {
    (j > 0 && IsWordChar(line[j - 1])) != (j < |line| && IsWordChar(line[j]))
  }

  /** `MatchAt` with `\b` read as the regular-expression engine reads it. */
  function MatchAtAsWritten(p: Pattern, ignoreCase: bool, line: string, i: nat): (r: Option<Hit>)
    requires i <= |line|
    ensures r.Some? ==> r.value.start == i && ValidHit(line, r.value) && line[r.value.end - 1] == ')'
  {
    match p
    case Call(f) => CallAt(FunctionName(f), ignoreCase, line, i)
    case WordBounded(q) =>
      match MatchAtAsWritten(q, ignoreCase, line, i)
      case None => None
      case Some(h) => if WordBoundary(line, h.start) && WordBoundary(line, h.end) then Some(h) else None
  }

  /** Every match of a call form has the layout of a call of that form. */
  lemma CallAtShape(n: string, ignoreCase: bool, line: string, i: nat)
    requires i <= |line| && CallAt(n, ignoreCase, line, i).Some?
    ensures CallShape(n, ignoreCase, line, CallAt(n, ignoreCase, line, i).value)
  {
  }

  lemma {:induction false} MatchAtShape(p: Pattern, ignoreCase: bool, line: string, i: nat)
    requires i <= |line| && MatchAt(p, ignoreCase, line, i).Some?
    ensures CallShape(FunctionName(p.Form()), ignoreCase, line, MatchAt(p, ignoreCase, line, i).value)
  {
    match p
    case Call(f) => CallAtShape(FunctionName(f), ignoreCase, line, i);
    case WordBounded(q) => MatchAtShape(q, ignoreCase, line, i);
  }

  lemma {:induction false} MatchAtAsWrittenShape(p: Pattern, ignoreCase: bool, line: string, i: nat)
    requires i <= |line| && MatchAtAsWritten(p, ignoreCase, line, i).Some?
    ensures CallShape(FunctionName(p.Form()), ignoreCase, line, MatchAtAsWritten(p, ignoreCase, line, i).value)
  {
    match p
    case Call(f) => CallAtShape(FunctionName(f), ignoreCase, line, i);
    case WordBounded(q) => MatchAtAsWrittenShape(q, ignoreCase, line, i);
  }

  /** `start` is where the match was tried, and it makes progress without leaving the line. */
  predicate AttemptTable(ms: seq<Option<Hit>>)
  {
    forall i :: 0 <= i < |ms| && ms[i].Some? ==> ms[i].value.start == i < ms[i].value.end <= |ms|
  }

  /** The outcome of trying the pattern at every start position of the line. */
  function Attempts(c: Compiled, line: string): (ms: seq<Option<Hit>>)
    ensures |ms| == |line| && AttemptTable(ms)
    ensures forall i :: 0 <= i < |line| ==> ms[i] == MatchAt(c.pattern, c.ignoreCase, line, i)
  {
    seq(|line|, i requires 0 <= i < |line| => MatchAt(c.pattern, c.ignoreCase, line, i))
  }

  /**
   * The selection `finditer` makes: take the match at the first position
   * that has one, resume at its end, so reported matches never overlap.
   */
  function Select(ms: seq<Option<Hit>>, from: nat): (hits: seq<Hit>)
    requires AttemptTable(ms) && from <= |ms|
    decreases |ms| - from
  {
    if from == |ms| then []
    else
      match ms[from]
      case Some(h) => [h] + Select(ms, h.end)
      case None => Select(ms, from + 1)
  }

  /** `pattern.finditer(line)`, resuming from position `from`. */
  function FindAll(c: Compiled, line: string, from: nat): (hits: seq<Hit>)
    requires from <= |line|
    ensures forall j :: 0 <= j < |hits| ==> ValidHit(line, hits[j])
  {
    SelectHits(Attempts(c, line), from);
    Select(Attempts(c, line), from)
  }

  /** The attempts of `MatchAtAsWritten` at every start position of the line. */
  function AttemptsAsWritten(c: Compiled, line: string): (ms: seq<Option<Hit>>)
    ensures |ms| == |line| && AttemptTable(ms)
    ensures forall i :: 0 <= i < |line| ==> ms[i] == MatchAtAsWritten(c.pattern, c.ignoreCase, line, i)
  {
    seq(|line|, i requires 0 <= i < |line| => MatchAtAsWritten(c.pattern, c.ignoreCase, line, i))
  }

  /** `pattern.finditer(line)` with `\b` read as the regular-expression engine reads it. */
  function FindAllAsWritten(c: Compiled, line: string, from: nat): (hits: seq<Hit>)
    requires from <= |line|
  {
    Select(AttemptsAsWritten(c, line), from)
  }

  lemma {:induction false} SelectHits(ms: seq<Option<Hit>>, from: nat)
    requires AttemptTable(ms) && from <= |ms|
    ensures forall j :: 0 <= j < |Select(ms, from)| ==>
      from <= Select(ms, from)[j].start < |ms| && ms[Select(ms, from)[j].start] == Some(Select(ms, from)[j])
    ensures forall j :: 0 <= j < |Select(ms, from)| - 1 ==> Select(ms, from)[j].end <= Select(ms, from)[j + 1].start
    decreases |ms| - from
  {
    if from < |ms| {
      if ms[from].Some? {
        var h := ms[from].value;
        var rest := Select(ms, h.end);
        SelectHits(ms, h.end);
        var hits := [h] + rest;
        assert Select(ms, from) == hits;
        assert forall j :: 1 <= j < |hits| ==> hits[j] == rest[j - 1];
        assert |rest| > 0 ==> h.end <= rest[0].start;
      } else {
        SelectHits(ms, from + 1);
      }
    }
  }

  lemma {:induction false} SelectComplete(ms: seq<Option<Hit>>, from: nat, p: nat)
    requires AttemptTable(ms) && from <= p < |ms| && ms[p].Some?
    ensures exists j :: 0 <= j < |Select(ms, from)| && Select(ms, from)[j].start <= p < Select(ms, from)[j].end
    decreases |ms| - from
  {
    var hits := Select(ms, from);
    if ms[from].Some? {
      var h := ms[from].value;
      var rest := Select(ms, h.end);
      assert hits == [h] + rest;
      if p >= h.end {
        SelectComplete(ms, h.end, p);
        var j :| 0 <= j < |rest| && rest[j].start <= p < rest[j].end;
        assert hits[j + 1] == rest[j];
      } else {
        assert hits[0].start <= p < hits[0].end;
      }
    } else {
      SelectComplete(ms, from + 1, p);
    }
  }

  lemma {:induction false} SelectSkips(ms: seq<Option<Hit>>, from: nat, to: nat)
    requires AttemptTable(ms) && from <= to <= |ms|
    requires forall p :: from <= p < to ==> ms[p].None?
    ensures Select(ms, from) == Select(ms, to)
    decreases |ms| - from
  {
    if from < to {
      SelectSkips(ms, from + 1, to);
    }
  }

  /**
   * Every reported match is the match at its own start, at or after `from`,
   * and the matches come in order without overlapping.
   */
  lemma FindAllHits(c: Compiled, line: string, from: nat)
    requires from <= |line|
    ensures var hits := FindAll(c, line, from);
      && (forall j :: 0 <= j < |hits| ==>
            from <= hits[j].start < |line| && MatchAt(c.pattern, c.ignoreCase, line, hits[j].start) == Some(hits[j]))
      && (forall j :: 0 <= j < |hits| - 1 ==> hits[j].end <= hits[j + 1].start)
  {
    SelectHits(Attempts(c, line), from);
  }

  /**
   * `finditer` misses nothing: every position where the pattern matches is
   * the start of a reported match or lies inside one.
   */
  lemma FindAllComplete(c: Compiled, line: string, from: nat, p: nat)
    requires from <= p < |line|
    requires MatchAt(c.pattern, c.ignoreCase, line, p).Some?
    ensures exists j :: 0 <= j < |FindAll(c, line, from)| && FindAll(c, line, from)[j].start <= p < FindAll(c, line, from)[j].end
  {
    assert Attempts(c, line)[p].Some?;
    assert FindAll(c, line, from) == Select(Attempts(c, line), from);
    SelectComplete(Attempts(c, line), from, p);
  }

  /** Positions where nothing matches are skipped. */
  lemma FindAllSkips(c: Compiled, line: string, from: nat, to: nat)
    requires from <= to <= |line|
    requires forall p :: from <= p < to ==> MatchAt(c.pattern, c.ignoreCase, line, p).None?
    ensures FindAll(c, line, from) == FindAll(c, line, to)
  {
    SelectSkips(Attempts(c, line), from, to);
  }

  /** Matches do not overlap: each one ends at or before the start of every later one. */
  lemma FindAllInOrder(c: Compiled, line: string, from: nat)
    requires from <= |line|
    ensures forall a, b :: 0 <= a < b < |FindAll(c, line, from)| ==>
              FindAll(c, line, from)[a].end <= FindAll(c, line, from)[b].start
  {
    var hits := FindAll(c, line, from);
    FindAllHits(c, line, from);
    forall a, b | 0 <= a < b < |hits|
      ensures hits[a].end <= hits[b].start
    {
      HitsChain(line, hits, a, b);
    }
  }

  lemma {:induction false} HitsChain(line: string, hits: seq<Hit>, a: nat, b: nat)
    requires forall j :: 0 <= j < |hits| ==> ValidHit(line, hits[j])
    requires forall j :: 0 <= j < |hits| - 1 ==> hits[j].end <= hits[j + 1].start
    requires a < b < |hits|
    ensures hits[a].end <= hits[b].start
    decreases b - a
  {
    if a + 1 < b {
      HitsChain(line, hits, a + 1, b);
      assert ValidHit(line, hits[a + 1]);
    } else {
      assert hits[a].end <= hits[a + 1].start;
    }
  }

  /** Without `\b` wrapping the two readings of whole-word never apply, and the scans agree. */
  lemma FindAllAgreesUnwrapped(c: Compiled, line: string, from: nat)
    requires c.pattern.Call? && from <= |line|
    ensures FindAll(c, line, from) == FindAllAsWritten(c, line, from)
  {
    assert Attempts(c, line) == AttemptsAsWritten(c, line);
  }

  /** As written too, every match `finditer` reports has the layout of a call. */
  lemma FindAllAsWrittenShape(c: Compiled, line: string, h: Hit)
    requires h in FindAllAsWritten(c, line, 0)
    ensures CallShape(FunctionName(c.pattern.Form()), c.ignoreCase, line, h)
  {
    var ms := AttemptsAsWritten(c, line);
    SelectHits(ms, 0);
    var j :| 0 <= j < |Select(ms, 0)| && Select(ms, 0)[j] == h;
    assert ms[h.start] == Some(h);
    MatchAtAsWrittenShape(c.pattern, c.ignoreCase, line, h.start);
  }

  /** The key a hit captured. */
  function KeyOf(line: string, h: Hit): (k: string)
    requires h.keyStart <= h.keyEnd <= |line|
  {
    line[h.keyStart..h.keyEnd]
  }

  /** The key of every match is non-empty and holds no quote character. */
  lemma HitKey(n: string, ignoreCase: bool, line: string, h: Hit)
    requires CallShape(n, ignoreCase, line, h)
    ensures h.keyStart < h.keyEnd <= |line| && KeyOf(line, h) != [] && NoQuote(KeyOf(line, h))
  {
    forall k | 0 <= k < |KeyOf(line, h)|
      ensures !IsQuote(KeyOf(line, h)[k])
    {
      assert KeyOf(line, h)[k] == line[h.keyStart + k];
    }
  }

  // ---------------------------------------------------------------------
  // The call text a match stands for

  /** A call as written in a script: `name(lead open key close trail)`. */
  datatype CallText = CallText(name: string, lead: string, open: char, key: string, close: char, trail: string)
  {
    function Text(): (s: string)
    {
      name + "(" + lead + [open] + key + [close] + trail + ")"
    }

    /** The text is something the call pattern for function `n` describes. */
    predicate Fits(n: string, ignoreCase: bool)
    {
      && |name| == |n| && NameAt(name, 0, n, ignoreCase)
      && AllSpace(lead) && IsQuote(open)
      && key != [] && NoQuote(key)
      && IsQuote(close) && AllSpace(trail)
    }

    /** Where the opening quote sits in the text. */
    function OpenAt(): (q: nat)
    {
      |name| + 1 + |lead|
    }

    /** Where the closing quote sits in the text. */
    function CloseAt(): (k: nat)
    {
      OpenAt() + 1 + |key|
    }
  }

  /** The text of a call, part by part. */
  lemma TextLayout(t: CallText)
    ensures var s, q, k := t.Text(), t.OpenAt(), t.CloseAt();
      && |s| == k + 1 + |t.trail| + 1
      && s[..|t.name|] == t.name && s[|t.name|] == '('
      && s[|t.name| + 1..q] == t.lead && s[q] == t.open
      && s[q + 1..k] == t.key && s[k] == t.close
      && s[k + 1..|s| - 1] == t.trail && s[|s| - 1] == ')'
  {
    var s := t.Text();
    var n := |t.name|;
    var q := t.OpenAt();
    var k := t.CloseAt();
    var s1 := t.name + "(";
    var s2 := s1 + t.lead;
    var s3 := s2 + [t.open];
    var s4 := s3 + t.key;
    var s5 := s4 + [t.close];
    var s6 := s5 + t.trail;
    assert s == s6 + ")";
    assert s[..|s6|] == s6 && s6[..|s5|] == s5 && s5[..|s4|] == s4;
    assert s4[..|s3|] == s3 && s3[..|s2|] == s2 && s2[..|s1|] == s1;
    assert s[..n] == s1[..n] == t.name;
    assert s[n + 1..q] == s2[n + 1..q] == t.lead;
    assert s[q + 1..k] == s4[q + 1..k] == t.key;
    assert s[k + 1..|s| - 1] == s6[k + 1..] == t.trail;
  }

  /** A piece of `s` at `off`, where `s` sits at `i` in `line`, sits at `i + off` in `line`. */
  lemma PieceOnLine(line: string, i: nat, s: string, off: nat, piece: string)
    requires i + |s| <= |line| && line[i..i + |s|] == s
    requires off + |piece| <= |s| && s[off..off + |piece|] == piece
    ensures line[i + off..i + off + |piece|] == piece
  {
    forall k | 0 <= k < |piece|
      ensures line[i + off + k] == piece[k]
    {
      assert line[i..i + |s|][off + k] == s[off + k];
      assert s[off..off + |piece|][k] == s[off + k];
    }
  }

  lemma SkipSpacesOver(line: string, j: nat, a: string)
    requires j + |a| < |line| && line[j..j + |a|] == a && AllSpace(a) && !IsSpace(line[j + |a|])
    ensures SkipSpaces(line, j) == j + |a|
  {
    assert forall k :: j <= k < j + |a| ==> line[k] == a[k - j];
  }

  lemma SkipKeyOver(line: string, j: nat, key: string)
    requires j + |key| < |line| && line[j..j + |key|] == key && NoQuote(key) && IsQuote(line[j + |key|])
    ensures SkipKey(line, j) == j + |key|
  {
    assert forall k :: j <= k < j + |key| ==> line[k] == key[k - j];
  }

  /** Each step of `CallAt` at `i` succeeds, with the opening quote at `q`, the closing one at `k` and `)` at `m`. */
  predicate StepsHold(n: string, ignoreCase: bool, line: string, i: nat, q: nat, k: nat, m: nat)
  {
    && NameAt(line, i, n, ignoreCase) && i + |n| < |line| && line[i + |n|] == '('
    && SkipSpaces(line, i + |n| + 1) == q && q < |line| && IsQuote(line[q])
    && SkipKey(line, q + 1) == k && q + 1 < k < |line|
    && SkipSpaces(line, k + 1) == m && m < |line| && line[m] == ')'
  }

  /** `CallAt` succeeds once each of its steps is known to succeed. */
  lemma CallAtSteps(n: string, ignoreCase: bool, line: string, i: nat, q: nat, k: nat, m: nat)
    requires StepsHold(n, ignoreCase, line, i, q, k, m)
    ensures CallAt(n, ignoreCase, line, i) == Some(Hit(i, m + 1, q + 1, k))
  {
  }

  /** The parts of call text `t`, one after another on the line from position `i`. */
  predicate PartsAt(line: string, i: nat, t: CallText)
  {
    var n, q, k := |t.name|, i + t.OpenAt(), i + t.CloseAt();
    var e := k + 1 + |t.trail|;
    && e < |line|
    && line[i..i + n] == t.name && line[i + n] == '('
    && line[i + n + 1..q] == t.lead && line[q] == t.open
    && line[q + 1..k] == t.key && line[k] == t.close
    && line[k + 1..e] == t.trail && line[e] == ')'
  }

  /** A call text written on a line puts its parts there. */
  lemma TextGivesParts(line: string, i: nat, t: CallText)
    requires i + |t.Text()| <= |line| && line[i..i + |t.Text()|] == t.Text()
    ensures PartsAt(line, i, t) && |t.Text()| == t.CloseAt() + |t.trail| + 2
  {
    TextGivesMarks(line, i, t);
    TextGivesHeadPieces(line, i, t);
    TextGivesTailPieces(line, i, t);
  }

  /** The punctuation of a call text, found on the line. */
  lemma TextGivesMarks(line: string, i: nat, t: CallText)
    requires i + |t.Text()| <= |line| && line[i..i + |t.Text()|] == t.Text()
    ensures |t.Text()| == t.CloseAt() + |t.trail| + 2
    ensures line[i + |t.name|] == '(' && line[i + t.OpenAt()] == t.open
    ensures line[i + t.CloseAt()] == t.close && line[i + |t.Text()| - 1] == ')'
  {
    var s := t.Text();
    TextLayout(t);
    assert line[i + |s| - 1] == s[|s| - 1];
    assert line[i + |t.name|] == s[|t.name|];
    assert line[i + t.OpenAt()] == s[t.OpenAt()];
    assert line[i + t.CloseAt()] == s[t.CloseAt()];
  }

  /** The name and the blanks before the opening quote, found on the line. */
  lemma TextGivesHeadPieces(line: string, i: nat, t: CallText)
    requires i + |t.Text()| <= |line| && line[i..i + |t.Text()|] == t.Text()
    ensures line[i..i + |t.name|] == t.name && line[i + |t.name| + 1..i + t.OpenAt()] == t.lead
  {
    var s := t.Text();
    TextLayout(t);
    PieceOnLine(line, i, s, 0, t.name);
    PieceOnLine(line, i, s, |t.name| + 1, t.lead);
  }

  /** The key and the blanks after the closing quote, found on the line. */
  lemma TextGivesTailPieces(line: string, i: nat, t: CallText)
    requires i + |t.Text()| <= |line| && line[i..i + |t.Text()|] == t.Text()
    ensures i + t.CloseAt() + 1 + |t.trail| < |line|
    ensures line[i + t.OpenAt() + 1..i + t.CloseAt()] == t.key
    ensures line[i + t.CloseAt() + 1..i + t.CloseAt() + 1 + |t.trail|] == t.trail
  {
    var s := t.Text();
    TextLayout(t);
    PieceOnLine(line, i, s, t.OpenAt() + 1, t.key);
    PieceOnLine(line, i, s, t.CloseAt() + 1, t.trail);
  }

  lemma SliceSplit(s: string, a: nat, b: nat, c: nat)
    requires a <= b <= c <= |s|
    ensures s[a..c] == s[a..b] + s[b..c]
  {
  }

  /** The first parts of a call text, up to its opening quote. */
  lemma PartsGiveHead(line: string, i: nat, t: CallText)
    requires PartsAt(line, i, t)
    ensures line[i..i + t.OpenAt() + 1] == t.name + "(" + t.lead + [t.open]
  {
    var b, q := i + |t.name|, i + t.OpenAt();
    SliceSplit(line, i, q, q + 1);
    SliceSplit(line, i, b + 1, q);
    SliceSplit(line, i, b, b + 1);
    assert line[b..b + 1] == "(" && line[q..q + 1] == [t.open];
  }

  /** The parts of a call text up to its closing quote. */
  lemma PartsGiveQuoted(line: string, i: nat, t: CallText)
    requires PartsAt(line, i, t)
    ensures line[i..i + t.CloseAt() + 1] == t.name + "(" + t.lead + [t.open] + t.key + [t.close]
  {
    var q, k := i + t.OpenAt(), i + t.CloseAt();
    PartsGiveHead(line, i, t);
    SliceSplit(line, i, k, k + 1);
    SliceSplit(line, i, q + 1, k);
    assert line[k..k + 1] == [t.close];
  }

  /** Parts on a line, one after another, spell the call text there. */
  lemma PartsGiveText(line: string, i: nat, t: CallText)
    requires PartsAt(line, i, t)
    ensures i + |t.Text()| <= |line| && line[i..i + |t.Text()|] == t.Text()
  {
    var k := i + t.CloseAt();
    var e := k + 1 + |t.trail|;
    PartsGiveQuoted(line, i, t);
    SliceSplit(line, i, e, e + 1);
    SliceSplit(line, i, k + 1, e);
    assert line[e..e + 1] == ")";
  }

  lemma NameOnLine(line: string, i: nat, name: string, n: string, ignoreCase: bool)
    requires |name| == |n| && NameAt(name, 0, n, ignoreCase)
    requires i + |name| <= |line| && line[i..i + |name|] == name
    ensures NameAt(line, i, n, ignoreCase)
  {
    forall j | 0 <= j < |n|
      ensures CharEq(line[i + j], n[j], ignoreCase)
    {
      assert line[i + j] == name[j];
      assert CharEq(name[0 + j], n[j], ignoreCase);
    }
  }

  /** The `\s*` before the opening quote stops at the quote. */
  lemma LeadStep(line: string, i: nat, t: CallText)
    requires PartsAt(line, i, t) && AllSpace(t.lead) && IsQuote(t.open)
    ensures SkipSpaces(line, i + |t.name| + 1) == i + t.OpenAt()
  {
    SkipSpacesOver(line, i + |t.name| + 1, t.lead);
  }

  /** The key run stops at the closing quote. */
  lemma KeyStep(line: string, i: nat, t: CallText)
    requires PartsAt(line, i, t) && NoQuote(t.key) && IsQuote(t.close)
    ensures SkipKey(line, i + t.OpenAt() + 1) == i + t.CloseAt()
  {
    SkipKeyOver(line, i + t.OpenAt() + 1, t.key);
  }

  /** The `\s*` after the closing quote stops at the `)`. */
  lemma TrailStep(line: string, i: nat, t: CallText)
    requires PartsAt(line, i, t) && AllSpace(t.trail)
    ensures SkipSpaces(line, i + t.CloseAt() + 1) == i + t.CloseAt() + 1 + |t.trail|
  {
    SkipSpacesOver(line, i + t.CloseAt() + 1, t.trail);
  }

  /** Each step of `CallAt` succeeds on the parts of a call that fits the pattern. */
  lemma PartsGiveSteps(n: string, ignoreCase: bool, line: string, i: nat, t: CallText)
    requires t.Fits(n, ignoreCase) && PartsAt(line, i, t)
    ensures StepsHold(n, ignoreCase, line, i, i + t.OpenAt(), i + t.CloseAt(), i + t.CloseAt() + 1 + |t.trail|)
  {
    NameOnLine(line, i, t.name, n, ignoreCase);
    LeadStep(line, i, t);
    KeyStep(line, i, t);
    TrailStep(line, i, t);
  }

  /** Completeness: a call of function `n` written at position `i` is matched there, in full. */
  lemma CallIsMatched(n: string, ignoreCase: bool, line: string, i: nat, t: CallText)
    requires t.Fits(n, ignoreCase)
    requires i + |t.Text()| <= |line| && line[i..i + |t.Text()|] == t.Text()
    ensures CallAt(n, ignoreCase, line, i) == Some(Hit(i, i + |t.Text()|, i + t.OpenAt() + 1, i + t.CloseAt()))
  {
    TextGivesParts(line, i, t);
    PartsAreMatched(n, ignoreCase, line, i, t);
  }

  /** Completeness, stated on the parts of the call. */
  lemma PartsAreMatched(n: string, ignoreCase: bool, line: string, i: nat, t: CallText)
    requires t.Fits(n, ignoreCase) && PartsAt(line, i, t)
    ensures CallAt(n, ignoreCase, line, i)
      == Some(Hit(i, i + t.CloseAt() + 2 + |t.trail|, i + t.OpenAt() + 1, i + t.CloseAt()))
  {
    var q, k, m := i + t.OpenAt(), i + t.CloseAt(), i + t.CloseAt() + 1 + |t.trail|;
    PartsGiveSteps(n, ignoreCase, line, i, t);
    CallAtSteps(n, ignoreCase, line, i, q, k, m);
  }

  /** The call text of a hit, read off the line. */
  function CallTextOf(name: string, ignoreCase: bool, line: string, h: Hit): (t: CallText)
    requires CallShape(name, ignoreCase, line, h)
  {
    var n := |name|;
    CallText(line[h.start..h.start + n], line[h.start + n + 1..h.keyStart - 1], line[h.keyStart - 1],
             line[h.keyStart..h.keyEnd], line[h.keyEnd], line[h.keyEnd + 1..h.end - 1])
  }

  /** The call text read off a hit fits the pattern that made the hit. */
  lemma HitFits(name: string, ignoreCase: bool, line: string, h: Hit)
    requires CallShape(name, ignoreCase, line, h)
    ensures CallTextOf(name, ignoreCase, line, h).Fits(name, ignoreCase)
  {
    var t := CallTextOf(name, ignoreCase, line, h);
    var a, b, c, d := h.start, h.start + |name|, h.keyStart, h.keyEnd;
    assert forall k :: 0 <= k < |name| ==> t.name[k] == line[a + k];
    assert forall k :: 0 <= k < |t.lead| ==> t.lead[k] == line[b + 1 + k];
    assert forall k :: 0 <= k < |t.key| ==> t.key[k] == line[c + k];
    assert forall k :: 0 <= k < |t.trail| ==> t.trail[k] == line[d + 1 + k];
  }

  /** Soundness: what a match covers is a call of its form, and its key is the call's key. */
  lemma MatchIsCall(name: string, ignoreCase: bool, line: string, h: Hit)
    requires CallShape(name, ignoreCase, line, h)
    ensures var t := CallTextOf(name, ignoreCase, line, h);
      t.Fits(name, ignoreCase) && t.Text() == line[h.start..h.end] && t.key == KeyOf(line, h)
  {
    HitFits(name, ignoreCase, line, h);
    var t := CallTextOf(name, ignoreCase, line, h);
    assert PartsAt(line, h.start, t);
    PartsGiveText(line, h.start, t);
    assert |t.Text()| == h.end - h.start by { TextLayout(t); }
  }

  // ---------------------------------------------------------------------
  // A call standing alone on a line

  /** `Name("key")`, the way the scripts usually write a call. */
  function PlainCall(f: CallForm, key: string): (t: CallText)
  {
    CallText(FunctionName(f), "", '"', key, '"', "")
  }

  /** Without ignore-case, every match starts at a capital `I`. */
  lemma MatchStartsAtCapitalI(p: Pattern, line: string, i: nat)
    requires i <= |line|
    requires i == |line| || line[i] != 'I'
    ensures MatchAt(p, false, line, i).None? && MatchAtAsWritten(p, false, line, i).None?
  {
    var n := FunctionName(p.Form());
    if i < |line| {
      assert !CharEq(line[i], n[0], false);
    }
  }

  /** A line without a capital `I` has no match, for any case-sensitive pattern. */
  lemma NoCapitalINoMatch(c: Compiled, line: string, from: nat)
    requires !c.ignoreCase && from <= |line|
    requires forall k :: from <= k < |line| ==> line[k] != 'I'
    ensures FindAll(c, line, from) == []
  {
    forall p | from <= p < |line|
      ensures MatchAt(c.pattern, false, line, p).None?
    {
      MatchStartsAtCapitalI(c.pattern, line, p);
    }
    FindAllSkips(c, line, from, |line|);
  }

  /** Two different call forms never match at the same place. */
  lemma FormsDiffer(f: CallForm, g: CallForm, line: string, i: nat)
    requires f != g && i <= |line|
    requires NameAt(line, i, FunctionName(f), false)
    ensures !NameAt(line, i, FunctionName(g), false)
  {
    assert CharEq(line[i + 5], FunctionName(f)[5], false);
    assert FunctionName(f)[5] != FunctionName(g)[5];
  }

  /** In a plain call, the only capital `I` is the one the function name starts with. */
  lemma PlainCallCapitals(f: CallForm, key: string)
    requires 'I' !in key
    ensures var t := PlainCall(f, key).Text();
      |t| == |FunctionName(f)| + |key| + 4 && t[0] == 'I' && forall k :: 1 <= k < |t| ==> t[k] != 'I'
  {
    var call := PlainCall(f, key);
    var t := call.Text();
    var n := FunctionName(f);
    TextLayout(call);
    assert t[0] == t[..|n|][0] == n[0];
    forall k | 1 <= k < |t|
      ensures t[k] != 'I'
    {
      if k < |n| {
        assert t[k] == t[..|n|][k] == n[k];
      } else if |n| + 2 <= k < |n| + 2 + |key| {
        assert t[k] == t[call.OpenAt() + 1..call.CloseAt()][k - |n| - 2] == key[k - |n| - 2];
      }
    }
  }

  /** Case-sensitively, a pattern can match only where the line holds a capital `I`. */
  lemma OtherPositionsFail(c: Compiled, pre: string, t: string, post: string)
    requires !c.ignoreCase && 'I' !in pre && 'I' !in post
    requires forall k :: 1 <= k < |t| ==> t[k] != 'I'
    ensures var line := pre + t + post;
      forall q :: 0 <= q < |line| && q != |pre| ==> Attempts(c, line)[q].None?
  {
    var line := pre + t + post;
    forall q | 0 <= q < |line| && q != |pre|
      ensures Attempts(c, line)[q].None?
    {
      if q < |pre| {
        assert line[q] == pre[q];
      } else if q < |pre| + |t| {
        assert line[q] == t[q - |pre|];
      } else {
        assert line[q] == post[q - |pre| - |t|];
      }
      MatchStartsAtCapitalI(c.pattern, line, q);
    }
  }

  lemma SelectNone(ms: seq<Option<Hit>>, from: nat)
    requires AttemptTable(ms) && from <= |ms|
    requires forall p :: from <= p < |ms| ==> ms[p].None?
    ensures Select(ms, from) == []
  {
    SelectSkips(ms, from, |ms|);
  }

  lemma SelectSingle(ms: seq<Option<Hit>>, from: nat, p: nat)
    requires AttemptTable(ms) && from <= p < |ms| && ms[p].Some?
    requires forall q :: from <= q < |ms| && q != p ==> ms[q].None?
    ensures Select(ms, from) == [ms[p].value]
  {
    SelectSkips(ms, from, p);
    SelectNone(ms, ms[p].value.end);
  }

  /** The attempts on a line holding a plain call: only the call's own position can match. */
  lemma PlainCallAttempts(f: CallForm, g: CallForm, pre: string, key: string, post: string)
    requires key != [] && NoQuote(key)
    requires 'I' !in pre && 'I' !in key && 'I' !in post
    ensures var t := PlainCall(f, key).Text();
      var line := pre + t + post;
      var ms := Attempts(Compiled(Call(g), false), line);
      var ks := |pre| + |FunctionName(f)| + 2;
      && |pre| < |ms|
      && (forall q :: 0 <= q < |ms| && q != |pre| ==> ms[q].None?)
      && ms[|pre|] == if g == f then Some(Hit(|pre|, |pre| + |t|, ks, ks + |key|)) else None
  {
    var t := PlainCall(f, key).Text();
    var line := pre + t + post;
    var n := FunctionName(f);
    PlainCallCapitals(f, key);
    OtherPositionsFail(Compiled(Call(g), false), pre, t, post);
    PlainCallMatched(f, pre, key, post);
    if g != f {
      CallAtShape(n, false, line, |pre|);
      FormsDiffer(f, g, line, |pre|);
    }
  }

  /** The pattern of its own form matches a plain call where it is written. */
  lemma PlainCallMatched(f: CallForm, pre: string, key: string, post: string)
    requires key != [] && NoQuote(key)
    ensures var t := PlainCall(f, key).Text();
      var ks := |pre| + |FunctionName(f)| + 2;
      CallAt(FunctionName(f), false, pre + t + post, |pre|) == Some(Hit(|pre|, |pre| + |t|, ks, ks + |key|))
  {
    var call := PlainCall(f, key);
    var t := call.Text();
    var line := pre + t + post;
    var n := FunctionName(f);
    assert NameAt(n, 0, n, false);
    assert line[|pre|..|pre| + |t|] == t;
    CallIsMatched(n, false, line, |pre|, call);
  }

  /**
   * A plain call between text with no capital `I`: the pattern of its own
   * form finds exactly that call, with its key; the other forms find nothing.
   */
  lemma PlainCallOnLine(f: CallForm, g: CallForm, pre: string, key: string, post: string)
    requires key != [] && NoQuote(key)
    requires 'I' !in pre && 'I' !in key && 'I' !in post
    ensures var t := PlainCall(f, key).Text();
      var line := pre + t + post;
      var ks := |pre| + |FunctionName(f)| + 2;
      FindAll(Compiled(Call(g), false), line, 0)
        == if g == f then [Hit(|pre|, |pre| + |t|, ks, ks + |key|)] else []
  {
    var line := pre + PlainCall(f, key).Text() + post;
    var ms := Attempts(Compiled(Call(g), false), line);
    PlainCallAttempts(f, g, pre, key, post);
    if g == f {
      SelectSingle(ms, 0, |pre|);
    } else {
      SelectNone(ms, 0);
    }
  }

  // ---------------------------------------------------------------------
  // Whole-word matching

  /**
   * With `\b` as the engine reads it, a whole-word match needs a word
   * character right after its closing `)`: the end of a call is never a
   * word boundary on its own.
   */
  lemma AsWrittenWholeWordNeedsWordAfter(p: Pattern, ignoreCase: bool, line: string, i: nat)
    requires i <= |line| && MatchAtAsWritten(WordBounded(p), ignoreCase, line, i).Some?
    ensures var h := MatchAtAsWritten(WordBounded(p), ignoreCase, line, i).value;
      h.end < |line| && IsWordChar(line[h.end])
  {
    var h := MatchAtAsWritten(p, ignoreCase, line, i).value;
    assert MatchAtAsWritten(WordBounded(p), ignoreCase, line, i) == Some(h) && WordBoundary(line, h.end);
    ParenThenWord(line, h.end);
  }

  /** Right after a `)`, a word boundary needs a word character. */
  lemma ParenThenWord(line: string, e: nat)
    requires 0 < e <= |line| && line[e - 1] == ')' && WordBoundary(line, e)
    ensures e < |line| && IsWordChar(line[e])
  {
  }

  /** Every whole-word match stands apart: no word character touches it on either side. */
  lemma WholeWordIsolation(p: Pattern, ignoreCase: bool, line: string, from: nat)
    requires from <= |line|
    ensures forall h :: h in FindAll(Compiled(WordBounded(p), ignoreCase), line, from) ==>
      h.start <= h.end <= |line| && Isolated(line, h)
  {
    var c := Compiled(WordBounded(p), ignoreCase);
    var hits := FindAll(c, line, from);
    FindAllHits(c, line, from);
    forall h | h in hits
      ensures h.start <= h.end <= |line| && Isolated(line, h)
    {
      var j :| 0 <= j < |hits| && hits[j] == h;
      assert MatchAt(WordBounded(p), ignoreCase, line, h.start) == Some(h);
    }
  }

  /** A plain call set apart by non-word characters is found by its whole-word pattern. */
  lemma WholeWordFindsPlainCall(f: CallForm, pre: string, key: string, post: string)
    requires key != [] && NoQuote(key)
    requires 'I' !in pre && 'I' !in key && 'I' !in post
    requires pre == [] || !IsWordChar(pre[|pre| - 1])
    requires post == [] || !IsWordChar(post[0])
    ensures var t := PlainCall(f, key).Text();
      var line := pre + t + post;
      var ks := |pre| + |FunctionName(f)| + 2;
      FindAll(Compiled(WordBounded(Call(f)), false), line, 0) == [Hit(|pre|, |pre| + |t|, ks, ks + |key|)]
  {
    var t := PlainCall(f, key).Text();
    var line := pre + t + post;
    var inner := Attempts(Compiled(Call(f), false), line);
    var ms := Attempts(Compiled(WordBounded(Call(f)), false), line);
    PlainCallAttempts(f, f, pre, key, post);
    if |pre| > 0 {
      assert line[|pre| - 1] == pre[|pre| - 1];
    }
    if post != [] {
      assert line[|pre| + |t|] == post[0];
    }
    assert ms[|pre|] == inner[|pre|];
    forall q | 0 <= q < |line| && q != |pre|
      ensures ms[q].None?
    {
      assert inner[q].None?;
    }
    SelectSingle(ms, 0, |pre|);
  }

  /** The end of a plain call followed by a non-word character is no word boundary. */
  lemma PlainCallEnd(f: CallForm, pre: string, key: string, post: string)
    requires post == [] || !IsWordChar(post[0])
    ensures var t := PlainCall(f, key).Text();
      !WordBoundary(pre + t + post, |pre| + |t|)
  {
    var call := PlainCall(f, key);
    var t := call.Text();
    var line := pre + t + post;
    TextLayout(call);
    assert line[|pre| + |t| - 1] == t[|t| - 1];
    if post != [] {
      assert line[|pre| + |t|] == post[0];
    }
  }

  /** The same call is not found when `\b` is read as the engine reads it. */
  lemma AsWrittenMissesPlainCall(f: CallForm, pre: string, key: string, post: string)
    requires key != [] && NoQuote(key)
    requires 'I' !in pre && 'I' !in key && 'I' !in post
    requires post == [] || !IsWordChar(post[0])
    ensures var line := pre + PlainCall(f, key).Text() + post;
      FindAllAsWritten(Compiled(WordBounded(Call(f)), false), line, 0) == []
  {
    var t := PlainCall(f, key).Text();
    var line := pre + t + post;
    var inner := Attempts(Compiled(Call(f), false), line);
    var ms := AttemptsAsWritten(Compiled(WordBounded(Call(f)), false), line);
    PlainCallAttempts(f, f, pre, key, post);
    PlainCallEnd(f, pre, key, post);
    forall q | 0 <= q < |line|
      ensures ms[q].None?
    {
      assert MatchAtAsWritten(Call(f), false, line, q) == inner[q];
    }
    SelectNone(ms, 0);
  }

  /** The line `if InputPressed("jump") then`, read both ways. */
  lemma WholeWordJumpExample()
    ensures var line := "if InputPressed(\"jump\") then";
      var c := Compiled(WordBounded(Call(Pressed)), false);
      && FindAll(c, line, 0) == [Hit(3, 23, 17, 21)]
      && FindAllAsWritten(c, line, 0) == []
  {
    var line := "if InputPressed(\"jump\") then";
    var t := PlainCall(Pressed, "jump").Text();
    assert t == "InputPressed" + "(" + "" + "\"" + "jump" + "\"" + "" + ")";
    assert t == "InputPressed(\"jump\")";
    assert "if " + t + " then" == line;
    WholeWordFindsPlainCall(Pressed, "if ", "jump", " then");
    AsWrittenMissesPlainCall(Pressed, "if ", "jump", " then");
  }
}
