/**
 * The records `scan_file` produces: one per match, carrying the file path,
 * the 1-based line number, the key (group 1), the matched text (group 0)
 * and a context window of up to 50 characters either side of the match,
 * clipped to the line and stripped.
 */
module Records {
  import opened Wrappers
  import opened Strings
  import opened FileFilter
  import opened Patterns

  /** The `mod_name` entry of a result: absent until `scan_directories` sets it. */
  datatype ModTag = Untagged | Tagged(name: Option<string>)

  /** One result dictionary. */
  datatype Record = Record(filePath: string, lineNumber: nat, keyName: string, context: string,
                           matchedText: string, modName: ModTag)

  /** Characters of context taken on each side of a match. */
  const ContextRadius: nat := 50

  /** `line[max(0, start - 50):min(len(line), end + 50)].strip()`. */
  function ContextOf(line: string, h: Hit): (ctx: string)
    requires h.start <= h.end <= |line|
  {
    var lo := if h.start >= ContextRadius then h.start - ContextRadius else 0;
    var hi := if h.end + ContextRadius <= |line| then h.end + ContextRadius else |line|;
    Strip(line[lo..hi])
  }

  /** The window of `ContextOf`, written out by its two ends. */
  lemma ContextWindow(line: string, h: Hit, lo: int, hi: int)
    requires h.start <= h.end <= |line|
    requires lo == if h.start >= ContextRadius then h.start - ContextRadius else 0
    requires hi == if h.end + ContextRadius <= |line| then h.end + ContextRadius else |line|
    ensures 0 <= lo <= h.start <= h.end <= hi <= |line|
    ensures ContextOf(line, h) == Strip(line[lo..hi])
  {
  }

  /** The record of match `h` on line number `n`. */
  function HitRecord(path: string, n: nat, line: string, h: Hit): (r: Record)
    requires ValidHit(line, h)
  {
    Record(path, n, KeyOf(line, h), ContextOf(line, h), line[h.start..h.end], Untagged)
  }

  /** The records of some matches on one line, in match order. */
  function HitRecords(path: string, n: nat, line: string, hits: seq<Hit>): (rs: seq<Record>)
    requires forall j :: 0 <= j < |hits| ==> ValidHit(line, hits[j])
  {
    seq(|hits|, j requires 0 <= j < |hits| => HitRecord(path, n, line, hits[j]))
  }

  /** The records of line number `n`: pattern by pattern, each pattern's matches in order. */
  function LineRecords(path: string, n: nat, line: string, pats: seq<Compiled>): (rs: seq<Record>)
  {
    if pats == [] then []
    else LineRecords(path, n, line, pats[..|pats| - 1]) + HitRecords(path, n, line, FindAll(pats[|pats| - 1], line, 0))
  }

  /** The records of the lines, line by line, numbered from 1. */
  function LinesRecords(path: string, lines: seq<string>, pats: seq<Compiled>): (rs: seq<Record>)
  {
    if lines == [] then []
    else LinesRecords(path, lines[..|lines| - 1], pats) + LineRecords(path, |lines|, lines[|lines| - 1], pats)
  }

  /**
   * What the file system says about one file: its size (`None` when `stat`
   * fails), the type `mimetypes` guesses, its raw bytes (`None` when it
   * cannot be opened) and its decoded text (`None` when reading or decoding
   * fails).
   */
  datatype FileEntry = FileEntry(path: string, name: string, size: Option<nat>, mimeType: Option<string>,
                                 raw: Option<seq<byte>>, text: Option<string>)

  /** The file passes the size gate and the text-file check, and its text could be read. */
  predicate Readable(e: FileEntry, maxFileSize: int)
  {
    && e.size.Some? && e.size.value <= maxFileSize
    && IsTextFile(e.mimeType, e.raw)
    && e.text.Some?
  }

  /** `scan_file`: the records of a file, or none when any step before the scan fails. */
  function FileRecords(e: FileEntry, pats: seq<Compiled>, maxFileSize: int): (rs: seq<Record>)
    ensures rs != [] ==> Readable(e, maxFileSize)
  {
    if e.size.None? || e.size.value > maxFileSize then []
    else if !IsTextFile(e.mimeType, e.raw) then []
    else
      match e.text
      case None => []
      case Some(content) => LinesRecords(e.path, SplitLines(content), pats)
  }

  // ---------------------------------------------------------------------
  // One more match, pattern or line

  lemma HitRecordsStep(path: string, n: nat, line: string, hits: seq<Hit>, j: nat)
    requires j < |hits| && forall q :: 0 <= q < |hits| ==> ValidHit(line, hits[q])
    ensures HitRecords(path, n, line, hits[..j + 1]) == HitRecords(path, n, line, hits[..j]) + [HitRecord(path, n, line, hits[j])]
  {
  }

  lemma LineRecordsStep(path: string, n: nat, line: string, pats: seq<Compiled>, i: nat)
    requires i < |pats|
    ensures LineRecords(path, n, line, pats[..i + 1])
         == LineRecords(path, n, line, pats[..i]) + HitRecords(path, n, line, FindAll(pats[i], line, 0))
  {
    assert pats[..i + 1][..i] == pats[..i];
  }

  lemma LinesRecordsStep(path: string, lines: seq<string>, pats: seq<Compiled>, k: nat)
    requires k < |lines|
    ensures LinesRecords(path, lines[..k + 1], pats)
         == LinesRecords(path, lines[..k], pats) + LineRecords(path, k + 1, lines[k], pats)
  {
    assert lines[..k + 1][..k] == lines[..k];
  }

  /** A line on which no pattern matches yields no record. */
  lemma {:induction false} LineRecordsNone(path: string, n: nat, line: string, pats: seq<Compiled>)
    requires forall i :: 0 <= i < |pats| ==> FindAll(pats[i], line, 0) == []
    ensures LineRecords(path, n, line, pats) == []
    decreases |pats|
  {
    if pats != [] {
      var init := pats[..|pats| - 1];
      assert forall i :: 0 <= i < |init| ==> init[i] == pats[i];
      LineRecordsNone(path, n, line, init);
    }
  }

  /** A line on which one pattern matches once and no other matches yields exactly that record. */
  lemma {:induction false} LineRecordsSingle(path: string, n: nat, line: string, pats: seq<Compiled>, t: nat, h: Hit)
    requires t < |pats| && FindAll(pats[t], line, 0) == [h]
    requires forall i :: 0 <= i < |pats| && i != t ==> FindAll(pats[i], line, 0) == []
    ensures ValidHit(line, h) && LineRecords(path, n, line, pats) == [HitRecord(path, n, line, h)]
    decreases |pats|
  {
    var init := pats[..|pats| - 1];
    assert forall i :: 0 <= i < |init| ==> init[i] == pats[i];
    assert ValidHit(line, FindAll(pats[t], line, 0)[0]);
    if t == |init| {
      LineRecordsNone(path, n, line, init);
      assert HitRecords(path, n, line, [h]) == [HitRecord(path, n, line, h)];
    } else {
      LineRecordsSingle(path, n, line, init, t, h);
      assert FindAll(pats[|init|], line, 0) == [];
    }
  }

  // ---------------------------------------------------------------------
  // Where records come from

  /** The records of some matches are exactly the records of those matches. */
  lemma HitRecordsMembers(path: string, n: nat, line: string, hits: seq<Hit>, r: Record)
    requires forall j :: 0 <= j < |hits| ==> ValidHit(line, hits[j])
    ensures r in HitRecords(path, n, line, hits) <==> exists j :: 0 <= j < |hits| && r == HitRecord(path, n, line, hits[j])
  {
    if r in HitRecords(path, n, line, hits) {
      HitRecordsSound(path, n, line, hits, r);
    }
    if exists j :: 0 <= j < |hits| && r == HitRecord(path, n, line, hits[j]) {
      var j :| 0 <= j < |hits| && r == HitRecord(path, n, line, hits[j]);
      HitRecordsComplete(path, n, line, hits, j);
    }
  }

  lemma HitRecordsSound(path: string, n: nat, line: string, hits: seq<Hit>, r: Record)
    requires forall j :: 0 <= j < |hits| ==> ValidHit(line, hits[j])
    requires r in HitRecords(path, n, line, hits)
    ensures exists j :: 0 <= j < |hits| && r == HitRecord(path, n, line, hits[j])
  {
    var rs := HitRecords(path, n, line, hits);
    var j :| 0 <= j < |rs| && rs[j] == r;
    assert r == HitRecord(path, n, line, hits[j]);
  }

  lemma HitRecordsComplete(path: string, n: nat, line: string, hits: seq<Hit>, j: nat)
    requires forall j :: 0 <= j < |hits| ==> ValidHit(line, hits[j])
    requires j < |hits|
    ensures HitRecord(path, n, line, hits[j]) in HitRecords(path, n, line, hits)
  {
    assert HitRecords(path, n, line, hits)[j] == HitRecord(path, n, line, hits[j]);
  }

  /** The record of match `j` of pattern `i` on line `k` (counted from 0). */
  predicate MadeBy(path: string, lines: seq<string>, pats: seq<Compiled>, r: Record, k: int, i: int, j: int)
  {
    && 0 <= k < |lines| && 0 <= i < |pats| && 0 <= j < |FindAll(pats[i], lines[k], 0)|
    && r == HitRecord(path, k + 1, lines[k], FindAll(pats[i], lines[k], 0)[j])
  }

  /** Every record of a line is a record of one of the patterns' matches. */
  lemma {:induction false} LineRecordsSound(path: string, n: nat, line: string, pats: seq<Compiled>, r: Record)
    requires r in LineRecords(path, n, line, pats)
    ensures exists i :: 0 <= i < |pats| && r in HitRecords(path, n, line, FindAll(pats[i], line, 0))
    decreases |pats|
  {
    var init := pats[..|pats| - 1];
    if r in LineRecords(path, n, line, init) {
      LineRecordsSound(path, n, line, init, r);
      var i :| 0 <= i < |init| && r in HitRecords(path, n, line, FindAll(init[i], line, 0));
      assert pats[i] == init[i];
    }
  }

  /** Every record of every pattern's matches is among the line's records. */
  lemma {:induction false} LineRecordsComplete(path: string, n: nat, line: string, pats: seq<Compiled>, i: nat, r: Record)
    requires i < |pats| && r in HitRecords(path, n, line, FindAll(pats[i], line, 0))
    ensures r in LineRecords(path, n, line, pats)
    decreases |pats|
  {
    var init := pats[..|pats| - 1];
    if i < |init| {
      assert init[i] == pats[i];
      LineRecordsComplete(path, n, line, init, i, r);
    } else {
      assert pats[i] == pats[|pats| - 1];
    }
  }

  /** Every record of the lines is a record of one line, numbered from 1. */
  lemma {:induction false} LinesRecordsSound(path: string, lines: seq<string>, pats: seq<Compiled>, r: Record)
    requires r in LinesRecords(path, lines, pats)
    ensures exists k :: 0 <= k < |lines| && r in LineRecords(path, k + 1, lines[k], pats)
    decreases |lines|
  {
    var init := lines[..|lines| - 1];
    if r in LinesRecords(path, init, pats) {
      LinesRecordsSound(path, init, pats, r);
      var k :| 0 <= k < |init| && r in LineRecords(path, k + 1, init[k], pats);
      assert lines[k] == init[k];
    }
  }

  /** Every record of every line is among the records of the lines. */
  lemma {:induction false} LinesRecordsComplete(path: string, lines: seq<string>, pats: seq<Compiled>, k: nat, r: Record)
    requires k < |lines| && r in LineRecords(path, k + 1, lines[k], pats)
    ensures r in LinesRecords(path, lines, pats)
    decreases |lines|
  {
    var init := lines[..|lines| - 1];
    var last := LineRecords(path, |lines|, lines[|lines| - 1], pats);
    if k < |init| {
      assert init[k] == lines[k];
      LinesRecordsComplete(path, init, pats, k, r);
    } else {
      assert r in last;
    }
    assert r in LinesRecords(path, init, pats) + last;
  }

  /** Every record of the file is the record of some match. */
  lemma RecordSource(path: string, lines: seq<string>, pats: seq<Compiled>, r: Record)
    requires r in LinesRecords(path, lines, pats)
    ensures exists k, i, j :: MadeBy(path, lines, pats, r, k, i, j)
  {
    LinesRecordsSound(path, lines, pats, r);
    var k :| 0 <= k < |lines| && r in LineRecords(path, k + 1, lines[k], pats);
    LineRecordsSound(path, k + 1, lines[k], pats, r);
    var i :| 0 <= i < |pats| && r in HitRecords(path, k + 1, lines[k], FindAll(pats[i], lines[k], 0));
    var hits := FindAll(pats[i], lines[k], 0);
    HitRecordsSound(path, k + 1, lines[k], hits, r);
    var j :| 0 <= j < |hits| && r == HitRecord(path, k + 1, lines[k], hits[j]);
    assert MadeBy(path, lines, pats, r, k, i, j);
  }

  /** The record of every match of every pattern on every line is among the file's records. */
  lemma MatchRecorded(path: string, lines: seq<string>, pats: seq<Compiled>, r: Record, k: int, i: int, j: int)
    requires MadeBy(path, lines, pats, r, k, i, j)
    ensures r in LinesRecords(path, lines, pats)
  {
    HitRecordsComplete(path, k + 1, lines[k], FindAll(pats[i], lines[k], 0), j);
    LineRecordsComplete(path, k + 1, lines[k], pats, i, r);
    LinesRecordsComplete(path, lines, pats, k, r);
  }

  /**
   * Provenance: a record is among the file's records exactly when it is the
   * record of some match of some pattern on some line, numbered from 1.
   */
  lemma RecordProvenance(path: string, lines: seq<string>, pats: seq<Compiled>, r: Record)
    ensures r in LinesRecords(path, lines, pats) <==> exists k, i, j :: MadeBy(path, lines, pats, r, k, i, j)
  {
    if r in LinesRecords(path, lines, pats) {
      RecordSource(path, lines, pats, r);
    }
    if exists k, i, j :: MadeBy(path, lines, pats, r, k, i, j) {
      var k, i, j :| MadeBy(path, lines, pats, r, k, i, j);
      MatchRecorded(path, lines, pats, r, k, i, j);
    }
  }

  // ---------------------------------------------------------------------
  // Line numbers and order

  /** Every record carries the path and line number `n`, and no mod name yet. */
  predicate Stamped(rs: seq<Record>, path: string, n: nat)
  {
    forall i :: 0 <= i < |rs| ==> rs[i].filePath == path && rs[i].lineNumber == n && rs[i].modName == Untagged
  }

  /**
   * Records of lines `1..m` in line order: every record carries the path, a
   * line number between 1 and `m` and no mod name yet, and line numbers
   * never decrease.
   */
  predicate InLineOrder(rs: seq<Record>, path: string, m: nat)
  {
    && (forall i :: 0 <= i < |rs| ==>
          rs[i].filePath == path && 1 <= rs[i].lineNumber <= m && rs[i].modName == Untagged)
    && (forall i, j :: 0 <= i < j < |rs| ==> rs[i].lineNumber <= rs[j].lineNumber)
  }

  lemma StampedAppend(a: seq<Record>, b: seq<Record>, path: string, n: nat)
    requires Stamped(a, path, n) && Stamped(b, path, n)
    ensures Stamped(a + b, path, n)
  {
  }

  /** Records of earlier lines followed by records of line `m` are in line order. */
  lemma InLineOrderAppend(a: seq<Record>, b: seq<Record>, path: string, m: nat)
    requires m >= 1 && InLineOrder(a, path, m - 1) && Stamped(b, path, m)
    ensures InLineOrder(a + b, path, m)
  {
    var rs := a + b;
    assert forall i :: 0 <= i < |a| ==> rs[i] == a[i];
    assert forall i :: |a| <= i < |rs| ==> rs[i] == b[i - |a|];
  }

  /** Every record of line number `n` carries that number, the file's path and no mod name yet. */
  lemma {:induction false} LineRecordsStamped(path: string, n: nat, line: string, pats: seq<Compiled>)
    ensures Stamped(LineRecords(path, n, line, pats), path, n)
    decreases |pats|
  {
    if pats != [] {
      LineRecordsStamped(path, n, line, pats[..|pats| - 1]);
      StampedAppend(LineRecords(path, n, line, pats[..|pats| - 1]),
                    HitRecords(path, n, line, FindAll(pats[|pats| - 1], line, 0)), path, n);
    }
  }

  /**
   * Records come line by line: line numbers lie between 1 and the number of
   * lines and never decrease; every record has the file's path and no mod
   * name yet.
   */
  lemma {:induction false} LinesRecordsOrdered(path: string, lines: seq<string>, pats: seq<Compiled>)
    ensures InLineOrder(LinesRecords(path, lines, pats), path, |lines|)
    decreases |lines|
  {
    if lines != [] {
      var init := lines[..|lines| - 1];
      LinesRecordsOrdered(path, init, pats);
      LineRecordsStamped(path, |lines|, lines[|lines| - 1], pats);
      InLineOrderAppend(LinesRecords(path, init, pats), LineRecords(path, |lines|, lines[|lines| - 1], pats),
                        path, |lines|);
    }
  }

  // ---------------------------------------------------------------------
  // Order within one line

  /** Where a record of a line comes from: the index of its pattern and its match. */
  datatype Origin = Origin(pat: nat, hit: Hit)

  /** The origins of a line's records, in the order `scan_file` appends them. */
  function Origins(line: string, pats: seq<Compiled>): (os: seq<Origin>)
    ensures forall k :: 0 <= k < |os| ==>
              os[k].pat < |pats| && os[k].hit in FindAll(pats[os[k].pat], line, 0)
  {
    if pats == [] then []
    else
      var init := pats[..|pats| - 1];
      var hs := FindAll(pats[|pats| - 1], line, 0);
      assert forall p :: 0 <= p < |init| ==> init[p] == pats[p];
      Origins(line, init) + seq(|hs|, j requires 0 <= j < |hs| => Origin(|pats| - 1, hs[j]))
  }

  /** Pattern by pattern, and within one pattern by the start of the match. */
  predicate InOriginOrder(os: seq<Origin>)
  {
    forall a, b :: 0 <= a < b < |os| ==>
      os[a].pat < os[b].pat || (os[a].pat == os[b].pat && os[a].hit.start < os[b].hit.start)
  }

  /** The records of a line are the records of its origins, one for one. */
  lemma {:induction false} LineRecordsOrigins(path: string, n: nat, line: string, pats: seq<Compiled>)
    ensures |LineRecords(path, n, line, pats)| == |Origins(line, pats)|
    ensures forall k :: 0 <= k < |Origins(line, pats)| ==>
              ValidHit(line, Origins(line, pats)[k].hit) &&
              LineRecords(path, n, line, pats)[k] == HitRecord(path, n, line, Origins(line, pats)[k].hit)
    decreases |pats|
  {
    if pats != [] {
      var init := pats[..|pats| - 1];
      var hs := FindAll(pats[|pats| - 1], line, 0);
      LineRecordsOrigins(path, n, line, init);
      var os0 := Origins(line, init);
      var os := Origins(line, pats);
      var rs0 := LineRecords(path, n, line, init);
      var rs := LineRecords(path, n, line, pats);
      assert os == os0 + seq(|hs|, j requires 0 <= j < |hs| => Origin(|pats| - 1, hs[j]));
      assert rs == rs0 + HitRecords(path, n, line, hs);
      forall k | 0 <= k < |os|
        ensures ValidHit(line, os[k].hit) && rs[k] == HitRecord(path, n, line, os[k].hit)
      {
        if k >= |os0| {
          assert os[k].hit == hs[k - |os0|];
        }
      }
    }
  }

  /** Origins come pattern by pattern, and each pattern's matches by where they start. */
  lemma {:induction false} OriginsOrdered(line: string, pats: seq<Compiled>)
    ensures InOriginOrder(Origins(line, pats))
    decreases |pats|
  {
    if pats != [] {
      var init := pats[..|pats| - 1];
      var hs := FindAll(pats[|pats| - 1], line, 0);
      OriginsOrdered(line, init);
      FindAllInOrder(pats[|pats| - 1], line, 0);
      var os0 := Origins(line, init);
      var tail := seq(|hs|, j requires 0 <= j < |hs| => Origin(|pats| - 1, hs[j]));
      var os := os0 + tail;
      forall a, b | 0 <= a < b < |os|
        ensures os[a].pat < os[b].pat || (os[a].pat == os[b].pat && os[a].hit.start < os[b].hit.start)
      {
        if b < |os0| {
          assert os[a] == os0[a] && os[b] == os0[b];
        } else if a < |os0| {
          assert os[a] == os0[a] && os[b] == tail[b - |os0|];
        } else {
          assert os[a] == tail[a - |os0|] && os[b] == tail[b - |os0|];
          assert ValidHit(line, hs[a - |os0|]);
        }
      }
    }
  }

  // ---------------------------------------------------------------------
  // What a record says

  /** `text` is a call that fits the pattern for function `name`, and `key` is its key. */
  ghost predicate IsCallOf(text: string, key: string, name: string, ignoreCase: bool)
  {
    exists t: CallText :: t.Fits(name, ignoreCase) && t.Text() == text && t.key == key
  }

  /** Every match `finditer` reports has the layout of a call of the pattern's function. */
  lemma FoundHitShape(c: Compiled, line: string, h: Hit)
    requires h in FindAll(c, line, 0)
    ensures CallShape(FunctionName(c.pattern.Form()), c.ignoreCase, line, h)
  {
    FindAllHits(c, line, 0);
    MatchAtShape(c.pattern, c.ignoreCase, line, h.start);
  }

  /**
   * The context window contains the whole match, lies within the line, and
   * is at most 50 characters longer than the match on each side.
   */
  lemma ContextAroundMatch(line: string, h: Hit)
    requires ValidHit(line, h) && !IsSpace(line[h.start]) && !IsSpace(line[h.end - 1])
    ensures var ctx := ContextOf(line, h);
      && IsSubstring(line[h.start..h.end], ctx)
      && IsSubstring(ctx, line)
      && |ctx| <= (h.end - h.start) + 2 * ContextRadius
  {
    var lo := if h.start >= ContextRadius then h.start - ContextRadius else 0;
    var hi := if h.end + ContextRadius <= |line| then h.end + ContextRadius else |line|;
    ContextWindow(line, h, lo, hi);
    StripWindow(line, lo, hi, h.start, h.end);
  }

  /** The key of every record of a match is non-empty and holds no quote. */
  lemma HitKeyFacts(c: Compiled, path: string, n: nat, line: string, h: Hit)
    requires h in FindAll(c, line, 0)
    ensures var r := HitRecord(path, n, line, h);
      r.keyName != [] && NoQuote(r.keyName)
  {
    FoundHitShape(c, line, h);
    HitKey(FunctionName(c.pattern.Form()), c.ignoreCase, line, h);
  }

  /** The matched text of every record is a call of the pattern's function with the record's key. */
  lemma HitCallFacts(c: Compiled, path: string, n: nat, line: string, h: Hit)
    requires h in FindAll(c, line, 0)
    ensures var r := HitRecord(path, n, line, h);
      IsCallOf(r.matchedText, r.keyName, FunctionName(c.pattern.Form()), c.ignoreCase)
  {
    var name := FunctionName(c.pattern.Form());
    FoundHitShape(c, line, h);
    MatchIsCall(name, c.ignoreCase, line, h);
    var t := CallTextOf(name, c.ignoreCase, line, h);
    assert t.Fits(name, c.ignoreCase) && t.Text() == line[h.start..h.end] && t.key == KeyOf(line, h);
  }

  /** The context of every record surrounds its matched text within the line. */
  lemma HitContextFacts(c: Compiled, path: string, n: nat, line: string, h: Hit)
    requires h in FindAll(c, line, 0)
    ensures var r := HitRecord(path, n, line, h);
      && IsSubstring(r.matchedText, r.context) && IsSubstring(r.context, line)
      && |r.context| <= |r.matchedText| + 2 * ContextRadius
  {
    var name := FunctionName(c.pattern.Form());
    FoundHitShape(c, line, h);
    assert CharEq(line[h.start], name[0], c.ignoreCase) by {
      assert NameAt(line, h.start, name, c.ignoreCase);
    }
    assert name[0] == 'I';
    ContextAroundMatch(line, h);
  }

  // ---------------------------------------------------------------------
  // The gates of `scan_file`

  lemma ReadableFileRecords(e: FileEntry, pats: seq<Compiled>, maxFileSize: int)
    requires Readable(e, maxFileSize)
    ensures FileRecords(e, pats, maxFileSize) == LinesRecords(e.path, SplitLines(e.text.value), pats)
  {
  }

  /** A file above the size limit yields nothing, whatever it holds. */
  lemma TooLargeNoRecords(e: FileEntry, pats: seq<Compiled>, maxFileSize: int)
    requires e.size.Some? && e.size.value > maxFileSize
    ensures FileRecords(e, pats, maxFileSize) == []
  {
  }

  /** A file with a NUL byte among its first 1024 bytes yields nothing. */
  lemma BinaryNoRecords(e: FileEntry, pats: seq<Compiled>, maxFileSize: int, k: nat)
    requires e.raw.Some? && k < |e.raw.value| && k < SniffLength && e.raw.value[k] == 0
    ensures FileRecords(e, pats, maxFileSize) == []
  {
    if !GuessedNonText(e.mimeType) {
      TextFileIsNulFreePrefix(e.mimeType, e.raw.value);
    }
  }
}
