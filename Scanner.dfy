/**
 * The `KeybindScanner` class: its settings, the compiled pattern list built
 * by its constructor, and the loops of `scan_file`, `aggregate_results` and
 * `scan_directories`.
 */
module Scanner {
  import opened Wrappers
  import opened Strings
  import opened FileFilter
  import opened ModName
  import opened Patterns
  import opened Records
  import opened Grouping
  import opened Directories

  /** The defaults of the constructor's parameters. */
  const DefaultMaxFileSize: int := 10 * 1024 * 1024
  const DefaultConcurrency: int := 4
  const DefaultEncoding: string := "utf-8"

  /** `patterns or DEFAULT_PATTERNS`: a missing or empty list means the defaults. */
  function PatternsOrDefault(patterns: Option<seq<Pattern>>): (ps: seq<Pattern>)
  {
    if patterns.None? || patterns.value == [] then DefaultPatterns else patterns.value
  }

  /** The scanner always has at least one pattern, and a non-empty list given to it is kept. */
  lemma PatternsNeverEmpty(patterns: Option<seq<Pattern>>)
    ensures PatternsOrDefault(patterns) != []
    ensures patterns.Some? && patterns.value != [] ==> PatternsOrDefault(patterns) == patterns.value
    ensures patterns.Some? && patterns.value == [] ==> PatternsOrDefault(patterns) == DefaultPatterns
  {
  }

  class KeybindScanner {
    var patterns: seq<Pattern>
    var caseInsensitive: bool
    var wholeWord: bool
    var maxFileSize: int
    var concurrency: int
    var encoding: string
    var compiledPatterns: seq<Compiled>

    /** `__init__`: keeps the settings and compiles each pattern, wrapped for whole-word matching if asked. */
    constructor (patterns: Option<seq<Pattern>>, caseInsensitive: bool, wholeWord: bool,
                 maxFileSize: int, concurrency: int, encoding: string)
      ensures this.patterns == PatternsOrDefault(patterns)
      ensures this.caseInsensitive == caseInsensitive && this.wholeWord == wholeWord
      ensures this.maxFileSize == maxFileSize && this.concurrency == concurrency && this.encoding == encoding
      ensures compiledPatterns == CompileAll(this.patterns, caseInsensitive, wholeWord)
    {
      var ps := PatternsOrDefault(patterns);
      var compiled := CompilePatterns(ps, caseInsensitive, wholeWord);
      this.patterns := ps;
      this.caseInsensitive := caseInsensitive;
      this.wholeWord := wholeWord;
      this.maxFileSize := maxFileSize;
      this.concurrency := concurrency;
      this.encoding := encoding;
      compiledPatterns := compiled;
    }

    /** `KeybindScanner()`: every parameter at its default. */
    constructor Default()
      ensures patterns == DefaultPatterns
      ensures !caseInsensitive && !wholeWord
      ensures maxFileSize == DefaultMaxFileSize && concurrency == DefaultConcurrency && encoding == DefaultEncoding
      ensures compiledPatterns == CompileAll(DefaultPatterns, false, false)
    {
      var compiled := CompilePatterns(DefaultPatterns, false, false);
      patterns := DefaultPatterns;
      caseInsensitive := false;
      wholeWord := false;
      maxFileSize := DefaultMaxFileSize;
      concurrency := DefaultConcurrency;
      encoding := DefaultEncoding;
      compiledPatterns := compiled;
    }

    /** The loop of `__init__` that compiles the patterns one by one. */
    static method CompilePatterns(ps: seq<Pattern>, caseInsensitive: bool, wholeWord: bool)
      returns (compiled: seq<Compiled>)
      ensures compiled == CompileAll(ps, caseInsensitive, wholeWord)
    {
      compiled := [];
      for i := 0 to |ps|
        invariant |compiled| == i
        invariant forall j :: 0 <= j < i ==> compiled[j] == CompilePattern(ps[j], caseInsensitive, wholeWord)
      {
        compiled := compiled + [CompilePattern(ps[i], caseInsensitive, wholeWord)];
      }
    }

    /** `scan_file`: the records of one file, line by line, pattern by pattern, match by match. */
    method ScanFile(e: FileEntry) returns (results: seq<Record>)
      ensures results == FileRecords(e, compiledPatterns, maxFileSize)
    {
      results := [];
      if e.size.None? || e.size.value > maxFileSize {
        return;
      }
      if !IsTextFile(e.mimeType, e.raw) {
        return;
      }
      if e.text.None? {
        return;
      }
      var pats := compiledPatterns;
      var lines := SplitLines(e.text.value);
      for k := 0 to |lines|
        invariant results == LinesRecords(e.path, lines[..k], pats)
      {
        var line := lines[k];
        var lineResults: seq<Record> := [];
        for i := 0 to |pats|
          invariant lineResults == LineRecords(e.path, k + 1, line, pats[..i])
        {
          var hits := FindAll(pats[i], line, 0);
          var found: seq<Record> := [];
          for j := 0 to |hits|
            invariant found == HitRecords(e.path, k + 1, line, hits[..j])
          {
            var h := hits[j];
            var start := if h.start >= ContextRadius then h.start - ContextRadius else 0;
            var end := if h.end + ContextRadius <= |line| then h.end + ContextRadius else |line|;
            var context := Strip(line[start..end]);
            var r := Record(e.path, k + 1, line[h.keyStart..h.keyEnd], context, line[h.start..h.end], Untagged);
            ContextWindow(line, h, start, end);
            assert r == HitRecord(e.path, k + 1, line, h);
            HitRecordsStep(e.path, k + 1, line, hits, j);
            found := found + [r];
          }
          assert hits[..|hits|] == hits;
          LineRecordsStep(e.path, k + 1, line, pats, i);
          lineResults := lineResults + found;
        }
        assert pats[..|pats|] == pats;
        LinesRecordsStep(e.path, lines, pats, k);
        results := results + lineResults;
      }
      assert lines[..|lines|] == lines;
    }

    /** `aggregate_results`: the records grouped by key name. */
    method AggregateResults(results: seq<Record>) returns (aggregated: Groups)
      ensures aggregated == Aggregate(results)
    {
      var order: seq<string> := [];
      var lists: map<string, seq<Record>> := map[];
      for i := 0 to |results|
        invariant Groups(order, lists) == Aggregate(results[..i])
      {
        var key := results[i].keyName;
        if key !in lists {
          order := order + [key];
          lists := lists[key := []];
        }
        lists := lists[key := lists[key] + [results[i]]];
        AggregateSnoc(results[..i], results[i]);
        assert results[..i + 1] == results[..i] + [results[i]];
      }
      assert results[..|results|] == results;
      aggregated := Groups(order, lists);
    }

    /** `scan_directories`. */
    method ScanDirectories(dirs: seq<Directory>, dryRun: bool) returns (summary: Summary)
      ensures summary == ScanSummary(dirs, compiledPatterns, maxFileSize, dryRun)
    {
      var pats := compiledPatterns;
      var allResults: seq<Record> := [];
      var modInfo: map<string, Option<string>> := map[];
      for n := 0 to |dirs|
        invariant allResults == AllRecords(dirs[..n], pats, maxFileSize, dryRun)
        invariant modInfo == ModInfo(dirs[..n])
      {
        var d := dirs[n];
        AllRecordsStep(dirs, pats, maxFileSize, dryRun, n);
        ModInfoStep(dirs, n);
        if !d.isDir {
          continue;
        }
        var modName := ExtractModName(d.info);
        modInfo := modInfo[d.path := modName];
        if dryRun {
          continue;
        }
        var dirResults: seq<Record> := [];
        for m := 0 to |d.files|
          invariant dirResults == Stamp(FilesRecords(d.files[..m], pats, maxFileSize), modName)
        {
          var f := d.files[m];
          FilesRecordsStep(d.files, pats, maxFileSize, m);
          if ShouldScanFile(f.name) {
            var results := ScanFile(f);
            var tagged: seq<Record> := [];
            for q := 0 to |results|
              invariant tagged == Stamp(results[..q], modName)
            {
              StampStep(results, modName, q);
              tagged := tagged + [results[q].(modName := Tagged(modName))];
            }
            assert results[..|results|] == results;
            StampAppend(FilesRecords(d.files[..m], pats, maxFileSize), results, modName);
            dirResults := dirResults + tagged;
          }
        }
        assert d.files[..|d.files|] == d.files;
        allResults := allResults + dirResults;
      }
      assert dirs[..|dirs|] == dirs;
      var aggregated := AggregateResults(allResults);
      summary := Summary(allResults, aggregated, modInfo, |FilePaths(allResults)|, |allResults|);
    }
  }
}
