/**
 * `scan_directories` as a function of what the file system shows: the
 * directories in the order given, each with the text of its `info.txt` and
 * the files `os.walk` visits, in visiting order.
 */
module Directories {
  import opened Wrappers
  import opened Strings
  import opened FileFilter
  import opened ModName
  import opened Patterns
  import opened Records
  import opened Grouping

  /**
   * A directory argument: its path, whether it exists and is a directory,
   * the text of its `info.txt` (`None` when missing or unreadable), and the
   * files under it in walk order.
   */
  datatype Directory = Directory(path: string, isDir: bool, info: Option<string>, files: seq<FileEntry>)

  /** The dictionary `scan_directories` returns. */
  datatype Summary = Summary(results: seq<Record>, aggregated: Groups, modInfo: map<string, Option<string>>,
                             totalFilesScanned: nat, totalMatches: nat)

  /** The records with `mod_name` set to `name`. */
  function Stamp(rs: seq<Record>, name: Option<string>): (ts: seq<Record>)
    ensures |ts| == |rs|
    ensures forall i :: 0 <= i < |rs| ==> ts[i] == rs[i].(modName := Tagged(name))
  {
    seq(|rs|, i requires 0 <= i < |rs| => rs[i].(modName := Tagged(name)))
  }

  /** The records of the files whose names pass the filter, file after file. */
  function FilesRecords(files: seq<FileEntry>, pats: seq<Compiled>, maxFileSize: int): (rs: seq<Record>)
  {
    if files == [] then []
    else
      var last := files[|files| - 1];
      FilesRecords(files[..|files| - 1], pats, maxFileSize)
        + if ShouldScanFile(last.name) then FileRecords(last, pats, maxFileSize) else []
  }

  /** The records one directory contributes: none when it is missing or in a dry run. */
  function DirRecords(d: Directory, pats: seq<Compiled>, maxFileSize: int, dryRun: bool): (rs: seq<Record>)
  {
    if !d.isDir || dryRun then []
    else Stamp(FilesRecords(d.files, pats, maxFileSize), ExtractModName(d.info))
  }

  /** `all_results`. */
  function AllRecords(dirs: seq<Directory>, pats: seq<Compiled>, maxFileSize: int, dryRun: bool): (rs: seq<Record>)
  {
    if dirs == [] then []
    else AllRecords(dirs[..|dirs| - 1], pats, maxFileSize, dryRun) + DirRecords(dirs[|dirs| - 1], pats, maxFileSize, dryRun)
  }

  /** `mod_info`: the mod name of every existing directory, by path; a later entry for a path wins. */
  function ModInfo(dirs: seq<Directory>): (m: map<string, Option<string>>)
  {
    if dirs == [] then map[]
    else
      var d := dirs[|dirs| - 1];
      var m := ModInfo(dirs[..|dirs| - 1]);
      if d.isDir then m[d.path := ExtractModName(d.info)] else m
  }

  /** The distinct file paths among the records. */
  function FilePaths(rs: seq<Record>): (ps: set<string>)
  {
    set r | r in rs :: r.filePath
  }

  /** What `scan_directories` returns. */
  function ScanSummary(dirs: seq<Directory>, pats: seq<Compiled>, maxFileSize: int, dryRun: bool): (s: Summary)
  {
    var rs := AllRecords(dirs, pats, maxFileSize, dryRun);
    Summary(rs, Aggregate(rs), ModInfo(dirs), |FilePaths(rs)|, |rs|)
  }

  // ---------------------------------------------------------------------
  // One more file or directory

  lemma StampStep(rs: seq<Record>, name: Option<string>, q: nat)
    requires q < |rs|
    ensures Stamp(rs[..q + 1], name) == Stamp(rs[..q], name) + [rs[q].(modName := Tagged(name))]
  {
  }

  lemma StampAppend(a: seq<Record>, b: seq<Record>, name: Option<string>)
    ensures Stamp(a + b, name) == Stamp(a, name) + Stamp(b, name)
  {
  }

  lemma FilesRecordsStep(files: seq<FileEntry>, pats: seq<Compiled>, maxFileSize: int, m: nat)
    requires m < |files|
    ensures FilesRecords(files[..m + 1], pats, maxFileSize)
         == FilesRecords(files[..m], pats, maxFileSize)
            + if ShouldScanFile(files[m].name) then FileRecords(files[m], pats, maxFileSize) else []
  {
    assert files[..m + 1][..m] == files[..m];
  }

  lemma AllRecordsStep(dirs: seq<Directory>, pats: seq<Compiled>, maxFileSize: int, dryRun: bool, n: nat)
    requires n < |dirs|
    ensures AllRecords(dirs[..n + 1], pats, maxFileSize, dryRun)
         == AllRecords(dirs[..n], pats, maxFileSize, dryRun) + DirRecords(dirs[n], pats, maxFileSize, dryRun)
  {
    assert dirs[..n + 1][..n] == dirs[..n];
  }

  lemma ModInfoStep(dirs: seq<Directory>, n: nat)
    requires n < |dirs|
    ensures ModInfo(dirs[..n + 1])
         == if dirs[n].isDir then ModInfo(dirs[..n])[dirs[n].path := ExtractModName(dirs[n].info)] else ModInfo(dirs[..n])
  {
    assert dirs[..n + 1][..n] == dirs[..n];
  }

  // ---------------------------------------------------------------------
  // Where results come from

  /** Every record of a file carries the file's path and no mod name yet. */
  lemma FileRecordsStamped(e: FileEntry, pats: seq<Compiled>, maxFileSize: int, r: Record)
    requires r in FileRecords(e, pats, maxFileSize)
    ensures r.filePath == e.path && r.modName == Untagged
  {
    var lines := SplitLines(e.text.value);
    LinesRecordsOrdered(e.path, lines, pats);
    var rs := LinesRecords(e.path, lines, pats);
    var i :| 0 <= i < |rs| && rs[i] == r;
  }

  /** Every record of the files is a record of one file whose name passes the filter. */
  lemma {:induction false} FilesRecordsSound(files: seq<FileEntry>, pats: seq<Compiled>, maxFileSize: int, r: Record)
    requires r in FilesRecords(files, pats, maxFileSize)
    ensures exists f :: 0 <= f < |files| && ShouldScanFile(files[f].name) && r in FileRecords(files[f], pats, maxFileSize)
    decreases |files|
  {
    var init := files[..|files| - 1];
    if r in FilesRecords(init, pats, maxFileSize) {
      FilesRecordsSound(init, pats, maxFileSize, r);
      var f :| 0 <= f < |init| && ShouldScanFile(init[f].name) && r in FileRecords(init[f], pats, maxFileSize);
      assert files[f] == init[f];
    }
  }

  /** Every record of every file whose name passes the filter is among the records of the files. */
  lemma {:induction false} FilesRecordsComplete(files: seq<FileEntry>, pats: seq<Compiled>, maxFileSize: int, f: nat, r: Record)
    requires f < |files| && ShouldScanFile(files[f].name) && r in FileRecords(files[f], pats, maxFileSize)
    ensures r in FilesRecords(files, pats, maxFileSize)
    decreases |files|
  {
    var init, last := files[..|files| - 1], files[|files| - 1];
    var tail := if ShouldScanFile(last.name) then FileRecords(last, pats, maxFileSize) else [];
    if f < |init| {
      assert init[f] == files[f];
      FilesRecordsComplete(init, pats, maxFileSize, f, r);
    } else {
      assert files[f] == last;
      assert r in tail;
    }
    assert r in FilesRecords(init, pats, maxFileSize) + tail;
  }

  /**
   * Record `r` of results comes from file `f` of directory `i`: the
   * directory exists, the file's name passes the filter, the record carries
   * the file's path and the directory's mod name, and apart from the mod name
   * it is a record of that file.
   */
  predicate FoundIn(dirs: seq<Directory>, pats: seq<Compiled>, maxFileSize: int, r: Record, i: int, f: int)
  {
    && 0 <= i < |dirs| && dirs[i].isDir && 0 <= f < |dirs[i].files|
    && ShouldScanFile(dirs[i].files[f].name)
    && r.modName == Tagged(ExtractModName(dirs[i].info))
    && r.filePath == dirs[i].files[f].path
    && r.(modName := Untagged) in FileRecords(dirs[i].files[f], pats, maxFileSize)
  }

  /** A record of one directory comes from one of its files, stamped with its mod name. */
  lemma DirRecordSound(d: Directory, pats: seq<Compiled>, maxFileSize: int, dryRun: bool, r: Record)
    requires r in DirRecords(d, pats, maxFileSize, dryRun)
    ensures d.isDir && !dryRun
    ensures exists f :: && 0 <= f < |d.files| && ShouldScanFile(d.files[f].name)
                       && r.modName == Tagged(ExtractModName(d.info)) && r.filePath == d.files[f].path
                       && r.(modName := Untagged) in FileRecords(d.files[f], pats, maxFileSize)
  {
    var rs := FilesRecords(d.files, pats, maxFileSize);
    var ts := Stamp(rs, ExtractModName(d.info));
    var j :| 0 <= j < |ts| && ts[j] == r;
    FilesRecordsSound(d.files, pats, maxFileSize, rs[j]);
    var f :| 0 <= f < |d.files| && ShouldScanFile(d.files[f].name) && rs[j] in FileRecords(d.files[f], pats, maxFileSize);
    FileRecordsStamped(d.files[f], pats, maxFileSize, rs[j]);
    assert r.(modName := Untagged) == rs[j];
  }

  /** Every result comes from a scanned file of an existing directory and carries that directory's mod name. */
  lemma {:induction false} ResultSource(dirs: seq<Directory>, pats: seq<Compiled>, maxFileSize: int, dryRun: bool, r: Record)
    requires r in AllRecords(dirs, pats, maxFileSize, dryRun)
    ensures !dryRun && exists i, f :: FoundIn(dirs, pats, maxFileSize, r, i, f)
    decreases |dirs|
  {
    var init, last := dirs[..|dirs| - 1], dirs[|dirs| - 1];
    if r in AllRecords(init, pats, maxFileSize, dryRun) {
      ResultSource(init, pats, maxFileSize, dryRun, r);
      var i, f :| FoundIn(init, pats, maxFileSize, r, i, f);
      assert dirs[i] == init[i];
      assert FoundIn(dirs, pats, maxFileSize, r, i, f);
    } else {
      DirRecordSound(last, pats, maxFileSize, dryRun, r);
      var f :| && 0 <= f < |last.files| && ShouldScanFile(last.files[f].name)
               && r.modName == Tagged(ExtractModName(last.info)) && r.filePath == last.files[f].path
               && r.(modName := Untagged) in FileRecords(last.files[f], pats, maxFileSize);
      assert FoundIn(dirs, pats, maxFileSize, r, |dirs| - 1, f);
    }
  }

  /** A record of a scanned file, stamped with its directory's mod name, is among the results. */
  lemma DirRecordComplete(d: Directory, pats: seq<Compiled>, maxFileSize: int, f: nat, r: Record)
    requires d.isDir && f < |d.files| && ShouldScanFile(d.files[f].name)
    requires r.modName == Tagged(ExtractModName(d.info))
    requires r.(modName := Untagged) in FileRecords(d.files[f], pats, maxFileSize)
    ensures r in DirRecords(d, pats, maxFileSize, false)
  {
    var u := r.(modName := Untagged);
    FilesRecordsComplete(d.files, pats, maxFileSize, f, u);
    var rs := FilesRecords(d.files, pats, maxFileSize);
    var j :| 0 <= j < |rs| && rs[j] == u;
    assert Stamp(rs, ExtractModName(d.info))[j] == r;
  }

  /** Every record of every scanned file of every existing directory is among the results, unless in a dry run. */
  lemma {:induction false} ResultComplete(dirs: seq<Directory>, pats: seq<Compiled>, maxFileSize: int, r: Record, i: int, f: int)
    requires FoundIn(dirs, pats, maxFileSize, r, i, f)
    ensures r in AllRecords(dirs, pats, maxFileSize, false)
    decreases |dirs|
  {
    var init, last := dirs[..|dirs| - 1], dirs[|dirs| - 1];
    if i < |init| {
      assert init[i] == dirs[i];
      assert FoundIn(init, pats, maxFileSize, r, i, f);
      ResultComplete(init, pats, maxFileSize, r, i, f);
    } else {
      DirRecordComplete(last, pats, maxFileSize, f, r);
    }
    assert r in AllRecords(init, pats, maxFileSize, false) + DirRecords(last, pats, maxFileSize, false);
  }

  /** Outside a dry run, the results are exactly the stamped records of the scanned files of the existing directories. */
  lemma ResultProvenance(dirs: seq<Directory>, pats: seq<Compiled>, maxFileSize: int, r: Record)
    ensures r in AllRecords(dirs, pats, maxFileSize, false) <==> exists i, f :: FoundIn(dirs, pats, maxFileSize, r, i, f)
  {
    if r in AllRecords(dirs, pats, maxFileSize, false) {
      ResultSource(dirs, pats, maxFileSize, false, r);
    }
    if exists i, f :: FoundIn(dirs, pats, maxFileSize, r, i, f) {
      var i, f :| FoundIn(dirs, pats, maxFileSize, r, i, f);
      ResultComplete(dirs, pats, maxFileSize, r, i, f);
    }
  }

  // ---------------------------------------------------------------------
  // Mod names

  /** `mod_info` has an entry exactly for the paths of the existing directories. */
  lemma {:induction false} ModInfoKeys(dirs: seq<Directory>, p: string)
    ensures p in ModInfo(dirs) <==> exists i :: 0 <= i < |dirs| && dirs[i].isDir && dirs[i].path == p
    decreases |dirs|
  {
    if dirs != [] {
      var init := dirs[..|dirs| - 1];
      ModInfoKeys(init, p);
      assert forall i :: 0 <= i < |init| ==> init[i] == dirs[i];
    }
  }

  /** The entry for a path is the mod name of the last existing directory with that path. */
  lemma {:induction false} ModInfoLastWins(dirs: seq<Directory>, i: nat)
    requires i < |dirs| && dirs[i].isDir
    requires forall j :: i < j < |dirs| && dirs[j].isDir ==> dirs[j].path != dirs[i].path
    ensures dirs[i].path in ModInfo(dirs) && ModInfo(dirs)[dirs[i].path] == ExtractModName(dirs[i].info)
    decreases |dirs|
  {
    var init := dirs[..|dirs| - 1];
    if i < |init| {
      assert forall j :: i < j < |init| ==> init[j] == dirs[j];
      ModInfoLastWins(init, i);
    }
  }

  // ---------------------------------------------------------------------
  // Dry runs

  lemma {:induction false} DryRunNoRecords(dirs: seq<Directory>, pats: seq<Compiled>, maxFileSize: int)
    ensures AllRecords(dirs, pats, maxFileSize, true) == []
    decreases |dirs|
  {
    if dirs != [] {
      DryRunNoRecords(dirs[..|dirs| - 1], pats, maxFileSize);
    }
  }

  /** A dry run reads the mod names but scans nothing: no results and both counters zero. */
  lemma DryRunSummary(dirs: seq<Directory>, pats: seq<Compiled>, maxFileSize: int)
    ensures var s := ScanSummary(dirs, pats, maxFileSize, true);
      && s.results == [] && s.totalFilesScanned == 0 && s.totalMatches == 0
      && s.aggregated.lists == map[] && s.modInfo == ModInfo(dirs)
  {
    DryRunNoRecords(dirs, pats, maxFileSize);
    assert FilePaths([]) == {};
  }

  // ---------------------------------------------------------------------
  // The counters

  /** The number of distinct paths is at most the number of records, and zero only without records. */
  lemma FilesScannedBound(rs: seq<Record>)
    ensures |FilePaths(rs)| <= |rs|
    ensures |FilePaths(rs)| == 0 <==> rs == []
  {
    FilePathsBound(rs);
    if rs != [] {
      assert rs[0].filePath in FilePaths(rs);
    }
  }

  lemma {:induction false} FilePathsBound(rs: seq<Record>)
    ensures |FilePaths(rs)| <= |rs|
    decreases |rs|
  {
    if rs != [] {
      var init := rs[..|rs| - 1];
      FilePathsBound(init);
      assert rs == init + [rs[|rs| - 1]];
      assert FilePaths(rs) == FilePaths(init) + {rs[|rs| - 1].filePath};
    }
  }

  /**
   * The summary: `total_matches` counts the results, `total_files_scanned`
   * counts their distinct file paths, which is at most `total_matches` and
   * zero exactly when there are no results; `aggregated` groups the results.
   */
  lemma SummaryCounters(dirs: seq<Directory>, pats: seq<Compiled>, maxFileSize: int, dryRun: bool)
    ensures var s := ScanSummary(dirs, pats, maxFileSize, dryRun);
      && s.totalMatches == |s.results|
      && s.totalFilesScanned == |FilePaths(s.results)|
      && s.totalFilesScanned <= s.totalMatches
      && (s.totalFilesScanned == 0 <==> s.results == [])
      && TotalSize(s.aggregated) == s.totalMatches
  {
    var rs := AllRecords(dirs, pats, maxFileSize, dryRun);
    FilesScannedBound(rs);
    AggregateSizes(rs);
  }
}
