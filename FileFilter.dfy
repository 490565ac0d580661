/**
 * Which files the scanner reads: the file-name filter (`should_scan_file`
 * over FILE_PATTERNS) and the binary sniff (`is_text_file`).
 */
module FileFilter {
  import opened Wrappers
  import opened Strings

  newtype byte = x: int | 0 <= x < 256

  /**
   * One entry of FILE_PATTERNS, each compiled case-insensitive and applied
   * with `re.match`: `^lit$` (Exact) or `^lit.*$` (Prefix).
   */
  datatype NamePattern = Exact(lit: string) | Prefix(lit: string)

  const FilePatterns: seq<NamePattern> :=
    [Exact("main.lua"), Exact("options.lua"), Exact("info.txt"), Prefix("readme")]

  /**
   * Python's `$` (without MULTILINE) matches at the end of the name or just
   * before a final `\n`; `.` matches anything but `\n`.
   */
  predicate NameMatches(p: NamePattern, name: string)
  {
    match p
    case Exact(lit) =>
      || EqualsIgnoreCase(name, lit)
      || (|name| == |lit| + 1 && name[|lit|] == '\n' && PrefixIgnoreCase(name, lit))
    case Prefix(lit) =>
      && PrefixIgnoreCase(name, lit)
      && forall k :: |lit| <= k < |name| - 1 ==> name[k] != '\n'
  }

  /** `should_scan_file`: some pattern of FILE_PATTERNS matches the file name. */
  predicate ShouldScanFile(name: string)
  {
    exists i :: 0 <= i < |FilePatterns| && NameMatches(FilePatterns[i], name)
  }

  predicate IsScannedName(lowered: string)
  {
    lowered == "main.lua" || lowered == "options.lua" || lowered == "info.txt"
    || (|lowered| >= 6 && lowered[..6] == "readme")
  }

  /**
   * For a name with no line feed in it: accepted exactly when its lower-case
   * form is `main.lua`, `options.lua` or `info.txt`, or starts with `readme`.
   */
  lemma ShouldScanFileExactly(name: string)
    requires forall k :: 0 <= k < |name| ==> name[k] != '\n'
    ensures ShouldScanFile(name) <==> IsScannedName(Lower(name))
  {
    if ShouldScanFile(name) {
      AcceptedNameIsListed(name);
    }
    if IsScannedName(Lower(name)) {
      ListedNameIsAccepted(name);
    }
  }

  lemma AcceptedNameIsListed(name: string)
    requires forall k :: 0 <= k < |name| ==> name[k] != '\n'
    requires ShouldScanFile(name)
    ensures IsScannedName(Lower(name))
  {
    var i :| 0 <= i < |FilePatterns| && NameMatches(FilePatterns[i], name);
    MatchedPatternIsListed(name, i);
  }

  lemma MatchedPatternIsListed(name: string, i: nat)
    requires forall k :: 0 <= k < |name| ==> name[k] != '\n'
    requires i < |FilePatterns| && NameMatches(FilePatterns[i], name)
    ensures IsScannedName(Lower(name))
  {
    if i == 0 {
      ExactLiteral(name, "main.lua");
    } else if i == 1 {
      ExactLiteral(name, "options.lua");
    } else if i == 2 {
      ExactLiteral(name, "info.txt");
    } else {
      PrefixIgnoreCaseIsLowerPrefix(name, "readme");
    }
  }

  lemma ExactLiteral(name: string, lit: string)
    requires IsLowerAscii(lit) && EqualsIgnoreCase(name, lit)
    ensures Lower(name) == lit
  {
    PrefixIgnoreCaseIsLowerPrefix(name, lit);
    assert Lower(name) == Lower(name)[..|lit|];
  }

  lemma ListedNameIsAccepted(name: string)
    requires forall k :: 0 <= k < |name| ==> name[k] != '\n'
    requires IsScannedName(Lower(name))
    ensures ShouldScanFile(name)
  {
    var lo := Lower(name);
    if lo == "main.lua" {
      ListedLiteral(name, 0);
    } else if lo == "options.lua" {
      ListedLiteral(name, 1);
    } else if lo == "info.txt" {
      ListedLiteral(name, 2);
    } else {
      PrefixIgnoreCaseIsLowerPrefix(name, "readme");
      assert NameMatches(FilePatterns[3], name);
    }
  }

  lemma ListedLiteral(name: string, i: nat)
    requires i < 3 && Lower(name) == FilePatterns[i].lit
    ensures NameMatches(FilePatterns[i], name)
  {
    var lit := FilePatterns[i].lit;
    PrefixIgnoreCaseIsLowerPrefix(name, lit);
    assert Lower(name)[..|lit|] == lit;
  }

  /** The `$` of a FILE_PATTERNS entry also lets a single trailing line feed through. */
  lemma TrailingLineFeedAccepted(name: string)
    requires ShouldScanFile(name)
    requires forall k :: 0 <= k < |name| ==> name[k] != '\n'
    ensures ShouldScanFile(name + "\n")
  {
    var i :| 0 <= i < |FilePatterns| && NameMatches(FilePatterns[i], name);
    var n := name + "\n";
    assert forall k :: 0 <= k < |name| ==> n[k] == name[k];
    assert NameMatches(FilePatterns[i], n);
  }

  /** The names the file-filtering unit test expects to be scanned. */
  lemma FileFilteringAccepts()
    ensures ShouldScanFile("main.lua") && ShouldScanFile("MAIN.LUA")
    ensures ShouldScanFile("options.lua") && ShouldScanFile("info.txt")
    ensures ShouldScanFile("readme.txt") && ShouldScanFile("readme.md") && ShouldScanFile("README")
  {
    assert NameMatches(FilePatterns[0], "main.lua");
    assert NameMatches(FilePatterns[0], "MAIN.LUA");
    assert NameMatches(FilePatterns[1], "options.lua");
    assert NameMatches(FilePatterns[2], "info.txt");
    assert NameMatches(FilePatterns[3], "readme.txt");
    assert NameMatches(FilePatterns[3], "readme.md");
    assert NameMatches(FilePatterns[3], "README");
  }

  /** The names the file-filtering unit test expects to be skipped. */
  lemma FileFilteringRejects()
    ensures !ShouldScanFile("script.lua") && !ShouldScanFile("data.json")
  {
    forall i | 0 <= i < |FilePatterns|
      ensures !NameMatches(FilePatterns[i], "script.lua")
      ensures !NameMatches(FilePatterns[i], "data.json")
    {
      if i == 3 {
        assert !CharEq("script.lua"[0], "readme"[0], true);
        assert !CharEq("data.json"[0], "readme"[0], true);
      }
    }
  }

  // ---------------------------------------------------------------------
  // is_text_file

  const SniffLength := 1024

  /** The bytes `f.read(1024)` returns. */
  function Sniffed(data: seq<byte>): (d: seq<byte>)
    ensures |d| == if |data| <= SniffLength then |data| else SniffLength
    ensures d == data[..|d|]
  {
    if |data| <= SniffLength then data else data[..SniffLength]
  }

  /** The MIME guess for the path's extension names a type that is not `text/...`. */
  predicate GuessedNonText(mimeType: Option<string>)
  {
    mimeType.Some? && mimeType.value != "" && !(|mimeType.value| >= 5 && mimeType.value[..5] == "text/")
  }

  /**
   * `is_text_file`. `mimeType` is what `mimetypes.guess_type` returned for
   * the path; `raw` is the file's bytes, `None` when opening or reading fails.
   */
  function IsTextFile(mimeType: Option<string>, raw: Option<seq<byte>>): (r: bool)
    ensures r ==> raw.Some?
  {
    if GuessedNonText(mimeType) then false
    else match raw
      case None => false
      case Some(data) => 0 !in Sniffed(data)
  }

  /** A NUL among the first 1024 bytes marks the file as binary; later bytes are never looked at. */
  lemma TextFileIsNulFreePrefix(mimeType: Option<string>, data: seq<byte>)
    requires !GuessedNonText(mimeType)
    ensures IsTextFile(mimeType, Some(data)) <==>
      forall k :: 0 <= k < |data| && k < SniffLength ==> data[k] != 0
  {
    var d := Sniffed(data);
    if !IsTextFile(mimeType, Some(data)) {
      var j :| 0 <= j < |d| && d[j] == 0;
      assert data[j] == 0;
    }
  }

  lemma SniffIgnoresTail(mimeType: Option<string>, data: seq<byte>, tail: seq<byte>)
    requires |data| >= SniffLength
    ensures IsTextFile(mimeType, Some(data + tail)) == IsTextFile(mimeType, Some(data))
  {
    assert Sniffed(data + tail) == Sniffed(data);
  }

  /** A non-text MIME guess or an unreadable file is rejected whatever the bytes. */
  lemma NonTextRejected(mimeType: Option<string>, raw: Option<seq<byte>>)
    requires GuessedNonText(mimeType) || raw.None?
    ensures !IsTextFile(mimeType, raw)
  {
  }
}
