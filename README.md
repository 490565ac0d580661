# Keybind scanner, modelled in Dafny

This project models `KeybindScanner`, the scanner of the Teardown mod
keybind tool (`keybind_scanner.py`). The scanner walks mod directories and
selects the files worth reading by name (`main.lua`, `options.lua`,
`info.txt`, `readme*`). It skips files that are too large or look binary.
In what remains, it finds calls of the four Teardown input functions:
`InputPressed`, `InputDown`, `InputReleased` and `InputValue`.

For every match the regular expression's `finditer` reports, it emits a
record; `finditer` scans left to right and resumes after each match, so a
call inside the text of an earlier match of the same pattern is not
reported. A record has these fields:
- the file path;
- the 1-based line number;
- the key name quoted in the call;
- a context window of up to 50 characters on each side, clipped to the line and stripped;
- the matched text.

Each record is then stamped with the mod name its directory's `info.txt`
gives. The records are grouped by key name and summarised with two
counters.

The modules follow the scanner's parts:

| module | models |
|---|---|
| `Wrappers` | `Option` |
| `Strings` | `str.isspace`, `str.strip`, ASCII case folding, `str.splitlines`, and text-mode line iteration (universal newlines) |
| `FileFilter` | `FILE_PATTERNS` / `should_scan_file`, and the NUL sniff of `is_text_file` |
| `ModName` | `extract_mod_name` over the text of `info.txt` |
| `Patterns` | the four default patterns, the `\b` wrapping of `whole_word` (both as the regular-expression engine reads it and as evidently intended; the scan uses the intended reading, see "## Findings"), and `finditer` as a left-to-right, non-overlapping scan |
| `Records` | the records of one line and of one file, the context window, and the gates of `scan_file` |
| `Examples` | the scenarios of `test_scanner.py` |
| `Grouping` | `aggregate_results` |
| `Directories` | `scan_directories` as a function of its inputs |
| `Scanner` | the `KeybindScanner` class; constructor, `scan_file`, `aggregate_results` and `scan_directories` are methods with loops, each proved equal to the function that specifies it |

The file system is an input to the model. A `Directory` has these fields:
- its path;
- whether it exists as a directory;
- the text of its `info.txt`, if the file can be read;
- the files `os.walk` yields, in walk order.

A `FileEntry` has these fields:
- its path and name;
- its size from `stat`, if that succeeds;
- the type `mimetypes` guesses;
- its raw bytes, if it opens;
- its decoded text, if decoding succeeds.

A missing value stands for the exception the scanner catches; with it, the
scanner yields the same result it yields on that exception.

## Model

| member | source | states |
|---|---|---|
| `Patterns.FunctionName` | keybind_scanner.py:20-25 | every input function name starts with `Input` and has a capital `I` nowhere but at its start |
| `Patterns.CompileAll` | keybind_scanner.py:55-59 | one compiled pattern per pattern, in order; each keeps the case flag, and is wrapped in `\b…\b` exactly when whole-word is on |
| `Patterns.CallAt` | keybind_scanner.py:21-24 | defines one call pattern tried at one position: the function name, `(`, spaces, a quote, the key up to the next quote, a quote, spaces, `)`; any match starts at that position, lies within the line and ends in `)` |
| `Patterns.MatchAt` | keybind_scanner.py:57-58 | defines a compiled pattern tried at one position, whole-word as evidently intended: the call match, kept only when no word character touches it on either side; any match starts there, lies within the line and ends in `)` |
| `Patterns.MatchAtAsWritten` | keybind_scanner.py:57-58 | defines the same with `\b…\b` as the regular-expression engine reads it: the call match, kept only when both of its ends are word boundaries; any match starts there, lies within the line and ends in `)` |
| `Patterns.MatchAtShape` | keybind_scanner.py:21-24 | a match at a position is the function name (case-insensitively if asked), `(`, optional whitespace, a quote character, a non-empty run of non-quote characters (group 1), a quote character (the two need not match), optional whitespace, `)` |
| `Patterns.CallIsMatched` | keybind_scanner.py:21-24 | conversely, every text of that shape at a position is matched there, with group 1 exactly the key |
| `Patterns.FindAll` | keybind_scanner.py:115 | defines `finditer` as used by the scan: take the match at the first position that has one, resume at its end; every yielded match lies within the line |
| `Patterns.FindAllAsWritten` | keybind_scanner.py:115 | defines the same scan over `MatchAtAsWritten`, i.e. the program's own `finditer` when `whole_word` is on |
| `Patterns.FindAllHits` | keybind_scanner.py:115 | `finditer` yields only real matches, in increasing position, without overlap |
| `Patterns.FindAllComplete` | keybind_scanner.py:115 | every position where the pattern matches lies inside some yielded match |
| `Patterns.FindAllSkips` | keybind_scanner.py:115 | positions where the pattern cannot match do not change what is yielded after them |
| `Patterns.FindAllInOrder` | keybind_scanner.py:115 | of any two yielded matches, the earlier one ends at or before the start of the later one, so their starts strictly increase |
| `Patterns.FindAllAgreesUnwrapped` | keybind_scanner.py:55-59 | without the whole-word wrapping, the scan with `\b` as written and the scan with it as intended report the same matches |
| `Patterns.FindAllAsWrittenShape` | keybind_scanner.py:57-59 | with `\b` as written as well, every reported match has the layout of a call of the pattern's function |
| `Patterns.HitKey` | keybind_scanner.py:116 | group 1 of a match is non-empty and holds no quote character |
| `Patterns.PlainCallOnLine` | keybind_scanner.py:114-115 | case-sensitively, on a line holding one call `Form("key")` (a non-empty key without quotes) and no other capital `I`, the pattern of that form finds exactly that call and the other three find nothing |
| `Patterns.WholeWordIsolation` | keybind_scanner.py:57-58 | with `whole_word` (as corrected), every match has no word character just before it or just after it |
| `Patterns.WholeWordFindsPlainCall` | keybind_scanner.py:57-58 | with `whole_word` (as corrected) and case-sensitively, a call `Form("key")` with no word character right before or after it, on a line with no other capital `I`, is found, and it is the only match |
| `Patterns.AsWrittenWholeWordNeedsWordAfter` | keybind_scanner.py:57-58 | as written, a whole-word match must be followed by a word character |
| `Patterns.AsWrittenMissesPlainCall` | keybind_scanner.py:57-58 | as written, whole-word finds nothing on a line whose call is not followed by a word character |
| `Patterns.WholeWordJumpExample` | keybind_scanner.py:57-58 | `if InputPressed("jump") then` gives one match as corrected and none as written |
| `FileFilter.ShouldScanFile` | keybind_scanner.py:79-82 | defines `should_scan_file`: some pattern of `FILE_PATTERNS` matches the file name |
| `FileFilter.ShouldScanFileExactly` | keybind_scanner.py:28-82 | a name with no line feed is scanned exactly when it case-insensitively equals `main.lua`, `options.lua` or `info.txt`, or starts with `readme` |
| `FileFilter.TrailingLineFeedAccepted` | keybind_scanner.py:29-31 | `$` also matches before a final line feed, so an accepted name stays accepted with a `\n` added |
| `FileFilter.FileFilteringAccepts` | test_scanner.py:58-78 | `main.lua`, `MAIN.LUA`, `options.lua`, `info.txt`, `readme.txt`, `readme.md` and `README` are scanned |
| `FileFilter.FileFilteringRejects` | test_scanner.py:58-78 | `script.lua` and `data.json` are not scanned |
| `FileFilter.Sniffed` | keybind_scanner.py:70-71 | `read(1024)` gives the first `min(1024, size)` bytes: exactly that many, and a prefix of the file |
| `FileFilter.IsTextFile` | keybind_scanner.py:63-77 | defines `is_text_file`: false when the guessed type is set and not `text/`, false when the file cannot be read, else true exactly when the first 1024 bytes hold no NUL; true only for a file that could be read |
| `FileFilter.TextFileIsNulFreePrefix` | keybind_scanner.py:68-77 | when the type guess does not rule it out, a file is text exactly when none of its first 1024 bytes is NUL |
| `FileFilter.SniffIgnoresTail` | keybind_scanner.py:71-74 | bytes after the first 1024 never matter |
| `FileFilter.NonTextRejected` | keybind_scanner.py:65-76 | a guessed type outside `text/`, or a file that cannot be opened, is not text |
| `ModName.FirstName` | keybind_scanner.py:90-92 | no value exactly when no line starts with `name:` case-insensitively; otherwise the first such line's text after its first colon, stripped |
| `ModName.NameLineValue` | keybind_scanner.py:92 | on a name line the first colon is the one of `name:`, so the value is the text after those five characters |
| `ModName.ExtractModName` | keybind_scanner.py:84-95 | no `info.txt` gives no name; any name found has no surrounding whitespace |
| `ModName.FirstNameLineWins` | keybind_scanner.py:90-92 | a first line that is a name line decides the result, whatever follows |
| `ModName.NoNameLine` | keybind_scanner.py:90-91 | a first line that is not a name line is skipped |
| `ModName.TestModName` | test_scanner.py:80-91 | `name: Test Mod\nversion: 1.0\n` gives `Test Mod` |
| `Strings.Strip` | keybind_scanner.py:120 | defines `str.strip()`: the slice between the first and the last character that is not whitespace |
| `Strings.SplitLines` | keybind_scanner.py:112 | defines `str.splitlines()`: lines split at every line boundary of `splitlines` (`\n`, `\r`, `\r\n`, `\v`, `\f`, the separators `\x1c`–`\x1e`, `\x85`, U+2028, U+2029), without their terminators |
| `Strings.ReadLines` | keybind_scanner.py:90 | defines the lines of a file read in text mode with universal newlines: split at `\n`, `\r` and `\r\n` only |
| `Strings.StripIsTrimmedSlice` | keybind_scanner.py:120 | `strip()` removes exactly the leading and trailing whitespace |
| `Strings.StripIdempotent` | keybind_scanner.py:120 | stripping twice is stripping once |
| `Strings.Lines` | keybind_scanner.py:112 | no line holds a line boundary, and there are no more lines than characters |
| `Strings.LinesOfJoin` | keybind_scanner.py:112 | splitting break-free lines joined by `\n` gives the lines back, unless the last line is empty |
| `Strings.LinesOfTerminatedLine` | keybind_scanner.py:112 | a break-free line followed by `\r\n`, by one break character, or by a `\r` not followed by `\n`, gives that line, then the lines of the rest: `\r\n` counts as one break |
| `Strings.LinesOfFinalLine` | keybind_scanner.py:112 | a break-free line with a final terminator gives just that line: there is no empty line after a trailing terminator |
| `Strings.SplitCrLfExample` | keybind_scanner.py:112 | `"a\r\nb".splitlines()` is `["a", "b"]` |
| `Strings.SplitCrCrExample` | keybind_scanner.py:112 | `"a\r\rb".splitlines()` is `["a", "", "b"]` |
| `Strings.SplitTrailingExample` | keybind_scanner.py:112 | `"a\n".splitlines()` is `["a"]` and `"\n".splitlines()` is `[""]` |
| `Strings.SplitVerticalTabExample` | keybind_scanner.py:90 | a vertical tab breaks `"a\vb"` in two for `splitlines`, but not when a file is read line by line |
| `Records.ContextOf` | keybind_scanner.py:118-120 | defines the context: the line from 50 characters before the match to 50 after it, clipped to the line, stripped |
| `Records.HitRecord` | keybind_scanner.py:116-128 | defines the record of one match: path, line number, group 1, the context, group 0, and no mod name yet |
| `Records.LineRecords` | keybind_scanner.py:113-128 | defines the records of one line: pattern after pattern, each pattern's `finditer` matches in order |
| `Records.LinesRecords` | keybind_scanner.py:112-128 | defines the records of the lines: line after line, numbered from 1 |
| `Records.Origins` | keybind_scanner.py:113-115 | the pattern index and the match behind each record of a line, in append order; the index is that of a pattern, and the match is one `finditer` yields for it |
| `Records.LineRecordsOrigins` | keybind_scanner.py:113-128 | the records of a line are, one for one and in order, the records of its origins' matches |
| `Records.OriginsOrdered` | keybind_scanner.py:113-115 | within one line, records come by pattern index, and for the same pattern by strictly increasing match start |
| `Records.FileRecords` | keybind_scanner.py:97-133 | a file yields records only when its size is known and within the limit, it is text, and it decodes |
| `Records.ReadableFileRecords` | keybind_scanner.py:109-128 | a readable file yields the records of `splitlines()` of its content |
| `Records.TooLargeNoRecords` | keybind_scanner.py:101-103 | a file larger than `max_file_size` yields no records |
| `Records.BinaryNoRecords` | keybind_scanner.py:105-107 | a file with a NUL among its first 1024 bytes yields no records |
| `Records.RecordProvenance` | keybind_scanner.py:112-128 | a record is among a file's records exactly when some line, some pattern and some match of it produced the record |
| `Records.LinesRecordsOrdered` | keybind_scanner.py:112-116 | every record has the file's path, a line number from 1 to the line count and no mod name yet, and the line numbers never decrease |
| `Records.LineRecordsStamped` | keybind_scanner.py:113-124 | every record of one line carries that line's number |
| `Records.HitKeyFacts` | keybind_scanner.py:116-125 | every record's key name is non-empty and holds no quote character |
| `Records.HitCallFacts` | keybind_scanner.py:116-127 | every record's matched text is a whole call of its pattern's function, with the key name inside its quotes |
| `Records.HitContextFacts` | keybind_scanner.py:117-120 | every record's context contains its matched text, lies within its line, and is at most 100 characters longer than the match |
| `Records.ContextAroundMatch` | keybind_scanner.py:118-120 | the clipped, stripped window around a match contains the match and is a substring of the line |
| `Examples.CallLine` | keybind_scanner.py:112-128 | a line with one plain call of a default form (and no other capital `I`) yields one record, with the call's key, its text and the line's number |
| `Examples.ScriptRecords` | keybind_scanner.py:112-128 | a script of such lines yields, in order, one record per call, with its key and 1-based line number |
| `Examples.TestContentLines` | test_scanner.py:21-39 | `test_content.splitlines()` gives the fifteen lines of the test script |
| `Examples.TestScriptRecords` | test_scanner.py:19-56 | with the defaults, the test content yields exactly four records: `Key_X`, `Key_C`, `interact` and `mousewheel`, on lines 2, 6, 10 and 14 |
| `Grouping.Aggregate` | keybind_scanner.py:175-183 | defines `aggregate_results`: the distinct key names in order of first appearance, and for each the records with that key, in order |
| `Grouping.AggregateKeys` | keybind_scanner.py:175-183 | the groups' keys are distinct, are exactly the key names of the records, and come in the order of first appearance: of two keys, the earlier one occurs in the records before any record of the later one |
| `Grouping.AggregateGroups` | keybind_scanner.py:178-182 | each group holds every record with its key, as often as the input does, and no other record |
| `Grouping.AggregateHolds` | keybind_scanner.py:178-182 | every record is in the group of its own key |
| `Grouping.AggregateInOrder` | keybind_scanner.py:178-182 | each group keeps the input order |
| `Grouping.AggregateSnoc` | keybind_scanner.py:178-182 | one more record adds its key if new, then appends the record to that key's group |
| `Grouping.AddRecord` | keybind_scanner.py:178-182 | defines one pass of the loop: a new key gets an empty list at the end of the key order, then the record is appended to its key's list |
| `Grouping.AggregateSizes` | keybind_scanner.py:175-183 | the group sizes add up to the number of records |
| `Grouping.DistinctKeysFacts` | keybind_scanner.py:180-181 | the key order holds each record key once and no other, and of two keys the earlier one occurs in the records before any record of the later one |
| `Directories.FilesRecords` | keybind_scanner.py:155-162 | defines the records of a directory's walk: file after file, the records of each file whose name passes `should_scan_file` |
| `Directories.DirRecords` | keybind_scanner.py:141-162 | defines a directory's contribution: none when it is missing or in a dry run, else its files' records stamped with its mod name |
| `Directories.AllRecords` | keybind_scanner.py:137-162 | defines `all_results`: directory after directory, each one's contribution |
| `Directories.ModInfo` | keybind_scanner.py:138-147 | defines `mod_info`: for each existing directory, its path mapped to its `extract_mod_name`, a later entry overriding an earlier one |
| `Directories.ScanSummary` | keybind_scanner.py:135-173 | defines the returned dictionary: `all_results`, their aggregation, `mod_info`, the count of distinct file paths and the record count |
| `Directories.Stamp` | keybind_scanner.py:160-161 | the records are kept in order, each given the directory's mod name |
| `Directories.ResultProvenance` | keybind_scanner.py:140-162 | a record is in the results exactly when it came from a scanned file of an existing directory, and carries that directory's mod name |
| `Directories.DirRecordSound` | keybind_scanner.py:141-162 | a directory contributes records only when it exists and the run is not a dry run, and only from files that pass the name filter |
| `Directories.ModInfoKeys` | keybind_scanner.py:141-147 | `mod_info` has a key exactly for each existing directory |
| `Directories.ModInfoLastWins` | keybind_scanner.py:146-147 | a directory's entry is its `extract_mod_name`, taken from the last occurrence of its path |
| `Directories.DryRunSummary` | keybind_scanner.py:149-173 | with `dry_run`, there are no results, both counters are 0 and no groups, and `mod_info` is still filled |
| `Directories.SummaryCounters` | keybind_scanner.py:165-173 | `total_matches` is the record count; `total_files_scanned` counts the distinct file paths; it is at most `total_matches`, is 0 exactly when there are no results, and the group sizes add up to `total_matches` |
| `Directories.FilesScannedBound` | keybind_scanner.py:171 | the distinct file paths are no more than the records, and none exactly when there are no records |
| `Scanner.PatternsOrDefault` | keybind_scanner.py:43 | defines `patterns or DEFAULT_PATTERNS`: the given list when there is one and it is non-empty, else the defaults |
| `Scanner.PatternsNeverEmpty` | keybind_scanner.py:43 | `patterns or DEFAULT_PATTERNS`: a missing or empty list gives the defaults, and any other list is kept |
| `Scanner.KeybindScanner.constructor` | keybind_scanner.py:36-59 | keeps every setting and fills `compiledPatterns` with `CompileAll` of the effective patterns |
| `Scanner.KeybindScanner.Default` | keybind_scanner.py:36-59 | `KeybindScanner()`: the default patterns, no case folding, no whole-word, 10 MiB, concurrency 4, `utf-8`, and the defaults compiled |
| `Scanner.KeybindScanner.CompilePatterns` | keybind_scanner.py:55-59 | the loop appending one compiled pattern per pattern computes exactly `CompileAll` |
| `Scanner.KeybindScanner.ScanFile` | keybind_scanner.py:97-133 | its gate checks and its three nested loops compute exactly `FileRecords` of the file |
| `Scanner.KeybindScanner.AggregateResults` | keybind_scanner.py:175-183 | its loop over a growing key order and group map computes exactly `Aggregate` of the records |
| `Scanner.KeybindScanner.ScanDirectories` | keybind_scanner.py:135-173 | its loops over directories, files and stamping compute exactly `ScanSummary` of the directories |

## Left out

- Case-insensitive matching folds ASCII letters only, and `\b` uses ASCII word characters. Python's Unicode folding and Unicode `\w` are not modelled.
- `re.MULTILINE` is not modelled: it affects only `^` and `$`, which the patterns run on a line never use.
- User-supplied regular expressions are not modelled: a pattern is one of the four default call forms, possibly wrapped in `\b…\b`.
- The `compile` call that turns a pattern string into a regex object is not modelled; `Patterns.Source` gives the pattern's text, and `Patterns.Compiled` holds the pattern with its flag.
- `concurrency` and `encoding` are stored but not used: the code never reads `concurrency`, and decoding is an input (a file's text, or none when decoding fails).
- Logging is not modelled: the calls only write messages.
- `save_results`, `main` and `gui.py` are not part of this model: they do serialisation, argument parsing and user-interface work.
- `os.walk`, `stat`, `open` and `mimetypes.guess_type` are inputs, not computations. The walk order is the order of `Directory.files`; for `mimetypes`, the type guessed.
- Exceptions the scanner catches are modelled as missing inputs, with the result the scanner gives then. An exception raised midway through the match loop, which would keep the records found so far, is not modelled.
- `ModName.ExtractModName`: the program reads `info.txt` lazily. Text mode decodes it in chunks of 8192 bytes with a strict decoder, and the scan stops at the first name line. An undecodable byte in the chunk holding the end of the name line, or in an earlier chunk, raises before the name is returned, so the program gives no name, as the model does: for example `name: X\n\xff` with `utf-8`. Only when every undecodable byte lies in a later chunk does the program still return the name. The model takes the whole file's decoded text or none, so it gives no name for such a file.
- `Records.LineRecords`, `Records.FileRecords`, `Directories.ScanSummary`, `Scanner.KeybindScanner.ScanFile` and `Scanner.KeybindScanner.ScanDirectories`: with `whole_word` on, they scan with the whole-word test as evidently intended (`Patterns.MatchAt`), not with the `\b…\b` the code compiles, so they differ from the program whenever `whole_word` is on (see "## Findings"; `Patterns.FindAllAsWritten` is the program's scan). With `whole_word` off the two agree (`Patterns.FindAllAgreesUnwrapped`).
- `Directories.ModInfoKeys`: `mod_info` is a `map`, so the insertion order of the Python dictionary is not modelled.
- `Grouping.Aggregate`: the dictionary's key order is modelled separately, as `Groups.order`, beside a `map`.
- `should_scan_file`, `is_text_file` and `extract_mod_name` are modelled as module-level functions of their inputs, not as `KeybindScanner` methods: they read none of the scanner's state except `encoding`, which is modelled as decoded text.
- `Examples.TestScriptRecords` models the test's own loop (`test_scanner.py:39-49`) by the records of the default patterns. That loop's context is `line.strip()` and not the window, which the property does not depend on.

## Findings

| source | as written | input that shows it | evidently intended | confidence | as-written member | corrected member |
|---|---|---|---|---|---|---|
| keybind_scanner.py:57-58 | `whole_word` wraps each pattern as `\b…\b`; every default pattern ends in `)`, so the trailing `\b` holds only when a word character follows the call | `if InputPressed("jump") then` with `whole_word=True`: the call is followed by a space, so nothing is found | a call that stands apart from surrounding words is found, and nothing glued to a word is | not executed | `Patterns.AsWrittenMissesPlainCall`, `Patterns.WholeWordJumpExample` | `Patterns.WholeWordFindsPlainCall`, `Patterns.WholeWordIsolation` |
