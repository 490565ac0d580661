/** `extract_mod_name`: the display name a mod gives itself in its `info.txt`. */
module ModName {
  import opened Wrappers
  import opened Strings

  /** `line.lower().startswith('name:')`. */
  predicate IsNameLine(line: string)
  {
    PrefixIgnoreCase(line, "name:")
  }

  /** Index of the first `:` in `line`. */
  function FirstColon(line: string): (i: nat)
    requires ':' in line
    ensures i < |line| && line[i] == ':'
    ensures forall k :: 0 <= k < i ==> line[k] != ':'
  {
    if line[0] == ':' then 0 else 1 + FirstColon(line[1..])
  }

  /** `line.split(':', 1)[1]`: everything after the first colon. */
  function AfterFirstColon(line: string): (v: string)
    requires ':' in line
  {
    line[FirstColon(line) + 1..]
  }

  /** On a name line the first colon is the one of `name:`. */
  lemma NameLineValue(line: string)
    requires IsNameLine(line)
    ensures ':' in line && AfterFirstColon(line) == line[5..]
  {
    assert line[4] == ':';
    forall k | 0 <= k < 4
      ensures line[k] != ':'
    {
      assert CharEq(line[k], "name:"[k], true);
    }
  }

  /**
   * The loop over the lines of `info.txt`: the stripped value of the first
   * name line, `None` when no line is one.
   */
  function FirstName(lines: seq<string>): (r: Option<string>)
    ensures r.None? <==> forall i :: 0 <= i < |lines| ==> !IsNameLine(lines[i])
    ensures r.Some? ==> exists i ::
      && 0 <= i < |lines| && IsNameLine(lines[i])
      && (forall j :: 0 <= j < i ==> !IsNameLine(lines[j]))
      && r.value == Strip(lines[i][5..])
  {
    if lines == [] then None
    else if IsNameLine(lines[0]) then
      NameLineValue(lines[0]);
      Some(Strip(AfterFirstColon(lines[0])))
    else
      var r := FirstName(lines[1..]);
      assert forall i :: 1 <= i < |lines| ==> lines[i] == lines[1..][i - 1];
      if r.Some? then
        var i :| && 0 <= i < |lines[1..]| && IsNameLine(lines[1..][i])
                 && (forall j :: 0 <= j < i ==> !IsNameLine(lines[1..][j]))
                 && r.value == Strip(lines[1..][i][5..]);
        assert IsNameLine(lines[i + 1]) && lines[i + 1] == lines[1..][i];
        r
      else r
  }

  /**
   * `extract_mod_name`. `info` is the text of the directory's `info.txt`;
   * `None` when the file does not exist or cannot be read or decoded.
   */
  function ExtractModName(info: Option<string>): (r: Option<string>)
    ensures info.None? ==> r.None?
    ensures r.Some? ==> NoSurroundingSpace(r.value)
  {
    match info
    case None => None
    case Some(text) =>
      var r := FirstName(ReadLines(text));
      if r.Some? then
        var ls := ReadLines(text);
        var i :| 0 <= i < |ls| && IsNameLine(ls[i]) && r.value == Strip(ls[i][5..]);
        StripIsTrimmedSlice(ls[i][5..]);
        r
      else r
  }

  /** The first `name:` line wins over any later one. */
  lemma FirstNameLineWins(a: string, rest: string)
    requires IsNameLine(a) && NoBreaks(a, false)
    ensures ExtractModName(Some(a + "\n" + rest)) == Some(Strip(a[5..]))
  {
    LinesOfLineThenRest(a, rest, false);
    NameLineValue(a);
  }

  /** A first line that is not a name line is skipped: the name comes from the lines after it. */
  lemma NoNameLine(a: string, rest: string)
    requires !IsNameLine(a) && NoBreaks(a, false)
    ensures ExtractModName(Some(a + "\n" + rest)) == ExtractModName(Some(rest))
  {
    LinesOfLineThenRest(a, rest, false);
  }

  /** The unit test's `info.txt`. */
  lemma TestModName()
    ensures ExtractModName(Some("name: Test Mod\nversion: 1.0\n")) == Some("Test Mod")
  {
    var a := "name: Test Mod";
    var rest := "version: 1.0\n";
    assert "name: Test Mod\nversion: 1.0\n" == a + "\n" + rest;
    assert IsNameLine(a) && NoBreaks(a, false) && a[5..] == " Test Mod";
    FirstNameLineWins(a, rest);
    StripOfTestValue();
  }

  lemma StripOfTestValue()
    ensures Strip(" Test Mod") == "Test Mod"
  {
    var v := " Test Mod";
    assert StripFrom(v[1..]) == 0;
    assert StripFrom(v) == 1;
    assert StripTo(v, 1) == 9;
  }
}
