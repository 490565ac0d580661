/**
 * The sample script of the scanner's unit tests, scanned with the default
 * patterns: four calls on four lines, one per call form.
 */
module Examples {
  import opened Strings
  import opened Patterns
  import opened Records

  /** The default patterns compiled without ignore-case or whole-word matching. */
  const Defaults: seq<Compiled> :=
    [Compiled(Call(Pressed), false), Compiled(Call(Down), false),
     Compiled(Call(Released), false), Compiled(Call(Value), false)]

  lemma DefaultsCompiled()
    ensures CompileAll(DefaultPatterns, false, false) == Defaults
  {
  }

  /** A line without a capital `I` yields no record. */
  lemma QuietLine(path: string, n: nat, line: string)
    requires 'I' !in line
    ensures LineRecords(path, n, line, Defaults) == []
  {
    assert forall k :: 0 <= k < |line| ==> line[k] in line;
    forall i | 0 <= i < |Defaults|
      ensures FindAll(Defaults[i], line, 0) == []
    {
      NoCapitalINoMatch(Defaults[i], line, 0);
    }
    LineRecordsNone(path, n, line, Defaults);
  }

  /** The position of each call form among the defaults. */
  function FormIndex(f: CallForm): (i: nat)
    ensures i < |Defaults| && Defaults[i] == Compiled(Call(f), false)
  {
    match f
    case Pressed => 0
    case Down => 1
    case Released => 2
    case Value => 3
  }

  lemma FormIndexOf(i: nat)
    requires i < |Defaults|
    ensures Defaults[i].pattern.Call? && FormIndex(Defaults[i].pattern.form) == i
  {
  }

  /** Where the default patterns find a plain call: its own form finds it, the others nothing. */
  lemma CallLineHits(f: CallForm, pre: string, key: string, post: string, i: nat)
    requires key != [] && NoQuote(key)
    requires 'I' !in pre && 'I' !in key && 'I' !in post
    requires i < |Defaults|
    ensures var t := PlainCall(f, key).Text();
      var ks := |pre| + |FunctionName(f)| + 2;
      FindAll(Defaults[i], pre + t + post, 0)
        == if i == FormIndex(f) then [Hit(|pre|, |pre| + |t|, ks, ks + |key|)] else []
  {
    FormIndexOf(i);
    PlainCallOnLine(f, Defaults[i].pattern.form, pre, key, post);
  }

  /** The key and the text of a plain call sit where its match says. */
  lemma PlainCallPieces(f: CallForm, pre: string, key: string, post: string)
    ensures var t := PlainCall(f, key).Text();
      var line := pre + t + post;
      var ks := |pre| + |FunctionName(f)| + 2;
      ks + |key| <= |line| && line[ks..ks + |key|] == key && line[|pre|..|pre| + |t|] == t
  {
    var t := PlainCall(f, key).Text();
    var line := pre + t + post;
    var ks := |pre| + |FunctionName(f)| + 2;
    assert t == FunctionName(f) + "(" + "\"" + key + "\"" + ")";
    assert forall k :: 0 <= k < |key| ==> line[ks + k] == key[k];
  }

  /** A line holding one plain call and no other capital `I` yields one record, with the call's key. */
  lemma CallLine(path: string, n: nat, f: CallForm, pre: string, key: string, post: string)
    requires key != [] && NoQuote(key)
    requires 'I' !in pre && 'I' !in key && 'I' !in post
    ensures var t := PlainCall(f, key).Text();
      var line := pre + t + post;
      var rs := LineRecords(path, n, line, Defaults);
      |rs| == 1 && rs[0].keyName == key && rs[0].matchedText == t && rs[0].lineNumber == n
  {
    var t := PlainCall(f, key).Text();
    var line := pre + t + post;
    var ks := |pre| + |FunctionName(f)| + 2;
    var h := Hit(|pre|, |pre| + |t|, ks, ks + |key|);
    forall i | 0 <= i < |Defaults|
      ensures FindAll(Defaults[i], line, 0) == if i == FormIndex(f) then [h] else []
    {
      CallLineHits(f, pre, key, post, i);
    }
    LineRecordsSingle(path, n, line, Defaults, FormIndex(f), h);
    PlainCallPieces(f, pre, key, post);
  }

  /** The records `rs` carry, in order, the keys `keys` on the line numbers `nums`. */
  predicate Found(rs: seq<Record>, keys: seq<string>, nums: seq<nat>)
  {
    && |rs| == |keys| == |nums|
    && forall i :: 0 <= i < |rs| ==> rs[i].keyName == keys[i] && rs[i].lineNumber == nums[i]
  }

  lemma FoundAppend(a: seq<Record>, b: seq<Record>, ka: seq<string>, kb: seq<string>, na: seq<nat>, nb: seq<nat>)
    requires Found(a, ka, na) && Found(b, kb, nb)
    ensures Found(a + b, ka + kb, na + nb)
  {
    assert forall i :: |a| <= i < |a + b| ==> (a + b)[i] == b[i - |a|];
  }

  /** A line of a script: one without a capital `I`, or one plain call between such text. */
  datatype ScriptLine = Quiet(text: string) | CallOn(pre: string, form: CallForm, key: string, post: string)
  {
    function Text(): (t: string)
    {
      match this
      case Quiet(t) => t
      case CallOn(pre, f, key, post) => pre + PlainCall(f, key).Text() + post
    }

    predicate Plain()
    {
      match this
      case Quiet(t) => 'I' !in t
      case CallOn(pre, _, key, post) => key != [] && NoQuote(key) && 'I' !in pre && 'I' !in key && 'I' !in post
    }
  }

  function Texts(s: seq<ScriptLine>): (ls: seq<string>)
    ensures |ls| == |s| && forall i :: 0 <= i < |s| ==> ls[i] == s[i].Text()
  {
    seq(|s|, i requires 0 <= i < |s| => s[i].Text())
  }

  predicate AllPlain(s: seq<ScriptLine>)
  {
    forall i :: 0 <= i < |s| ==> s[i].Plain()
  }

  /** The keys of the calls, line by line. */
  function Keys(s: seq<ScriptLine>): (ks: seq<string>)
  {
    if s == [] then []
    else Keys(s[..|s| - 1]) + if s[|s| - 1].CallOn? then [s[|s| - 1].key] else []
  }

  /** The line numbers of the calls, counted from 1. */
  function CallLines(s: seq<ScriptLine>): (ns: seq<nat>)
  {
    if s == [] then []
    else CallLines(s[..|s| - 1]) + if s[|s| - 1].CallOn? then [|s|] else []
  }

  /** The records of the last line of a script. */
  lemma LastLineFound(path: string, n: nat, l: ScriptLine)
    requires l.Plain()
    ensures Found(LineRecords(path, n, l.Text(), Defaults),
                  if l.CallOn? then [l.key] else [], if l.CallOn? then [n] else [])
  {
    match l
    case Quiet(t) => QuietLine(path, n, t);
    case CallOn(pre, f, key, post) => CallLine(path, n, f, pre, key, post);
  }

  /** A script of plain lines yields one record per call, in line order, with the call's key. */
  lemma {:induction false} ScriptRecords(path: string, s: seq<ScriptLine>)
    requires AllPlain(s)
    ensures Found(LinesRecords(path, Texts(s), Defaults), Keys(s), CallLines(s))
    decreases |s|
  {
    if s != [] {
      var init, last := s[..|s| - 1], s[|s| - 1];
      ScriptRecords(path, init);
      var ls := Texts(s);
      assert ls[..|s| - 1] == Texts(init);
      LastLineFound(path, |s|, last);
      FoundAppend(LinesRecords(path, Texts(init), Defaults), LineRecords(path, |s|, last.Text(), Defaults),
                  Keys(init), if last.CallOn? then [last.key] else [],
                  CallLines(init), if last.CallOn? then [|s|] else []);
    }
  }

  /**
   * Line `k` (counted from 0) of the test script: `test_content.splitlines()`,
   * where the content starts with a line break and ends with eight spaces.
   */
  function TestLine(k: nat): (l: ScriptLine)
  {
    match k
    case 0 => Quiet("")
    case 1 => CallOn("        if ", Pressed, "Key_X", " then")
    case 2 => Quiet("            do_something()")
    case 3 => Quiet("        end")
    case 4 => Quiet("")
    case 5 => CallOn("        if ", Down, "Key_C", " then")
    case 6 => Quiet("            continuous_action()")
    case 7 => Quiet("        end")
    case 8 => Quiet("")
    case 9 => CallOn("        if ", Released, "interact", " then")
    case 10 => Quiet("            release_action()")
    case 11 => Quiet("        end")
    case 12 => Quiet("")
    case 13 => CallOn("        local value = ", Value, "mousewheel", "")
    case _ => Quiet("        ")
  }

  /** The fifteen lines of the test script. */
  const TestScript: seq<ScriptLine> := seq(15, k requires 0 <= k < 15 => TestLine(k))

  /** One more line of a script. */
  lemma KeysStep(s: seq<ScriptLine>, k: nat)
    requires k < |s|
    ensures Keys(s[..k + 1]) == Keys(s[..k]) + if s[k].CallOn? then [s[k].key] else []
  {
    assert s[..k + 1][..k] == s[..k];
  }

  lemma CallLinesStep(s: seq<ScriptLine>, k: nat)
    requires k < |s|
    ensures CallLines(s[..k + 1]) == CallLines(s[..k]) + if s[k].CallOn? then [k + 1] else []
  {
    assert s[..k + 1][..k] == s[..k];
  }

  lemma TestLinePlain(k: nat)
    ensures TestLine(k).Plain()
  {
    if k < 5 {
      TestLinePlainA(k);
    } else if k < 10 {
      TestLinePlainB(k);
    } else {
      TestLinePlainC(k);
    }
  }

  lemma TestLinePlainA(k: nat)
    requires k < 5
    ensures TestLine(k).Plain()
  {
  }

  lemma TestLinePlainB(k: nat)
    requires 5 <= k < 10
    ensures TestLine(k).Plain()
  {
  }

  lemma TestLinePlainC(k: nat)
    requires 10 <= k
    ensures TestLine(k).Plain()
  {
  }

  lemma TestScriptKeys4()
    ensures Keys(TestScript[..4]) == ["Key_X"]
  {
    var S := TestScript;
    assert S[..0] == [];
    KeysStep(S, 0);
    KeysStep(S, 1);
    KeysStep(S, 2);
    KeysStep(S, 3);
  }

  lemma TestScriptKeys8()
    ensures Keys(TestScript[..8]) == ["Key_X", "Key_C"]
  {
    var S := TestScript;
    TestScriptKeys4();
    KeysStep(S, 4);
    KeysStep(S, 5);
    KeysStep(S, 6);
    KeysStep(S, 7);
  }

  lemma TestScriptKeys12()
    ensures Keys(TestScript[..12]) == ["Key_X", "Key_C", "interact"]
  {
    var S := TestScript;
    TestScriptKeys8();
    KeysStep(S, 8);
    KeysStep(S, 9);
    KeysStep(S, 10);
    KeysStep(S, 11);
  }

  lemma TestScriptKeys()
    ensures Keys(TestScript) == ["Key_X", "Key_C", "interact", "mousewheel"]
  {
    var S := TestScript;
    TestScriptKeys12();
    KeysStep(S, 12);
    KeysStep(S, 13);
    KeysStep(S, 14);
    assert S[..15] == S;
  }

  lemma TestScriptCallLines4()
    ensures CallLines(TestScript[..4]) == [2]
  {
    var S := TestScript;
    assert S[..0] == [];
    CallLinesStep(S, 0);
    CallLinesStep(S, 1);
    CallLinesStep(S, 2);
    CallLinesStep(S, 3);
  }

  lemma TestScriptCallLines8()
    ensures CallLines(TestScript[..8]) == [2, 6]
  {
    var S := TestScript;
    TestScriptCallLines4();
    CallLinesStep(S, 4);
    CallLinesStep(S, 5);
    CallLinesStep(S, 6);
    CallLinesStep(S, 7);
  }

  lemma TestScriptCallLines12()
    ensures CallLines(TestScript[..12]) == [2, 6, 10]
  {
    var S := TestScript;
    TestScriptCallLines8();
    CallLinesStep(S, 8);
    CallLinesStep(S, 9);
    CallLinesStep(S, 10);
    CallLinesStep(S, 11);
  }

  lemma TestScriptCallLines()
    ensures CallLines(TestScript) == [2, 6, 10, 14]
  {
    var S := TestScript;
    TestScriptCallLines12();
    CallLinesStep(S, 12);
    CallLinesStep(S, 13);
    CallLinesStep(S, 14);
    assert S[..15] == S;
  }

  /** Characters from space to tilde: no line boundary among them. */
  predicate Printable(s: string)
  {
    forall k :: 0 <= k < |s| ==> ' ' <= s[k] <= '~'
  }

  lemma PrintableNoBreaks(s: string)
    requires Printable(s)
    ensures NoBreaks(s, true)
  {
  }

  lemma PlainCallPrintable(f: CallForm, key: string)
    requires Printable(key)
    ensures Printable(PlainCall(f, key).Text())
  {
    var t := PlainCall(f, key);
    assert Printable(FunctionName(f)) by {
      match f
      case Pressed =>
      case Down =>
      case Released =>
      case Value =>
    }
    assert t.Text() == FunctionName(f) + "(" + "" + ['"'] + key + ['"'] + "" + ")";
  }

  lemma TestLinePrintable(k: nat)
    ensures Printable(TestLine(k).Text())
  {
    var l := TestLine(k);
    if l.CallOn? {
      assert Printable(l.pre) && Printable(l.key) && Printable(l.post) by {
        TestLinePieces(k);
      }
      PlainCallPrintable(l.form, l.key);
      var t := PlainCall(l.form, l.key).Text();
      assert l.Text() == l.pre + t + l.post;
    } else {
      TestLinePieces(k);
    }
  }

  /** The pieces of line `k` of the test script are printable. */
  predicate PiecesPrintable(l: ScriptLine)
  {
    match l
    case Quiet(t) => Printable(t)
    case CallOn(pre, _, key, post) => Printable(pre) && Printable(key) && Printable(post)
  }

  lemma TestLinePieces(k: nat)
    ensures PiecesPrintable(TestLine(k))
  {
    if k < 5 {
      TestLinePiecesA(k);
    } else if k < 10 {
      TestLinePiecesB(k);
    } else {
      TestLinePiecesC(k);
    }
  }

  lemma TestLinePiecesA(k: nat)
    requires k < 5
    ensures PiecesPrintable(TestLine(k))
  {
  }

  lemma TestLinePiecesB(k: nat)
    requires 5 <= k < 10
    ensures PiecesPrintable(TestLine(k))
  {
  }

  lemma TestLinePiecesC(k: nat)
    requires 10 <= k
    ensures PiecesPrintable(TestLine(k))
  {
  }

  /** The test's `test_content`: the fifteen lines with a line feed between each two. */
  const TestContent: string := Join(Texts(TestScript))

  /** `test_content.splitlines()` gives back the fifteen lines of the test script. */
  lemma TestContentLines()
    ensures SplitLines(TestContent) == Texts(TestScript)
  {
    var ls := Texts(TestScript);
    forall i | 0 <= i < |ls|
      ensures NoBreaks(ls[i], true)
    {
      TestLinePrintable(i);
      PrintableNoBreaks(ls[i]);
    }
    assert ls[14] == "        ";
    LinesOfJoin(ls, true);
  }

  /**
   * `test_default_patterns`: the default patterns find four keybinds in the
   * test script, `Key_X`, `Key_C`, `interact` and `mousewheel`, on lines 2,
   * 6, 10 and 14.
   */
  lemma TestScriptRecords(path: string)
    ensures Found(LinesRecords(path, SplitLines(TestContent), CompileAll(DefaultPatterns, false, false)),
                  ["Key_X", "Key_C", "interact", "mousewheel"], [2, 6, 10, 14])
  {
    TestContentLines();
    DefaultsCompiled();
    forall k | 0 <= k < |TestScript|
      ensures TestScript[k].Plain()
    {
      TestLinePlain(k);
    }
    ScriptRecords(path, TestScript);
    TestScriptKeys();
    TestScriptCallLines();
  }
}
