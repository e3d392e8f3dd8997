/** Writing a mock file (app/sources/Parser.cpp, GenerateMock and GenerateFileHeading) and
    reading it back: what regeneration preserves. */
module MockFile {
  import opened StringHelper
  import opened Options
  import opened OutputFile

  /** An output stream: the pieces inserted so far. */
  class OutputStream {
    var written: seq<string>

    constructor ()
      ensures written == []
    {
      written := [];
    }

    function Text(): string
      reads this
    {
      Flatten(written)
    }

    method PutLine(line: string)
      modifies this
      ensures written == old(written) + [line + "\n"]
    {
      written := written + [line + "\n"];
    }

    method Put(piece: string)
      modifies this
      ensures written == old(written) + [piece]
    {
      written := written + [piece];
    }
  }

  function Ended(lines: seq<string>): (pieces: seq<string>)
    ensures |pieces| == |lines|
    ensures forall i :: 0 <= i < |lines| ==> pieces[i] == lines[i] + "\n"
  {
    seq(|lines|, i requires 0 <= i < |lines| => lines[i] + "\n")
  }

  const AUTO_GENERATED := " * This file has been" + " auto-generated by" + " CppUMockGen v"
  const CODE_PRESERVED := " * Only contents in the" + " user code section will" +
    (" be preserved if it" + " is regenerated!!!")
  const NOT_PRESERVED := " * Contents will NOT be preserved if it is regenerated!!!"
  const MOCK_SUPPORT := "#include <CppUTestExt/" + "MockSupport.h>"
  const EXTERN_C := "extern \"C\" {"

  function HeadingTop(version: string, hasUserCode: bool): seq<string> {
    ["/*", AUTO_GENERATED + version + ".", " *",
     if hasUserCode then CODE_PRESERVED else NOT_PRESERVED]
  }

  function OptionsLine(genOpts: string): string {
    " * " + LABEL + " " + genOpts
  }

  function HeadingBottom(genOpts: string): seq<string> {
    (if genOpts == "" then [] else [" *", OptionsLine(genOpts)]) + [" */", ""]
  }

  function HeadingLines(version: string, genOpts: string, hasUserCode: bool): seq<string> {
    HeadingTop(version, hasUserCode) + HeadingBottom(genOpts)
  }

  lemma EndedConcat(a: seq<string>, b: seq<string>)
    ensures Ended(a + b) == Ended(a) + Ended(b)
  {
  }

  function IncludeLine(filename: string): string {
    "#include \"" + filename + "\""
  }

  function IncludeLines(filename: string, cpp: bool): seq<string> {
    (if cpp then [IncludeLine(filename)] else [EXTERN_C, IncludeLine(filename), "}"]) +
    ["", MOCK_SUPPORT, ""]
  }

  const BEGIN_LINE := "// " + BEGIN_WORD
  const END_LINE := "// " + END_WORD

  /** The parsed header: how it is included and the mock of each of its functions. */
  class Parser {
    const version: string
    const includeFilename: string
    const interpretAsCpp: bool
    const mocks: seq<string>

    constructor (version: string, includeFilename: string, interpretAsCpp: bool, mocks: seq<string>)
      ensures this.version == version && this.includeFilename == includeFilename
      ensures this.interpretAsCpp == interpretAsCpp && this.mocks == mocks
    {
      this.version, this.includeFilename, this.interpretAsCpp, this.mocks := version, includeFilename, interpretAsCpp,
        mocks;
    }

    method GenerateFileHeading(genOpts: string, output: OutputStream, hasUserCode: bool)
      modifies output
      ensures output.written == old(output.written) + Ended(HeadingLines(version, genOpts, hasUserCode))
    {
      output.PutLine("/*");
      output.PutLine(AUTO_GENERATED + version + ".");
      output.PutLine(" *");
      if hasUserCode {
        output.PutLine(CODE_PRESERVED);
      } else {
        output.PutLine(NOT_PRESERVED);
      }
      ghost var top := output.written;
      assert top == old(output.written) + Ended(HeadingTop(version, hasUserCode));
      if genOpts != "" {
        output.PutLine(" *");
        output.PutLine(OptionsLine(genOpts));
      }
      output.PutLine(" */");
      output.PutLine("");
      assert output.written == top + Ended(HeadingBottom(genOpts));
      EndedConcat(HeadingTop(version, hasUserCode), HeadingBottom(genOpts));
      Regroup(old(output.written), Ended(HeadingTop(version, hasUserCode)), Ended(HeadingBottom(genOpts)));
    }

    method GenerateIncludes(output: OutputStream)
      modifies output
      ensures output.written == old(output.written) + Ended(IncludeLines(includeFilename, interpretAsCpp))
    {
      if !interpretAsCpp {
        output.PutLine(EXTERN_C);
      }
      output.PutLine(IncludeLine(includeFilename));
      if !interpretAsCpp {
        output.PutLine("}");
      }
      output.PutLine("");
      output.PutLine(MOCK_SUPPORT);
      output.PutLine("");
    }

    method GenerateMock(genOpts: string, userCode: string, output: OutputStream)
      modifies output
      ensures output.written == old(output.written) +
              MockPieces(version, genOpts, includeFilename, interpretAsCpp, userCode, mocks)
    {
      GenerateFileHeading(genOpts, output, true);
      GenerateIncludes(output);
      ghost var preamble := output.written;
      output.PutLine(BEGIN_LINE);
      output.Put(userCode);
      output.PutLine(END_LINE);
      output.PutLine("");
      ghost var before := output.written;
      assert before == preamble + SectionPieces(userCode);
      for i := 0 to |mocks|
        invariant output.written == before + Ended(mocks[..i])
      {
        output.PutLine(mocks[i]);
        assert Ended(mocks[..i + 1]) == Ended(mocks[..i]) + [mocks[i] + "\n"];
      }
      assert mocks[..|mocks|] == mocks;
      RegroupPieces(old(output.written), Ended(HeadingLines(version, genOpts, true)),
                    Ended(IncludeLines(includeFilename, interpretAsCpp)), SectionPieces(userCode), Ended(mocks));
    }
  }

  function SectionPieces(userCode: string): seq<string> {
    [BEGIN_LINE + "\n", userCode, END_LINE + "\n", "" + "\n"]
  }

  function MockPieces(version: string, genOpts: string, filename: string, cpp: bool, userCode: string,
      mocks: seq<string>): seq<string> {
    Ended(HeadingLines(version, genOpts, true)) + Ended(IncludeLines(filename, cpp)) + SectionPieces(userCode) +
      Ended(mocks)
  }

  lemma RegroupPieces<T>(a: seq<T>, b: seq<T>, c: seq<T>, d: seq<T>, e: seq<T>)
    ensures a + b + c + d + e == a + (b + c + d + e)
  {
  }

  // ----- The text that was written, as lines

  function MockText(version: string, genOpts: string, filename: string, cpp: bool, userCode: string,
      mocks: seq<string>): string {
    Flatten(MockPieces(version, genOpts, filename, cpp, userCode, mocks))
  }

  lemma {:induction false} FlattenEnded(lines: seq<string>)
    ensures Flatten(Ended(lines)) == Unlines(lines)
  {
    if lines != [] {
      assert Ended(lines)[1..] == Ended(lines[1..]);
      FlattenEnded(lines[1..]);
    }
  }

  lemma FlattenSection(userCode: string)
    ensures Flatten(SectionPieces(userCode)) == (BEGIN_LINE + "\n") + (userCode + ((END_LINE + "\n") + "\n"))
  {
    var p := SectionPieces(userCode);
    assert Flatten(p[4..]) == "";
    assert Flatten(p[3..]) == "\n" + Flatten(p[4..]) == "\n" by { assert p[3..][1..] == p[4..]; }
    assert Flatten(p[2..]) == (END_LINE + "\n") + "\n" by { assert p[2..][1..] == p[3..]; }
    assert Flatten(p[1..]) == userCode + Flatten(p[2..]) by { assert p[1..][1..] == p[2..]; }
  }

  function Preamble(version: string, genOpts: string, filename: string, cpp: bool): seq<string> {
    HeadingLines(version, genOpts, true) + IncludeLines(filename, cpp)
  }

  /** A mock file whose user code consists of whole lines reads as its preamble, the user
      code between its two markers, and the mocks. */
  lemma MockTextLines(version: string, genOpts: string, filename: string, cpp: bool, code: seq<string>,
      mocks: seq<string>)
    requires AllOneLine(Preamble(version, genOpts, filename, cpp)) && AllOneLine(code)
    ensures Lines(MockText(version, genOpts, filename, cpp, Unlines(code), mocks)) ==
            Preamble(version, genOpts, filename, cpp) +
              ([BEGIN_LINE] + (code + ([END_LINE, ""] + Lines(Unlines(mocks)))))
  {
    hide MockText, Preamble;
    var pre := Preamble(version, genOpts, filename, cpp);
    var tail := ((END_LINE + "\n") + "\n") + Unlines(mocks);
    MockTextShape(version, genOpts, filename, cpp, Unlines(code), mocks);
    EndLines();
    hide Lines, Unlines, AllOneLine;
    LinesUnlines(pre, (BEGIN_LINE + "\n") + (Unlines(code) + tail));
    MarkerLinesAreOneLine();
    LinesCons(BEGIN_LINE, Unlines(code) + tail);
    LinesUnlines(code, tail);
    LinesUnlines([END_LINE, ""], Unlines(mocks));
  }

  lemma EndLines()
    ensures Unlines([END_LINE, ""]) == (END_LINE + "\n") + "\n" && AllOneLine([END_LINE, ""])
  {
    assert [END_LINE, ""][1..] == [""] && Unlines([""]) == ("" + "\n") + "" == "\n";
    MarkerLinesAreOneLine();
  }

  lemma MarkerLinesAreOneLine()
    ensures OneLine(BEGIN_LINE) && OneLine(END_LINE) && OneLine("")
  {
  }

  lemma MockTextShape(version: string, genOpts: string, filename: string, cpp: bool, userCode: string,
      mocks: seq<string>)
    ensures MockText(version, genOpts, filename, cpp, userCode, mocks) ==
            Unlines(Preamble(version, genOpts, filename, cpp)) +
            ((BEGIN_LINE + "\n") + (userCode + (((END_LINE + "\n") + "\n") + Unlines(mocks))))
  {
    var h, i := HeadingLines(version, genOpts, true), IncludeLines(filename, cpp);
    var section := SectionPieces(userCode);
    FlattenConcat(Ended(h) + Ended(i) + section, Ended(mocks));
    FlattenConcat(Ended(h) + Ended(i), section);
    EndedConcat(h, i);
    FlattenEnded(h + i);
    FlattenEnded(mocks);
    FlattenSection(userCode);
    RegroupSection(Unlines(h + i), BEGIN_LINE + "\n", userCode, (END_LINE + "\n") + "\n", Unlines(mocks));
  }

  lemma RegroupSection<T>(a: seq<T>, b: seq<T>, c: seq<T>, d: seq<T>, e: seq<T>)
    ensures a + (b + (c + d)) + e == a + (b + (c + (d + e)))
  {
  }

  // ----- Reading it back

  /** The line holds neither marker. */
  ghost predicate Unmarked(line: string) {
    KindOf(line) != Begin && KindOf(line) != End
  }

  ghost predicate AllUnmarked(lines: seq<string>) {
    forall i :: 0 <= i < |lines| ==> Unmarked(lines[i])
  }

  ghost predicate AllPlain(lines: seq<string>) {
    forall i :: 0 <= i < |lines| ==> KindOf(lines[i]) == Plain
  }

  lemma {:induction false} RunConcat(s: Parsed, a: seq<string>, b: seq<string>)
    ensures Run(s, a + b) == Run(Run(s, a), b)
    decreases |b|
  {
    if b == [] {
      assert a + b == a;
    } else {
      var ab := a + b;
      assert ab[..|ab| - 1] == a + b[..|b| - 1] && ab[|ab| - 1] == b[|b| - 1];
      RunConcat(s, a, b[..|b| - 1]);
    }
  }

  /** Outside sections, unmarked lines touch nothing but the options, and plain ones nothing at all. */
  lemma {:induction false} RunOutside(s: Parsed, lines: seq<string>)
    requires !s.capture && AllUnmarked(lines)
    ensures !Run(s, lines).capture && Run(s, lines).userCode == s.userCode
    ensures AllPlain(lines) ==> Run(s, lines) == s
    decreases |lines|
  {
    if lines != [] {
      var front := lines[..|lines| - 1];
      assert forall i :: 0 <= i < |front| ==> front[i] == lines[i];
      RunOutside(s, front);
    }
  }

  lemma {:induction false} RunInside(s: Parsed, lines: seq<string>)
    requires s.capture && AllPlain(lines)
    ensures Run(s, lines) == s.(userCode := s.userCode + Unlines(lines))
    decreases |lines|
  {
    if lines != [] {
      var front, last := lines[..|lines| - 1], lines[|lines| - 1];
      assert forall i :: 0 <= i < |front| ==> front[i] == lines[i];
      RunInside(s, front);
      assert lines == front + [last] && Unlines([last]) == (last + "\n") + "" == last + "\n";
      UnlinesConcat(front, [last]);
      Regroup(s.userCode, Unlines(front), last + "\n");
    }
  }

  lemma MarkerLines()
    ensures KindOf(BEGIN_LINE) == Begin && KindOf(END_LINE) == End
  {
    assert CommentOpens(BEGIN_LINE, 0) && BlankBetween(BEGIN_LINE, 2, 3) && MatchesAt(BEGIN_LINE, BEGIN_WORD, 3);
    assert CommentOpens(END_LINE, 0) && BlankBetween(END_LINE, 2, 3) && MatchesAt(END_LINE, END_WORD, 3);
    assert forall j :: 2 <= j ==> !MatchesAt(END_LINE, BEGIN_WORD, j);
  }

  /** Markers hold an underscore and the label a colon. */
  lemma PlainWithoutSigns(line: string)
    requires '_' !in line && ':' !in line
    ensures KindOf(line) == Plain
  {
    forall j | 0 <= j <= |line| ensures !MatchesAt(line, BEGIN_WORD, j) && !MatchesAt(line, END_WORD, j) {
      assert BEGIN_WORD[11] == '_' && END_WORD[11] == '_';
      if j + 25 <= |line| { assert line[j..j + |END_WORD|][11] == line[j + 11]; }
      if j + 27 <= |line| { assert line[j..j + |BEGIN_WORD|][11] == line[j + 11]; }
    }
    forall j | 0 <= j <= |line| ensures !MatchesAt(line, LABEL, j) {
      assert LABEL[18] == ':';
      if j + 19 <= |line| { assert line[j..j + |LABEL|][18] == line[j + 18]; }
    }
  }

  /** The text a mock file takes from outside holds no marker and no line break. */
  ghost predicate Clean(version: string, genOpts: string, filename: string, mocks: seq<string>) {
    && Unsigned(version)
    && OneLine(genOpts) && Unmarked(OptionsLine(genOpts))
    && OneLine(filename) && Unmarked(IncludeLine(filename))
    && AllUnmarked(Lines(Unlines(mocks)))
  }

  /** Free of the signs of markers, labels and line ends. */
  predicate Unsigned(line: string) {
    forall i :: 0 <= i < |line| ==> line[i] != '_' && line[i] != ':' && line[i] != '\n'
  }

  lemma PlainLines(lines: seq<string>)
    requires forall i :: 0 <= i < |lines| ==> Unsigned(lines[i])
    ensures AllPlain(lines) && AllOneLine(lines) && AllUnmarked(lines)
  {
    forall i | 0 <= i < |lines| ensures KindOf(lines[i]) == Plain {
      PlainWithoutSigns(lines[i]);
    }
  }

  lemma UnsignedConcat(a: string, b: string)
    requires Unsigned(a) && Unsigned(b)
    ensures Unsigned(a + b)
  {
  }

  lemma AutoGeneratedIsUnsigned()
    ensures Unsigned(AUTO_GENERATED)
  {
    UnsignedConcat(" * This file has been", " auto-generated by");
    UnsignedConcat(" * This file has been" + " auto-generated by", " CppUMockGen v");
  }

  lemma CodePreservedIsUnsigned()
    ensures Unsigned(CODE_PRESERVED)
  {
    UnsignedConcat(" * Only contents in the", " user code section will");
    UnsignedConcat(" be preserved if it", " is regenerated!!!");
    UnsignedConcat(" * Only contents in the" + " user code section will", " be preserved if it" + " is regenerated!!!");
  }

  lemma MockSupportIsUnsigned()
    ensures Unsigned(MOCK_SUPPORT)
  {
    UnsignedConcat("#include <CppUTestExt/", "MockSupport.h>");
  }

  lemma HeadingTopIsPlain(version: string)
    requires Unsigned(version)
    ensures AllPlain(HeadingTop(version, true)) && AllOneLine(HeadingTop(version, true)) &&
            AllUnmarked(HeadingTop(version, true))
  {
    hide KindOf;
    AutoGeneratedIsUnsigned();
    UnsignedConcat(AUTO_GENERATED, version);
    UnsignedConcat(AUTO_GENERATED + version, ".");
    CodePreservedIsUnsigned();
    PlainLines(HeadingTop(version, true));
  }

  lemma FixedLinesArePlain()
    ensures KindOf(" *") == KindOf(" */") == KindOf("") == KindOf("}") == Plain
    ensures KindOf(EXTERN_C) == KindOf(MOCK_SUPPORT) == Plain
    ensures OneLine(" *") && OneLine(" */") && OneLine("") && OneLine("}")
    ensures OneLine(EXTERN_C) && OneLine(MOCK_SUPPORT)
  {
    hide KindOf;
    PlainWithoutSigns(" *");
    PlainWithoutSigns(" */");
    PlainWithoutSigns("");
    PlainWithoutSigns("}");
    PlainWithoutSigns(EXTERN_C);
    MockSupportIsUnsigned();
    PlainWithoutSigns(MOCK_SUPPORT);
  }

  lemma OptionsLineIsRead(genOpts: string)
    requires OneLine(genOpts) && '\r' !in genOpts && Unmarked(OptionsLine(genOpts))
    ensures KindOf(OptionsLine(genOpts)) == Label && OptionsOn(OptionsLine(genOpts)) == " " + genOpts
  {
    var line := OptionsLine(genOpts);
    assert line[0] == ' ' && line[1] == '*' && line[2] == ' ' && LABEL[0] == 'G';
    forall i | 0 <= i < 3 ensures !MatchesAt(line, LABEL, i) {
      if i + |LABEL| <= |line| { assert line[i..i + |LABEL|][0] == line[i]; }
    }
    assert line[3..3 + |LABEL|] == LABEL;
    assert MatchesAt(line, LABEL, 3);
    assert LabelAt(line) == Some(3);
    assert line[22..] == " " + genOpts;
    assert forall i :: 22 < i < |line| ==> line[i] == genOpts[i - 23];
    assert LineEnd(line, 22) == |line|;
  }

  lemma HeadingBottomIsRead(genOpts: string)
    requires OneLine(genOpts) && Unmarked(OptionsLine(genOpts))
    ensures AllOneLine(HeadingBottom(genOpts)) && AllUnmarked(HeadingBottom(genOpts))
    ensures '\r' !in genOpts ==>
              Run(START, HeadingBottom(genOpts)) ==
              START.(options := if genOpts == "" then "" else " " + genOpts)
  {
    FixedLinesArePlain();
    hide KindOf;
    if genOpts == "" {
      assert HeadingBottom(genOpts) == [" */", ""];
      RunOutside(START, [" */", ""]);
    } else {
      var line := OptionsLine(genOpts);
      assert HeadingBottom(genOpts) == [" *"] + [line] + [" */", ""];
      assert OneLine(line);
      RunConcat(START, [" *"] + [line], [" */", ""]);
      RunConcat(START, [" *"], [line]);
      RunOutside(START, [" *"]);
      RunOne(START, line);
      if '\r' !in genOpts {
        OptionsLineIsRead(genOpts);
        RunOutside(START.(options := " " + genOpts), [" */", ""]);
      }
    }
  }

  lemma HeadingIsRead(version: string, genOpts: string)
    requires Unsigned(version) && OneLine(genOpts) && Unmarked(OptionsLine(genOpts))
    ensures AllOneLine(HeadingLines(version, genOpts, true)) && AllUnmarked(HeadingLines(version, genOpts, true))
    ensures '\r' !in genOpts ==>
              Run(START, HeadingLines(version, genOpts, true)) ==
              START.(options := if genOpts == "" then "" else " " + genOpts)
  {
    HeadingTopIsPlain(version);
    HeadingBottomIsRead(genOpts);
    RunConcat(START, HeadingTop(version, true), HeadingBottom(genOpts));
    RunOutside(START, HeadingTop(version, true));
  }

  lemma RunOne(s: Parsed, line: string)
    ensures Run(s, [line]) == Step(s, line)
  {
    assert [line][..0] == [];
  }

  lemma IncludesAreRead(filename: string, cpp: bool)
    requires OneLine(filename) && Unmarked(IncludeLine(filename))
    ensures AllOneLine(IncludeLines(filename, cpp)) && AllUnmarked(IncludeLines(filename, cpp))
    ensures KindOf(IncludeLine(filename)) == Plain ==> AllPlain(IncludeLines(filename, cpp))
  {
    hide KindOf;
    FixedLinesArePlain();
    assert OneLine(IncludeLine(filename));
    var tail := ["", MOCK_SUPPORT, ""];
    var tailC := ["}", "", MOCK_SUPPORT, ""];
    if cpp {
      assert IncludeLines(filename, cpp) == [IncludeLine(filename)] + tail;
    } else {
      assert IncludeLines(filename, cpp) == [EXTERN_C] + [IncludeLine(filename)] + tailC;
    }
  }

  lemma SectionIsRead(s: Parsed, pre: seq<string>, code: seq<string>, after: seq<string>)
    requires s == Run(START, pre) && !s.capture && s.userCode == ""
    requires AllPlain(code) && AllUnmarked(after)
    ensures var e := Run(START, pre + ([BEGIN_LINE] + (code + ([END_LINE, ""] + after))));
            && !e.capture && e.userCode == Unlines(code)
            && (AllPlain(after) ==> e.options == s.options)
  {
    MarkerLines();
    FixedLinesArePlain();
    hide KindOf, Run, AllPlain, AllUnmarked, Unlines;
    RunConcat(START, pre, [BEGIN_LINE] + (code + ([END_LINE, ""] + after)));
    RunConcat(s, [BEGIN_LINE], code + ([END_LINE, ""] + after));
    RunOne(s, BEGIN_LINE);
    var s1 := s.(capture := true);
    RunConcat(s1, code, [END_LINE, ""] + after);
    RunInside(s1, code);
    var s2 := s1.(userCode := s1.userCode + Unlines(code));
    assert "" + Unlines(code) == Unlines(code);
    assert [END_LINE, ""] + after == [END_LINE] + ([""] + after);
    RunConcat(s2, [END_LINE], [""] + after);
    RunOne(s2, END_LINE);
    var s3 := s2.(capture := false);
    PlainWithoutSigns("");
    RunConcat(s3, [""], after);
    RunOne(s3, "");
    RunOutside(s3, after);
  }

  /** The parser's state after a mock file whose user code is made of plain lines. */
  lemma PlainCodeIsRead(version: string, genOpts: string, filename: string, cpp: bool, code: seq<string>,
      mocks: seq<string>)
    requires Clean(version, genOpts, filename, mocks)
    requires AllOneLine(code) && AllPlain(code)
    ensures var e := Extract(Some(MockText(version, genOpts, filename, cpp, Unlines(code), mocks)));
            && !e.capture && e.userCode == Unlines(code)
            && ('\r' !in genOpts && KindOf(IncludeLine(filename)) == Plain && AllPlain(Lines(Unlines(mocks))) ==>
                  e.options == if genOpts == "" then "" else " " + genOpts)
  {
    var heading, includes := HeadingLines(version, genOpts, true), IncludeLines(filename, cpp);
    var after := Lines(Unlines(mocks));
    HeadingIsRead(version, genOpts);
    IncludesAreRead(filename, cpp);
    MockTextLines(version, genOpts, filename, cpp, code, mocks);
    var s0 := Run(START, heading + includes);
    RunConcat(START, heading, includes);
    RunOutside(START, heading);
    RunOutside(Run(START, heading), includes);
    SectionIsRead(s0, heading + includes, code, after);
  }

  /** Extracted user code is made of whole plain lines. */
  lemma ExtractedCodeIsPlain(file: Option<string>) returns (code: seq<string>)
    ensures Extract(file).userCode == Unlines(code) && AllOneLine(code) && AllPlain(code)
  {
    code := [];
    if file.Some? {
      var lines := Lines(file.value);
      LinesAreOneLine(file.value);
      RunCaptures(lines, |lines|);
      assert lines[..|lines|] == lines;
      SectionLinesArePlain(lines, |lines|);
      if !InSection(lines, |lines|) { code := SectionLines(lines, |lines|); }
    }
  }

  lemma {:induction false} SectionLinesArePlain(lines: seq<string>, n: nat)
    requires n <= |lines| && AllOneLine(lines)
    ensures AllOneLine(SectionLines(lines, n)) && AllPlain(SectionLines(lines, n))
  {
    if n > 0 { SectionLinesArePlain(lines, n - 1); }
  }

  /** What is read of a mock file whose user code is made of lines: that code exactly if each of its
      lines is plain, and then also the options of the heading. */
  lemma MockFileIsRead(version: string, genOpts: string, filename: string, cpp: bool, code: seq<string>,
      mocks: seq<string>)
    requires Clean(version, genOpts, filename, mocks) && AllOneLine(code)
    ensures var e := Extract(Some(MockText(version, genOpts, filename, cpp, Unlines(code), mocks)));
            && (e.userCode == Unlines(code) <==> AllPlain(code))
            && (AllPlain(code) ==>
                  && !e.capture
                  && ('\r' !in genOpts && KindOf(IncludeLine(filename)) == Plain && AllPlain(Lines(Unlines(mocks))) ==>
                        e.options == if genOpts == "" then "" else " " + genOpts))
  {
    hide Extract, MockText, Clean, Unlines, KindOf;
    if AllPlain(code) {
      PlainCodeIsRead(version, genOpts, filename, cpp, code, mocks);
    }
    var file := Some(MockText(version, genOpts, filename, cpp, Unlines(code), mocks));
    var read := ExtractedCodeIsPlain(file);
    LinesAreThose(code);
    LinesAreThose(read);
  }

  lemma LinesAreThose(code: seq<string>)
    requires AllOneLine(code)
    ensures Lines(Unlines(code)) == code
  {
    LinesUnlines(code, "");
    assert Unlines(code) + "" == Unlines(code) && code + [] == code;
  }

  /** Text made of whole lines, none of which is a marker or a label. */
  ghost predicate WholePlainLines(userCode: string) {
    userCode == Unlines(Lines(userCode)) && AllPlain(Lines(userCode))
  }

  /** For any user code at all: it is read back from a mock file exactly if it is made of whole
      plain lines. */
  lemma UserCodeIsReadExactly(version: string, genOpts: string, filename: string, cpp: bool, userCode: string,
      mocks: seq<string>)
    requires Clean(version, genOpts, filename, mocks)
    ensures Extract(Some(MockText(version, genOpts, filename, cpp, userCode, mocks))).userCode == userCode <==>
            WholePlainLines(userCode)
  {
    hide Extract, MockText, Clean, Unlines, KindOf, Lines;
    if WholePlainLines(userCode) {
      LinesAreOneLine(userCode);
      MockFileIsRead(version, genOpts, filename, cpp, Lines(userCode), mocks);
    }
    var read := ExtractedCodeIsPlain(Some(MockText(version, genOpts, filename, cpp, userCode, mocks)));
    LinesAreThose(read);
  }

  /** For instance, a comment that holds the label is lost. */
  lemma LabelLineIsLost(version: string, genOpts: string, filename: string, cpp: bool, mocks: seq<string>)
    requires Clean(version, genOpts, filename, mocks)
    ensures var userCode := "// Generation options: x\n";
            Extract(Some(MockText(version, genOpts, filename, cpp, userCode, mocks))).userCode != userCode
  {
    hide Extract, MockText, Clean;
    var line := "// Generation options: x";
    LabelLineIsNotPlain();
    assert Unlines([line]) == (line + "\n") + "" == "// Generation options: x\n" by { assert [line][1..] == []; }
    assert [line][0] == line;
    MockFileIsRead(version, genOpts, filename, cpp, [line], mocks);
  }

  lemma LabelLineIsNotPlain()
    ensures KindOf("// Generation options: x") != Plain && OneLine("// Generation options: x")
  {
    var line := "// Generation options: x";
    assert line[3..3 + |LABEL|] == LABEL;
    assert MatchesAt(line, LABEL, 3);
  }

  // ----- Regeneration

  /** Whatever file was there before, the user code taken from it comes back out of the mock
      file regenerated with it. */
  lemma UserCodeIsStable(file: Option<string>, version: string, genOpts: string, filename: string, cpp: bool,
      mocks: seq<string>)
    requires Clean(version, genOpts, filename, mocks)
    ensures var userCode := Extract(file).userCode;
            Extract(Some(MockText(version, genOpts, filename, cpp, userCode, mocks))).userCode == userCode
  {
    var code := ExtractedCodeIsPlain(file);
    MockFileIsRead(version, genOpts, filename, cpp, code, mocks);
  }

  /** One run of the generator over a file. */
  datatype Generation = Generation(version: string, genOpts: string, filename: string, cpp: bool, mocks: seq<string>) {
    function Over(file: Option<string>): string {
      MockText(version, genOpts, filename, cpp, Extract(file).userCode, mocks)
    }
  }

  function Regenerate(file: Option<string>, gens: seq<Generation>): Option<string>
    decreases |gens|
  {
    if gens == [] then file else Regenerate(Some(gens[0].Over(file)), gens[1..])
  }

  /** Any number of regenerations, each for whatever header and options, keeps the user code. */
  lemma {:induction false} RegenerationsKeepUserCode(file: Option<string>, gens: seq<Generation>)
    requires forall g :: g in gens ==> Clean(g.version, g.genOpts, g.filename, g.mocks)
    ensures Extract(Regenerate(file, gens)).userCode == Extract(file).userCode
    decreases |gens|
  {
    if gens != [] {
      var g := gens[0];
      UserCodeIsStable(file, g.version, g.genOpts, g.filename, g.cpp, g.mocks);
      RegenerationsKeepUserCode(Some(g.Over(file)), gens[1..]);
    }
  }

  lemma LeadingSpaceIsSkipped(text: string)
    ensures Tokenize(" " + text) == Tokenize(text)
  {
    assert TailAt(" " + text, 1, text);
    TokensShift(" " + text, 1, text, 0);
  }

  /** Options written into a mock file are recovered from it as the same parameters exactly
      when the language standard and each override survive quoting. */
  lemma RegenerationRecoversOptions(file: Option<string>, version: string, filename: string, interpretAsCpp: bool,
                                    mocks: seq<string>, cpp: bool, std: string, underlying: bool,
                                    overrides: seq<string>)
    requires var genOpts := Printed(FlagTokens(cpp, std, underlying) + OverrideTokens(overrides));
             Clean(version, genOpts, filename, mocks) && '\r' !in genOpts
    requires KindOf(IncludeLine(filename)) == Plain && AllPlain(Lines(Unlines(mocks)))
    ensures var tokens := FlagTokens(cpp, std, underlying) + OverrideTokens(overrides);
            var text := MockText(version, Printed(tokens), filename, interpretAsCpp, Extract(file).userCode, mocks);
            Tokenize(Extract(Some(text)).options) == Some(tokens) <==>
            (std == "" || Survives(std)) && forall o :: o in overrides ==> Survives(o)
  {
    var genOpts := Printed(FlagTokens(cpp, std, underlying) + OverrideTokens(overrides));
    var code := ExtractedCodeIsPlain(file);
    MockFileIsRead(version, genOpts, filename, interpretAsCpp, code, mocks);
    LeadingSpaceIsSkipped(genOpts);
    GenerationOptionsAreReadBack(cpp, std, underlying, overrides);
  }

  // ----- Regenerating with the options of the file

  /** The options that a mock file records. */
  datatype Settings = Settings(cpp: bool, std: string, underlying: bool, overrides: seq<string>) {
    function Tokens(): seq<string> {
      FlagTokens(cpp, std, underlying) + OverrideTokens(overrides)
    }

    predicate Survive() {
      (std == "" || Survives(std)) && forall o :: o in overrides ==> Survives(o)
    }
  }

  function TokensIn(file: string): Option<seq<string>> {
    Tokenize(Extract(Some(file)).options)
  }

  /** The settings that generation options stand for (app/sources/Options.cpp, the options `x`, `s`, `u`
      and `t`). */
  function ReadSettings(tokens: seq<string>, s: Settings): Option<Settings>
    decreases |tokens|
  {
    if tokens == [] then Some(s)
    else if tokens[0] == "-x" then ReadSettings(tokens[1..], s.(cpp := true))
    else if tokens[0] == "-u" then ReadSettings(tokens[1..], s.(underlying := true))
    else if |tokens| == 1 then None
    else if tokens[0] == "-s" then ReadSettings(tokens[2..], s.(std := tokens[1]))
    else if tokens[0] == "-t" then ReadSettings(tokens[2..], s.(overrides := s.overrides + [tokens[1]]))
    else None
  }

  const DEFAULTS := Settings(false, "", false, [])

  lemma FlagIsRead(flag: string, rest: seq<string>, s: Settings)
    requires flag == "-x" || flag == "-u"
    ensures ReadSettings([flag] + rest, s) ==
            ReadSettings(rest, if flag == "-x" then s.(cpp := true) else s.(underlying := true))
  {
    assert ([flag] + rest)[0] == flag && ([flag] + rest)[1..] == rest;
  }

  lemma ValueIsRead(flag: string, value: string, rest: seq<string>, s: Settings)
    requires flag == "-s" || flag == "-t"
    ensures ReadSettings([flag, value] + rest, s) ==
            ReadSettings(rest, if flag == "-s" then s.(std := value) else s.(overrides := s.overrides + [value]))
  {
    var tokens := [flag, value] + rest;
    assert tokens[0] == flag && tokens[1] == value && tokens[2..] == rest;
    assert flag[1] != 'x' && flag[1] != 'u';
  }

  lemma NoTokens(s: Settings)
    ensures ReadSettings([], s) == Some(s)
  {
  }

  lemma {:induction false} OverridesAreRead(overrides: seq<string>, s: Settings)
    ensures ReadSettings(OverrideTokens(overrides), s) == Some(s.(overrides := s.overrides + overrides))
    decreases |overrides|
  {
    hide ReadSettings;
    if overrides == [] {
      NoTokens(s);
      assert s.overrides + [] == s.overrides;
    } else {
      OverridesAreRead(overrides[1..], s.(overrides := s.overrides + [overrides[0]]));
      ValueIsRead("-t", overrides[0], OverrideTokens(overrides[1..]), s);
      assert s.overrides + overrides == (s.overrides + [overrides[0]]) + overrides[1..];
    }
  }

  /** The generation options of any settings are read as those settings. */
  lemma SettingsAreRead(s: Settings)
    ensures ReadSettings(s.Tokens(), DEFAULTS) == Some(s)
  {
    hide ReadSettings, OverrideTokens;
    var last := OverrideTokens(s.overrides);
    var flag := (if s.underlying then ["-u"] else []) + last;
    var rest := (if s.std != "" then ["-s", s.std] else []) + flag;
    assert s.Tokens() == (if s.cpp then ["-x"] else []) + rest;
    assert [] + last == last && [] + flag == flag && [] + rest == rest && [] + s.overrides == s.overrides;
    OverridesAreRead(s.overrides, s.(overrides := []));
    FlagIsRead("-u", last, s.(underlying := false, overrides := []));
    ValueIsRead("-s", s.std, flag, Settings(s.cpp, "", false, []));
    FlagIsRead("-x", rest, DEFAULTS);
    assert "-u" != "-x" && "-s" != "-t";
  }

  /** One run with `--regen` and no options of its own: those of the file are tokenized, parsed and
      printed again. It fails where they cannot be read. */
  function Rerun(parse: seq<string> -> Option<Settings>, file: string, g: Generation): Option<string> {
    match TokensIn(file)
    case None => None
    case Some(tokens) =>
      match parse(tokens)
      case None => None
      case Some(s) => Some(g.(genOpts := Printed(s.Tokens())).Over(Some(file)))
  }

  function RerunAll(parse: seq<string> -> Option<Settings>, file: string, gens: seq<Generation>): Option<string> {
    if gens == [] then Some(file)
    else
      match RerunAll(parse, file, gens[..|gens| - 1])
      case None => None
      case Some(before) => Rerun(parse, before, gens[|gens| - 1])
  }

  /** What the run writes besides holds no marker and no label. */
  ghost predicate Fits(g: Generation, genOpts: string) {
    && Clean(g.version, genOpts, g.filename, g.mocks) && '\r' !in genOpts
    && KindOf(IncludeLine(g.filename)) == Plain && AllPlain(Lines(Unlines(g.mocks)))
  }

  lemma RerunKeepsOptions(parse: seq<string> -> Option<Settings>, file: string, g: Generation, s: Settings)
    requires TokensIn(file) == Some(s.Tokens()) && parse(s.Tokens()) == Some(s) && Fits(g, Printed(s.Tokens()))
    ensures var r := Rerun(parse, file, g);
            && r.Some? && (TokensIn(r.value) == Some(s.Tokens()) <==> s.Survive())
            && Extract(r).userCode == Extract(Some(file)).userCode
  {
    hide Extract, MockText, Clean, Tokenize, Survives, KindOf, AllPlain;
    RegenerationRecoversOptions(Some(file), g.version, g.filename, g.cpp, g.mocks, s.cpp, s.std, s.underlying,
                                s.overrides);
    UserCodeIsStable(Some(file), g.version, Printed(s.Tokens()), g.filename, g.cpp, g.mocks);
  }

  /** Any number of runs that take their options from the file keep the options and the user code,
      at every step, exactly if the options survive being printed. */
  lemma RerunsKeepOptions(parse: seq<string> -> Option<Settings>, file: string, gens: seq<Generation>, s: Settings)
    requires TokensIn(file) == Some(s.Tokens()) && parse(s.Tokens()) == Some(s)
    requires gens != [] && forall g :: g in gens ==> Fits(g, Printed(s.Tokens()))
    ensures (forall k :: 0 <= k <= |gens| ==> Keeps(parse, file, gens[..k], s)) <==> s.Survive()
  {
    hide TokensIn, Rerun, Fits, Extract;
    if s.Survive() {
      forall k | 0 <= k <= |gens| ensures Keeps(parse, file, gens[..k], s) { RerunsKeep(parse, file, gens[..k], s); }
    } else {
      var one := gens[..1];
      assert one[..0] == [] && one[0] == gens[0] && RerunAll(parse, file, one[..0]) == Some(file);
      assert RerunAll(parse, file, one) == Rerun(parse, file, gens[0]);
      RerunKeepsOptions(parse, file, gens[0], s);
      assert !Keeps(parse, file, one, s);
    }
  }

  predicate Keeps(parse: seq<string> -> Option<Settings>, file: string, gens: seq<Generation>, s: Settings) {
    var r := RerunAll(parse, file, gens);
    r.Some? && TokensIn(r.value) == Some(s.Tokens()) && Extract(r).userCode == Extract(Some(file)).userCode
  }

  lemma {:induction false} RerunsKeep(parse: seq<string> -> Option<Settings>, file: string, gens: seq<Generation>,
      s: Settings)
    requires TokensIn(file) == Some(s.Tokens()) && parse(s.Tokens()) == Some(s) && s.Survive()
    requires forall g :: g in gens ==> Fits(g, Printed(s.Tokens()))
    ensures Keeps(parse, file, gens, s)
  {
    hide TokensIn, Rerun, Fits, Extract;
    if gens != [] {
      var front := gens[..|gens| - 1];
      RerunsKeep(parse, file, front, s);
      RerunKeepsOptions(parse, RerunAll(parse, file, front).value, gens[|gens| - 1], s);
    }
  }
}
