/** Generated files: what is written into them (app/sources/Parser.cpp, GenerateMock and
    GenerateFileHeading) and what is recovered from them (app/sources/OutputFileParser.cpp). */
module OutputFile {
  import opened StringHelper
  import opened Options

  const BEGIN_WORD := "CPPUMOCKGEN_USER_CODE_BEGIN"
  const END_WORD := "CPPUMOCKGEN_USER_CODE_END"
  const LABEL := "Generation options:"

  // ----- Lines of a text

  /** The lines `getline` delivers: a last line without line feed counts unless it is empty. */
  function Lines(text: string): seq<string>
    decreases |text|
  {
    if text == "" then []
    else
      var p := Find(text, '\n', 0);
      if p == |text| then [text] else [text[..p]] + Lines(text[p + 1..])
  }

  function Unlines(lines: seq<string>): string {
    if lines == [] then "" else (lines[0] + "\n") + Unlines(lines[1..])
  }

  ghost predicate OneLine(line: string) {
    '\n' !in line
  }

  ghost predicate AllOneLine(lines: seq<string>) {
    forall i :: 0 <= i < |lines| ==> OneLine(lines[i])
  }

  lemma LinesCons(line: string, rest: string)
    requires OneLine(line)
    ensures Lines((line + "\n") + rest) == [line] + Lines(rest)
  {
    var text := (line + "\n") + rest;
    assert text[|line|] == '\n';
    assert forall i :: 0 <= i < |line| ==> text[i] == line[i];
    assert Find(text, '\n', 0) == |line|;
    assert text[..|line|] == line && text[|line| + 1..] == rest;
  }

  lemma LinesGlue(line: string, text: string, rest: string, found: seq<string>)
    requires OneLine(line) && Lines(text + rest) == found
    ensures Lines((line + "\n") + text + rest) == [line] + found
  {
    Regroup(line + "\n", text, rest);
    LinesCons(line, text + rest);
  }

  lemma ConsConcat(lines: seq<string>, more: seq<string>)
    requires lines != []
    ensures [lines[0]] + (lines[1..] + more) == lines + more
  {
  }

  lemma {:induction false} LinesUnlines(lines: seq<string>, rest: string)
    requires AllOneLine(lines)
    ensures Lines(Unlines(lines) + rest) == lines + Lines(rest)
  {
    if lines == [] {
      assert "" + rest == rest;
    } else {
      LinesUnlines(lines[1..], rest);
      LinesGlue(lines[0], Unlines(lines[1..]), rest, lines[1..] + Lines(rest));
      ConsConcat(lines, Lines(rest));
    }
  }

  lemma {:induction false} LinesAreOneLine(text: string)
    ensures AllOneLine(Lines(text))
    decreases |text|
  {
    if text != "" {
      var p := Find(text, '\n', 0);
      if p < |text| { LinesAreOneLine(text[p + 1..]); }
    }
  }

  lemma {:induction false} UnlinesConcat(a: seq<string>, b: seq<string>)
    ensures Unlines(a + b) == Unlines(a) + Unlines(b)
  {
    if a == [] {
      assert a + b == b && "" + Unlines(b) == Unlines(b);
    } else {
      assert (a + b)[1..] == a[1..] + b;
      UnlinesConcat(a[1..], b);
      Regroup(a[0] + "\n", Unlines(a[1..]), Unlines(b));
    }
  }

  // ----- The three patterns

  /** White space of the regular expression class \s. */
  predicate IsBlank(c: char) {
    c == ' ' || c == '\t' || c == '\n' || c == '\r' || c == 11 as char || c == 12 as char
  }

  predicate CommentOpens(line: string, i: nat) {
    i + 2 <= |line| && line[i] == '/' && (line[i + 1] == '/' || line[i + 1] == '*')
  }

  predicate BlankBetween(line: string, from: nat, to: nat)
    requires to <= |line|
  {
    forall k :: from <= k < to ==> IsBlank(line[k])
  }

  /** A comment opening, white space, then `word`, anywhere on the line. */
  predicate HasMarker(line: string, word: string) {
    exists i, j :: 0 <= i < |line| && i + 2 <= j <= |line| && CommentOpens(line, i) && BlankBetween(line, i + 2, j) &&
      MatchesAt(line, word, j)
  }

  function LabelAt(line: string): Option<nat> {
    FindWord(line, LABEL, 0)
  }

  /** Position of the first character that the pattern `.` does not match. */
  function LineEnd(line: string, from: nat): (p: nat)
    requires from <= |line|
    ensures from <= p <= |line|
    ensures forall i :: from <= i < p ==> line[i] != '\n' && line[i] != '\r'
    ensures p < |line| ==> line[p] == '\n' || line[p] == '\r'
    decreases |line| - from
  {
    if from == |line| || line[from] == '\n' || line[from] == '\r' then from else LineEnd(line, from + 1)
  }

  /** What follows the label. */
  function OptionsOn(line: string): string
    requires LabelAt(line).Some?
  {
    var start := LabelAt(line).value + |LABEL|;
    line[start..LineEnd(line, start)]
  }

  datatype LineKind = Begin | End | Label | Plain

  function KindOf(line: string): LineKind {
    if HasMarker(line, BEGIN_WORD) then Begin
    else if HasMarker(line, END_WORD) then End
    else if LabelAt(line).Some? then Label
    else Plain
  }

  // ----- The parser

  datatype Parsed = Parsed(capture: bool, userCode: string, options: string)

  function Step(s: Parsed, line: string): Parsed {
    match KindOf(line)
    case Begin => s.(capture := true)
    case End => s.(capture := false)
    case Label => s.(options := OptionsOn(line))
    case Plain => if s.capture then s.(userCode := s.userCode + (line + "\n")) else s
  }

  function Run(s: Parsed, lines: seq<string>): Parsed
    decreases |lines|
  {
    if lines == [] then s else Step(Run(s, lines[..|lines| - 1]), lines[|lines| - 1])
  }

  /** User code whose end marker is missing is dropped. */
  function Finish(s: Parsed): Parsed {
    if s.capture then s.(userCode := "") else s
  }

  const START := Parsed(false, "", "")

  /** What a fresh parser recovers from a file; None is a file that cannot be opened. */
  function Extract(file: Option<string>): Parsed {
    match file
    case None => START
    case Some(text) => Finish(Run(START, Lines(text)))
  }

  class OutputFileParser {
    var userCode: string
    var generationOptions: string

    constructor ()
      ensures userCode == "" && generationOptions == ""
    {
      userCode, generationOptions := "", "";
    }

    method ParseLine(line: string, captureUserCode: bool) returns (capture: bool)
      modifies this
      ensures Parsed(capture, userCode, generationOptions) ==
              Step(Parsed(captureUserCode, old(userCode), old(generationOptions)), line)
    {
      capture := captureUserCode;
      if HasMarker(line, BEGIN_WORD) {
        capture := true;
      } else if HasMarker(line, END_WORD) {
        capture := false;
      } else if LabelAt(line).Some? {
        generationOptions := OptionsOn(line);
      } else if capture {
        userCode := userCode + (line + "\n");
      }
    }

    method Parse(file: Option<string>)
      modifies this
      ensures var s := Parsed(false, old(userCode), old(generationOptions));
              var e := if file.Some? then Finish(Run(s, Lines(file.value))) else s;
              userCode == e.userCode && generationOptions == e.options
    {
      var captureUserCode := false;
      if file.Some? {
        var lines := Lines(file.value);
        for i := 0 to |lines|
          invariant Parsed(captureUserCode, userCode, generationOptions) ==
                    Run(Parsed(false, old(userCode), old(generationOptions)), lines[..i])
        {
          assert lines[..i + 1][..i] == lines[..i];
          captureUserCode := ParseLine(lines[i], captureUserCode);
        }
        assert lines[..|lines|] == lines;
      }
      if captureUserCode {
        userCode := "";
      }
    }
  }

  // ----- What a run recovers

  /** The marker closest before line `n` opens a section. */
  ghost predicate InSection(lines: seq<string>, n: nat)
    requires n <= |lines|
  {
    exists b :: 0 <= b < n && KindOf(lines[b]) == Begin && forall k :: b < k < n ==> KindOf(lines[k]) != End
  }

  /** The plain lines among the first `n` that stand in a section. */
  ghost function SectionLines(lines: seq<string>, n: nat): seq<string>
    requires n <= |lines|
  {
    if n == 0 then []
    else
      SectionLines(lines, n - 1) +
      if InSection(lines, n - 1) && KindOf(lines[n - 1]) == Plain then [lines[n - 1]] else []
  }

  /** `n` is one past the last label line; 0 when there is none. */
  ghost predicate IsLastLabel(lines: seq<string>, n: nat) {
    && n <= |lines|
    && (n > 0 ==> KindOf(lines[n - 1]) == Label)
    && forall k :: n <= k < |lines| ==> KindOf(lines[k]) != Label
  }

  lemma RunPrefix(s: Parsed, lines: seq<string>, n: nat)
    requires 0 < n <= |lines|
    ensures Run(s, lines[..n]) == Step(Run(s, lines[..n - 1]), lines[n - 1])
  {
    assert lines[..n][..n - 1] == lines[..n - 1] && lines[..n][n - 1] == lines[n - 1];
  }

  lemma NothingRun(lines: seq<string>)
    ensures !Run(START, lines[..0]).capture && Run(START, lines[..0]).userCode == ""
  {
  }

  lemma StepCaptures(s: Parsed, line: string)
    ensures Step(s, line).capture == (KindOf(line) == Begin || (KindOf(line) != End && s.capture))
    ensures Step(s, line).userCode ==
            if s.capture && KindOf(line) == Plain then s.userCode + (line + "\n") else s.userCode
  {
  }

  lemma {:induction false} RunCaptures(lines: seq<string>, n: nat)
    requires n <= |lines|
    ensures var s := Run(START, lines[..n]);
            s.capture == InSection(lines, n) && s.userCode == Unlines(SectionLines(lines, n))
  {
    hide *;
    if n == 0 {
      NothingInSection(lines);
      NothingRun(lines);
    } else {
      var before := Run(START, lines[..n - 1]);
      RunCaptures(lines, n - 1);
      RunPrefix(START, lines, n);
      StepCaptures(before, lines[n - 1]);
      SectionStep(lines, n);
      SectionLinesText(lines, n);
    }
  }

  lemma NothingInSection(lines: seq<string>)
    ensures !InSection(lines, 0) && Unlines(SectionLines(lines, 0)) == ""
  {
  }

  lemma SectionLinesText(lines: seq<string>, n: nat)
    requires 0 < n <= |lines|
    ensures Unlines(SectionLines(lines, n)) ==
            if InSection(lines, n - 1) && KindOf(lines[n - 1]) == Plain
            then Unlines(SectionLines(lines, n - 1)) + (lines[n - 1] + "\n")
            else Unlines(SectionLines(lines, n - 1))
  {
    var before, line := SectionLines(lines, n - 1), lines[n - 1];
    if InSection(lines, n - 1) && KindOf(line) == Plain {
      UnlinesConcat(before, [line]);
      assert Unlines([line]) == (line + "\n") + "" == line + "\n";
    } else {
      assert before + [] == before;
    }
  }

  lemma SectionStep(lines: seq<string>, n: nat)
    requires 0 < n <= |lines|
    ensures InSection(lines, n) ==
            (KindOf(lines[n - 1]) == Begin || (KindOf(lines[n - 1]) != End && InSection(lines, n - 1)))
  {
    if KindOf(lines[n - 1]) != Begin && KindOf(lines[n - 1]) != End && InSection(lines, n - 1) {
      var b :| 0 <= b < n - 1 && KindOf(lines[b]) == Begin && forall k :: b < k < n - 1 ==> KindOf(lines[k]) != End;
    }
  }

  lemma {:induction false} RunTakesLastLabel(s: Parsed, lines: seq<string>, n: nat)
    requires IsLastLabel(lines, n)
    ensures Run(s, lines).options == if n == 0 then s.options else OptionsOn(lines[n - 1])
    decreases |lines|
  {
    if lines != [] && n < |lines| {
      var front := lines[..|lines| - 1];
      assert IsLastLabel(front, n) by {
        forall k | n <= k < |front| ensures KindOf(front[k]) != Label { assert front[k] == lines[k]; }
      }
      RunTakesLastLabel(s, front, n);
    }
  }

  /** A file's user code is its plain lines inside sections, in order, and nothing when the
      last section is left open; its options are those on its last label line. */
  lemma ExtractRecovers(text: string, n: nat)
    requires IsLastLabel(Lines(text), n)
    ensures var lines := Lines(text);
            var e := Extract(Some(text));
            && e.userCode == (if InSection(lines, |lines|) then "" else Unlines(SectionLines(lines, |lines|)))
            && e.options == if n == 0 then "" else OptionsOn(lines[n - 1])
  {
    var lines := Lines(text);
    RunCaptures(lines, |lines|);
    assert lines[..|lines|] == lines;
    RunTakesLastLabel(START, lines, n);
  }
}
