/** What a mock file holds besides the user code: the header it is for, included as what it is, and
    the mocks (app/sources/Parser.cpp, GenerateMock), and which lines are markers
    (app/sources/OutputFileParser.cpp). */
module MockContents {
  import opened StringHelper
  import opened OutputFile
  import opened MockFile

  // ----- The files included

  /** A file that is included: with quotes or brackets, and as C or as C++. */
  datatype Included = Included(name: string, quoted: bool, asC: bool)

  predicate StartsWith(line: string, start: string) {
    |start| <= |line| && line[..|start|] == start
  }

  const QUOTED := "#include \""
  const BRACKETED := "#include <"

  /** Reads directives line by line, inside a block of C linkage or outside. */
  function ReadIncludes(lines: seq<string>, inC: bool): seq<Included> {
    if lines == [] then []
    else
      var line, rest := lines[0], lines[1..];
      if line == "extern \"C\" {" then ReadIncludes(rest, true)
      else if line == "}" then ReadIncludes(rest, false)
      else if StartsWith(line, QUOTED) && |line| > 10 then
        [Included(line[10..|line| - 1], true, inC)] + ReadIncludes(rest, inC)
      else if StartsWith(line, BRACKETED) && |line| > 10 then
        [Included(line[10..|line| - 1], false, inC)] + ReadIncludes(rest, inC)
      else ReadIncludes(rest, inC)
  }

  /** A line of a comment, or an empty one. */
  predicate IsComment(line: string) {
    line == "" || line[0] == '/' || line[0] == ' '
  }

  lemma {:induction false} CommentsIncludeNothing(comments: seq<string>, rest: seq<string>, inC: bool)
    requires forall i :: 0 <= i < |comments| ==> IsComment(comments[i])
    ensures ReadIncludes(comments + rest, inC) == ReadIncludes(rest, inC)
  {
    if comments == [] {
      assert comments + rest == rest;
    } else {
      assert (comments + rest)[0] == comments[0] && (comments + rest)[1..] == comments[1..] + rest;
      CommentsIncludeNothing(comments[1..], rest, inC);
      NoDirective(comments[0]);
    }
  }

  lemma NoDirective(line: string)
    requires IsComment(line)
    ensures line != "extern \"C\" {" && line != "}" && !StartsWith(line, QUOTED) && !StartsWith(line, BRACKETED)
  {
    StartsAlike(line, QUOTED, 0);
    StartsAlike(line, BRACKETED, 0);
  }

  lemma StartsAlike(line: string, start: string, i: nat)
    requires i < |start|
    ensures StartsWith(line, start) ==> i < |line| && line[i] == start[i]
  {
    if StartsWith(line, start) { assert line[..|start|][i] == line[i]; }
  }

  lemma HeadingIsComment(version: string, genOpts: string)
    ensures forall i :: 0 <= i < |HeadingLines(version, genOpts, true)| ==>
                          IsComment(HeadingLines(version, genOpts, true)[i])
  {
    assert AUTO_GENERATED[0] == ' ' && CODE_PRESERVED[0] == ' ';
    assert (AUTO_GENERATED + version + ".")[0] == ' ' && OptionsLine(genOpts)[0] == ' ';
  }

  lemma QuotedIsIncluded(filename: string, rest: seq<string>, inC: bool)
    ensures ReadIncludes([IncludeLine(filename)] + rest, inC) ==
            [Included(filename, true, inC)] + ReadIncludes(rest, inC)
  {
    var line := IncludeLine(filename);
    assert line[..10] == QUOTED && line[0] == '#' && line[10..|line| - 1] == filename;
    assert ([line] + rest)[0] == line && ([line] + rest)[1..] == rest;
    assert line != "extern \"C\" {" && line != "}";
  }

  lemma SupportIsIncluded(rest: seq<string>)
    ensures ReadIncludes([MOCK_SUPPORT] + rest, false) ==
            [Included("CppUTestExt/MockSupport.h", false, false)] + ReadIncludes(rest, false)
  {
    SupportText();
    var line := MOCK_SUPPORT;
    assert ([line] + rest)[0] == line && ([line] + rest)[1..] == rest;
    assert line[9] == '<' && QUOTED[9] == '"';
    StartsAlike(line, QUOTED, 9);
  }

  lemma SupportText()
    ensures MOCK_SUPPORT[..10] == BRACKETED && MOCK_SUPPORT[0] == '#' && |MOCK_SUPPORT| == 36
    ensures MOCK_SUPPORT[10..35] == "CppUTestExt/MockSupport.h"
  {
    assert MOCK_SUPPORT == BRACKETED + ("CppUTestExt/" + ("MockSupport.h" + ">"));
    assert "CppUTestExt/" + "MockSupport.h" == "CppUTestExt/MockSupport.h";
  }

  lemma BlockOpens(rest: seq<string>, inC: bool)
    ensures ReadIncludes([EXTERN_C] + rest, inC) == ReadIncludes(rest, true)
    ensures ReadIncludes(["}"] + rest, inC) == ReadIncludes(rest, false)
  {
    assert ([EXTERN_C] + rest)[1..] == rest && (["}"] + rest)[1..] == rest;
    assert "}" != "extern \"C\" {";
  }

  /** The lines between heading and user code include the header, with C linkage unless it is C++, and
      the mocking library. */
  lemma IncludesAreThese(filename: string, cpp: bool)
    ensures ReadIncludes(IncludeLines(filename, cpp), false) ==
            [Included(filename, true, !cpp), Included("CppUTestExt/MockSupport.h", false, false)]
  {
    hide ReadIncludes;
    var tail := [""] + ([MOCK_SUPPORT] + [""]);
    CommentsIncludeNothing([""], [MOCK_SUPPORT] + [""], false);
    SupportIsIncluded([""]);
    CommentsIncludeNothing([""], [], false);
    assert [""] + [] == [""] && ReadIncludes([], false) == [] by { NoLinesNoIncludes(); }
    if cpp {
      QuotedIsIncluded(filename, tail, false);
      assert IncludeLines(filename, cpp) == [IncludeLine(filename)] + tail;
    } else {
      BlockOpens([IncludeLine(filename)] + (["}"] + tail), false);
      QuotedIsIncluded(filename, ["}"] + tail, true);
      BlockOpens(tail, true);
      assert IncludeLines(filename, cpp) == [EXTERN_C] + ([IncludeLine(filename)] + (["}"] + tail));
    }
  }

  lemma NoLinesNoIncludes()
    ensures ReadIncludes([], false) == []
  {
  }

  /** The whole file: comments, the two files included, the section of user code, and every mock. */
  lemma FileHolds(version: string, genOpts: string, filename: string, cpp: bool, code: seq<string>, mocks: seq<string>)
      returns (preamble: seq<string>)
    requires Clean(version, genOpts, filename, mocks) && AllOneLine(code)
    ensures Lines(MockText(version, genOpts, filename, cpp, Unlines(code), mocks)) ==
            preamble + ([BEGIN_LINE] + (code + ([END_LINE, ""] + Lines(Unlines(mocks)))))
    ensures ReadIncludes(preamble, false) ==
            [Included(filename, true, !cpp), Included("CppUTestExt/MockSupport.h", false, false)]
  {
    hide Lines, MockText, Unlines, ReadIncludes, KindOf;
    preamble := Preamble(version, genOpts, filename, cpp);
    HeadingIsRead(version, genOpts);
    IncludesAreRead(filename, cpp);
    MockTextLines(version, genOpts, filename, cpp, code, mocks);
    HeadingIsComment(version, genOpts);
    CommentsIncludeNothing(HeadingLines(version, genOpts, true), IncludeLines(filename, cpp), false);
    IncludesAreThese(filename, cpp);
  }

  // ----- Markers

  /** A line with a comment in which, after white space at most, comes the word. */
  ghost predicate MarksWith(line: string, word: string) {
    exists before, open, blanks, after ::
      && (open == "//" || open == "/*") && (forall i :: 0 <= i < |blanks| ==> IsBlank(blanks[i]))
      && line == before + open + blanks + word + after
  }

  lemma MarkerHere(before: string, open: string, blanks: string, word: string, after: string)
    requires (open == "//" || open == "/*") && forall i :: 0 <= i < |blanks| ==> IsBlank(blanks[i])
    ensures HasMarker(before + open + blanks + word + after, word)
  {
    var line := before + open + blanks + word + after;
    var i, j := |before|, |before| + 2 + |blanks|;
    assert line[i] == open[0] && line[i + 1] == open[1];
    assert forall k :: i + 2 <= k < j ==> line[k] == blanks[k - i - 2];
    assert line[j..j + |word|] == word;
    assert CommentOpens(line, i) && BlankBetween(line, i + 2, j) && MatchesAt(line, word, j);
  }

  lemma MarkerThere(line: string, word: string, i: nat, j: nat)
    requires i < |line| && i + 2 <= j <= |line| && CommentOpens(line, i) && BlankBetween(line, i + 2, j)
    requires MatchesAt(line, word, j)
    ensures MarksWith(line, word)
  {
    var before, open, blanks, after := line[..i], line[i..i + 2], line[i + 2..j], line[j + |word|..];
    assert open == "//" || open == "/*";
    assert line == before + open + blanks + word + after;
  }

  /** The lines that are taken for a marker of a word are those. */
  lemma MarkersExactly(line: string, word: string)
    ensures HasMarker(line, word) <==> MarksWith(line, word)
  {
    if HasMarker(line, word) {
      var i, j :| 0 <= i < |line| && i + 2 <= j <= |line| && CommentOpens(line, i) && BlankBetween(line, i + 2, j) &&
                  MatchesAt(line, word, j);
      MarkerThere(line, word, i, j);
    }
    hide HasMarker;
    if before, open, blanks, after :|
        && (open == "//" || open == "/*") && (forall i :: 0 <= i < |blanks| ==> IsBlank(blanks[i]))
        && line == before + open + blanks + word + after {
      MarkerHere(before, open, blanks, word, after);
    }
  }
}
