/** Which names the text of a statement mentions (app/sources/Function.cpp, the body of an
    expectation function). */
module StatementNames {
  import opened StringHelper
  import opened Overrides
  import opened Expressions
  import opened Arguments
  import opened MockCalls
  import opened ReturnParser
  import opened ReturnProperties
  import opened FunctionGenerator

  predicate IsWordChar(c: char) {
    'a' <= c <= 'z' || 'A' <= c <= 'Z' || '0' <= c <= '9' || c == '_'
  }

  predicate IsWord(w: string) {
    w != "" && forall i :: 0 <= i < |w| ==> IsWordChar(w[i])
  }

  /** No word goes on before i. */
  predicate Breaks(text: string, i: nat) {
    i == 0 || i >= |text| || !IsWordChar(text[i - 1]) || !IsWordChar(text[i])
  }

  /** w is one of the words of the text. */
  ghost predicate Mentions(text: string, w: string) {
    exists i :: 0 <= i <= |text| && MatchesAt(text, w, i) && Breaks(text, i) && Breaks(text, i + |w|)
  }

  /** Two pieces that do not grow together. */
  predicate Apart(a: string, b: string) {
    a == "" || b == "" || !IsWordChar(a[|a| - 1]) || !IsWordChar(b[0])
  }

  lemma MatchesInLeft(a: string, b: string, w: string, i: nat)
    requires i + |w| <= |a|
    ensures MatchesAt(a + b, w, i) == MatchesAt(a, w, i)
  {
    assert (a + b)[i..i + |w|] == a[i..i + |w|];
  }

  lemma MatchesInRight(a: string, b: string, w: string, i: nat)
    ensures MatchesAt(a + b, w, |a| + i) == MatchesAt(b, w, i)
  {
    if i + |w| <= |b| {
      assert (a + b)[|a| + i..|a| + i + |w|] == b[i..i + |w|];
    }
  }

  lemma BreaksInLeft(a: string, b: string, i: nat)
    requires Apart(a, b) && i <= |a|
    ensures Breaks(a + b, i) == Breaks(a, i)
  {
    if 0 < i { assert (a + b)[i - 1] == a[i - 1]; }
    if i < |a| { assert (a + b)[i] == a[i]; } else if b != "" { assert (a + b)[i] == b[0]; }
  }

  lemma BreaksInRight(a: string, b: string, i: nat)
    requires Apart(a, b) && i <= |b|
    ensures Breaks(a + b, |a| + i) == Breaks(b, i)
  {
    if i < |b| { assert (a + b)[|a| + i] == b[i]; }
    if 0 < i { assert (a + b)[|a| + i - 1] == b[i - 1]; } else if a != "" { assert (a + b)[|a| - 1] == a[|a| - 1]; }
  }

  /** A word of two pieces that stay apart is a word of one of them. */
  lemma MentionsConcat(a: string, b: string, w: string)
    requires Apart(a, b) && IsWord(w)
    ensures Mentions(a + b, w) <==> Mentions(a, w) || Mentions(b, w)
  {
    hide MatchesAt, Breaks;
    if i :| 0 <= i <= |a| && MatchesAt(a, w, i) && Breaks(a, i) && Breaks(a, i + |w|) {
      MatchInside(a, w, i);
      MatchesInLeft(a, b, w, i);
      BreaksInLeft(a, b, i);
      BreaksInLeft(a, b, i + |w|);
    }
    if i :| 0 <= i <= |b| && MatchesAt(b, w, i) && Breaks(b, i) && Breaks(b, i + |w|) {
      MatchInside(b, w, i);
      MatchesInRight(a, b, w, i);
      BreaksInRight(a, b, i);
      BreaksInRight(a, b, i + |w|);
    }
    if i :| 0 <= i <= |a + b| && MatchesAt(a + b, w, i) && Breaks(a + b, i) && Breaks(a + b, i + |w|) {
      MatchInside(a + b, w, i);
      if i + |w| <= |a| {
        MatchesInLeft(a, b, w, i);
        BreaksInLeft(a, b, i);
        BreaksInLeft(a, b, i + |w|);
      } else if i >= |a| {
        MatchesInRight(a, b, w, i - |a|);
        BreaksInRight(a, b, i - |a|);
        BreaksInRight(a, b, i - |a| + |w|);
      } else {
        NoWordAcross(a, b, w, i);
      }
    }
  }

  lemma MatchInside(text: string, w: string, i: nat)
    requires MatchesAt(text, w, i)
    ensures i + |w| <= |text|
  {
  }

  lemma NoWordAcross(a: string, b: string, w: string, i: nat)
    requires Apart(a, b) && IsWord(w) && i < |a| < i + |w|
    ensures !MatchesAt(a + b, w, i)
  {
    if i + |w| <= |a + b| {
      var k := |a| - i;
      assert (a + b)[i..i + |w|][k - 1] == (a + b)[|a| - 1] == a[|a| - 1];
      assert (a + b)[i..i + |w|][k] == (a + b)[|a|] == b[0];
    }
  }

  lemma WordMentions(v: string, w: string)
    requires IsWord(v) && IsWord(w)
    ensures Mentions(v, w) <==> v == w
  {
    if v == w {
      assert MatchesAt(v, w, 0) && Breaks(v, 0) && Breaks(v, 0 + |w|);
    }
    if i :| 0 <= i <= |v| && MatchesAt(v, w, i) && Breaks(v, i) && Breaks(v, i + |w|) {
      assert i == 0;
      assert |w| == |v|;
      assert v[0..0 + |w|] == v;
    }
  }

  /** The words with which the generated code keeps out of the way of the user's. */
  predicate IsReserved(w: string) {
    IsWord(w) && |w| > 2 && w[0] == '_' == w[1]
  }

  lemma NoUnderscoreNoMention(text: string, w: string)
    requires '_' !in text && IsReserved(w)
    ensures !Mentions(text, w)
  {
    forall i | 0 <= i <= |text| ensures !MatchesAt(text, w, i) {
      if i + |w| <= |text| { assert text[i..i + |w|][0] == text[i]; }
    }
  }

  /** A word that does not begin with an underscore is not reserved. */
  lemma OtherWordNoMention(v: string, w: string)
    requires IsWord(v) && IsReserved(w) && v[0] != '_'
    ensures !Mentions(v, w)
  {
    WordMentions(v, w);
  }

  lemma MentionsThree(a: string, b: string, c: string, w: string)
    requires IsWord(w) && Apart(a, b) && Apart(b, c) && b != ""
    ensures Mentions(a + b + c, w) <==> Mentions(a, w) || Mentions(b, w) || Mentions(c, w)
  {
    hide Mentions;
    MentionsConcat(a, b, w);
    assert (a + b)[|a + b| - 1] == b[|b| - 1];
    MentionsConcat(a + b, c, w);
  }

  // ----- What an argument brings in

  /** The value passed on, and the operand of a size that is taken from it. */
  function ValueText(a: Argument, getter: string): string
    requires a.Standard?
  {
    (if a.useBaseType then "" else a.front) + a.name + getter + (if a.useBaseType then "" else a.back)
  }

  function OperandText(a: Argument, getter: string): string
    requires a.Standard?
  {
    a.front + a.name + getter + a.back
  }

  /** The argument has a name, and uses no word that is kept for generated code. */
  ghost predicate KeepsOff(a: Argument, w: string) {
    && a.Standard? && IsBasicKind(a.kind) && IsWord(a.name) && a.name != w && !Mentions(ExposedName(a.kind), w)
    && !Mentions(ValueText(a, ""), w) && !Mentions(ValueText(a, ".getValue()"), w)
    && !Mentions(OperandText(a, ""), w) && !Mentions(OperandText(a, ".getValue()"), w)
  }

  lemma PunctuationMentions()
    ensures '_' !in "(" && '_' !in ")" && '_' !in "\"" && '_' !in "\", " && '_' !in ", " && '_' !in ")), " && '_' !in ""
  {
  }

  lemma FrontMentions(k: ArgKind, w: string)
    requires IsBasicKind(k) && !Mentions(ExposedName(k), w) && IsReserved(w)
    ensures !Mentions(CallFront(k, false), w) && CallFront(k, false) != ""
  {
    hide Mentions, MethodName, IsLetters;
    MethodsAreLetters(k, false);
    LettersHoldNoSign(MethodName(k, false));
    PunctuationMentions();
    NoUnderscoreNoMention(MethodName(k, false), w);
    NoUnderscoreNoMention("(", w);
    NoUnderscoreNoMention("\"", w);
    NoUnderscoreNoMention(", ", w);
    NoUnderscoreNoMention("", w);
    MentionsConcat("\"", ExposedName(k), w);
    MentionsConcat("\"" + ExposedName(k), "\"", w);
    assert ("\"" + ExposedName(k) + "\"")[|ExposedName(k)| + 1] == '"';
    MentionsConcat("\"" + ExposedName(k) + "\"", ", ", w);
    MentionsConcat(MethodName(k, false), "(", w);
    assert (MethodName(k, false) + "(")[|MethodName(k, false)|] == '(';
    MentionsConcat(MethodName(k, false) + "(", TypeText(k), w);
  }

  lemma MiddleMentions(k: ArgKind, w: string)
    requires IsReserved(w)
    ensures !Mentions(CallMiddle(k), w)
    ensures CallMiddle(k) != "" ==> CallMiddle(k)[|CallMiddle(k)| - 1] == '('
  {
    CastPieces();
    hide Mentions;
    PunctuationMentions();
    NoUnderscoreNoMention("", w);
    NoUnderscoreNoMention("(", w);
    NoUnderscoreNoMention("<const unsigned char *>", w);
    NoUnderscoreNoMention("<const void *>", w);
    OtherWordNoMention("static_cast", w);
    MentionsConcat("static_cast", "<const unsigned char *>", w);
    MentionsConcat("static_cast", "<const void *>", w);
    var x, y := "static_cast<const unsigned char *>", "static_cast<const void *>";
    MentionsConcat(x, "(", w);
    MentionsConcat(x + "(", y, w);
    MentionsConcat(x + "(" + y, "(", w);
  }

  lemma CastPieces()
    ensures "static_cast" + "<const unsigned char *>" == "static_cast<const unsigned char *>"
    ensures "static_cast" + "<const void *>" == "static_cast<const void *>"
    ensures '_' !in "<const unsigned char *>" && '_' !in "<const void *>" && IsWord("static_cast")
  {
  }

  lemma SizeNameMentions(a: Argument, w: string)
    requires IsWord(a.name) && IsReserved(w)
    ensures Mentions(SizeName(a), w) <==> w == SizeName(a)
    ensures IsWord(SizeName(a))
  {
    SizeNameIsWord(a.name);
    WordMentions(SizeName(a), w);
  }

  lemma SizeNameIsWord(name: string)
    requires IsWord(name)
    ensures IsWord("__sizeof_" + name)
  {
  }

  lemma OperandMentions(a: Argument, getter: string, w: string)
    requires a.Standard? && IsReserved(w) && !Mentions(OperandText(a, getter), w)
    ensures !Mentions("sizeof(*" + a.front + a.name + getter + a.back + ")", w)
  {
    hide Mentions;
    assert '_' !in "sizeof(*" && '_' !in ")";
    NoUnderscoreNoMention("sizeof(*", w);
    NoUnderscoreNoMention(")", w);
    OperandRegrouped("sizeof(*", a.front, a.name, getter, a.back);
    MentionsConcat("sizeof(*", OperandText(a, getter), w);
    MentionsConcat("sizeof(*" + OperandText(a, getter), ")", w);
  }

  lemma OperandRegrouped(h: string, f: string, n: string, g: string, b: string)
    ensures h + f + n + g + b == h + (f + n + g + b)
  {
    Regroup(h, f, n);
    Regroup(h, f + n, g);
    Regroup(h, f + n + g, b);
  }

  /** What follows the value mentions the size parameter, if there is one. */
  lemma BackMentions(a: Argument, getter: string, w: string)
    requires KeepsOff(a, w) && IsReserved(w) && (getter == "" || getter == ".getValue()")
    ensures Mentions(CallBack(a, false, getter), w) <==> TakesSize(a) && w == SizeName(a)
    ensures CallBack(a, false, getter) != "" && !IsWordChar(CallBack(a, false, getter)[0])
  {
    hide Mentions;
    PunctuationMentions();
    NoUnderscoreNoMention(")", w);
    NoUnderscoreNoMention(", ", w);
    NoUnderscoreNoMention(")), ", w);
    SizeNameMentions(a, w);
    OperandMentions(a, getter, w);
    OperandMentions(a, "", w);
    if a.kind.OutputArg? || a.kind.BufferArg? {
      var size := Arguments.SizeText(a, false, if a.kind.OutputArg? then "" else getter);
      assert Mentions(size, w) <==> TakesSize(a) && w == SizeName(a);
      MentionsConcat(", ", size, w);
      MentionsConcat(", " + size, ")", w);
      MentionsConcat(")), ", size, w);
      MentionsConcat(")), " + size, ")", w);
    }
  }

  lemma BodyCallMentions(a: Argument, getter: string, w: string)
    requires KeepsOff(a, w) && IsReserved(w) && (getter == "" || getter == ".getValue()")
    ensures Mentions(ExpectationBodyCall(a, getter), w) <==> TakesSize(a) && w == SizeName(a)
  {
    hide Mentions, CallFront, CallMiddle, CallBack;
    PunctuationMentions();
    FrontMentions(a.kind, w);
    MiddleMentions(a.kind, w);
    BackMentions(a, getter, w);
    WordMentions(a.name, w);
    NoUnderscoreNoMention("\"", w);
    NoUnderscoreNoMention("\", ", w);
    var f, m, v, k := CallFront(a.kind, false), CallMiddle(a.kind), ValueText(a, getter), CallBack(a, false, getter);
    var h := f + "\"" + a.name + "\", " + m;
    MentionsConcat(f, "\"", w);
    MentionsThree(f + "\"", a.name, "\", ", w);
    MentionsConcat(f + "\"" + a.name + "\", ", m, w);
    LastOfHead(f, a.name, m);
    MentionsConcat(h, v, w);
    MentionsConcat(h + v, k, w);
    OperandRegrouped(h, if a.useBaseType then "" else a.front, a.name, getter, if a.useBaseType then "" else a.back);
  }

  lemma LastOfHead(f: string, name: string, m: string)
    requires m != "" ==> m[|m| - 1] == '('
    ensures var h := f + "\"" + name + "\", " + m;
            h != "" && !IsWordChar(h[|h| - 1])
    ensures (f + "\"")[|f + "\""| - 1] == '"' && (f + "\"" + name + "\", ")[|f + "\"" + name + "\", "| - 1] == ' '
  {
  }

  // ----- The statements

  /** The names that a statement declares. */
  function Declares(s: Stmt): set<string> {
    match s
    case DeclareFlag => {FLAG}
    case DeclareCall(_) => {CALL}
    case _ => {}
  }

  lemma FlagIsWord()
    ensures IsWord(FLAG)
  {
  }

  lemma FixedNamesAreWords()
    ensures IsWord(CALL) && IsWord("__object__") && IsWord("__numCalls__") && IsWord("const_cast")
  {
  }

  lemma GuardsMention()
    ensures '_' !in "    if(!" && '_' !in "    if(" && '_' !in "    " && '_' !in "." && '_' !in ";\n" && '_' !in ") { "
    ensures '_' !in ".isIgnored()) { " && '_' !in " = true; } else { " && '_' !in "; }\n"
  {
  }

  /** What the two guarded registrations have in common. */
  lemma GuardedMentions(a: Argument, w: string)
    requires KeepsOff(a, w) && IsReserved(w)
    ensures Mentions(RegistrationUnlessIgnored(a), w) <==> w == CALL || (TakesSize(a) && w == SizeName(a))
    ensures Mentions(RegistrationOrFlag(a), w) <==> w == CALL || w == FLAG || (TakesSize(a) && w == SizeName(a))
  {
    hide Mentions, ExpectationBodyCall, KeepsOff;
    GuardsMention();
    FlagIsWord();
    FixedNamesAreWords();
    NameIsKeptOff(a, w);
    BodyCallMentions(a, ".getValue()", w);
    WordMentions(CALL, w);
    WordMentions(FLAG, w);
    NoUnderscoreNoMention("    if(!", w);
    NoUnderscoreNoMention("    if(", w);
    NoUnderscoreNoMention(".isIgnored()) { ", w);
    NoUnderscoreNoMention(" = true; } else { ", w);
    NoUnderscoreNoMention(".", w);
    NoUnderscoreNoMention("; }\n", w);
    var call := ExpectationBodyCall(a, ".getValue()");
    MentionsThree("    if(!", a.name, ".isIgnored()) { ", w);
    MentionsThree("    if(", a.name, ".isIgnored()) { ", w);
    AfterGuard("    if(!", a.name, w, call);
    AfterGuard("    if(", a.name, w, call);
  }

  lemma NameIsKeptOff(a: Argument, w: string)
    requires KeepsOff(a, w) && IsReserved(w)
    ensures a.Standard? && IsWord(a.name) && !Mentions(a.name, w)
  {
    WordMentions(a.name, w);
  }

  lemma EndsApart(text: string, last: string, piece: string)
    requires last != "" && !IsWordChar(last[|last| - 1])
    ensures Apart(text + last, piece)
  {
    assert (text + last)[|text + last| - 1] == last[|last| - 1];
  }

  lemma AfterGuard(open: string, name: string, w: string, call: string)
    requires IsReserved(w)
    ensures var g := open + name + ".isIgnored()) { ";
            && (Mentions(g + CALL + "." + call + "; }\n", w) <==> Mentions(g, w) || w == CALL || Mentions(call, w))
            && (Mentions(g + FLAG + " = true; } else { " + CALL + "." + call + "; }\n", w) <==>
                  Mentions(g, w) || w == FLAG || w == CALL || Mentions(call, w))
  {
    hide Mentions;
    var g := open + name + ".isIgnored()) { ";
    EndsApart(open + name, ".isIgnored()) { ", CALL);
    EndsApart(open + name, ".isIgnored()) { ", FLAG);
    CallMentions(g, call, w);
    FlagMentions(g, w);
    EndsApart(g + FLAG, " = true; } else { ", CALL);
    CallMentions(g + FLAG + " = true; } else { ", call, w);
  }

  lemma CallMentions(g: string, call: string, w: string)
    requires IsReserved(w) && Apart(g, CALL)
    ensures Mentions(g + CALL + "." + call + "; }\n", w) <==> Mentions(g, w) || w == CALL || Mentions(call, w)
  {
    hide Mentions;
    GuardsMention();
    FixedNamesAreWords();
    WordMentions(CALL, w);
    NoUnderscoreNoMention(".", w);
    NoUnderscoreNoMention("; }\n", w);
    MentionsThree(g, CALL, ".", w);
    EndsApart(g + CALL, ".", call);
    MentionsConcat(g + CALL + ".", call, w);
    MentionsConcat(g + CALL + "." + call, "; }\n", w);
  }

  lemma FlagMentions(g: string, w: string)
    requires IsReserved(w) && Apart(g, FLAG)
    ensures Mentions(g + FLAG + " = true; } else { ", w) <==> Mentions(g, w) || w == FLAG
  {
    hide Mentions;
    GuardsMention();
    FlagIsWord();
    WordMentions(FLAG, w);
    NoUnderscoreNoMention(" = true; } else { ", w);
    MentionsThree(g, FLAG, " = true; } else { ", w);
  }

  lemma RegistrationMentions(a: Argument, w: string)
    requires KeepsOff(a, w) && IsReserved(w)
    ensures Mentions(Registration(a), w) <==> w == CALL || (TakesSize(a) && w == SizeName(a))
  {
    hide Mentions, ExpectationBodyCall, KeepsOff;
    GuardsMention();
    FixedNamesAreWords();
    NameIsKeptOff(a, w);
    BodyCallMentions(a, "", w);
    WordMentions(CALL, w);
    NoUnderscoreNoMention("    ", w);
    NoUnderscoreNoMention(".", w);
    NoUnderscoreNoMention(";\n", w);
    var call := ExpectationBodyCall(a, "");
    MentionsThree("    ", CALL, ".", w);
    EndsApart("    " + CALL, ".", call);
    MentionsConcat("    " + CALL + ".", call, w);
    MentionsConcat("    " + CALL + "." + call, ";\n", w);
  }

  lemma StartPieces()
    ensures '_' !in "    bool " && '_' !in " = false;\n" && '_' !in "    MockExpectedCall& " && '_' !in ", \"" &&
            '_' !in "\");\n"
    ensures '_' !in " = mock().expectNCalls("
  {
  }

  lemma StartMentions(s: Stmt, w: string)
    requires IsReserved(w) && (s.DeclareFlag? || (s.DeclareCall? && !Mentions(s.functionName, w)))
    ensures Mentions(StmtText(s), w) <==> w in Uses(s) + Declares(s)
  {
    hide Mentions;
    StartPieces();
    FlagIsWord();
    FixedNamesAreWords();
    WordMentions(FLAG, w);
    WordMentions(CALL, w);
    WordMentions("__numCalls__", w);
    NoUnderscoreNoMention("    bool ", w);
    NoUnderscoreNoMention(" = false;\n", w);
    NoUnderscoreNoMention("    MockExpectedCall& ", w);
    NoUnderscoreNoMention(" = mock().expectNCalls(", w);
    NoUnderscoreNoMention(", \"", w);
    NoUnderscoreNoMention("\");\n", w);
    if s.DeclareFlag? {
      MentionsThree("    bool ", FLAG, " = false;\n", w);
    } else {
      var n := s.functionName;
      var x := "    MockExpectedCall& " + CALL + " = mock().expectNCalls(";
      MentionsThree("    MockExpectedCall& ", CALL, " = mock().expectNCalls(", w);
      EndsApart("    MockExpectedCall& " + CALL, " = mock().expectNCalls(", "__numCalls__");
      MentionsThree(x, "__numCalls__", ", \"", w);
      EndsApart(x + "__numCalls__", ", \"", n);
      MentionsConcat(x + "__numCalls__" + ", \"", n, w);
      MentionsConcat(x + "__numCalls__" + ", \"" + n, "\");\n", w);
    }
  }

  lemma ObjectPieces()
    ensures '_' !in ".onObject(" && '_' !in "<" && '_' !in "*>(" && '_' !in ".getValue())); }\n"
  {
  }

  lemma ObjectMentions(className: string, w: string)
    requires IsReserved(w) && !Mentions(className, w)
    ensures Mentions(StmtText(OnObject(className)), w) <==> w == CALL || w == "__object__"
  {
    hide Mentions;
    GuardsMention();
    ObjectPieces();
    FixedNamesAreWords();
    WordMentions(CALL, w);
    WordMentions("__object__", w);
    OtherWordNoMention("const_cast", w);
    NoUnderscoreNoMention("    if(!", w);
    NoUnderscoreNoMention(".isIgnored()) { ", w);
    NoUnderscoreNoMention(".onObject(", w);
    NoUnderscoreNoMention("<", w);
    NoUnderscoreNoMention("*>(", w);
    NoUnderscoreNoMention(".getValue())); }\n", w);
    var g := "    if(!" + "__object__" + ".isIgnored()) { ";
    MentionsThree("    if(!", "__object__", ".isIgnored()) { ", w);
    EndsApart("    if(!" + "__object__", ".isIgnored()) { ", CALL);
    MentionsThree(g, CALL, ".onObject(", w);
    var x := g + CALL + ".onObject(";
    EndsApart(g + CALL, ".onObject(", "const_cast");
    MentionsThree(x, "const_cast", "<", w);
    EndsApart(x + "const_cast", "<", className);
    MentionsConcat(x + "const_cast" + "<", className, w);
    var y := x + "const_cast" + "<" + className;
    MentionsConcat(y, "*>(", w);
    EndsApart(y, "*>(", "__object__");
    MentionsThree(y + "*>(", "__object__", ".getValue())); }\n", w);
  }

  lemma EndPieces()
    ensures '_' !in "    return " && '_' !in ";" && '_' !in ".ignoreOtherParameters();\n" &&
            '_' !in ".ignoreOtherParameters(); }\n"
  {
  }

  lemma EndMentions(s: Stmt, w: string)
    requires IsReserved(w) && (s.IgnoreOthers? || s.IgnoreOthersIfFlagged? || s.ReturnCall?)
    ensures Mentions(StmtText(s), w) <==> w in Uses(s)
  {
    hide Mentions;
    GuardsMention();
    EndPieces();
    FlagIsWord();
    FixedNamesAreWords();
    WordMentions(FLAG, w);
    WordMentions(CALL, w);
    NoUnderscoreNoMention("    ", w);
    NoUnderscoreNoMention("    if(", w);
    NoUnderscoreNoMention(") { ", w);
    NoUnderscoreNoMention("    return ", w);
    NoUnderscoreNoMention(";", w);
    NoUnderscoreNoMention(".ignoreOtherParameters();\n", w);
    NoUnderscoreNoMention(".ignoreOtherParameters(); }\n", w);
    match s
    case IgnoreOthers => MentionsThree("    ", CALL, ".ignoreOtherParameters();\n", w);
    case IgnoreOthersIfFlagged =>
      MentionsThree("    if(", FLAG, ") { ", w);
      EndsApart("    if(" + FLAG, ") { ", CALL);
      MentionsThree("    if(" + FLAG + ") { ", CALL, ".ignoreOtherParameters(); }\n", w);
    case ReturnCall => MentionsThree("    return ", CALL, ";", w);
  }

  /** What a statement brings in from outside uses no word that is kept for generated code. */
  ghost predicate StmtKeepsOff(s: Stmt, w: string) {
    match s
    case DeclareCall(name) => !Mentions(name, w)
    case OnObject(name) => !Mentions(name, w)
    case Register(a) => KeepsOff(a, w)
    case RegisterUnlessIgnored(a) => KeepsOff(a, w)
    case RegisterOrFlag(a) => KeepsOff(a, w)
    case AndReturn(text) => Mentions(text, w) <==> w == CALL || w == "__return__"
    case _ => true
  }

  /** Of the reserved words, the text of a statement mentions exactly those it uses or declares. */
  lemma StatementMentions(s: Stmt, w: string)
    requires IsReserved(w) && StmtKeepsOff(s, w)
    ensures Mentions(StmtText(s), w) <==> w in Uses(s) + Declares(s)
  {
    hide Mentions, Registration, RegistrationUnlessIgnored, RegistrationOrFlag;
    match s
    case DeclareFlag => StartMentions(s, w);
    case DeclareCall(_) => StartMentions(s, w);
    case OnObject(name) => ObjectMentions(name, w);
    case Register(a) => RegistrationMentions(a, w);
    case RegisterUnlessIgnored(a) => GuardedMentions(a, w);
    case RegisterOrFlag(a) => GuardedMentions(a, w);
    case AndReturn(_) =>
    case _ => EndMentions(s, w);
  }

  // ----- The statement that sets the return value

  lemma BaseTextsMention(k: MockedType)
    requires IsReturnType(k)
    ensures '_' !in BaseTypeText(k)
  {
  }

  lemma CastMentions(k: MockedType, w: string)
    requires IsReturnType(k) && IsReserved(w)
    ensures !Mentions(CastOpening(Base(k)), w)
    ensures CastOpening(Base(k)) != "" && CastOpening(Base(k))[|CastOpening(Base(k))| - 1] == '('
  {
    hide Mentions;
    BaseTextsMention(k);
    ReturnPieces();
    ReturnWords();
    NoUnderscoreNoMention("<", w);
    NoUnderscoreNoMention(BaseTypeText(k), w);
    NoUnderscoreNoMention(">(", w);
    FixedNamesAreWords();
    OtherWordNoMention("static_cast", w);
    MentionsConcat("static_cast", "<", w);
    MentionsConcat("static_cast<", BaseTypeText(k), w);
    MentionsConcat("static_cast<" + BaseTypeText(k), ">(", w);
  }

  lemma ReturnPieces()
    ensures '_' !in "<" && '_' !in ">(" && '_' !in "&" && '_' !in ")" && '_' !in "" && '_' !in ");\n" && '_' !in "    "
    ensures '_' !in ".andReturnValue(" && "static_cast" + "<" == "static_cast<"
  {
  }

  lemma ReturnWords()
    ensures IsWord("static_cast") && IsWord("__return__")
  {
  }

  lemma ReturnStartText()
    ensures "    " + CALL + ".andReturnValue(" == "    __expectedCall__.andReturnValue("
  {
    assert CALL + ".andReturnValue(" == "__expectedCall__.andReturnValue(";
    Regroup("    ", CALL, ".andReturnValue(");
  }

  /** The text that the generated expectation of any supported type registers its return value with. */
  lemma ReturnTextMentions(r: ReturnStandard, s: RetSpec, w: string)
    requires r.Holds(s) && IsReturnType(s.kind) && IsReserved(w)
    ensures Mentions(r.ExpectationBody(), w) <==> w == CALL || w == "__return__"
  {
    hide Mentions, CastOpening;
    ReturnPieces();
    ReturnWords();
    ReturnStartText();
    FixedNamesAreWords();
    CastMentions(s.kind, w);
    WordMentions(CALL, w);
    WordMentions("__return__", w);
    NoUnderscoreNoMention("", w);
    NoUnderscoreNoMention("    ", w);
    NoUnderscoreNoMention(".andReturnValue(", w);
    NoUnderscoreNoMention("&", w);
    NoUnderscoreNoMention(")", w);
    NoUnderscoreNoMention(");\n", w);
    var open := if s.needsCast then CastOpening(Base(s.kind)) else "";
    var amp, close := if s.addressed then "&" else "", if s.needsCast then ")" else "";
    MentionsThree("    ", CALL, ".andReturnValue(", w);
    var x := "    " + CALL + ".andReturnValue(";
    EndsApart("    " + CALL, ".andReturnValue(", open);
    MentionsConcat(x, open, w);
    OpenEnds(x, open, amp);
    MentionsConcat(x + open, amp, w);
    MentionsConcat(x + open + amp, "__return__", w);
    assert (x + open + amp + "__return__") + "" == x + open + amp + "__return__";
    MentionsConcat(x + open + amp + "__return__", close, w);
    CloseApart(x + open + amp + "__return__", close);
    MentionsConcat(x + open + amp + "__return__" + close, ");\n", w);
  }

  lemma OpenEnds(x: string, open: string, amp: string)
    requires x != "" && x[|x| - 1] == '(' && (open == "" || open[|open| - 1] == '(') && (amp == "" || amp == "&")
    ensures Apart(x + open, amp) && Apart(x + open + amp, "__return__")
  {
    assert (x + open)[|x + open| - 1] == '(' by { if open == "" { assert x + open == x; } }
    if amp == "" { assert x + open + amp == x + open; } else { assert (x + open + amp)[|x + open|] == '&'; }
  }

  lemma CloseApart(x: string, close: string)
    requires close == "" || close == ")"
    ensures Apart(x, close) && Apart(x + close, ");\n")
  {
  }

  // ----- The whole body

  /** The names that a list of statements declares. */
  function Declared(stmts: seq<Stmt>): set<string> {
    if stmts == [] then {} else Declares(stmts[0]) + Declared(stmts[1..])
  }

  lemma {:induction false} UsesAreDeclared(stmts: seq<Stmt>, ignored: set<string>, m: Machine, i: nat)
    requires Exec(stmts, ignored, m).Some? && i < |stmts|
    ensures Uses(stmts[i]) <= m.scope + Declared(stmts[..i])
  {
    hide Uses;
    if i > 0 {
      UsesAreDeclared(stmts[1..], ignored, Effect(stmts[0], ignored, m), i - 1);
      assert stmts[..i][1..] == stmts[1..][..i - 1];
      assert Effect(stmts[0], ignored, m).scope == m.scope + Declares(stmts[0]);
    }
  }

  /** Every reserved word in the text of an N-call expectation is a parameter of it or is declared
      there, in an earlier statement or by the one that mentions it. */
  lemma MentionedIsDeclared(f: Function, i: nat, w: string)
    requires f.ValidArgs() && i < |NCallBody(f)| && IsReserved(w) && StmtKeepsOff(NCallBody(f)[i], w)
    requires Mentions(StmtText(NCallBody(f)[i]), w)
    ensures w in NameSet(Params(f, false, false)) + Declared(NCallBody(f)[..i]) + Declares(NCallBody(f)[i])
  {
    hide Exec, NCallBody, Mentions, StmtText, Uses, Declares, Params, StmtKeepsOff;
    ExpectationRuns(f, {});
    UsesAreDeclared(NCallBody(f), {}, Begin(f), i);
    StatementMentions(NCallBody(f)[i], w);
  }
}
