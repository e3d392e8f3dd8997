/** Whether a line of a generated mock can be mistaken for a marker or a label when the file is read
    again (app/sources/Parser.cpp, GenerateMock, and app/sources/OutputFileParser.cpp). */
module MockLines {
  import opened StringHelper
  import opened Overrides
  import opened CppTypes
  import opened Expressions
  import opened Arguments
  import opened ArgumentParser
  import opened ArgumentProperties
  import opened ReturnParser
  import opened ReturnProperties
  import opened MockCalls
  import opened FunctionGenerator
  import opened OutputFile
  import opened StatementNames
  import opened EmittedText
  import opened BuiltFunctions
  import opened Signatures
  import MockFile

  const OPTIONS := "options"

  /** Text without a slash, and so without a comment, in which `options` is no word. */
  ghost predicate Safe(text: string) {
    '/' !in text && !Mentions(text, OPTIONS)
  }

  // ----- Lines of safe text

  lemma NoSlashNoMarker(line: string)
    requires '/' !in line
    ensures !HasMarker(line, BEGIN_WORD) && !HasMarker(line, END_WORD)
  {
  }

  /** A label has `options` in it, between a space and a colon. */
  lemma LabelMentions(text: string, p: nat)
    requires MatchesAt(text, LABEL, p) && p + |LABEL| <= |text|
    ensures Mentions(text, OPTIONS)
  {
    var w := text[p..p + |LABEL|];
    assert LABEL[10] == ' ' && LABEL[11..18] == OPTIONS && LABEL[18] == ':';
    assert text[p + 10] == w[10] && text[p + 18] == w[18];
    SliceOfSlice(text, p, p + |LABEL|, 11, 18);
    assert MatchesAt(text, OPTIONS, p + 11) && Breaks(text, p + 11) && Breaks(text, p + 11 + |OPTIONS|);
  }

  lemma SliceOfSlice(s: string, a: nat, b: nat, c: nat, d: nat)
    requires a <= b <= |s| && c <= d <= b - a
    ensures s[a..b][c..d] == s[a + c..a + d]
  {
    var l, r := s[a..b][c..d], s[a + c..a + d];
    assert |l| == |r| && forall i :: 0 <= i < |l| ==> l[i] == r[i];
  }

  lemma MatchInSlice(text: string, a: nat, b: nat, w: string, p: nat)
    requires a <= b <= |text| && MatchesAt(text[a..b], w, p)
    ensures MatchesAt(text, w, a + p) && a + p + |w| <= |text|
  {
    SliceOfSlice(text, a, b, p, p + |w|);
  }

  lemma SliceIsPlain(text: string, a: nat, b: nat)
    requires a <= b <= |text| && Safe(text)
    ensures KindOf(text[a..b]) == Plain
  {
    var line := text[a..b];
    hide Mentions, HasMarker, Breaks;
    NoSlashNoMarker(line);
    if LabelAt(line).Some? {
      var p := LabelAt(line).value;
      MatchInSlice(text, a, b, LABEL, p);
      LabelMentions(text, a + p);
    }
  }

  lemma {:induction false} LinesArePlain(text: string, from: nat)
    requires from <= |text| && Safe(text)
    ensures MockFile.AllPlain(Lines(text[from..|text|]))
    decreases |text| - from
  {
    hide Safe, KindOf, MockFile.AllPlain, Lines, Find;
    var rest := text[from..|text|];
    FirstLine(rest);
    if rest != "" {
      var p := Find(rest, '\n', 0);
      if p < |rest| {
        SliceOfSlice(text, from, |text|, 0, p);
        SliceOfSlice(text, from, |text|, p + 1, |rest|);
        SliceIsPlain(text, from, from + p);
        LinesArePlain(text, from + p + 1);
      } else {
        SliceIsPlain(text, from, |text|);
      }
    }
  }

  lemma FirstLine(rest: string)
    ensures var p := Find(rest, '\n', 0);
            && p <= |rest| && (rest == "" ==> MockFile.AllPlain(Lines(rest)))
            && (rest != "" && p == |rest| && KindOf(rest) == Plain ==> MockFile.AllPlain(Lines(rest)))
            && (p < |rest| && KindOf(rest[0..p]) == Plain && MockFile.AllPlain(Lines(rest[p + 1..|rest|])) ==>
                  MockFile.AllPlain(Lines(rest)))
  {
    hide KindOf, Find;
    var p := Find(rest, '\n', 0);
    if rest != "" && p < |rest| { assert rest[0..p] == rest[..p] && rest[p + 1..|rest|] == rest[p + 1..]; }
  }

  /** Where every mock is safe, what follows the section of user code reads as plain lines. */
  lemma SafeMocksArePlain(mocks: seq<string>)
    requires forall i :: 0 <= i < |mocks| ==> Safe(mocks[i])
    ensures MockFile.AllPlain(Lines(Unlines(mocks))) && MockFile.AllUnmarked(Lines(Unlines(mocks)))
  {
    hide Safe, KindOf;
    SafeMocks(mocks);
    LinesArePlain(Unlines(mocks), 0);
    var text := Unlines(mocks);
    assert text[0..|text|] == text;
  }

  lemma {:induction false} SafeMocks(mocks: seq<string>)
    requires forall i :: 0 <= i < |mocks| ==> Safe(mocks[i])
    ensures Safe(Unlines(mocks))
  {
    hide Safe, Apart;
    SmallPieces();
    if mocks != [] {
      SafeMocks(mocks[1..]);
      ClosedBy(mocks[0], "\n");
      SafeConcat(mocks[0], "\n");
      OpenedBy(mocks[0] + "\n", Unlines(mocks[1..]), "\n");
      SafeConcat(mocks[0] + "\n", Unlines(mocks[1..]));
    }
  }

  // ----- Putting safe pieces together

  lemma OptionsIsWord()
    ensures IsWord(OPTIONS)
  {
  }

  lemma SafeConcat(a: string, b: string)
    requires Safe(a) && Safe(b) && StatementNames.Apart(a, b)
    ensures Safe(a + b)
  {
    OptionsIsWord();
    hide Mentions, StatementNames.Apart;
    MentionsConcat(a, b, OPTIONS);
  }

  /** The piece b begins with something that is part of no word. */
  predicate Opens(b: string) {
    b == "" || !IsWordChar(b[0])
  }

  predicate Closes(a: string) {
    a == "" || !IsWordChar(a[|a| - 1])
  }

  lemma ClosedBy(a: string, b: string)
    requires Opens(b)
    ensures StatementNames.Apart(a, b)
  {
  }

  lemma OpenedBy(a: string, b: string, last: string)
    requires Closes(last) && last != "" && |last| <= |a| && a[|a| - |last|..] == last
    ensures StatementNames.Apart(a, b) && Closes(a)
  {
    assert a[|a| - 1] == last[|last| - 1];
  }

  lemma NoPIsSafe(text: string)
    requires 'p' !in text && '/' !in text
    ensures Safe(text)
  {
    forall i | 0 <= i <= |text| ensures !MatchesAt(text, OPTIONS, i) {
      if i + |OPTIONS| <= |text| { assert text[i..i + |OPTIONS|][1] == text[i + 1]; }
    }
  }

  lemma SmallPieces()
    ensures Safe("") && Safe("\n") && Safe(" ") && Safe("(") && Safe(")") && Safe(", ") && Safe("\"") && Safe("\", ")
    ensures Opens("\n") && Closes("\n") && Opens(" ") && Closes(" ") && Opens("(") && Closes("(") && Opens(")")
    ensures Opens(", ") && Closes(", ") && Opens("\"") && Closes("\"") && Opens("\", ") && Closes("\", ") && Closes(")")
  {
    hide Safe;
    NoPIsSafe("");
    NoPIsSafe("\n");
    NoPIsSafe(" ");
    NoPIsSafe("(");
    NoPIsSafe(")");
    NoPIsSafe(", ");
    NoPIsSafe("\"");
    NoPIsSafe("\", ");
  }

  // ----- The pieces of a mock

  lemma {:induction false} FrontCloses(e: Expr)
    ensures Closes(Front(e)) && Opens(Back(e))
  {
    match e
    case Hole(_, _) =>
    case StaticCast(target, x) => FrontCloses(x); CastCloses(target);
    case Deref(x) => FrontCloses(x);
    case AddressOf(x) => FrontCloses(x);
    case Move(x) => FrontCloses(x);
  }

  lemma CastCloses(target: CastTarget)
    ensures CastOpening(target) != "" && Closes(CastOpening(target))
  {
    var t := TargetText(target);
    assert ("static_cast<" + t + ">(")[|"static_cast<" + t| + 1] == '(';
  }

  lemma {:induction false} BackIsSafe(e: Expr)
    ensures Safe(Back(e)) && forall i :: 0 <= i < |Back(e)| ==> Back(e)[i] == ')'
  {
    match e
    case Hole(_, _) => NoPIsSafe("");
    case StaticCast(target, x) => BackIsSafe(x); NoPIsSafe(Back(x) + ")");
    case Deref(x) => BackIsSafe(x);
    case AddressOf(x) => BackIsSafe(x);
    case Move(x) => BackIsSafe(x); NoPIsSafe(Back(x) + ")");
  }

  lemma TrimmedIsSafe(s: string)
    requires Safe(s)
    ensures Safe(TrimString(s))
  {
    hide *;
    var r := TrimString(s);
    var a, b :| 0 <= a <= b <= |s| && r == s[a..b] && AllSpaces(s[..a]) && AllSpaces(s[b..]);
    ThreeSlices(s, a, b);
    BetweenSpaces(s[..a], r, s[b..]);
  }

  lemma BetweenSpaces(left: string, r: string, right: string)
    requires AllSpaces(left) && AllSpaces(right) && Safe((left + r) + right)
    ensures Safe(r)
  {
    OptionsIsWord();
    hide Mentions;
    MentionsConcat(left, r, OPTIONS);
    MentionsConcat(left + r, right, OPTIONS);
    assert forall i :: 0 <= i < |r| ==> r[i] == ((left + r) + right)[|left| + i];
  }

  /** What a function brings into its mock is safe. */
  ghost predicate ArgIsSafe(a: Argument) {
    && Safe(a.typePre) && Safe(a.typePost) && Opens(a.typePost)
    && (a.Standard? ==> IsWord(a.name) && a.name != OPTIONS && Safe(ExposedName(a.kind)))
  }

  ghost predicate FunctionIsSafe(f: Function) {
    && Safe(f.name) && Safe(f.exceptionSpec) && Opens(f.exceptionSpec)
    && (!f.ret.NoReturn? ==> Safe(f.ret.originalType))
    && (forall i :: 0 <= i < |f.args| ==> ArgIsSafe(f.args[i]))
  }

  lemma NameIsSafe(n: string)
    requires IsWord(n) && n != OPTIONS
    ensures Safe(n)
  {
    OptionsIsWord();
    hide Mentions;
    WordMentions(n, OPTIONS);
  }

  lemma SignatureIsSafe(a: Argument)
    requires ArgIsSafe(a)
    ensures Safe(MockSignature(a))
  {
    if a.Standard? { NameIsSafe(a.name); }
    hide Safe, StatementNames.Apart, TrimString;
    SmallPieces();
    var name := if a.Skipped? then "" else a.name;
    ClosedBy(a.typePre, " ");
    SafeConcat(a.typePre, " ");
    OpenedBy(a.typePre + " ", name, " ");
    SafeConcat(a.typePre + " ", name);
    ClosedBy(a.typePre + " " + name, a.typePost);
    SafeConcat(a.typePre + " " + name, a.typePost);
    TrimmedIsSafe(a.typePre + " " + name + a.typePost);
  }

  lemma {:induction false} SignaturesAreSafe(parts: seq<string>)
    requires forall i :: 0 <= i < |parts| ==> Safe(parts[i])
    ensures Safe(Join(parts, ", "))
  {
    hide Safe, StatementNames.Apart;
    SmallPieces();
    if |parts| > 1 {
      SignaturesAreSafe(parts[1..]);
      ClosedBy(parts[0], ", ");
      SafeConcat(parts[0], ", ");
      OpenedBy(parts[0] + ", ", Join(parts[1..], ", "), ", ");
      SafeConcat(parts[0] + ", ", Join(parts[1..], ", "));
    }
  }

  lemma HeadPieces()
    ensures Safe(" const") && Safe("mock().actualCall(\"") && Safe("\")") && Safe(".onObject(this)")
  {
    hide Safe;
    NoPIsSafe(" const");
    NoPIsSafe("mock().actualCall(\"");
    NoPIsSafe("\")");
    NoPIsSafe(".onObject(this)");
  }

  lemma BodyPieces()
    ensures Safe("\n{\n    ") && Safe(";\n}\n") && Safe("return ")
  {
    hide Safe;
    NoPIsSafe("\n{\n    ");
    NoPIsSafe(";\n}\n");
    NoPIsSafe("return ");
  }

  lemma HeadIsSafe(f: Function)
    requires FunctionIsSafe(f)
    ensures Safe(MockHead(f)) && Closes(MockHead(f)) && MockHead(f) != ""
    ensures Safe(MockTail(f)) && Opens(MockTail(f))
  {
    hide Safe, StatementNames.Apart;
    SmallPieces();
    HeadPieces();
    var ty := if f.ret.NoReturn? then "" else f.ret.originalType + " ";
    if !f.ret.NoReturn? {
      ClosedBy(f.ret.originalType, " ");
      SafeConcat(f.ret.originalType, " ");
      OpenedBy(ty, f.name, " ");
    } else {
      NothingIsApart(f.name);
    }
    SafeConcat(ty, f.name);
    ClosedBy(ty + f.name, "(");
    SafeConcat(ty + f.name, "(");
    var const0 := if f.isConst then " const" else "";
    ClosedBy(")", const0);
    SafeConcat(")", const0);
    ClosedBy(")" + const0, f.exceptionSpec);
    SafeConcat(")" + const0, f.exceptionSpec);
  }

  lemma NothingIsApart(b: string)
    ensures StatementNames.Apart("", b)
  {
  }

  // ----- The calls of a mock

  lemma MethodIsSafe(k: ArgKind)
    requires IsBasicKind(k)
    ensures Safe(MethodName(k, true))
  {
    MethodsAreLetters(k, true);
    MethodMeans(k, true);
    MethodsBeginWithW(MethodName(k, true), true);
    var m := MethodName(k, true);
    assert IsWord(m) && m != OPTIONS;
    NameIsSafe(m);
  }

  lemma CallFrontIsSafe(k: ArgKind)
    requires IsBasicKind(k) && Safe(ExposedName(k))
    ensures Safe(CallFront(k, true)) && Closes(CallFront(k, true)) && CallFront(k, true) != ""
  {
    MethodIsSafe(k);
    hide Safe, StatementNames.Apart, MethodName;
    SmallPieces();
    var m, e := MethodName(k, true), ExposedName(k);
    ClosedBy(m, "(");
    SafeConcat(m, "(");
    OpenedBy("\"", e, "\"");
    SafeConcat("\"", e);
    ClosedBy("\"" + e, "\"");
    SafeConcat("\"" + e, "\"");
    ClosedBy("\"" + e + "\"", ", ");
    SafeConcat("\"" + e + "\"", ", ");
    ClosedBy(m + "(", TypeText(k));
    SafeConcat(m + "(", TypeText(k));
  }

  lemma ValueIsSafe(front: string, name: string, back: string)
    requires (front == "" && back == "") || (front == "&" && back == "") ||
             (front == "static_cast<int>(" && back == ")")
    requires Safe(name)
    ensures Safe(front + name + back)
  {
    hide Safe;
    NoPIsSafe("");
    NoPIsSafe("&");
    NoPIsSafe(")");
    NoPIsSafe("static_cast<int>(");
    SafeConcat(front, name);
    ClosedBy(front + name, back);
    SafeConcat(front + name, back);
  }

  lemma MockBodyIsSafe(a: Argument, underlying: bool, t: CType)
    requires IsBuilt(a, underlying, t) && ArgIsSafe(a)
    ensures Safe(MockBody(a)) && Opens(MockBody(a))
  {
    hide ArgTypeSpec, Spell, TypeTexts, Safe, OneLine, NoQuote, StatementNames.Apart, CallFront, Front, Back;
    SmallPieces();
    if a.Standard? {
      var s := ArgTypeSpec(underlying, t, t, false).value;
      ArgumentFlags(underlying, t, t, false);
      BuiltHalves(s, t);
      NameIsSafe(a.name);
      ValueIsSafe(a.front, a.name, a.back);
      CallFrontIsSafe(a.kind);
      CallIsSafe(CallFront(a.kind, true), a.name, a.front, a.back);
      assert MockBodyCall(a) == CallFront(a.kind, true) + "\"" + a.name + "\", " + "" + a.front + a.name + a.back + ")";
    }
  }

  lemma CallIsSafe(call: string, name: string, front: string, back: string)
    requires Safe(call) && Safe(name) && Safe(front + name + back)
    ensures var text := call + "\"" + name + "\", " + "" + front + name + back + ")";
            Safe("." + text) && Opens("." + text)
  {
    hide Safe, StatementNames.Apart;
    SmallPieces();
    DotIsSafe();
    ClosedBy(call, "\"");
    SafeConcat(call, "\"");
    OpenedBy(call + "\"", name, "\"");
    SafeConcat(call + "\"", name);
    ClosedBy(call + "\"" + name, "\", ");
    SafeConcat(call + "\"" + name, "\", ");
    var head, value := call + "\"" + name + "\", ", front + name + back;
    OpenedBy(head, value, "\", ");
    SafeConcat(head, value);
    ClosedBy(head + value, ")");
    SafeConcat(head + value, ")");
    OpenedBy(".", head + value + ")", ".");
    SafeConcat(".", head + value + ")");
    assert head + "" == head;
    ValuePieces(head, front, name, back);
  }

  lemma DotIsSafe()
    ensures Safe(".") && Closes(".") && Safe("()") && Opens("()")
  {
    NoPIsSafe(".");
    NoPIsSafe("()");
  }

  lemma {:induction false} ChainIsSafe(args: seq<Argument>, underlying: bool, ts: seq<CType>)
    requires |ts| == |args| && forall i :: 0 <= i < |args| ==> IsBuilt(args[i], underlying, ts[i]) && ArgIsSafe(args[i])
    ensures Safe(Flatten(MockBodies(args))) && Opens(Flatten(MockBodies(args)))
  {
    hide Safe, StatementNames.Apart, MockBody, IsBuilt, ArgIsSafe;
    SmallPieces();
    if args != [] {
      var n := |args| - 1;
      ChainIsSafe(args[..n], underlying, ts[..n]);
      MockBodyIsSafe(args[n], underlying, ts[n]);
      assert MockBodies(args) == MockBodies(args[..n]) + [MockBody(args[n])];
      FlattenAppend(MockBodies(args[..n]), MockBody(args[n]));
      ClosedBy(Flatten(MockBodies(args[..n])), MockBody(args[n]));
      SafeConcat(Flatten(MockBodies(args[..n])), MockBody(args[n]));
    }
  }

  // ----- The whole mock

  /** What stands in front of the call and behind it. */
  lemma ReturnIsSafe(r: ReturnStandard, t: CType)
    requires ReturnIsBuilt(r, t) && Safe(r.mockFront)
    ensures Safe(r.MockBodyFront()) && Closes(r.MockBodyFront()) && r.MockBodyFront() != ""
    ensures Safe(r.MockBodyBack()) && Opens(r.MockBodyBack())
  {
    var s := ReturnSpec(t, true).value;
    FrontCloses(s.mock);
    BackIsSafe(s.mock);
    ReturnProfile(t);
    ProfileIsReturnType(s, t);
    GetterIsSafe(s.kind);
    hide Safe, StatementNames.Apart, ReturnSpec, Front, Back, Getter;
    BodyPieces();
    DotIsSafe();
    OpenedBy("return ", r.mockFront, " ");
    SafeConcat("return ", r.mockFront);
    LastOfBoth("return ", r.mockFront);
    OpenedBy(".", Getter(s.kind), ".");
    SafeConcat(".", Getter(s.kind));
    ClosedBy("." + Getter(s.kind), "()");
    SafeConcat("." + Getter(s.kind), "()");
    ClosedBy("." + Getter(s.kind) + "()", r.mockBack);
    SafeConcat("." + Getter(s.kind) + "()", r.mockBack);
  }

  lemma LastOfBoth(a: string, b: string)
    requires Closes(a) && Closes(b)
    ensures Closes(a + b)
  {
  }

  lemma GetterIsSafe(k: MockedType)
    requires IsReturnType(k)
    ensures Safe(Getter(k))
  {
    GettersReturn(k);
    GetterLetters(k);
    NameIsSafe(Getter(k));
  }

  lemma GetterLetters(k: MockedType)
    ensures IsWord(Getter(k))
  {
    hide Getter, IsWord;
    if k in {Bool, Int, Long, Double, String} { ShortGetters(k); } else { LongGetters(k); }
  }

  lemma ShortGetters(k: MockedType)
    requires k in {Bool, Int, Long, Double, String}
    ensures IsWord(Getter(k))
  {
  }

  lemma LongGetters(k: MockedType)
    requires k !in {Bool, Int, Long, Double, String}
    ensures IsWord(Getter(k))
  {
  }

  lemma CallOfMock(name: string, onObject: string)
    requires Safe(name) && (onObject == "" || onObject == ".onObject(this)")
    ensures var call := ("mock().actualCall(\"" + name + "\")") + onObject; Safe(call) && Closes(call) && call != ""
  {
    hide Safe, StatementNames.Apart;
    HeadPieces();
    SmallPieces();
    OpenedBy("mock().actualCall(\"", name, "\"");
    SafeConcat("mock().actualCall(\"", name);
    ClosedBy("mock().actualCall(\"" + name, "\")");
    SafeConcat("mock().actualCall(\"" + name, "\")");
    var call := "mock().actualCall(\"" + name + "\")";
    ClosedBy(call, onObject);
    SafeConcat(call, onObject);
    if onObject == "" { assert call + "" == call; }
  }

  /** The mock of a function built from types is safe if the function's names are. */
  lemma BuiltMockIsSafe(f: Function, underlying: bool, ts: seq<CType>, r: ReturnStandard, ret: CType)
    requires FunctionIsBuilt(f, underlying, ts, r, ret) && FunctionIsSafe(f)
    requires f.ret.ReturnsValue? ==> Safe(r.mockFront)
    ensures Safe(FunctionGenerator.MockText(f))
  {
    HeadIsSafe(f);
    if f.ret.ReturnsValue? { ReturnIsSafe(r, ret); } else { NoPIsSafe(""); }
    hide Safe, StatementNames.Apart, MockHead, MockTail, IsBuilt, ArgIsSafe, MockBodies, MockSignatures, Join, Flatten,
         ReturnIsBuilt, OneLine, NoQuote;
    forall i | 0 <= i < |f.args| ensures Safe(MockSignatures(f.args)[i]) { SafeSignature(f.args, i); }
    SignaturesAreSafe(MockSignatures(f.args));
    var sigs := Join(MockSignatures(f.args), ", ");
    SafeHeader(MockHead(f), sigs, MockTail(f));
    ChainIsSafe(f.args, underlying, ts);
    var onObject := if f.isNonStatic then ".onObject(this)" else "";
    CallOfMock(f.name, onObject);
    var front := if f.ret.ReturnsValue? then f.ret.bodyFront else "";
    var back := if f.ret.ReturnsValue? then f.ret.bodyBack else "";
    var call := ("mock().actualCall(\"" + f.name + "\")") + onObject;
    Regroup(front, "mock().actualCall(\"" + f.name + "\")", onObject);
    SafeBody(MockHead(f) + sigs + MockTail(f), front, call, Flatten(MockBodies(f.args)), back);
  }

  lemma SafeSignature(args: seq<Argument>, i: nat)
    requires i < |args| && ArgIsSafe(args[i])
    ensures Safe(MockSignatures(args)[i])
  {
    hide Safe, ArgIsSafe, MockSignature;
    SignatureIsSafe(args[i]);
  }

  lemma SafeHeader(head: string, sigs: string, tail: string)
    requires Safe(head) && Closes(head) && head != "" && Safe(sigs) && Safe(tail) && Opens(tail)
    ensures Safe(head + sigs + tail)
  {
    OpenedBy(head, sigs, head);
    hide Safe, StatementNames.Apart, Closes;
    SafeConcat(head, sigs);
    ClosedBy(head + sigs, tail);
    SafeConcat(head + sigs, tail);
  }

  lemma SafeBody(header: string, front: string, call: string, chain: string, back: string)
    requires Safe(header) && Safe(front) && Closes(front) && Safe(call) && call != "" && Closes(call)
    requires Safe(chain) && Opens(chain) && Safe(back) && Opens(back)
    ensures Safe(header + "\n{\n    " + ((front + call) + chain + back) + ";\n}\n")
  {
    hide Safe;
    BodyPieces();
    SafeConcat(front, call);
    ClosedBy(front + call, chain);
    SafeConcat(front + call, chain);
    ClosedBy(front + call + chain, back);
    SafeConcat(front + call + chain, back);
    var body := (front + call) + chain + back;
    ClosedBy(header, "\n{\n    ");
    SafeConcat(header, "\n{\n    ");
    OpenedBy(header + "\n{\n    ", body, " ");
    SafeConcat(header + "\n{\n    ", body);
    ClosedBy(header + "\n{\n    " + body, ";\n}\n");
    SafeConcat(header + "\n{\n    " + body, ";\n}\n");
  }

  /** So a generation of such mocks writes nothing that is read as a marker or a label, if its version,
      options and file name hold none. */
  lemma SafeMocksFit(g: MockFile.Generation, genOpts: string)
    requires forall i :: 0 <= i < |g.mocks| ==> Safe(g.mocks[i])
    requires MockFile.Unsigned(g.version) && OneLine(genOpts) && MockFile.Unmarked(MockFile.OptionsLine(genOpts))
    requires OneLine(g.filename) && KindOf(MockFile.IncludeLine(g.filename)) == Plain && '\r' !in genOpts
    ensures MockFile.Clean(g.version, genOpts, g.filename, g.mocks) && MockFile.Fits(g, genOpts)
  {
    hide Safe, KindOf, Lines, Unlines;
    SafeMocksArePlain(g.mocks);
  }

  /** A mock that is not safe, for a function `options::f` that returns a class `Generation`: its own
      signature is read as the label, and the rest of it as the options. */
  lemma LookalikeExample(f: Function)
    requires f.name == "options::f" && !f.ret.NoReturn? && f.ret.originalType == "Generation"
    requires f.args == [] && !f.isConst && f.exceptionSpec == ""
    ensures var line := Lines(FunctionGenerator.MockText(f))[0]; KindOf(line) == Label && OptionsOn(line) == ":f()"
  {
    hide Lines, KindOf, OptionsOn, MockHead, MockTail, Join, Flatten, MockCall;
    LookalikeHeader(f);
    LookalikeIsLabel();
    var body := MockCall(f) + Flatten(MockBodies(f.args)) + if f.ret.ReturnsValue? then f.ret.bodyBack else "";
    FirstOfMock(MockHead(f) + Join(MockSignatures(f.args), ", ") + MockTail(f), body);
  }

  lemma LookalikeHeader(f: Function)
    requires f.name == "options::f" && !f.ret.NoReturn? && f.ret.originalType == "Generation"
    requires f.args == [] && !f.isConst && f.exceptionSpec == ""
    ensures MockHead(f) + Join(MockSignatures(f.args), ", ") + MockTail(f) == LABEL + ":f()"
  {
    LookalikeNames();
    assert Join(MockSignatures(f.args), ", ") == "";
    var names := "Generation" + " " + "options::f";
    assert MockHead(f) == names + "(" && MockTail(f) == ")" + "" + "";
    assert names + "(" + "" + (")" + "" + "") == names + "()";
    Regroup(LABEL, ":f", "()");
  }

  lemma LookalikeNames()
    ensures "Generation" + " " + "options::f" == LABEL + ":f" && ":f" + "()" == ":f()"
  {
  }

  lemma FirstOfMock(line: string, body: string)
    requires OneLine(line)
    ensures Lines(line + "\n{\n    " + body + ";\n}\n") != []
    ensures Lines(line + "\n{\n    " + body + ";\n}\n")[0] == line
  {
    hide Lines;
    var rest := "{\n    " + body + ";\n}\n";
    LinesCons(line, rest);
    SplitFirst(line, body);
  }

  lemma SplitFirst(line: string, body: string)
    ensures line + "\n{\n    " + body + ";\n}\n" == (line + "\n") + ("{\n    " + body + ";\n}\n")
  {
    assert "\n{\n    " == "\n" + "{\n    ";
    Regroup(line, "\n", "{\n    ");
    Regroup(line + "\n", "{\n    ", body);
    Regroup(line + "\n", "{\n    " + body, ";\n}\n");
  }

  lemma LookalikeIsLabel()
    ensures KindOf(LABEL + ":f()") == Label && OptionsOn(LABEL + ":f()") == ":f()" && OneLine(LABEL + ":f()")
  {
    hide KindOf, OptionsOn;
    LabelPieces();
    LabelIsRead(":f()");
    OneLineConcat(LABEL, ":f()");
  }

  lemma LabelIsRead(rest: string)
    requires '/' !in LABEL && '/' !in rest && '\n' !in rest && '\r' !in rest
    ensures KindOf(LABEL + rest) == Label && OptionsOn(LABEL + rest) == rest
  {
    var line := LABEL + rest;
    NoSlashNoMarker(line);
    hide HasMarker;
    assert line[0..|LABEL|] == LABEL;
    assert MatchesAt(line, LABEL, 0) && LabelAt(line) == Some(0);
    assert forall i :: 0 <= i < |rest| ==> line[|LABEL| + i] == rest[i];
  }

  lemma LabelPieces()
    ensures '/' !in LABEL && '/' !in ":f()" && '\r' !in ":f()" && OneLine(LABEL) && OneLine(":f()")
  {
  }
}
