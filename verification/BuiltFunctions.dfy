/** Functions whose arguments and return come from types rather than overrides: the texts generated
    for them can be read, and keep off the reserved words (app/sources/Function.cpp). */
module BuiltFunctions {
  import opened StringHelper
  import opened Overrides
  import opened CppTypes
  import opened Expressions
  import opened Arguments
  import opened ArgumentParser
  import opened ArgumentProperties
  import opened ReturnParser
  import opened ReturnProperties
  import opened MockCalls
  import opened FunctionGenerator
  import opened OutputFile
  import opened StatementNames
  import opened EmittedText
  import opened EmittedBody
  import opened Signatures
  import opened Braces

  /** An argument built from the type t, under names that are written on one line. */
  ghost predicate IsBuilt(a: Argument, underlying: bool, t: CType) {
    && OneLine(a.name) && OneLine(a.typePre) && OneLine(a.typePost)
    && (a.Standard? ==>
          && WellFormed(t) && ArgTypeSpec(underlying, t, t, false).Some?
          && BuiltFromType(a, t, ArgTypeSpec(underlying, t, t, false).value)
          && IsWord(a.name) && NoQuote(ExposedName(a.kind)) && OneLine(ExposedName(a.kind)))
  }

  /** A return built from the type t, whose name holds no dot. */
  ghost predicate ReturnIsBuilt(r: ReturnStandard, t: CType)
    reads r
  {
    && WellFormed(t) && ReturnSpec(t, true).Some? && r.Holds(ReturnSpec(t, true).value)
    && r.originalType == Spell(t) && '.' !in r.mockFront
  }

  /** A function built from types, under names that are written on one line. */
  ghost predicate FunctionIsBuilt(f: Function, underlying: bool, ts: seq<CType>, r: ReturnStandard, ret: CType)
    reads r
  {
    && OneLine(f.name) && NoQuote(f.name) && OneLine(f.className) && OneLine(f.exceptionSpec)
    && |ts| == |f.args| && (forall i :: 0 <= i < |ts| ==> IsBuilt(f.args[i], underlying, ts[i]))
    && (!f.ret.NoReturn? ==> OneLine(f.ret.originalType))
    && (f.ret.ReturnsValue? ==>
          ReturnIsBuilt(r, ret) && (r.isRValueRef ==> r.originalType != "") && f.ret == PartOf(r))
  }

  // ----- Text on one line

  lemma OneLineConcat(a: string, b: string)
    ensures OneLine(a + b) <==> OneLine(a) && OneLine(b)
  {
    if OneLine(a + b) {
      forall i | 0 <= i < |a| ensures a[i] != '\n' { assert (a + b)[i] == a[i]; }
      forall i | 0 <= i < |b| ensures b[i] != '\n' { assert (a + b)[|a| + i] == b[i]; }
    }
  }

  lemma OneLineThree(a: string, b: string, c: string)
    ensures OneLine(a + b + c) <==> OneLine(a) && OneLine(b) && OneLine(c)
  {
    hide OneLine;
    OneLineConcat(a, b);
    OneLineConcat(a + b, c);
  }

  lemma OneLineFive(a: string, b: string, c: string, d: string, e: string)
    ensures OneLine(a + b + c + d + e) <==> OneLine(a) && OneLine(b) && OneLine(c) && OneLine(d) && OneLine(e)
  {
    hide OneLine;
    OneLineThree(a, b, c);
    OneLineThree(a + b + c, d, e);
  }

  lemma PunctuationOnOneLine()
    ensures OneLine("(") && OneLine(")") && OneLine("\"") && OneLine(", ") && OneLine("\", ") && OneLine("")
    ensures OneLine("__sizeof_") && OneLine("sizeof(*") && OneLine(")), ") && OneLine(".getValue()")
  {
  }

  lemma {:induction false} JoinOnOneLine(parts: seq<string>)
    requires forall i :: 0 <= i < |parts| ==> OneLine(parts[i])
    ensures OneLine(Join(parts, ", "))
  {
    hide OneLine;
    PunctuationOnOneLine();
    if |parts| > 1 {
      JoinOnOneLine(parts[1..]);
      OneLineThree(parts[0], ", ", Join(parts[1..], ", "));
    }
  }

  lemma TrimmedOnOneLine(s: string)
    requires OneLine(s)
    ensures OneLine(TrimString(s))
  {
    var r := TrimString(s);
    hide TrimString, AllSpaces, Trimmed;
    var a, b :| 0 <= a <= b <= |s| && r == s[a..b];
    forall k | 0 <= k < |r| ensures r[k] != '\n' { assert r[k] == s[a + k]; }
  }

  lemma SignatureOnOneLine(a: Argument)
    requires OneLine(a.name) && OneLine(a.typePre) && OneLine(a.typePost)
    ensures OneLine(MockSignature(a))
  {
    hide OneLine, TrimString;
    var name := if a.Skipped? then "" else a.name;
    assert OneLine(" ") && OneLine("") by { SpaceOnOneLine(); }
    OneLineFive(a.typePre, " ", name, a.typePost, "");
    assert a.typePre + " " + name + a.typePost + "" == a.typePre + " " + name + a.typePost;
    TrimmedOnOneLine(a.typePre + " " + name + a.typePost);
  }

  lemma SpaceOnOneLine()
    ensures OneLine(" ") && OneLine("")
  {
  }

  lemma FrontOnOneLine(k: ArgKind)
    requires IsBasicKind(k) && OneLine(ExposedName(k))
    ensures OneLine(CallFront(k, false))
  {
    MethodsAreLetters(k, false);
    LettersHoldNoSign(MethodName(k, false));
    assert OneLine(MethodName(k, false));
    hide OneLine, MethodName, IsLetters;
    PunctuationOnOneLine();
    OneLineThree("\"", ExposedName(k), "\"");
    OneLineConcat("\"" + ExposedName(k) + "\"", ", ");
    OneLineThree(MethodName(k, false), "(", TypeText(k));
  }

  /** What the call of an argument holds besides names. */
  lemma SizeOnOneLine(a: Argument, getter: string)
    requires a.Standard? && !a.kind.BufferArg? && OneLine(a.name) && OneLine(a.front) && OneLine(a.back)
    requires OneLine(getter)
    ensures OneLine(CallBack(a, false, getter))
  {
    hide OneLine;
    PunctuationOnOneLine();
    OneLineConcat("__sizeof_", a.name);
    OneLineFive("sizeof(*", a.front, a.name, "", a.back);
    OneLineConcat("sizeof(*" + a.front + a.name + "" + a.back, ")");
    OneLineThree(", ", Arguments.SizeText(a, false, ""), ")");
  }

  lemma HalvesOnOneLine(s: ArgSpec, t: CType)
    requires ShapedValue(s, t)
    ensures OneLine(Front(s.value)) && OneLine(Back(s.value))
  {
    BuiltHalves(s, t);
    assert OneLine("static_cast<int>(") && OneLine("&") && OneLine("") && OneLine(")");
  }

  lemma CallOnOneLine(a: Argument, underlying: bool, t: CType, getter: string)
    requires a.Standard? && IsBuilt(a, underlying, t) && OneLine(getter)
    ensures OneLine(ExpectationBodyCall(a, getter))
  {
    hide OneLine, ArgTypeSpec, CallFront, Front, Back, CallBack, Spell, TypeTexts;
    var s := ArgTypeSpec(underlying, t, t, false).value;
    ArgumentFlags(underlying, t, t, false);
    HalvesOnOneLine(s, t);
    FrontOnOneLine(a.kind);
    SizeOnOneLine(a, getter);
    PunctuationOnOneLine();
    var head := CallFront(a.kind, false) + "\"" + a.name + "\", " + "";
    OneLineFive(CallFront(a.kind, false), "\"", a.name, "\", ", "");
    OneLineFive(head, a.front, a.name, getter, a.back);
    OneLineConcat(head + a.front + a.name + getter + a.back, CallBack(a, false, getter));
  }

  // ----- The statements

  lemma LinePiecesOnOneLine()
    ensures OneLine("    ") && OneLine(".") && OneLine(";") && OneLine("    if(!") && OneLine("    if(")
    ensures OneLine("; }")
    ensures OneLine(".isIgnored()) { ") && OneLine(CALL) && OneLine(" = true; } else { ") && OneLine(FLAG)
  {
  }

  lemma PrefixesOnOneLine()
    ensures OneLine(ON_CALL) && OneLine(GUARDED) && OneLine(FLAGGED)
  {
    hide OneLine;
    LinePiecesOnOneLine();
    OneLineThree("    ", CALL, ".");
    OneLineThree(".isIgnored()) { ", CALL, ".");
    OneLineFive(".isIgnored()) { ", FLAG, " = true; } else { ", CALL, ".");
  }

  lemma RegistrationIsLegible(s: Stmt, a: Argument, underlying: bool, t: CType)
    requires a.Standard? && IsBuilt(a, underlying, t)
    requires s == Register(a) || s == RegisterUnlessIgnored(a) || s == RegisterOrFlag(a)
    ensures IsLegibleStmt(s)
  {
    assert IsLegibleArg(a) by { BuiltIsLegibleArg(a, underlying, t); }
    hide OneLine, ExpectationBodyCall, IsLegibleArg, IsBuilt;
    PunctuationOnOneLine();
    LinePiecesOnOneLine();
    PrefixesOnOneLine();
    NameOnOneLine(a, underlying, t);
    var getter := if s.Register? then "" else ".getValue()";
    CallOnOneLine(a, underlying, t, getter);
    var call := ExpectationBodyCall(a, getter);
    OneLineThree(ON_CALL, call, ";");
    OneLineFive("    if(!", a.name, GUARDED, call, "; }");
    OneLineFive("    if(", a.name, FLAGGED, call, "; }");
    assert OneLine(StmtLine(s));
    LineIsOneLine(s);
  }

  lemma LineIsOneLine(s: Stmt)
    requires OneLine(StmtLine(s))
    ensures '\n' !in StmtLine(s)
  {
  }

  lemma NameOnOneLine(a: Argument, underlying: bool, t: CType)
    requires IsBuilt(a, underlying, t)
    ensures OneLine(a.name)
  {
  }

  lemma BuiltIsLegibleArg(a: Argument, underlying: bool, t: CType)
    requires a.Standard? && IsBuilt(a, underlying, t)
    ensures IsLegibleArg(a)
  {
    assert Quiet(a.name);
    hide ArgTypeSpec, Quiet, EndsItself, TypeTexts, Spell;
    BuiltEndsItself(underlying, t, a);
  }

  lemma StartOnOneLine(s: Stmt)
    requires s.DeclareFlag? || s.DeclareCall? || s.OnObject?
    requires s.DeclareCall? ==> OneLine(s.functionName) && NoQuote(s.functionName)
    requires s.OnObject? ==> OneLine(s.className)
    ensures IsLegibleStmt(s)
  {
    hide OneLine;
    LinePiecesOnOneLine();
    StartPiecesOnOneLine();
    ObjectPiecesOnOneLine();
    match s {
      case DeclareFlag => OneLineThree("    bool ", FLAG, " = false;");
      case DeclareCall(name) =>
        OneLineFive("    MockExpectedCall& ", CALL, " = mock().expectNCalls(", "__numCalls__", ", \"");
        var head := "    MockExpectedCall& " + CALL + " = mock().expectNCalls(" + "__numCalls__" + ", \"";
        OneLineThree(head, name, "\");");
      case OnObject(name) =>
        OneLineFive("    if(!", "__object__", ".isIgnored()) { ", CALL, ".onObject(");
        var head := "    if(!" + "__object__" + ".isIgnored()) { " + CALL + ".onObject(";
        OneLineFive(head, "const_cast", "<", name, "*>(");
        OneLineThree(head + "const_cast" + "<" + name + "*>(", "__object__", ".getValue())); }");
      case _ =>
    }
    assert OneLine(StmtLine(s));
    LineIsOneLine(s);
  }

  lemma StartPiecesOnOneLine()
    ensures OneLine("    bool ") && OneLine(" = false;") && OneLine("    MockExpectedCall& ")
    ensures OneLine("__numCalls__") && OneLine(", \"") && OneLine("\");")
  {
  }

  lemma ObjectPiecesOnOneLine()
    ensures OneLine(" = mock().expectNCalls(")
    ensures OneLine("__object__") && OneLine(".onObject(") && OneLine("const_cast") && OneLine("<") && OneLine("*>(")
    ensures OneLine(".getValue())); }")
  {
  }

  lemma EndOnOneLine(s: Stmt)
    requires s.IgnoreOthers? || s.IgnoreOthersIfFlagged? || s.ReturnCall?
    ensures IsLegibleStmt(s)
  {
    hide OneLine;
    LinePiecesOnOneLine();
    PrefixesOnOneLine();
    EndPiecesOnOneLine();
    OneLineConcat(ON_CALL, "ignoreOtherParameters();");
    OneLineFive("    if(", FLAG, ") { ", CALL, ".ignoreOtherParameters(); }");
    OneLineThree("    return ", CALL, ";");
    assert OneLine(StmtLine(s));
    LineIsOneLine(s);
  }

  lemma EndPiecesOnOneLine()
    ensures OneLine("ignoreOtherParameters();") && OneLine(") { ") && OneLine(".ignoreOtherParameters(); }")
    ensures OneLine("    return ")
  {
  }

  lemma ReturnOnOneLine(r: ReturnStandard, t: CType)
    requires ReturnIsBuilt(r, t) && (r.isRValueRef ==> r.originalType != "")
    ensures IsLegibleStmt(AndReturn(PartOf(r).expectationBody)) && EndsChain(PartOf(r).bodyBack)
  {
    hide OneLine, ReturnSpec, Spell, Getter, Canonical, CastOpening, Front, Back, EndsChain;
    var s := ReturnSpec(t, true).value;
    ReturnProfile(t);
    ProfileIsReturnType(s, t);
    BuiltReturnIsLegible(r);
    CastOnOneLine(s.kind);
    ReturnPiecesOnOneLine();
    var open, close := if s.needsCast then CastOpening(Base(s.kind)) else "", if s.needsCast then ")" else "";
    var front := if s.addressed then "&" else "";
    var start := "    __expectedCall__.andReturnValue(";
    OneLineFive(start, open, front, "__return__", "");
    OneLineThree(start + open + front + "__return__" + "", close, ");");
    var line := start + open + front + "__return__" + "" + close + ");";
    Regroup(start + open + front + "__return__" + "" + close, ");", "\n");
    assert ");" + "\n" == ");\n";
    assert r.ExpectationBody() == line + "\n";
    assert (line + "\n")[..|line + "\n"| - 1] == line;
    assert OneLine(StmtLine(AndReturn(PartOf(r).expectationBody)));
    LineIsOneLine(AndReturn(PartOf(r).expectationBody));
  }

  lemma ProfileIsReturnType(s: RetSpec, t: CType)
    requires Profile(s, Canonical(t))
    ensures IsReturnType(s.kind)
  {
    hide Canonical;
  }

  lemma CastOnOneLine(k: MockedType)
    ensures OneLine(CastOpening(Base(k)))
  {
    assert OneLine("static_cast<") && OneLine(">(");
    assert OneLine(BaseTypeText(k)) by { BaseOnOneLine(k); }
    hide OneLine;
    OneLineThree("static_cast<", BaseTypeText(k), ">(");
  }

  lemma BaseOnOneLine(k: MockedType)
    ensures OneLine(BaseTypeText(k))
  {
  }

  lemma ReturnPiecesOnOneLine()
    ensures OneLine("    __expectedCall__") && OneLine(".andReturnValue(") && OneLine("&") && OneLine("")
    ensures OneLine("__return__") && OneLine(")") && OneLine(");") && OneLine("    __expectedCall__.andReturnValue(")
  {
    assert "    __expectedCall__" + ".andReturnValue(" == "    __expectedCall__.andReturnValue(";
  }

  // ----- Whole functions

  lemma {:induction false} ArgStmtsAreLegible(args: seq<Argument>, skips: bool, underlying: bool, ts: seq<CType>)
    requires |ts| == |args| && forall i :: 0 <= i < |ts| ==> IsBuilt(args[i], underlying, ts[i])
    ensures forall i :: 0 <= i < |AllArgStmts(args, skips)| ==> IsLegibleStmt(AllArgStmts(args, skips)[i])
  {
    hide IsBuilt, IsLegibleStmt;
    if args != [] {
      var n := |args| - 1;
      ArgStmtsAreLegible(args[..n], skips, underlying, ts[..n]);
      if args[n].Standard? {
        var s := ArgStmts(args[n], skips)[0];
        assert ArgStmts(args[n], skips) == [s];
        RegistrationIsLegible(s, args[n], underlying, ts[n]);
      }
    }
  }

  /** The body of a function built from types is legible, line by line. */
  lemma BuiltBodyIsLegible(f: Function, underlying: bool, ts: seq<CType>, r: ReturnStandard, ret: CType)
    requires FunctionIsBuilt(f, underlying, ts, r, ret)
    ensures IsLegibleBody(f)
  {
    hide IsBuilt, IsLegibleStmt, OneLine, NoQuote, ReturnIsBuilt;
    ArgStmtsAreLegible(f.args, f.Skips(), underlying, ts);
    StartOnOneLine(DeclareFlag);
    StartOnOneLine(DeclareCall(f.name));
    StartOnOneLine(OnObject(f.className));
    EndOnOneLine(IgnoreOthers);
    EndOnOneLine(IgnoreOthersIfFlagged);
    EndOnOneLine(ReturnCall);
    if f.ret.ReturnsValue? { ReturnOnOneLine(r, ret); }
    var a, b, c, d := StartStmts(f), AllArgStmts(f.args, f.Skips()), ReturnStmts(f), EndStmts(f);
    assert forall i :: 0 <= i < |a| ==> IsLegibleStmt(a[i]);
    assert forall i :: 0 <= i < |c| ==> IsLegibleStmt(c[i]);
    assert forall i :: 0 <= i < |d| ==> IsLegibleStmt(d[i]);
    hide f.Skips, f.Ignores, StartStmts, AllArgStmts, ReturnStmts, EndStmts;
    BothLegible(a, b);
    BothLegible(a + b, c);
    BothLegible(a + b + c, d);
  }

  lemma BothLegible(a: seq<Stmt>, b: seq<Stmt>)
    requires forall i :: 0 <= i < |a| ==> IsLegibleStmt(a[i])
    requires forall i :: 0 <= i < |b| ==> IsLegibleStmt(b[i])
    ensures forall i :: 0 <= i < |a + b| ==> IsLegibleStmt((a + b)[i])
  {
    hide IsLegibleStmt;
  }

  lemma SignaturesOnOneLine(args: seq<Argument>, underlying: bool, ts: seq<CType>)
    requires |ts| == |args| && forall i :: 0 <= i < |ts| ==> IsBuilt(args[i], underlying, ts[i])
    ensures forall i :: 0 <= i < |args| ==> OneLine(MockSignatures(args)[i])
    ensures forall i :: 0 <= i < |args| ==> EndsItself(args[i])
  {
    hide OneLine, EndsItself;
    forall i | 0 <= i < |args| ensures OneLine(MockSignatures(args)[i]) && EndsItself(args[i]) {
      assert IsBuilt(args[i], underlying, ts[i]);
      SignatureOnOneLine(args[i]);
      if args[i].Standard? { BuiltIsLegibleArg(args[i], underlying, ts[i]); } else { SkippedEndsItself(args[i]); }
    }
  }

  lemma SkippedEndsItself(a: Argument)
    requires a.Skipped?
    ensures EndsItself(a)
  {
  }

  /** And so is its mock. */
  lemma BuiltMockIsLegible(f: Function, underlying: bool, ts: seq<CType>, r: ReturnStandard, ret: CType)
    requires FunctionIsBuilt(f, underlying, ts, r, ret)
    ensures IsLegible(f)
  {
    hide IsBuilt, OneLine, NoQuote, EndsItself, EndsChain, MockSignatures;
    SignaturesOnOneLine(f.args, underlying, ts);
    JoinOnOneLine(MockSignatures(f.args));
    HeadOnOneLine(f);
    OneLineThree(MockHead(f), Join(MockSignatures(f.args), ", "), MockTail(f));
    hide MockHead, MockTail, Join;
    SignatureLine(MockHead(f) + Join(MockSignatures(f.args), ", ") + MockTail(f));
    if f.ret.ReturnsValue? {
      ReturnOnOneLine(r, ret);
      NoDotInReturn(r.mockFront);
    }
  }

  lemma SignatureLine(text: string)
    requires OneLine(text)
    ensures '\n' !in text
  {
  }

  lemma NoDotInReturn(front: string)
    requires '.' !in front
    ensures '.' !in "return " + front
  {
  }

  lemma HeadOnOneLine(f: Function)
    requires OneLine(f.name) && OneLine(f.exceptionSpec) && (!f.ret.NoReturn? ==> OneLine(f.ret.originalType))
    ensures OneLine(MockHead(f)) && OneLine(MockTail(f))
  {
    assert OneLine(" ") && OneLine("(") && OneLine(")") && OneLine(" const") && OneLine("");
    hide OneLine;
    if !f.ret.NoReturn? { OneLineConcat(f.ret.originalType, " "); }
    OneLineThree(if f.ret.NoReturn? then "" else f.ret.originalType + " ", f.name, "(");
    OneLineThree(")", if f.isConst then " const" else "", f.exceptionSpec);
  }

  /** The kind of value that a mock built from a type asks for, and the value that its expectation
      registers, as they are read from the texts: the registered expression has the type of what the
      mock asks for. */
  lemma BuiltReturnIsRead(r: ReturnStandard, t: CType)
    requires ReturnIsBuilt(r, t) && (r.isRValueRef ==> r.originalType != "")
    ensures var e := ExpectExpr(ReturnSpec(t, true).value, t);
            var kind := ReadGetter(PartOf(r).bodyBack);
            && kind == Some(ReturnSpec(t, true).value.kind)
            && ValueIn(PartOf(r).expectationBody) == Text(e, "__return__")
            && TypeOf(e).Some? && TypeOf(e).value.ty.shape == BaseType(kind.value).shape
  {
    hide ReturnSpec, Spell, Getter, Canonical, CastOpening, Front, Back, EndsChain, ReadGetter, ValueIn, TypeOf, Text,
         ExpectExpr;
    var s := ReturnSpec(t, true).value;
    ReturnProfile(t);
    ProfileIsReturnType(s, t);
    BuiltReturnIsLegible(r);
    GetterIsRead(s.kind, r.mockBack);
    ValueIsIn(RegisteredText(r));
    RegisteredIsText(r, s, t);
    ExpectationRegistersWhatMockReads(t);
  }

  lemma RegisteredIsText(r: ReturnStandard, s: RetSpec, t: CType)
    requires r.Holds(s)
    ensures RegisteredText(r) == Text(ExpectExpr(s, t), "__return__")
  {
    hide CastOpening, Spell;
    HalvesMakeText(ExpectExpr(s, t), "__return__");
    ExpectHalves(s, t);
    var open, amp := if s.needsCast then CastOpening(Base(s.kind)) else "", if s.addressed then "&" else "";
    assert "__return__" + "" == "__return__";
    assert open + amp + "__return__" + "" == open + amp + "__return__";
  }

  /** For every function built from types, and whichever parameters a test ignores: the call read from
      the text of the mock fulfils the one that running the text of the expectation describes, and
      the value the expectation registers has the type of the one the mock asks for. */
  lemma BuiltTextsFulfil(f: Function, functionName: string, ignored: set<string>, underlying: bool, ts: seq<CType>,
      r: ReturnStandard, ret: CType)
    requires f.ValidArgs() && FunctionIsBuilt(f, underlying, ts, r, ret)
    ensures var mock := ReadMock(MockText(f));
            var g := RunText(BodyText(f, functionName, false), ignored);
            && mock.Some? && mock.value.call == ReportedCall(f) && g.expects == Some(mock.value.call.name)
            && g.registered == Expected(f.args, ignored)
            && Fulfils(mock.value.call, g.Call())
            && mock.value.returned.Some? == g.value.Some? == f.ret.ReturnsValue?
            && (f.ret.ReturnsValue? ==>
                  var e := ExpectExpr(ReturnSpec(ret, true).value, ret);
                  && g.value == Some(Text(e, "__return__"))
                  && mock.value.returned == Some(ReturnSpec(ret, true).value.kind)
                  && TypeOf(e).Some? && TypeOf(e).value.ty.shape == BaseType(mock.value.returned.value).shape)
  {
    if f.ret.ReturnsValue? { BuiltReturnIsRead(r, ret); }
    hide ReturnIsBuilt, IsBuilt, OneLine, NoQuote, ReturnSpec, ReadGetter, ValueIn, TypeOf, Text, ExpectExpr;
    assert f.ret.ReturnsValue? ==> ReturnIsBuilt(r, ret);
    hide ReadMock, RunText, MockText, BodyText, IsLegible, IsLegibleBody, FunctionIsBuilt;
    BuiltMockIsLegible(f, underlying, ts, r, ret);
    BuiltBodyIsLegible(f, underlying, ts, r, ret);
    MockIsRead(f);
    TextsAgree(f, functionName, ignored);
    MockTextFulfilsExpectation(f, functionName, ignored);
  }

  // ----- Reserved words

  lemma ShortPieces()
    ensures '_' !in "" && '_' !in "&" && '_' !in "(" && '_' !in ")" && '_' !in ".getValue()" && '_' !in "<int>("
    ensures IsWord("static_cast") && "static_cast" + "<int>(" == "static_cast<int>("
  {
  }

  /** A value built from a name, which is all it mentions. */
  lemma BuiltMentions(front: string, name: string, getter: string, back: string, w: string)
    requires (front == "" && back == "") || (front == "&" && back == "") ||
             (front == "static_cast<int>(" && back == ")")
    requires getter == "" || getter == ".getValue()"
    requires IsWord(name) && name != w && IsReserved(w)
    ensures !Mentions(front + name + getter + back, w)
  {
    hide Mentions;
    ShortPieces();
    WordMentions(name, w);
    NoUnderscoreNoMention("", w);
    NoUnderscoreNoMention("&", w);
    NoUnderscoreNoMention(")", w);
    NoUnderscoreNoMention("<int>(", w);
    NoUnderscoreNoMention(".getValue()", w);
    OtherWordNoMention("static_cast", w);
    MentionsConcat("static_cast", "<int>(", w);
    MentionsConcat(front, name, w);
    FirstOfGetter(front + name, getter);
    MentionsConcat(front + name, getter, w);
    BackStaysApart(front + name + getter, back);
    MentionsConcat(front + name + getter, back, w);
  }

  lemma FirstOfGetter(text: string, getter: string)
    requires getter == "" || getter == ".getValue()"
    ensures Apart(text, getter)
  {
  }

  lemma BackStaysApart(text: string, back: string)
    requires back == "" || back == ")"
    ensures Apart(text, back)
  {
  }

  /** An argument built from a type keeps off every reserved word but its own name, unless the type
      it is exposed as mentions it. */
  lemma BuiltKeepsOff(a: Argument, underlying: bool, t: CType, w: string)
    requires a.Standard? && IsBuilt(a, underlying, t) && IsReserved(w)
    requires a.name != w && !Mentions(ExposedName(a.kind), w)
    ensures KeepsOff(a, w)
  {
    hide Mentions, ArgTypeSpec, OneLine, NoQuote, Spell, TypeTexts, Front, Back;
    var s := ArgTypeSpec(underlying, t, t, false).value;
    ArgumentFlags(underlying, t, t, false);
    BuiltHalves(s, t);
    BuiltMentions(a.front, a.name, "", a.back, w);
    BuiltMentions(a.front, a.name, ".getValue()", a.back, w);
  }

  /** No name that the function brings along is, or mentions, the word. */
  ghost predicate NamesKeepOff(f: Function, w: string) {
    && !Mentions(f.name, w) && !Mentions(f.className, w)
    && forall i :: 0 <= i < |f.args| && f.args[i].Standard? ==>
                     f.args[i].name != w && !Mentions(ExposedName(f.args[i].kind), w)
  }

  lemma {:induction false} ArgStmtsKeepOff(args: seq<Argument>, skips: bool, underlying: bool, ts: seq<CType>,
      w: string)
    requires |ts| == |args| && IsReserved(w)
    requires forall i :: 0 <= i < |ts| ==> IsBuilt(args[i], underlying, ts[i])
    requires forall i :: 0 <= i < |args| && args[i].Standard? ==>
                           args[i].name != w && !Mentions(ExposedName(args[i].kind), w)
    ensures forall i :: 0 <= i < |AllArgStmts(args, skips)| ==> StmtKeepsOff(AllArgStmts(args, skips)[i], w)
  {
    hide IsBuilt, KeepsOff, Mentions;
    if args != [] {
      var n := |args| - 1;
      ArgStmtsKeepOff(args[..n], skips, underlying, ts[..n], w);
      if args[n].Standard? { BuiltKeepsOff(args[n], underlying, ts[n], w); }
    }
  }

  lemma BuiltBodyKeepsOff(f: Function, underlying: bool, ts: seq<CType>, r: ReturnStandard, ret: CType, w: string)
    requires FunctionIsBuilt(f, underlying, ts, r, ret) && NamesKeepOff(f, w) && IsReserved(w)
    ensures forall i :: 0 <= i < |NCallBody(f)| ==> StmtKeepsOff(NCallBody(f)[i], w)
  {
    hide IsBuilt, Mentions, OneLine, NoQuote, ReturnIsBuilt, IsReserved, Join, KeepsOff;
    ArgStmtsKeepOff(f.args, f.Skips(), underlying, ts, w);
    if f.ret.ReturnsValue? { ReturnKeepsOff(r, ret, w); }
    var a, b, c, d := StartStmts(f), AllArgStmts(f.args, f.Skips()), ReturnStmts(f), EndStmts(f);
    assert forall i :: 0 <= i < |a| ==> StmtKeepsOff(a[i], w);
    assert forall i :: 0 <= i < |c| ==> StmtKeepsOff(c[i], w);
    assert forall i :: 0 <= i < |d| ==> StmtKeepsOff(d[i], w);
    hide f.Skips, f.Ignores, StartStmts, AllArgStmts, ReturnStmts, EndStmts;
    BothKeepOff(a, b, w);
    BothKeepOff(a + b, c, w);
    BothKeepOff(a + b + c, d, w);
  }

  lemma BothKeepOff(a: seq<Stmt>, b: seq<Stmt>, w: string)
    requires forall i :: 0 <= i < |a| ==> StmtKeepsOff(a[i], w)
    requires forall i :: 0 <= i < |b| ==> StmtKeepsOff(b[i], w)
    ensures forall i :: 0 <= i < |a + b| ==> StmtKeepsOff((a + b)[i], w)
  {
    hide StmtKeepsOff;
  }

  /** In the body of a function built from types, a statement mentions a reserved word exactly if it
      uses or declares it, and every such word is a parameter or is declared in the body by then. */
  lemma BuiltBodyIsDeclared(f: Function, underlying: bool, ts: seq<CType>, r: ReturnStandard, ret: CType, i: nat,
      w: string)
    requires f.ValidArgs() && FunctionIsBuilt(f, underlying, ts, r, ret) && NamesKeepOff(f, w)
    requires IsReserved(w) && i < |NCallBody(f)|
    ensures var s := NCallBody(f)[i];
            && (Mentions(StmtText(s), w) <==> w in Uses(s) + Declares(s))
            && (Mentions(StmtText(s), w) ==>
                  w in NameSet(Params(f, false, false)) + StatementNames.Declared(NCallBody(f)[..i]) + Declares(s))
  {
    hide Mentions, Exec, NCallBody, StmtText, Uses, Declares, Params, StmtKeepsOff, FunctionIsBuilt, NamesKeepOff;
    BuiltBodyKeepsOff(f, underlying, ts, r, ret, w);
    StatementMentions(NCallBody(f)[i], w);
    if Mentions(StmtText(NCallBody(f)[i]), w) { MentionedIsDeclared(f, i, w); }
  }

  lemma ReturnKeepsOff(r: ReturnStandard, t: CType, w: string)
    requires ReturnIsBuilt(r, t) && IsReserved(w)
    ensures StmtKeepsOff(AndReturn(r.ExpectationBody()), w)
  {
    hide ReturnSpec, Spell, Mentions, Front, Back, Canonical;
    var s := ReturnSpec(t, true).value;
    ReturnProfile(t);
    ProfileIsReturnType(s, t);
    ReturnTextMentions(r, s, w);
  }

  // ----- Braces

  /** No name that the function brings along holds a brace. */
  predicate NamesAreFree(f: Function, ts: seq<CType>, ret: CType)
    requires |ts| == |f.args|
  {
    && BraceFree(f.name) && BraceFree(f.className) && BraceFree(Spell(ret))
    && forall i :: 0 <= i < |ts| && f.args[i].Standard? ==>
                     && BraceFree(Spell(ts[i])) && BraceFree(ExposedName(f.args[i].kind))
                     && BraceFree(ExpectedName(f.args[i].kind))
  }

  function ExpectedName(k: ArgKind): string {
    if k.TypedInput? || k.TypedOutput? then k.expected else ""
  }

  lemma WordIsFree(w: string)
    requires IsWord(w)
    ensures BraceFree(w)
  {
  }

  lemma ShortTextsAreFree()
    ensures BraceFree("") && BraceFree("&") && BraceFree(")") && BraceFree("static_cast<int>(") && BraceFree(" *")
    ensures BraceFree("const ") && BraceFree("*") && BraceFree(" ") && BraceFree(" &") && BraceFree("const void*")
  {
  }

  lemma BaseTextIsFree(k: MockedType)
    ensures BraceFree(BaseTypeText(k))
  {
  }

  lemma KindTextIsFree(k: ArgKind)
    requires BraceFree(ExpectedName(k))
    ensures BraceFree(KindBaseText(k))
  {
    if k.Simple? { BaseTextIsFree(k.ty); }
    hide BraceFree;
    ShortTextsAreFree();
    FreeThree("const ", ExpectedName(k), "*");
  }

  lemma TypeIsFree(a: Argument, spelling: string)
    requires a.Standard? && TypeTexts(a, spelling) && BraceFree(spelling)
    ensures BraceFree(a.expectationType)
  {
    if '[' in spelling {
      hide TrimString;
      var front :| '[' !in front && spelling == front + a.typePost && a.typePre == TrimString(front);
      FrontIsFree(front, a.typePost);
      hide BraceFree;
      ShortTextsAreFree();
      BraceFreeConcat(a.typePre, " *");
    }
  }

  lemma FrontIsFree(front: string, post: string)
    requires BraceFree(front + post)
    ensures BraceFree(TrimString(front))
  {
    BraceFreeConcat(front, post);
    hide TrimString;
    SlicesHoldNoMore(front, '{');
    SlicesHoldNoMore(front, '}');
  }

  lemma BuiltArgIsFree(a: Argument, underlying: bool, t: CType)
    requires IsBuilt(a, underlying, t)
    requires a.Standard? ==> BraceFree(Spell(t)) && BraceFree(ExposedName(a.kind)) && BraceFree(ExpectedName(a.kind))
    ensures ArgIsFree(a)
  {
    hide BraceFree, Spell, ArgTypeSpec, Front, Back, OneLine, NoQuote, TypeTexts;
    if a.Standard? {
      var s := ArgTypeSpec(underlying, t, t, false).value;
      ArgumentFlags(underlying, t, t, false);
      BuiltHalves(s, t);
      ShortTextsAreFree();
      WordIsFree(a.name);
      KindTextIsFree(a.kind);
      TypeIsFree(a, Spell(t));
    }
  }

  lemma ReturnPiecesAreFree()
    ensures BraceFree("    ") && BraceFree(CALL) && BraceFree(".andReturnValue(") && BraceFree("__return__")
    ensures BraceFree(");\n")
  {
  }

  lemma CastIsFree(k: MockedType)
    ensures BraceFree(CastOpening(Base(k)))
  {
    assert BraceFree("static_cast<") && BraceFree(">(");
    BaseTextIsFree(k);
    hide BraceFree, BaseTypeText;
    FreeThree("static_cast<", BaseTypeText(k), ">(");
  }

  lemma DeclarationIsFree(r: ReturnStandard)
    requires BraceFree(r.originalType) && (r.isRValueRef ==> r.originalType != "") && !r.useBaseType
    ensures BraceFree(r.ParamDeclaration())
  {
    hide BraceFree;
    ShortTextsAreFree();
    var ty := r.originalType;
    if r.isRValueRef {
      assert ty == ty[..|ty| - 1] + [ty[|ty| - 1]];
      BraceFreeConcat(ty[..|ty| - 1], [ty[|ty| - 1]]);
    }
    BraceFreeConcat(r.SignatureType(), if r.argByRef then " &" else " ");
  }

  lemma SetReturnIsFree(open: string, front: string, back: string, close: string)
    requires BraceFree(open) && BraceFree(front) && BraceFree(back) && BraceFree(close)
    ensures BraceFree("    __expectedCall__.andReturnValue(" + open + front + "__return__" + back + close + ");\n")
  {
    hide BraceFree;
    ReturnPiecesAreFree();
    ReturnStartText();
    FreeThree("    ", CALL, ".andReturnValue(");
    var start := "    __expectedCall__.andReturnValue(";
    FreeFive(start, open, front, "__return__", back);
    FreeThree(start + open + front + "__return__" + back, close, ");\n");
  }

  lemma BuiltReturnIsFree(r: ReturnStandard, t: CType)
    requires ReturnIsBuilt(r, t) && BraceFree(Spell(t)) && (r.isRValueRef ==> r.originalType != "")
    ensures BraceFree(r.ParamDeclaration()) && BraceFree(r.ExpectationBody())
  {
    hide BraceFree, Spell, ReturnSpec, Front, Back, CastOpening;
    DeclarationIsFree(r);
    ShortTextsAreFree();
    CastIsFree(r.kind);
    var open, close := if r.needsCast then CastOpening(Base(r.kind)) else "", if r.needsCast then ")" else "";
    SetReturnIsFree(open, r.expectFront, r.expectBack, close);
  }

  /** The texts generated for a function built from types close the braces they open, if its names
      bring none along. */
  lemma BuiltExpectationsBalance(f: Function, underlying: bool, ts: seq<CType>, r: ReturnStandard, ret: CType,
      proto: bool)
    requires f.ValidArgs() && FunctionIsBuilt(f, underlying, ts, r, ret) && NamesAreFree(f, ts, ret)
    ensures Depth(ExpectationsText(f, proto), 0) == 0
  {
    hide BraceFree, Spell, IsBuilt, ReturnIsBuilt, OneLine, NoQuote, ArgIsFree, Depth;
    forall i | 0 <= i < |f.args| ensures ArgIsFree(f.args[i]) { BuiltArgIsFree(f.args[i], underlying, ts[i]); }
    if f.ret.ReturnsValue? { BuiltReturnIsFree(r, ret); }
    ExpectationsBalance(f, proto);
  }
}
