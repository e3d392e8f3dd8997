/** The braces of the generated expectations (app/sources/Function.cpp, both GenerateExpectation). */
module Braces {
  import opened StringHelper
  import opened Overrides
  import opened Arguments
  import opened MockCalls
  import opened Namespaces
  import opened FunctionGenerator

  /** The brace depth after s when the depth before it is d; negative as soon as a brace is
      closed that was not opened. */
  function Depth(s: string, d: int): int {
    if s == "" || d < 0 then d
    else Depth(s[1..], if s[0] == '{' then d + 1 else if s[0] == '}' then d - 1 else d)
  }

  lemma {:induction false} DepthConcat(a: string, b: string, d: int)
    ensures Depth(a + b, d) == Depth(b, Depth(a, d))
  {
    if a == "" {
      assert a + b == b;
    } else {
      assert (a + b)[1..] == a[1..] + b;
      DepthConcat(a[1..], b, if a[0] == '{' then d + 1 else if a[0] == '}' then d - 1 else d);
    }
  }

  lemma {:induction false} PlainDepth(s: string, d: int)
    requires '{' !in s && '}' !in s
    ensures Depth(s, d) == d
  {
    if s != "" { PlainDepth(s[1..], d); }
  }

  lemma OneOpening(name: string, d: nat)
    requires '{' !in name && '}' !in name
    ensures Depth(" namespace " + name + "$ {", d) == d + 1
  {
    PlainDepth(" namespace ", d);
    PlainDepth(name, d);
    PlainDepth("$ ", d);
    assert "$ {" == "$ " + "{";
    hide Depth;
    DepthConcat(" namespace ", name, d);
    DepthConcat(" namespace " + name, "$ {", d);
    DepthConcat("$ ", "{", d);
    OneBrace(d);
  }

  lemma OneBrace(d: nat)
    ensures Depth("{", d) == d + 1 && Depth("\n", d) == d
    ensures Depth("} ", d + 1) == d && Depth("}\n", d + 1) == d
  {
    assert "} "[1..] == " " && " "[1..] == "";
    assert "}\n"[1..] == "\n" && "\n"[1..] == "";
    assert "{"[1..] == "";
    assert Depth(" ", d) == Depth("", d) == d;
    assert Depth("\n", d) == Depth("", d) == d;
  }

  lemma {:induction false} OpeningsDepth(names: seq<string>, d: nat)
    requires forall i :: 0 <= i < |names| ==> '{' !in names[i] && '}' !in names[i]
    ensures Depth(Flatten(Openings(names)), d) == d + |names|
  {
    hide Depth;
    if names == [] {
      PlainDepth("", d);
    } else {
      assert Openings(names)[1..] == Openings(names[1..]);
      OneOpening(names[0], d);
      DepthConcat(Openings(names)[0], Flatten(Openings(names[1..])), d);
      OpeningsDepth(names[1..], d + 1);
    }
  }

  lemma {:induction false} ClosingsDepth(n: nat, d: nat)
    ensures Depth(Flatten(Closings(n)), d + n) == d
  {
    hide Depth;
    if n == 0 {
      PlainDepth("", d);
    } else {
      assert Closings(n)[1..] == Closings(n - 1);
      OneBrace(d + n - 1);
      DepthConcat("} ", Flatten(Closings(n - 1)), d + n);
      ClosingsDepth(n - 1, d);
    }
  }

  /** The namespaces opened around the overloads are exactly those closed after them: the whole
      text balances whenever the overloads themselves do. */
  lemma NamespacesBalance(names: seq<string>, overloads: string)
    requires forall i :: 0 <= i < |names| ==> '{' !in names[i] && '}' !in names[i]
    requires Depth(overloads, |names| + 1) == |names| + 1
    ensures Depth(Opening(names) + overloads + Closing(|names|), 0) == 0
  {
    hide Depth, Openings, Closings, Flatten;
    var n := |names|;
    var start := "namespace expect {";
    assert start == "namespace expect " + "{";
    PlainDepth("namespace expect ", 0);
    DepthConcat("namespace expect ", "{", 0);
    OneBrace(0);
    OpeningsDepth(names, 1);
    DepthConcat(start, Flatten(Openings(names)), 0);
    OneBrace(n + 1);
    DepthConcat(start + Flatten(Openings(names)), "\n", 0);
    DepthConcat(Opening(names), overloads, 0);
    ClosingsDepth(n, 1);
    DepthConcat(Flatten(Closings(n)), "}\n", n + 1);
    DepthConcat(Opening(names) + overloads, Closing(n), 0);
  }

  // ----- Text without braces

  predicate BraceFree(s: string) {
    '{' !in s && '}' !in s
  }

  lemma BraceFreeConcat(a: string, b: string)
    ensures BraceFree(a + b) <==> BraceFree(a) && BraceFree(b)
  {
    if BraceFree(a + b) {
      forall c | c in a || c in b ensures c in a + b {}
    }
  }

  lemma {:induction false} JoinIsFree(parts: seq<string>, sep: string)
    requires BraceFree(sep) && forall i :: 0 <= i < |parts| ==> BraceFree(parts[i])
    ensures BraceFree(Join(parts, sep))
  {
    hide BraceFree;
    if |parts| > 1 {
      JoinIsFree(parts[1..], sep);
      BraceFreeConcat(parts[0], sep);
      BraceFreeConcat(parts[0] + sep, Join(parts[1..], sep));
    } else if |parts| == 0 {
      assert BraceFree("") by { EmptyIsFree(); }
    }
  }

  lemma EmptyIsFree()
    ensures BraceFree("")
  {
  }

  /** What an argument brings into the expectation from outside holds no brace. */
  predicate ArgIsFree(a: Argument) {
    a.Standard? ==>
      && IsBasicKind(a.kind) && BraceFree(a.name) && BraceFree(a.front) && BraceFree(a.back) &&
         BraceFree(ExposedName(a.kind))
      && BraceFree(a.expectationType) && BraceFree(KindBaseText(a.kind))
  }

  predicate FunctionIsFree(f: Function) {
    && BraceFree(f.name) && BraceFree(f.className) && (forall i :: 0 <= i < |f.args| ==> ArgIsFree(f.args[i]))
    && (f.ret.ReturnsValue? ==> BraceFree(f.ret.declaration) && BraceFree(f.ret.expectationBody))
  }

  lemma FreeFive(a: string, b: string, c: string, d: string, e: string)
    ensures BraceFree(a + b + c + d + e) <==>
            BraceFree(a) && BraceFree(b) && BraceFree(c) && BraceFree(d) && BraceFree(e)
  {
    hide BraceFree;
    BraceFreeConcat(a, b);
    BraceFreeConcat(a + b, c);
    BraceFreeConcat(a + b + c, d);
    BraceFreeConcat(a + b + c + d, e);
  }

  lemma LettersAreFree(s: string)
    requires IsLetters(s)
    ensures BraceFree(s)
  {
    LettersHoldNoSign(s);
  }

  lemma PunctuationIsFree()
    ensures BraceFree("(") && BraceFree(")") && BraceFree("\"") && BraceFree(", ") && BraceFree("\", ") && BraceFree("")
    ensures BraceFree("__sizeof_") && BraceFree("sizeof(*") && BraceFree(")), ") && BraceFree(".getValue()")
  {
  }

  lemma CallFrontIsFree(k: ArgKind, mock: bool)
    requires IsBasicKind(k) && BraceFree(ExposedName(k))
    ensures BraceFree(CallFront(k, mock))
  {
    hide BraceFree, MethodName, IsLetters;
    MethodsAreLetters(k, mock);
    LettersAreFree(MethodName(k, mock));
    PunctuationIsFree();
    BraceFreeConcat("\"", ExposedName(k));
    BraceFreeConcat("\"" + ExposedName(k), "\"");
    BraceFreeConcat("\"" + ExposedName(k) + "\"", ", ");
    BraceFreeConcat(MethodName(k, mock), "(");
    BraceFreeConcat(MethodName(k, mock) + "(", TypeText(k));
  }

  lemma MiddleIsFree(k: ArgKind)
    ensures BraceFree(CallMiddle(k))
  {
    CastsAreFree();
    hide BraceFree;
    PunctuationIsFree();
    var a, b := "static_cast<const unsigned char *>", "static_cast<const void *>";
    BraceFreeConcat(a, "(");
    BraceFreeConcat(a + "(", b);
    BraceFreeConcat(a + "(" + b, "(");
  }

  lemma CastsAreFree()
    ensures BraceFree("static_cast<const unsigned char *>") && BraceFree("static_cast<const void *>")
  {
  }

  lemma SizeIsFree(a: Argument, getter: string)
    requires a.Standard? && ArgIsFree(a) && BraceFree(getter)
    ensures BraceFree(CallBack(a, false, getter))
  {
    hide BraceFree;
    PunctuationIsFree();
    BraceFreeConcat("__sizeof_", a.name);
    FreeSize(a.front, a.name, getter, a.back);
    FreeSize(a.front, a.name, "", a.back);
    var size := Arguments.SizeText(a, false, if a.kind.OutputArg? then "" else getter);
    assert BraceFree(size);
    BraceFreeConcat(", ", size);
    BraceFreeConcat(", " + size, ")");
    BraceFreeConcat(")), ", size);
    BraceFreeConcat(")), " + size, ")");
  }

  lemma FreeSize(front: string, name: string, getter: string, back: string)
    requires BraceFree(front) && BraceFree(name) && BraceFree(getter) && BraceFree(back)
    ensures BraceFree("sizeof(*" + front + name + getter + back + ")")
  {
    hide BraceFree;
    PunctuationIsFree();
    FreeFive("sizeof(*", front, name, getter, back);
    BraceFreeConcat("sizeof(*" + front + name + getter + back, ")");
  }

  lemma BodyCallIsFree(a: Argument, getter: string)
    requires a.Standard? && ArgIsFree(a) && BraceFree(getter)
    ensures BraceFree(ExpectationBodyCall(a, getter))
  {
    hide BraceFree, CallFront, CallMiddle, CallBack;
    CallFrontIsFree(a.kind, false);
    MiddleIsFree(a.kind);
    SizeIsFree(a, getter);
    PunctuationIsFree();
    var front, back := if a.useBaseType then "" else a.front, if a.useBaseType then "" else a.back;
    var head := CallFront(a.kind, false) + "\"" + a.name + "\", " + CallMiddle(a.kind);
    FreeFive(CallFront(a.kind, false), "\"", a.name, "\", ", CallMiddle(a.kind));
    FreeFive(head, front, a.name, getter, back);
    BraceFreeConcat(head + front + a.name + getter + back, CallBack(a, false, getter));
  }

  // ----- Each statement closes what it opens

  lemma FreeDepth(s: string, d: int)
    requires BraceFree(s)
    ensures Depth(s, d) == d
  {
    PlainDepth(s, d);
  }

  lemma OpenDepth(before: string, d: nat)
    requires BraceFree(before)
    ensures Depth(before + "{ ", d) == d + 1
  {
    PlainDepth(before, d);
    PlainDepth(" ", d + 1);
    OneBrace(d);
    hide Depth;
    assert "{ " == "{" + " ";
    DepthConcat("{", " ", d);
    DepthConcat(before, "{ ", d);
  }

  lemma CloseDepth(before: string, after: string, d: nat)
    requires BraceFree(before) && BraceFree(after)
    ensures Depth(before + "}" + after, d + 1) == d
  {
    PlainDepth(before, d + 1);
    PlainDepth(after, d);
    assert Depth("}", d + 1) == d by { assert "}"[1..] == ""; }
    hide Depth;
    DepthConcat(before, "}", d + 1);
    DepthConcat(before + "}", after, d + 1);
  }

  lemma StartsAreFree()
    ensures BraceFree("    if(!") && BraceFree("    if(") && BraceFree("    ") && BraceFree(".") && BraceFree(";\n")
    ensures BraceFree(CALL) && BraceFree(FLAG) && BraceFree("__object__")
  {
  }

  lemma GuardsAreFree()
    ensures BraceFree(".isIgnored()) ") && BraceFree(") ") && BraceFree("; ") && BraceFree("\n") &&
            BraceFree(".getValue())); ")
  {
  }

  lemma ElsesAreFree()
    ensures BraceFree(" = true; ") && BraceFree(" else ") && BraceFree(".ignoreOtherParameters(); ") && BraceFree("\n")
    ensures BraceFree("")
  {
  }

  lemma GuardTexts()
    ensures ".isIgnored()) " + "{ " == ".isIgnored()) { " && ") " + "{ " == ") { "
    ensures "; " + "}" + "\n" == "; }\n" && ".getValue())); " + "}" + "\n" == ".getValue())); }\n"
  {
  }

  lemma ElseTexts()
    ensures (" = true; " + "}" + " else ") + "{ " == " = true; } else { " && "" + "{ " == "{ "
    ensures ".ignoreOtherParameters(); " + "}" + "\n" == ".ignoreOtherParameters(); }\n"
  {
    assert " = true; " + "}" + " else " == " = true; } else ";
  }

  /** The fixed pieces of the statements. */
  lemma GuardDepths(d: nat)
    ensures Depth(".isIgnored()) { ", d) == d + 1 && Depth(") { ", d) == d + 1
    ensures Depth("; }\n", d + 1) == d && Depth(".getValue())); }\n", d + 1) == d
  {
    hide Depth, BraceFree;
    GuardsAreFree();
    GuardTexts();
    OpenDepth(".isIgnored()) ", d);
    OpenDepth(") ", d);
    CloseDepth("; ", "\n", d);
    CloseDepth(".getValue())); ", "\n", d);
  }

  lemma ElseDepths(d: nat)
    ensures Depth(" = true; } else { ", d + 1) == d + 1 && Depth(".ignoreOtherParameters(); }\n", d + 1) == d
  {
    hide Depth, BraceFree;
    ElsesAreFree();
    ElseTexts();
    CloseDepth(" = true; ", " else ", d);
    OpenDepth("", d);
    CloseDepth(".ignoreOtherParameters(); ", "\n", d);
    DepthConcat(" = true; " + "}" + " else ", "{ ", d + 1);
  }

  lemma PlainPieces(d: nat)
    ensures Depth("    if(!", d) == d && Depth("    if(", d) == d && Depth("    ", d) == d && Depth(".", d) == d
    ensures Depth(CALL, d) == d && Depth(FLAG, d) == d && Depth(";\n", d) == d && Depth("__object__", d) == d
  {
    hide Depth, BraceFree;
    StartsAreFree();
    FreeDepth("    if(!", d);
    FreeDepth("    if(", d);
    FreeDepth("    ", d);
    FreeDepth(".", d);
    FreeDepth(CALL, d);
    FreeDepth(FLAG, d);
    FreeDepth(";\n", d);
    FreeDepth("__object__", d);
  }

  lemma DepthFive(a: string, b: string, c: string, e: string, f: string, d: int)
    ensures Depth(a + b + c + e + f, d) == Depth(f, Depth(e, Depth(c, Depth(b, Depth(a, d)))))
  {
    hide Depth;
    DepthConcat(a, b, d);
    DepthConcat(a + b, c, d);
    DepthConcat(a + b + c, e, d);
    DepthConcat(a + b + c + e, f, d);
  }

  lemma RegistrationDepth(a: Argument, d: nat)
    requires a.Standard? && ArgIsFree(a)
    ensures Depth(Registration(a), d) == d
  {
    hide Depth, BraceFree, ExpectationBodyCall;
    PunctuationIsFree();
    BodyCallIsFree(a, "");
    FreeDepth(ExpectationBodyCall(a, ""), d);
    PlainPieces(d);
    DepthFive("    ", CALL, ".", ExpectationBodyCall(a, ""), ";\n", d);
  }

  lemma GuardedDepth(a: Argument, d: nat)
    requires a.Standard? && ArgIsFree(a)
    ensures Depth(RegistrationUnlessIgnored(a), d) == d && Depth(RegistrationOrFlag(a), d) == d
  {
    hide Depth, BraceFree, ExpectationBodyCall;
    PunctuationIsFree();
    var call := ExpectationBodyCall(a, ".getValue()");
    BodyCallIsFree(a, ".getValue()");
    FreeDepth(call, d + 1);
    FreeDepth(a.name, d);
    PlainPieces(d);
    PlainPieces(d + 1);
    GuardDepths(d);
    ElseDepths(d);
    DepthFive("    if(!", a.name, ".isIgnored()) { ", CALL, ".", d);
    DepthConcat("    if(!" + a.name + ".isIgnored()) { " + CALL + ".", call, d);
    DepthConcat("    if(!" + a.name + ".isIgnored()) { " + CALL + "." + call, "; }\n", d);
    var start := "    if(" + a.name + ".isIgnored()) { " + FLAG + " = true; } else { ";
    DepthFive("    if(", a.name, ".isIgnored()) { ", FLAG, " = true; } else { ", d);
    DepthFive(start, CALL, ".", call, "; }\n", d);
  }

  lemma OtherPiecesAreFree()
    ensures BraceFree("    bool ") && BraceFree(" = false;\n") && BraceFree("    return ") && BraceFree(";")
    ensures BraceFree("    MockExpectedCall& ") && BraceFree(" = mock().expectNCalls(") && BraceFree(", \"")
    ensures BraceFree("\");\n") && BraceFree("__numCalls__")
  {
    hide BraceFree;
    CallPiecesAreFree();
    FlagPiecesAreFree();
  }

  lemma CallPiecesAreFree()
    ensures BraceFree("    MockExpectedCall& ") && BraceFree(" = mock().expectNCalls(") && BraceFree("__numCalls__")
  {
  }

  lemma FlagPiecesAreFree()
    ensures BraceFree("    bool ") && BraceFree(" = false;\n") && BraceFree("    return ") && BraceFree(";")
    ensures BraceFree(", \"") && BraceFree("\");\n")
  {
  }

  lemma ObjectPiecesAreFree()
    ensures BraceFree(".onObject(") && BraceFree("const_cast") && BraceFree("<") && BraceFree("*>(")
    ensures BraceFree(".ignoreOtherParameters();\n")
  {
  }

  lemma StartDepths(s: Stmt, d: nat)
    requires s.DeclareFlag? || (s.DeclareCall? && BraceFree(s.functionName))
    ensures Depth(StmtText(s), d) == d
  {
    hide Depth, BraceFree;
    PlainPieces(d);
    OtherPiecesAreFree();
    if s.DeclareFlag? {
      FreeDepth("    bool ", d);
      FreeDepth(" = false;\n", d);
      DepthConcat("    bool ", FLAG, d);
      DepthConcat("    bool " + FLAG, " = false;\n", d);
    } else {
      var start := "    MockExpectedCall& " + CALL + " = mock().expectNCalls(" + "__numCalls__" + ", \"";
      FreeDepth("    MockExpectedCall& ", d);
      FreeDepth(" = mock().expectNCalls(", d);
      FreeDepth("__numCalls__", d);
      FreeDepth(", \"", d);
      FreeDepth(s.functionName, d);
      FreeDepth("\");\n", d);
      DepthFive("    MockExpectedCall& ", CALL, " = mock().expectNCalls(", "__numCalls__", ", \"", d);
      DepthConcat(start, s.functionName, d);
      DepthConcat(start + s.functionName, "\");\n", d);
    }
  }

  lemma ObjectDepth(className: string, d: nat)
    requires BraceFree(className)
    ensures Depth(StmtText(OnObject(className)), d) == d
  {
    hide Depth, BraceFree;
    PlainPieces(d);
    PlainPieces(d + 1);
    GuardDepths(d);
    ObjectPiecesAreFree();
    FreeDepth(".onObject(", d + 1);
    FreeDepth("const_cast", d + 1);
    FreeDepth("<", d + 1);
    FreeDepth("*>(", d + 1);
    FreeDepth(className, d + 1);
    var start := "    if(!" + "__object__" + ".isIgnored()) { " + CALL + ".onObject(";
    DepthFive("    if(!", "__object__", ".isIgnored()) { ", CALL, ".onObject(", d);
    DepthFive(start, "const_cast", "<", className, "*>(", d);
    DepthConcat(start + "const_cast" + "<" + className + "*>(", "__object__", d);
    DepthConcat(start + "const_cast" + "<" + className + "*>(" + "__object__", ".getValue())); }\n", d);
  }

  lemma EndDepths(s: Stmt, d: nat)
    requires s.IgnoreOthers? || s.IgnoreOthersIfFlagged? || s.ReturnCall?
    ensures Depth(StmtText(s), d) == d
  {
    hide Depth, BraceFree;
    PlainPieces(d);
    PlainPieces(d + 1);
    OtherPiecesAreFree();
    ObjectPiecesAreFree();
    GuardDepths(d);
    ElseDepths(d);
    match s
    case IgnoreOthers =>
      FreeDepth(".ignoreOtherParameters();\n", d);
      DepthConcat("    ", CALL, d);
      DepthConcat("    " + CALL, ".ignoreOtherParameters();\n", d);
    case IgnoreOthersIfFlagged =>
      DepthFive("    if(", FLAG, ") { ", CALL, ".ignoreOtherParameters(); }\n", d);
    case ReturnCall =>
      FreeDepth("    return ", d);
      FreeDepth(";", d);
      DepthConcat("    return ", CALL, d);
      DepthConcat("    return " + CALL, ";", d);
  }

  predicate StmtIsFree(s: Stmt) {
    match s
    case DeclareCall(name) => BraceFree(name)
    case OnObject(name) => BraceFree(name)
    case Register(a) => a.Standard? && ArgIsFree(a)
    case RegisterUnlessIgnored(a) => a.Standard? && ArgIsFree(a)
    case RegisterOrFlag(a) => a.Standard? && ArgIsFree(a)
    case AndReturn(text) => BraceFree(text)
    case _ => true
  }

  lemma StmtDepth(s: Stmt, d: nat)
    requires StmtIsFree(s)
    ensures Depth(StmtText(s), d) == d
  {
    hide Depth, BraceFree, Registration, RegistrationUnlessIgnored, RegistrationOrFlag, ArgIsFree;
    match s
    case DeclareFlag => StartDepths(s, d);
    case DeclareCall(_) => StartDepths(s, d);
    case OnObject(name) => ObjectDepth(name, d);
    case Register(a) => RegistrationDepth(a, d);
    case RegisterUnlessIgnored(a) => GuardedDepth(a, d);
    case RegisterOrFlag(a) => GuardedDepth(a, d);
    case AndReturn(text) => FreeDepth(text, d);
    case _ => EndDepths(s, d);
  }

  lemma {:induction false} BodyDepth(stmts: seq<Stmt>, d: nat)
    requires forall i :: 0 <= i < |stmts| ==> StmtIsFree(stmts[i])
    ensures Depth(Flatten(StmtTexts(stmts)), d) == d
    decreases |stmts|
  {
    hide Depth, StmtIsFree, StmtText;
    if stmts == [] {
      NoStmts();
      FreeDepth("", d);
    } else {
      var front, last := stmts[..|stmts| - 1], stmts[|stmts| - 1];
      assert stmts == front + [last];
      forall i | 0 <= i < |front| ensures StmtIsFree(front[i]) { assert front[i] == stmts[i]; }
      BodyDepth(front, d);
      AddStmt(front, last);
      StmtDepth(last, d);
      DepthConcat(Flatten(StmtTexts(front)), StmtText(last), d);
    }
  }

  lemma {:induction false} ArgStmtsAreFree(args: seq<Argument>, skips: bool)
    requires forall i :: 0 <= i < |args| ==> ArgIsFree(args[i])
    ensures forall i :: 0 <= i < |AllArgStmts(args, skips)| ==> StmtIsFree(AllArgStmts(args, skips)[i])
  {
    hide ArgIsFree;
    if args != [] { ArgStmtsAreFree(args[..|args| - 1], skips); }
  }

  lemma NCallBodyIsFree(f: Function)
    requires FunctionIsFree(f)
    ensures forall i :: 0 <= i < |NCallBody(f)| ==> StmtIsFree(NCallBody(f)[i])
  {
    hide BraceFree, ArgIsFree, AllArgStmts, f.Skips, f.Ignores;
    ArgStmtsAreFree(f.args, f.Skips());
    AllStmtsFree(StartStmts(f), AllArgStmts(f.args, f.Skips()));
    AllStmtsFree(StartStmts(f) + AllArgStmts(f.args, f.Skips()), ReturnStmts(f));
    AllStmtsFree(StartStmts(f) + AllArgStmts(f.args, f.Skips()) + ReturnStmts(f), EndStmts(f));
  }

  lemma AllStmtsFree(a: seq<Stmt>, b: seq<Stmt>)
    requires forall i :: 0 <= i < |a| ==> StmtIsFree(a[i])
    requires forall i :: 0 <= i < |b| ==> StmtIsFree(b[i])
    ensures forall i :: 0 <= i < |a + b| ==> StmtIsFree((a + b)[i])
  {
    hide StmtIsFree;
  }

  // ----- The overloads balance, and so does the whole

  lemma FreeThree(a: string, b: string, c: string)
    ensures BraceFree(a + b + c) <==> BraceFree(a) && BraceFree(b) && BraceFree(c)
  {
    hide BraceFree;
    BraceFreeConcat(a, b);
    BraceFreeConcat(a + b, c);
  }

  predicate ParamIsFree(p: Param) {
    BraceFree(p.declaration) && BraceFree(p.name) && BraceFree(p.deflt)
  }

  lemma TypeTextsAreFree()
    ensures BraceFree("CppUMockGen::Parameter<") && BraceFree("> ") && BraceFree(" ") && BraceFree("size_t ") &&
            BraceFree("&")
    ensures BraceFree("") && BraceFree("__sizeof_")
  {
  }

  lemma UsedTypeIsFree(a: Argument)
    requires Valid(a) && a.Standard? && ArgIsFree(a)
    ensures BraceFree(UsedType(a))
  {
    TypeTextsAreFree();
    if !a.useBaseType {
      var t := if a.isRValueRef then a.expectationType[..|a.expectationType| - 1] else a.expectationType;
      assert BraceFree(t);
      BraceFreeConcat(t, if a.byRef then "&" else "");
    }
  }

  lemma ArgParamsAreFree(a: Argument)
    requires Valid(a) && ArgIsFree(a)
    ensures forall i :: 0 <= i < |ArgParams(a)| ==> ParamIsFree(ArgParams(a)[i])
  {
    if a.Standard? {
      UsedTypeIsFree(a);
      hide UsedType, BraceFree;
      TypeTextsAreFree();
      FreeThree("CppUMockGen::Parameter<", UsedType(a), "> ");
      BraceFreeConcat(UsedType(a), " ");
      BraceFreeConcat("__sizeof_", a.name);
    }
  }

  lemma {:induction false} AllArgParamsAreFree(args: seq<Argument>)
    requires forall i :: 0 <= i < |args| ==> Valid(args[i]) && ArgIsFree(args[i])
    ensures forall i :: 0 <= i < |AllArgParams(args)| ==> ParamIsFree(AllArgParams(args)[i])
  {
    hide ArgParams, ParamIsFree, ArgIsFree;
    if args != [] {
      AllArgParamsAreFree(args[..|args| - 1]);
      ArgParamsAreFree(args[|args| - 1]);
    }
  }

  lemma ObjectTextsAreFree()
    ensures BraceFree("CppUMockGen::Parameter<const ") && BraceFree("*> ") && BraceFree("__object__")
    ensures BraceFree(" = ::CppUMockGen::IgnoreParameter::YES") && BraceFree("")
  {
    hide BraceFree;
    WrapperIsFree();
    DefaultIsFree();
    DefaultText();
    BraceFreeConcat(" = ::CppUMockGen::", "IgnoreParameter::YES");
  }

  lemma DefaultText()
    ensures " = ::CppUMockGen::" + "IgnoreParameter::YES" == " = ::CppUMockGen::IgnoreParameter::YES"
  {
  }

  lemma WrapperIsFree()
    ensures BraceFree("CppUMockGen::Parameter<const ") && BraceFree("*> ") && BraceFree("__object__")
  {
  }

  lemma DefaultIsFree()
    ensures BraceFree(" = ::CppUMockGen::") && BraceFree("IgnoreParameter::YES") && BraceFree("")
  {
  }

  lemma CountTextsAreFree()
    ensures BraceFree("unsigned int ") && BraceFree("__numCalls__") && BraceFree("") && BraceFree("__return__")
  {
  }

  lemma ParamsAreFree(f: Function, proto: bool, oneCall: bool)
    requires f.ValidArgs() && FunctionIsFree(f)
    ensures forall i :: 0 <= i < |Params(f, proto, oneCall)| ==> ParamIsFree(Params(f, proto, oneCall)[i])
  {
    hide AllArgParams, ArgIsFree, BraceFree;
    AllArgParamsAreFree(f.args);
    ObjectTextsAreFree();
    CountTextsAreFree();
    FreeThree("CppUMockGen::Parameter<const ", f.className, "*> ");
    AllParamsFree(CountParams(oneCall), ObjectParams(f, proto));
    AllParamsFree(CountParams(oneCall) + ObjectParams(f, proto), AllArgParams(f.args));
    AllParamsFree(CountParams(oneCall) + ObjectParams(f, proto) + AllArgParams(f.args), ReturnParams(f));
  }

  lemma AllParamsFree(a: seq<Param>, b: seq<Param>)
    requires forall i :: 0 <= i < |a| ==> ParamIsFree(a[i])
    requires forall i :: 0 <= i < |b| ==> ParamIsFree(b[i])
    ensures forall i :: 0 <= i < |a + b| ==> ParamIsFree((a + b)[i])
  {
    hide ParamIsFree;
  }

  lemma SignatureIsFree(functionName: string, ps: seq<Param>)
    requires BraceFree(functionName) && forall i :: 0 <= i < |ps| ==> ParamIsFree(ps[i])
    ensures BraceFree(SignatureStart(functionName, ps))
  {
    SignatureTextsAreFree();
    hide BraceFree, Join;
    forall i | 0 <= i < |ps| ensures BraceFree(Texts(ps)[i]) {
      assert ParamIsFree(ps[i]);
      FreeThree(ps[i].declaration, ps[i].name, ps[i].deflt);
    }
    JoinIsFree(Texts(ps), ", ");
    FreeThree("MockExpectedCall& ", functionName, "(");
    BraceFreeConcat("MockExpectedCall& " + functionName + "(", Join(Texts(ps), ", "));
  }

  lemma SignatureTextsAreFree()
    ensures BraceFree("MockExpectedCall& ") && BraceFree("(") && BraceFree(", ") && BraceFree("    return ") &&
            BraceFree("1")
    ensures BraceFree(");") && BraceFree(");\n")
  {
  }

  lemma ForwardIsFree(functionName: string, names: seq<string>)
    requires BraceFree(functionName) && forall i :: 0 <= i < |names| ==> BraceFree(names[i])
    ensures BraceFree(ForwardStart(functionName, names) + ");")
  {
    SignatureTextsAreFree();
    hide BraceFree, Join;
    assert forall i :: 0 <= i < |["1"] + names| ==> BraceFree((["1"] + names)[i]);
    JoinIsFree(["1"] + names, ", ");
    FreeThree("    return ", functionName, "(");
    BraceFreeConcat("    return " + functionName + "(", Join(["1"] + names, ", "));
    BraceFreeConcat(ForwardStart(functionName, names), ");");
  }

  /** Every overload, and every prototype, closes the braces it opens. */
  lemma OverloadBalances(f: Function, proto: bool, functionName: string, oneCall: bool, d: nat)
    requires f.ValidArgs() && FunctionIsFree(f) && BraceFree(functionName)
    ensures Depth(ExpectationText(f, proto, functionName, oneCall), d) == d
  {
    hide Depth, BraceFree, Params, SignatureStart, ForwardStart, NCallBody, Flatten, StmtTexts, FunctionIsFree,
         ParamIsFree, StmtIsFree, Names;
    var start := SignatureStart(functionName, Params(f, proto, oneCall));
    ParamsAreFree(f, proto, oneCall);
    SignatureIsFree(functionName, Params(f, proto, oneCall));
    FreeDepth(start, d);
    if proto {
      SignatureTextsAreFree();
      FreeDepth(");\n", d);
      DepthConcat(start, ");\n", d);
    } else {
      var body := BodyText(f, functionName, oneCall);
      if oneCall {
        ParamsAreFree(f, false, true);
        NamesAreFree(Params(f, false, true));
        ForwardIsFree(functionName, Names(Params(f, false, true)));
        FreeDepth(body, d + 1);
      } else {
        NCallBodyIsFree(f);
        BodyDepth(NCallBody(f), d + 1);
      }
      BlockDepth(body, d);
      DepthConcat(start, ")\n{\n" + body + "\n}\n", d);
    }
  }

  lemma NamesAreFree(ps: seq<Param>)
    requires forall i :: 0 <= i < |ps| ==> ParamIsFree(ps[i])
    ensures forall i :: 0 <= i < |Names(ps)| ==> BraceFree(Names(ps)[i])
  {
    hide BraceFree;
    forall i | 0 <= i < |ps| ensures BraceFree(Names(ps)[i]) { assert ParamIsFree(ps[i]); }
  }

  lemma BlockDepth(body: string, d: nat)
    requires Depth(body, d + 1) == d + 1
    ensures Depth(")\n{\n" + body + "\n}\n", d) == d
  {
    PlainDepth(")\n", d);
    PlainDepth("\n", d + 1);
    OneBrace(d);
    hide Depth;
    assert ")\n{\n" == (")\n" + "{") + "\n" && "\n}\n" == "\n" + "}\n";
    DepthConcat(")\n", "{", d);
    DepthConcat(")\n" + "{", "\n", d);
    DepthConcat(")\n{\n", body, d);
    DepthConcat("\n", "}\n", d + 1);
    DepthConcat(")\n{\n" + body, "\n}\n", d);
  }

  /** The whole generated text balances, whatever the function. */
  lemma ExpectationsBalance(f: Function, proto: bool)
    requires f.ValidArgs() && FunctionIsFree(f)
    ensures Depth(ExpectationsText(f, proto), 0) == 0
  {
    hide Depth, BraceFree, ExpectationText, FunctionIsFree, Opening, Closing, FunctionNameOf, Decomposition;
    var parts := Decomposition(f.name);
    var names, fn := parts[..|parts| - 1], FunctionNameOf(f, parts[|parts| - 1]);
    PartsAreFree(f);
    var n := |names| + 1;
    OverloadBalances(f, proto, fn, true, n);
    OverloadBalances(f, proto, fn, false, n);
    var one, many := ExpectationText(f, proto, fn, true), ExpectationText(f, proto, fn, false);
    DepthConcat(one, many, n);
    NamespacesBalance(names, one + many);
    Regroup(Opening(names), one, many);
  }

  lemma PartsAreFree(f: Function)
    requires FunctionIsFree(f)
    ensures var parts := Decomposition(f.name);
            && BraceFree(FunctionNameOf(f, parts[|parts| - 1]))
            && forall i :: 0 <= i < |parts| - 1 ==> '{' !in parts[i] && '}' !in parts[i]
  {
    hide ArgIsFree;
    var parts := Decomposition(f.name);
    FreeDecomposition(f.name);
    assert BraceFree("$ctor") && BraceFree("$dtor");
    var last := parts[|parts| - 1];
    assert BraceFree(last);
    BraceFreeConcat(last, "$ctor");
    if last != "" {
      assert BraceFree(last[1..]);
      BraceFreeConcat(last[1..], "$dtor");
    }
  }

  lemma {:induction false} FreeDecomposition(s: string)
    requires BraceFree(s)
    ensures forall i :: 0 <= i < |Decomposition(s)| ==> BraceFree(Decomposition(s)[i])
    decreases |s|
  {
    FirstPart(s);
    var found := FindWord(s, SEPARATOR, 0);
    if found.Some? {
      assert BraceFree(s[..found.value]) && BraceFree(s[found.value + 2..]);
      FreeDecomposition(s[found.value + 2..]);
    }
  }
}
