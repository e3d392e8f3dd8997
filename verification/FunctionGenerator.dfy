/** The mock and the expectations generated for a function
    (app/sources/Function.cpp, GenerateMock and both GenerateExpectation). */
module FunctionGenerator {
  import opened StringHelper
  import opened Overrides
  import opened Arguments
  import opened MockCalls
  import opened Namespaces
  import opened ReturnParser

  /** The return of a function; constructors and destructors have none. */
  datatype ReturnPart =
    | NoReturn
    | ReturnsVoid(originalType: string)
    | ReturnsValue(originalType: string, bodyFront: string, bodyBack: string, declaration: string,
      expectationBody: string)

  function PartOf(r: ReturnStandard): ReturnPart
    requires r.isRValueRef ==> r.originalType != ""
    reads r
  {
    ReturnsValue(r.originalType, r.MockBodyFront(), r.MockBodyBack(), r.ParamDeclaration(), r.ExpectationBody())
  }

  datatype NameKind = PlainName | ConstructorName | DestructorName

  datatype Function = Function(
    name: string,
    className: string,
    ret: ReturnPart,
    args: seq<Argument>,
    isConst: bool,
    isNonStatic: bool,
    exceptionSpec: string,
    nameKind: NameKind)
  {
    predicate Skips() {
      exists i :: 0 <= i < |args| && args[i].Skipped?
    }

    predicate Ignores() {
      exists i :: 0 <= i < |args| && CanBeIgnored(args[i])
    }

    /** What parsing guarantees: every argument has a name, and a type to strip a sign from. */
    ghost predicate ValidArgs() {
      forall i :: 0 <= i < |args| ==> Valid(args[i]) && args[i].name != ""
    }
  }

  // ----- The mock

  function MockSignatures(args: seq<Argument>): (ts: seq<string>)
    ensures |ts| == |args|
  {
    seq(|args|, i requires 0 <= i < |args| => MockSignature(args[i]))
  }

  function MockBodies(args: seq<Argument>): (ts: seq<string>)
    ensures |ts| == |args|
  {
    seq(|args|, i requires 0 <= i < |args| => MockBody(args[i]))
  }

  function MockHead(f: Function): string {
    (if f.ret.NoReturn? then "" else f.ret.originalType + " ") + f.name + "("
  }

  function MockTail(f: Function): string {
    ")" + (if f.isConst then " const" else "") + f.exceptionSpec
  }

  function MockCall(f: Function): string {
    (if f.ret.ReturnsValue? then f.ret.bodyFront else "") +
    ("mock().actualCall(\"" + f.name + "\")") + (if f.isNonStatic then ".onObject(this)" else "")
  }

  function MockText(f: Function): string {
    (MockHead(f) + Join(MockSignatures(f.args), ", ") + MockTail(f)) + "\n{\n    " +
    (MockCall(f) + Flatten(MockBodies(f.args)) + (if f.ret.ReturnsValue? then f.ret.bodyBack else "")) + ";\n}\n"
  }

  method GenerateMock(f: Function) returns (text: string)
    ensures text == if f.name == "" then "" else MockText(f)
  {
    if f.name == "" {
      return "";
    }
    hide MockSignature, MockBody, MockSignatures, MockBodies, Join, Flatten;
    var signature, body := "", "";
    if !f.ret.NoReturn? {
      signature := f.ret.originalType + " ";
      body := if f.ret.ReturnsValue? then f.ret.bodyFront else "";
    }
    signature := signature + f.name + "(";
    body := body + ("mock().actualCall(\"" + f.name + "\")");
    NothingAfter(body);
    if f.isNonStatic {
      body := body + ".onObject(this)";
    }
    ghost var head, call := signature, body;
    assert head == MockHead(f) && call == MockCall(f);
    StartMock(f.args, head, call);
    for i := 0 to |f.args|
      invariant signature == head + Join(MockSignatures(f.args[..i]), ", ")
      invariant body == call + Flatten(MockBodies(f.args[..i]))
    {
      ExtendMock(f.args, i, head, call);
      if i > 0 {
        signature := signature + ", ";
      }
      signature := signature + MockSignature(f.args[i]);
      body := body + MockBody(f.args[i]);
    }
    assert f.args[..|f.args|] == f.args;
    signature := signature + ")";
    if f.isConst {
      signature := signature + " const";
    }
    signature := signature + f.exceptionSpec;
    if f.ret.ReturnsValue? {
      body := body + f.ret.bodyBack;
    }
    SignatureTail(head + Join(MockSignatures(f.args), ", "), f);
    NothingAfter(MockCall(f) + Flatten(MockBodies(f.args)));
    text := signature + "\n{\n    " + body + ";\n}\n";
  }

  lemma NothingAfter(s: string)
    ensures s + "" == s
  {
  }

  lemma StartMock(args: seq<Argument>, head: string, call: string)
    ensures head + Join(MockSignatures(args[..0]), ", ") == head && call + Flatten(MockBodies(args[..0])) == call
  {
  }

  lemma SignatureTail(s: string, f: Function)
    ensures f.isConst ==> s + ")" + " const" + f.exceptionSpec == s + MockTail(f)
    ensures !f.isConst ==> s + ")" + f.exceptionSpec == s + MockTail(f)
  {
  }

  lemma ExtendMock(args: seq<Argument>, i: nat, head: string, call: string)
    requires i < |args|
    ensures head + Join(MockSignatures(args[..i + 1]), ", ") ==
            head + Join(MockSignatures(args[..i]), ", ") + (if i > 0 then ", " else "") + MockSignature(args[i])
    ensures call + Flatten(MockBodies(args[..i + 1])) == call + Flatten(MockBodies(args[..i])) + MockBody(args[i])
  {
    hide MockSignature, MockBody;
    assert args[..i + 1] == args[..i] + [args[i]];
    assert MockSignatures(args[..i + 1]) == MockSignatures(args[..i]) + [MockSignature(args[i])];
    JoinConcat(MockSignatures(args[..i]), [MockSignature(args[i])], ", ");
    assert MockBodies(args[..i + 1]) == MockBodies(args[..i]) + [MockBody(args[i])];
    FlattenAppend(MockBodies(args[..i]), MockBody(args[i]));
    Regroup(call, Flatten(MockBodies(args[..i])), MockBody(args[i]));
    if i == 0 {
      assert MockSignatures(args[..i]) == [];
      assert [] + [MockSignature(args[i])] == [MockSignature(args[i])];
      assert head + "" + "" == head;
    } else {
      RegroupPairs(head, Join(MockSignatures(args[..i]), ", "), ", ", MockSignature(args[i]));
    }
  }

  // ----- The parameters of an expectation function

  datatype Param = Param(declaration: string, name: string, deflt: string)

  function Texts(ps: seq<Param>): (ts: seq<string>)
    ensures |ts| == |ps|
  {
    seq(|ps|, i requires 0 <= i < |ps| => ps[i].declaration + ps[i].name + ps[i].deflt)
  }

  function Names(ps: seq<Param>): (ns: seq<string>)
    ensures |ns| == |ps|
    ensures forall i :: 0 <= i < |ps| ==> ns[i] == ps[i].name
  {
    seq(|ps|, i requires 0 <= i < |ps| => ps[i].name)
  }

  function ArgParams(a: Argument): seq<Param>
    requires Valid(a)
  {
    if a.Skipped? then []
    else
      [Param(if CanBeIgnored(a) then "CppUMockGen::Parameter<" + UsedType(a) + "> "
        else UsedType(a) + " ", a.name, "")] +
      if TakesSize(a) then [Param("size_t ", SizeName(a), "")] else []
  }

  function AllArgParams(args: seq<Argument>): seq<Param>
    requires forall i :: 0 <= i < |args| ==> Valid(args[i])
  {
    if args == [] then [] else AllArgParams(args[..|args| - 1]) + ArgParams(args[|args| - 1])
  }

  function ObjectParams(f: Function, proto: bool): seq<Param> {
    if f.isNonStatic then
      [Param("CppUMockGen::Parameter<const " + f.className + "*> ", "__object__",
             if proto && f.ret.NoReturn? then " = ::CppUMockGen::IgnoreParameter::YES" else "")]
    else []
  }

  function CountParams(oneCall: bool): seq<Param> {
    if oneCall then [] else [Param("unsigned int ", "__numCalls__", "")]
  }

  function ReturnParams(f: Function): seq<Param> {
    if f.ret.ReturnsValue? then [Param(f.ret.declaration, "__return__", "")] else []
  }

  function Params(f: Function, proto: bool, oneCall: bool): seq<Param>
    requires f.ValidArgs()
  {
    CountParams(oneCall) + ObjectParams(f, proto) + AllArgParams(f.args) + ReturnParams(f)
  }

  // ----- The statements of its body

  datatype Stmt =
    | DeclareFlag
    | DeclareCall(functionName: string)
    | OnObject(className: string)
    | Register(arg: Argument)
    | RegisterUnlessIgnored(arg: Argument)
    | RegisterOrFlag(arg: Argument)
    | AndReturn(text: string)
    | IgnoreOthers
    | IgnoreOthersIfFlagged
    | ReturnCall

  function StmtText(s: Stmt): string {
    match s
    case DeclareFlag => "    bool " + FLAG + " = false;\n"
    case DeclareCall(name) =>
      "    MockExpectedCall& " + CALL + " = mock().expectNCalls(" + "__numCalls__" + ", \"" + name + "\");\n"
    case OnObject(name) =>
      "    if(!" + "__object__" + ".isIgnored()) { " + CALL + ".onObject(" + "const_cast" + "<" + name + "*>(" +
      "__object__" + ".getValue())); }\n"
    case Register(a) => if a.Skipped? then "" else Registration(a)
    case RegisterUnlessIgnored(a) => if a.Skipped? then "" else RegistrationUnlessIgnored(a)
    case RegisterOrFlag(a) => if a.Skipped? then "" else RegistrationOrFlag(a)
    case AndReturn(text) => text
    case IgnoreOthers => "    " + CALL + ".ignoreOtherParameters();\n"
    case IgnoreOthersIfFlagged => "    if(" + FLAG + ") { " + CALL + ".ignoreOtherParameters(); }\n"
    case ReturnCall => "    return " + CALL + ";"
  }

  function StmtTexts(stmts: seq<Stmt>): (ts: seq<string>)
    ensures |ts| == |stmts|
    ensures forall i :: 0 <= i < |ts| ==> ts[i] == StmtText(stmts[i])
  {
    seq(|stmts|, i requires 0 <= i < |stmts| => StmtText(stmts[i]))
  }

  function ArgStmts(a: Argument, argumentsSkipped: bool): seq<Stmt> {
    if a.Skipped? then []
    else if CanBeIgnored(a) then [if argumentsSkipped then RegisterUnlessIgnored(a) else RegisterOrFlag(a)]
    else [Register(a)]
  }

  function AllArgStmts(args: seq<Argument>, argumentsSkipped: bool): seq<Stmt> {
    if args == [] then []
    else AllArgStmts(args[..|args| - 1], argumentsSkipped) + ArgStmts(args[|args| - 1], argumentsSkipped)
  }

  function StartStmts(f: Function): seq<Stmt> {
    (if !f.Skips() && f.Ignores() then [DeclareFlag] else []) + [DeclareCall(f.name)] +
    (if f.isNonStatic then [OnObject(f.className)] else [])
  }

  function ReturnStmts(f: Function): seq<Stmt> {
    if f.ret.ReturnsValue? then [AndReturn(f.ret.expectationBody)] else []
  }

  function EndStmts(f: Function): seq<Stmt> {
    (if f.Skips() then [IgnoreOthers] else if f.Ignores() then [IgnoreOthersIfFlagged] else []) + [ReturnCall]
  }

  function NCallBody(f: Function): seq<Stmt> {
    StartStmts(f) + AllArgStmts(f.args, f.Skips()) + ReturnStmts(f) + EndStmts(f)
  }

  // ----- What running the body does

  /** The call being expected: the names in scope, whether the flag is set, the function expected,
      on an object of which class if any, the parameters registered so far, whether others are ignored, and the
      statement that set the return value. */
  datatype Machine = Machine(
    scope: set<string>,
    flag: bool,
    expects: Option<string>,
    onObject: Option<string>,
    registered: seq<Parameter>,
    ignoresOthers: bool,
    returnText: Option<string>,
    returned: bool)

  function ArgNames(a: Argument): set<string> {
    {CALL, a.name} + if TakesSize(a) then {SizeName(a)} else {}
  }

  /** The names a statement mentions. */
  function Uses(s: Stmt): set<string> {
    match s
    case DeclareFlag => {}
    case DeclareCall(_) => {"__numCalls__"}
    case OnObject(_) => {CALL, "__object__"}
    case Register(a) => ArgNames(a)
    case RegisterUnlessIgnored(a) => ArgNames(a)
    case RegisterOrFlag(a) => ArgNames(a) + {FLAG}
    case AndReturn(_) => {CALL, "__return__"}
    case IgnoreOthers => {CALL}
    case IgnoreOthersIfFlagged => {CALL, FLAG}
    case ReturnCall => {CALL}
  }

  function WithParameter(m: Machine, a: Argument): Machine {
    if a.Standard? then m.(registered := m.registered + [ParameterOf(a)]) else m
  }

  function Effect(s: Stmt, ignored: set<string>, m: Machine): Machine {
    match s
    case DeclareFlag => m.(scope := m.scope + {FLAG}, flag := false)
    case DeclareCall(name) => m.(scope := m.scope + {CALL}, expects := Some(name))
    case OnObject(name) => if "__object__" in ignored then m else m.(onObject := Some(name))
    case Register(a) => WithParameter(m, a)
    case RegisterUnlessIgnored(a) => if a.name in ignored then m else WithParameter(m, a)
    case RegisterOrFlag(a) => if a.name in ignored then m.(flag := true) else WithParameter(m, a)
    case AndReturn(text) => m.(returnText := Some(text))
    case IgnoreOthers => m.(ignoresOthers := true)
    case IgnoreOthersIfFlagged => if m.flag then m.(ignoresOthers := true) else m
    case ReturnCall => m.(returned := true)
  }

  /** Runs the statements for a caller that ignores the parameters named in `ignored`; None as
      soon as a statement mentions a name that is not in scope. */
  function Exec(stmts: seq<Stmt>, ignored: set<string>, m: Machine): Option<Machine> {
    if stmts == [] then Some(m)
    else if Uses(stmts[0]) <= m.scope then Exec(stmts[1..], ignored, Effect(stmts[0], ignored, m))
    else None
  }

  /** The parameters the mock reports. */
  function Reported(args: seq<Argument>): seq<Parameter> {
    if args == [] then []
    else Reported(args[..|args| - 1]) + if args[|args| - 1].Standard? then [ParameterOf(args[|args| - 1])] else []
  }

  predicate IsIgnored(a: Argument, ignored: set<string>) {
    CanBeIgnored(a) && a.name in ignored
  }

  /** Those of them that the expectation registers. */
  function Expected(args: seq<Argument>, ignored: set<string>): seq<Parameter> {
    if args == [] then []
    else
      var a := args[|args| - 1];
      Expected(args[..|args| - 1], ignored) + if a.Standard? && !IsIgnored(a, ignored) then [ParameterOf(a)] else []
  }

  predicate SomeIgnored(args: seq<Argument>, ignored: set<string>) {
    exists i :: 0 <= i < |args| && IsIgnored(args[i], ignored)
  }

  lemma {:induction false} ExecConcat(a: seq<Stmt>, b: seq<Stmt>, ignored: set<string>, m: Machine)
    requires Exec(a, ignored, m).Some?
    ensures Exec(a + b, ignored, m) == Exec(b, ignored, Exec(a, ignored, m).value)
  {
    if a == [] {
      assert a + b == b;
    } else {
      assert (a + b)[0] == a[0] && (a + b)[1..] == a[1..] + b;
      ExecConcat(a[1..], b, ignored, Effect(a[0], ignored, m));
    }
  }

  lemma ExecOne(s: Stmt, ignored: set<string>, m: Machine)
    requires Uses(s) <= m.scope
    ensures Exec([s], ignored, m) == Some(Effect(s, ignored, m))
  {
    assert [s][1..] == [];
  }

  /** The names that the arguments' statements mention are those of their parameters. */
  ghost predicate ArgsInScope(args: seq<Argument>, skips: bool, scope: set<string>) {
    && CALL in scope
    && (forall i :: 0 <= i < |args| && args[i].Standard? ==> ArgNames(args[i]) <= scope)
    && ((exists i :: 0 <= i < |args| && CanBeIgnored(args[i])) && !skips ==> FLAG in scope)
  }

  lemma {:induction false} ArgStmtsRun(args: seq<Argument>, skips: bool, ignored: set<string>, m: Machine)
    requires ArgsInScope(args, skips, m.scope)
    ensures Exec(AllArgStmts(args, skips), ignored, m) ==
            Some(m.(registered := m.registered + Expected(args, ignored),
                    flag := m.flag || (!skips && SomeIgnored(args, ignored))))
  {
    if args == [] {
      assert m.registered + [] == m.registered;
    } else {
      var front, a := args[..|args| - 1], args[|args| - 1];
      assert forall i :: 0 <= i < |front| ==> front[i] == args[i];
      ArgStmtsRun(front, skips, ignored, m);
      ExecConcat(AllArgStmts(front, skips), ArgStmts(a, skips), ignored, m);
      OneArgRuns(args, skips, ignored, Exec(AllArgStmts(front, skips), ignored, m).value);
      SomeIgnoredStep(args, ignored);
      Regroup(m.registered, Expected(front, ignored),
              if a.Standard? && !IsIgnored(a, ignored) then [ParameterOf(a)] else []);
    }
  }

  lemma SomeIgnoredStep(args: seq<Argument>, ignored: set<string>)
    requires args != []
    ensures SomeIgnored(args, ignored) ==
            (SomeIgnored(args[..|args| - 1], ignored) || IsIgnored(args[|args| - 1], ignored))
  {
    var front := args[..|args| - 1];
    if SomeIgnored(front, ignored) {
      var i :| 0 <= i < |front| && IsIgnored(front[i], ignored);
      assert args[i] == front[i];
    }
    if SomeIgnored(args, ignored) && !IsIgnored(args[|args| - 1], ignored) {
      var i :| 0 <= i < |args| && IsIgnored(args[i], ignored);
      assert front[i] == args[i];
    }
  }

  lemma OneArgRuns(args: seq<Argument>, skips: bool, ignored: set<string>, m: Machine)
    requires args != [] && ArgsInScope(args, skips, m.scope)
    ensures var a := args[|args| - 1];
            Exec(ArgStmts(a, skips), ignored, m) ==
            Some(m.(registered := m.registered +
                                  (if a.Standard? && !IsIgnored(a, ignored) then [ParameterOf(a)] else []),
                    flag := m.flag || (!skips && IsIgnored(a, ignored))))
  {
    var a := args[|args| - 1];
    assert m.registered + [] == m.registered;
    if a.Standard? {
      assert ArgStmts(a, skips)[1..] == [];
      assert Uses(ArgStmts(a, skips)[0]) <= m.scope;
    }
  }

  function NameSet(ps: seq<Param>): set<string> {
    set i | 0 <= i < |ps| :: ps[i].name
  }

  lemma NameSetConcat(a: seq<Param>, b: seq<Param>)
    ensures NameSet(a + b) == NameSet(a) + NameSet(b)
  {
    var ab := a + b;
    forall n | n in NameSet(a) ensures n in NameSet(ab) {
      var i :| 0 <= i < |a| && a[i].name == n;
      assert ab[i].name == n;
    }
    forall n | n in NameSet(b) ensures n in NameSet(ab) {
      var i :| 0 <= i < |b| && b[i].name == n;
      assert ab[|a| + i].name == n;
    }
  }

  /** Every name an argument's statement mentions is declared by its parameters. */
  lemma {:induction false} ArgNamesAreParams(args: seq<Argument>, i: nat)
    requires (forall k :: 0 <= k < |args| ==> Valid(args[k])) && i < |args| && args[i].Standard?
    ensures ArgNames(args[i]) <= NameSet(AllArgParams(args)) + {CALL}
  {
    hide ArgNames, ArgParams, NameSet;
    var front, last := args[..|args| - 1], args[|args| - 1];
    NameSetConcat(AllArgParams(front), ArgParams(last));
    if i < |front| {
      assert front[i] == args[i];
      ArgNamesAreParams(front, i);
    } else {
      OwnNamesAreParams(last);
    }
  }

  lemma OwnNamesAreParams(a: Argument)
    requires Valid(a) && a.Standard?
    ensures ArgNames(a) <= NameSet(ArgParams(a)) + {CALL}
  {
    assert ArgParams(a)[0].name == a.name;
    if TakesSize(a) { assert ArgParams(a)[1].name == SizeName(a); }
  }

  /** The state in which the N-call expectation starts. */
  function Begin(f: Function): Machine
    requires f.ValidArgs()
  {
    Machine(NameSet(Params(f, false, false)), false, None, None, [], false, None, false)
  }

  lemma ParamsInScope(f: Function)
    requires f.ValidArgs()
    ensures var scope := Begin(f).scope;
            && "__numCalls__" in scope && (f.isNonStatic ==> "__object__" in scope)
            && (f.ret.ReturnsValue? ==> "__return__" in scope)
            && NameSet(AllArgParams(f.args)) <= scope
  {
    var c, o, a, r := CountParams(false), ObjectParams(f, false), AllArgParams(f.args), ReturnParams(f);
    NameSetConcat(c + o + a, r);
    NameSetConcat(c + o, a);
    NameSetConcat(c, o);
    assert c[0].name == "__numCalls__";
    if f.isNonStatic { assert o[0].name == "__object__"; }
    if f.ret.ReturnsValue? { assert r[0].name == "__return__"; }
  }

  /** The class of the object that is expected, unless it is ignored. */
  function ObjectOf(f: Function, ignored: set<string>): Option<string> {
    if f.isNonStatic && "__object__" !in ignored then Some(f.className) else None
  }

  lemma StartRuns(f: Function, ignored: set<string>, m: Machine)
    requires "__numCalls__" in m.scope && (f.isNonStatic ==> "__object__" in m.scope) && !m.flag && m.onObject == None
    ensures Exec(StartStmts(f), ignored, m) ==
            Some(m.(scope := m.scope + (if !f.Skips() && f.Ignores() then {FLAG} else {}) + {CALL},
                    expects := Some(f.name), onObject := ObjectOf(f, ignored)))
  {
    var a := if !f.Skips() && f.Ignores() then [DeclareFlag] else [];
    var b := [DeclareCall(f.name)];
    var c := if f.isNonStatic then [OnObject(f.className)] else [];
    assert Exec([], ignored, m) == Some(m);
    if a != [] { ExecOne(DeclareFlag, ignored, m); } else { assert m.scope + {} == m.scope; }
    var m1 := Exec(a, ignored, m).value;
    ExecConcat(a, b, ignored, m);
    ExecOne(DeclareCall(f.name), ignored, m1);
    var m2 := Exec(b, ignored, m1).value;
    ExecConcat(a + b, c, ignored, m);
    if c != [] { ExecOne(OnObject(f.className), ignored, m2); }
  }

  /** The statement with which the expectation sets the return value. */
  function SetsReturn(f: Function): Option<string> {
    if f.ret.ReturnsValue? then Some(f.ret.expectationBody) else None
  }

  lemma EndRuns(f: Function, ignored: set<string>, m: Machine)
    requires CALL in m.scope && (!f.Skips() && f.Ignores() ==> FLAG in m.scope) &&
             (f.ret.ReturnsValue? ==> "__return__" in m.scope)
    requires !m.ignoresOthers && m.returnText == None && !m.returned
    ensures Exec(ReturnStmts(f) + EndStmts(f), ignored, m) ==
            Some(m.(returnText := SetsReturn(f), ignoresOthers := f.Skips() || (f.Ignores() && m.flag),
                    returned := true))
  {
    var r := ReturnStmts(f);
    var e := if f.Skips() then [IgnoreOthers] else if f.Ignores() then [IgnoreOthersIfFlagged] else [];
    assert Exec([], ignored, m) == Some(m);
    if r != [] { ExecOne(r[0], ignored, m); assert r == [r[0]]; }
    var m1 := Exec(r, ignored, m).value;
    ExecConcat(r, EndStmts(f), ignored, m);
    if e != [] { ExecOne(e[0], ignored, m1); assert e == [e[0]]; } else { assert Exec(e, ignored, m1) == Some(m1); }
    var m2 := Exec(e, ignored, m1).value;
    ExecConcat(e, [ReturnCall], ignored, m1);
    ExecOne(ReturnCall, ignored, m2);
  }

  /** For every function and every choice of ignored parameters, the body of the N-call
      expectation mentions declared names only, expects the function by its name, registers exactly
      the reported parameters that are not ignored, and ignores others exactly if an argument is
      skipped or one is ignored. */
  lemma ExpectationRuns(f: Function, ignored: set<string>)
    requires f.ValidArgs()
    ensures var m := Exec(NCallBody(f), ignored, Begin(f));
            && m.Some? && m.value.returned && m.value.expects == Some(f.name)
            && m.value.registered == Expected(f.args, ignored)
            && m.value.ignoresOthers == (f.Skips() || SomeIgnored(f.args, ignored))
            && m.value.onObject == ObjectOf(f, ignored)
            && m.value.returnText == SetsReturn(f)
  {
    hide Params, Exec, AllArgStmts, StartStmts, EndStmts;
    var m := Begin(f);
    ParamsInScope(f);
    StartRuns(f, ignored, m);
    var m1 := Exec(StartStmts(f), ignored, m).value;
    forall i | 0 <= i < |f.args| && f.args[i].Standard? ensures ArgNames(f.args[i]) <= m1.scope {
      ArgNamesAreParams(f.args, i);
    }
    ArgStmtsRun(f.args, f.Skips(), ignored, m1);
    ExecConcat(StartStmts(f), AllArgStmts(f.args, f.Skips()), ignored, m);
    var m2 := Exec(AllArgStmts(f.args, f.Skips()), ignored, m1).value;
    assert [] + Expected(f.args, ignored) == Expected(f.args, ignored);
    EndRuns(f, ignored, m2);
    ExecConcat(StartStmts(f) + AllArgStmts(f.args, f.Skips()), ReturnStmts(f) + EndStmts(f), ignored, m);
    Regroup(StartStmts(f) + AllArgStmts(f.args, f.Skips()), ReturnStmts(f), EndStmts(f));
  }

  // ----- Mock and expectation agree

  /** `xs` is `ys` with some elements left out. */
  ghost predicate IsSublist<T>(xs: seq<T>, ys: seq<T>) {
    xs == [] ||
    (ys != [] &&
     (IsSublist(xs, ys[..|ys| - 1]) || (xs[|xs| - 1] == ys[|ys| - 1] && IsSublist(xs[..|xs| - 1], ys[..|ys| - 1]))))
  }

  lemma {:induction false} ExpectedIsSublist(args: seq<Argument>, ignored: set<string>)
    ensures IsSublist(Expected(args, ignored), Reported(args))
    ensures |Expected(args, ignored)| <= |Reported(args)|
    ensures |Expected(args, ignored)| == |Reported(args)| <==> !SomeIgnored(args, ignored)
    ensures !SomeIgnored(args, ignored) ==> Expected(args, ignored) == Reported(args)
  {
    if args != [] {
      var front, a := args[..|args| - 1], args[|args| - 1];
      ExpectedIsSublist(front, ignored);
      SomeIgnoredStep(args, ignored);
      var xs, ys := Expected(front, ignored), Reported(front);
      if a.Standard? {
        assert (ys + [ParameterOf(a)])[..|ys|] == ys;
        if IsIgnored(a, ignored) {
          assert Expected(args, ignored) == xs;
        } else {
          assert (xs + [ParameterOf(a)])[..|xs|] == xs;
        }
      } else {
        assert xs + [] == xs && ys + [] == ys;
      }
    }
  }

  lemma {:induction false} SublistMembers<T>(xs: seq<T>, ys: seq<T>)
    requires IsSublist(xs, ys)
    ensures multiset(xs) <= multiset(ys)
    decreases |ys|
  {
    if xs != [] {
      var front := ys[..|ys| - 1];
      assert ys == front + [ys[|ys| - 1]];
      if IsSublist(xs, front) {
        SublistMembers(xs, front);
      } else {
        assert xs == xs[..|xs| - 1] + [xs[|xs| - 1]];
        SublistMembers(xs[..|xs| - 1], front);
      }
    }
  }

  /** The call that a mock reports, and the one that an expectation describes. */
  datatype ActualCall = ActualCall(name: string, onObject: bool, parameters: seq<Parameter>)

  datatype ExpectedCall = ExpectedCall(name: string, onObject: bool, parameters: seq<Parameter>, ignoresOthers: bool)

  /** The rule of the mocking library: a call fulfils an expectation if it is to the expected function,
      on an object if one is expected, and reports each of the expected parameters, and no others
      unless they are ignored. */
  ghost predicate Fulfils(actual: ActualCall, expected: ExpectedCall) {
    var reported, registered := multiset(actual.parameters), multiset(expected.parameters);
    && actual.name == expected.name && (expected.onObject ==> actual.onObject)
    && registered <= reported && (expected.ignoresOthers || registered == reported)
  }

  function ReportedCall(f: Function): ActualCall {
    ActualCall(f.name, f.isNonStatic, Reported(f.args))
  }

  function ExpectedBy(m: Machine): ExpectedCall
    requires m.expects.Some?
  {
    ExpectedCall(m.expects.value, m.onObject.Some?, m.registered, m.ignoresOthers)
  }

  /** The call of the mock fulfils the expectation generated for the same function, whichever
      parameters the test ignores; what the expectation registers is an in-order sublist of what
      the mock reports, and whenever something is missing the others are ignored. */
  lemma MockFulfilsExpectation(f: Function, ignored: set<string>)
    requires f.ValidArgs()
    ensures var m := Exec(NCallBody(f), ignored, Begin(f));
            && m.Some? && m.value.expects.Some? && IsSublist(m.value.registered, Reported(f.args))
            && (|m.value.registered| < |Reported(f.args)| ==> m.value.ignoresOthers)
            && (!SomeIgnored(f.args, ignored) ==> m.value.registered == Reported(f.args))
            && Fulfils(ReportedCall(f), ExpectedBy(m.value))
  {
    hide Exec, NCallBody, IsSublist, Expected, Reported, SomeIgnored, f.Skips, Params;
    ExpectationRuns(f, ignored);
    ExpectedIsSublist(f.args, ignored);
    SublistMembers(Expected(f.args, ignored), Reported(f.args));
  }

  predicate IsReadable(a: Argument) {
    a.Standard? ==> IsBasicKind(a.kind) && NoQuote(ExposedName(a.kind)) && NoQuote(a.name)
  }

  // ----- The text of an expectation function

  function SignatureStart(functionName: string, ps: seq<Param>): string {
    ("MockExpectedCall& " + functionName + "(") + Join(Texts(ps), ", ")
  }

  function ForwardStart(functionName: string, names: seq<string>): string {
    ("    return " + functionName + "(") + Join(["1"] + names, ", ")
  }

  function BodyText(f: Function, functionName: string, oneCall: bool): string
    requires f.ValidArgs()
  {
    if oneCall then ForwardStart(functionName, Names(Params(f, false, true))) + ");"
    else Flatten(StmtTexts(NCallBody(f)))
  }

  function ExpectationText(f: Function, proto: bool, functionName: string, oneCall: bool): string
    requires f.ValidArgs()
  {
    SignatureStart(functionName, Params(f, proto, oneCall)) +
    if proto then ");\n" else ")\n{\n" + BodyText(f, functionName, oneCall) + "\n}\n"
  }

  lemma AddParams(functionName: string, ps: seq<Param>, more: seq<Param>)
    ensures SignatureStart(functionName, ps + more) ==
            if more == [] then SignatureStart(functionName, ps)
            else SignatureStart(functionName, ps) + (if ps == [] then "" else ", ") + Join(Texts(more), ", ")
  {
    hide Texts, Join;
    var head := "MockExpectedCall& " + functionName + "(";
    TextsConcat(ps, more);
    JoinConcat(Texts(ps), Texts(more), ", ");
    if more == [] {
      assert ps + [] == ps;
    } else {
      if ps == [] {
        assert ps + more == more;
        StartTexts(functionName);
        assert head + "" == head;
      } else {
        RegroupPairs(head, Join(Texts(ps), ", "), ", ", Join(Texts(more), ", "));
      }
    }
  }

  lemma TextsConcat(a: seq<Param>, b: seq<Param>)
    ensures Texts(a + b) == Texts(a) + Texts(b)
  {
  }

  lemma AddForward(functionName: string, names: seq<string>, more: seq<string>)
    ensures ForwardStart(functionName, names + more) ==
            if more == [] then ForwardStart(functionName, names)
            else ForwardStart(functionName, names) + (", " + Join(more, ", "))
  {
    hide Join;
    var head := "    return " + functionName + "(";
    assert ["1"] + (names + more) == (["1"] + names) + more;
    JoinConcat(["1"] + names, more, ", ");
    if more != [] {
      RegroupFourth(head, Join(["1"] + names, ", "), ", ", Join(more, ", "));
    }
  }

  lemma RegroupFourth<T>(a: seq<T>, b: seq<T>, c: seq<T>, d: seq<T>)
    ensures a + (b + c + d) == (a + b) + (c + d)
  {
  }

  lemma AddStmts(a: seq<Stmt>, b: seq<Stmt>)
    ensures Flatten(StmtTexts(a + b)) == Flatten(StmtTexts(a)) + Flatten(StmtTexts(b))
  {
    hide StmtText;
    assert StmtTexts(a + b) == StmtTexts(a) + StmtTexts(b);
    FlattenConcat(StmtTexts(a), StmtTexts(b));
  }

  lemma OneText(p: Param)
    ensures Join(Texts([p]), ", ") == p.declaration + p.name + p.deflt
  {
  }

  /** An argument's texts are those of its parameters, and empty only if it has none. */
  lemma ArgTexts(a: Argument)
    requires Valid(a) && a.name != ""
    ensures ExpectationSignature(a) == Join(Texts(ArgParams(a)), ", ")
    ensures ExpectationCallArgument(a) == Join(Names(ArgParams(a)), ", ")
    ensures ExpectationSignature(a) == "" <==> ArgParams(a) == []
    ensures ExpectationCallArgument(a) == "" <==> ArgParams(a) == []
  {
    hide UsedType;
    if a.Standard? {
      var p := ArgParams(a)[0];
      assert p.declaration + p.name + "" == p.declaration + p.name;
      if TakesSize(a) {
        var q := ArgParams(a)[1];
        assert Texts(ArgParams(a)) == [p.declaration + p.name + ""] + ["size_t " + SizeName(a) + ""];
        assert Join(["size_t " + SizeName(a) + ""], ", ") == "size_t " + SizeName(a);
        assert Names(ArgParams(a)) == [p.name] + [q.name];
        assert (p.declaration + p.name) + ", " + ("size_t " + SizeName(a)) ==
               p.declaration + p.name + (", " + "size_t " + SizeName(a));
        assert ", " + "size_t " == ", size_t ";
      } else {
        assert Texts(ArgParams(a)) == [p.declaration + p.name + ""];
        assert Names(ArgParams(a)) == [p.name];
        assert p.declaration + p.name + "" == p.declaration + p.name;
      }
      assert |ExpectationSignature(a)| >= |a.name| && |ExpectationCallArgument(a)| >= |a.name|;
    }
  }

  lemma ArgBody(a: Argument, argumentsSkipped: bool)
    ensures ExpectationBody(a, argumentsSkipped) == Flatten(StmtTexts(ArgStmts(a, argumentsSkipped)))
  {
    if a.Skipped? {
      NoStmts();
    } else {
      ArgStmtText(a, argumentsSkipped);
      hide *;
      OneStmt(ArgStmts(a, argumentsSkipped)[0]);
    }
  }

  lemma ArgStmtText(a: Argument, argumentsSkipped: bool)
    requires a.Standard?
    ensures |ArgStmts(a, argumentsSkipped)| == 1
    ensures ArgStmts(a, argumentsSkipped) == [ArgStmts(a, argumentsSkipped)[0]]
    ensures ExpectationBody(a, argumentsSkipped) == StmtText(ArgStmts(a, argumentsSkipped)[0])
  {
    hide Registration, RegistrationUnlessIgnored, RegistrationOrFlag;
  }

  lemma StartTexts(functionName: string)
    ensures SignatureStart(functionName, []) == "MockExpectedCall& " + functionName + "("
    ensures ForwardStart(functionName, []) == "    return " + functionName + "(1"
  {
    assert ["1"] + [] == ["1"];
    assert "    return " + functionName + "(" + "1" == "    return " + functionName + "(1";
    assert "MockExpectedCall& " + functionName + "(" + "" == "MockExpectedCall& " + functionName + "(";
  }

  method HasIgnorableArguments(f: Function) returns (r: bool)
    ensures r == f.Ignores()
    ensures r <==> exists i :: 0 <= i < |f.args| && CanBeIgnored(f.args[i])
  {
    for i := 0 to |f.args|
      invariant forall k :: 0 <= k < i ==> !CanBeIgnored(f.args[k])
    {
      if CanBeIgnored(f.args[i]) {
        return true;
      }
    }
    r := false;
  }

  method HasSkippedArguments(f: Function) returns (r: bool)
    ensures r == f.Skips()
    ensures r <==> exists i :: 0 <= i < |f.args| && f.args[i].Skipped?
  {
    for i := 0 to |f.args|
      invariant forall k :: 0 <= k < i ==> !f.args[k].Skipped?
    {
      if f.args[i].Skipped? {
        return true;
      }
    }
    r := false;
  }

  /** The initial part of the signature: the number of calls and the object. */
  method GenerateSignatureStart(f: Function, proto: bool, functionName: string, oneCall: bool)
    returns (ret: string, addSignatureSeparator: bool)
    ensures var ps := CountParams(oneCall) + ObjectParams(f, proto);
            ret == SignatureStart(functionName, ps) && addSignatureSeparator == (ps != [])
  {
    hide Join, Texts, SignatureStart, ForwardStart;
    StartTexts(functionName);
    addSignatureSeparator := false;
    ret := "MockExpectedCall& " + functionName + "(";
    AddParams(functionName, [], CountParams(oneCall));
    if !oneCall {
      OneText(CountParams(false)[0]);
      CountText(ret);
      ret := ret + "unsigned int __numCalls__";
      addSignatureSeparator := true;
    }
    assert [] + CountParams(oneCall) == CountParams(oneCall);
    AddParams(functionName, CountParams(oneCall), ObjectParams(f, proto));
    if f.isNonStatic {
      OneText(ObjectParams(f, proto)[0]);
      ghost var before := ret;
      if addSignatureSeparator {
        ret := ret + ", ";
      }
      ghost var separated := ret;
      ret := ret + ("CppUMockGen::Parameter<const " + f.className + "*> " + "__object__");
      if f.ret.NoReturn? && proto {
        ret := ret + " = ::CppUMockGen::IgnoreParameter::YES";
      }
      ObjectText(separated, f, proto);
      NothingAfter(before);
      addSignatureSeparator := true;
    }
  }

  lemma CountText(s: string)
    ensures s + "" + ("unsigned int " + "__numCalls__" + "") == s + "unsigned int __numCalls__"
  {
    NothingAfter(s);
    assert "unsigned int " + "__numCalls__" + "" == "unsigned int __numCalls__";
  }

  lemma ObjectText(s: string, f: Function, proto: bool)
    requires f.isNonStatic
    ensures var p := ObjectParams(f, proto)[0];
            s + (p.declaration + p.name + p.deflt) ==
            if f.ret.NoReturn? && proto
            then s + (p.declaration + "__object__") + " = ::CppUMockGen::IgnoreParameter::YES"
            else s + (p.declaration + "__object__")
  {
    var p := ObjectParams(f, proto)[0];
    Regroup(s, p.declaration + p.name, p.deflt);
    NothingAfter(s + (p.declaration + p.name));
  }

  /** The initial part of the body: the call being expected or forwarded to, and the object. */
  method GenerateBodyStart(f: Function, functionName: string, oneCall: bool, checkIgnoredArguments: bool)
      returns (body: string)
    requires checkIgnoredArguments == (!f.Skips() && f.Ignores())
    ensures body == if oneCall then ForwardStart(functionName, Names(ObjectParams(f, false)))
            else Flatten(StmtTexts(StartStmts(f)))
  {
    hide Join, ForwardStart, SignatureStart, Flatten, StmtTexts, StmtText, f.Skips, f.Ignores;
    body := "";
    if oneCall {
      StartTexts(functionName);
      body := body + ("    return " + functionName + "(1");
      assert body == ForwardStart(functionName, []);
      assert Names(ObjectParams(f, false)) == if f.isNonStatic then ["__object__"] else [];
      AddForward(functionName, [], ["__object__"]);
      OneName("__object__");
      assert [] + ["__object__"] == ["__object__"];
      if f.isNonStatic {
        body := body + (", " + "__object__");
      }
    } else {
      ghost var done: seq<Stmt> := [];
      NoStmts();
      if checkIgnoredArguments {
        AddStmt(done, DeclareFlag);
        body := body + StmtText(DeclareFlag);
        done := done + [DeclareFlag];
      }
      AddStmt(done, DeclareCall(f.name));
      body := body + StmtText(DeclareCall(f.name));
      done := done + [DeclareCall(f.name)];
      if f.isNonStatic {
        AddStmt(done, OnObject(f.className));
        body := body + StmtText(OnObject(f.className));
        done := done + [OnObject(f.className)];
      }
      assert done == StartStmts(f);
    }
  }

  lemma OneName(name: string)
    ensures Join([name], ", ") == name
  {
  }

  lemma NoStmts()
    ensures Flatten(StmtTexts([])) == ""
  {
  }

  lemma AddStmt(done: seq<Stmt>, s: Stmt)
    ensures Flatten(StmtTexts(done + [s])) == Flatten(StmtTexts(done)) + StmtText(s)
  {
    hide StmtText;
    AddStmts(done, [s]);
    assert StmtTexts([s]) == [StmtText(s)];
    NothingAfter(StmtText(s));
  }

  /** The arguments, in turn added to the signature and to the body. */
  method GenerateArguments(f: Function, proto: bool, functionName: string, oneCall: bool, argumentsSkipped: bool,
                           signatureStart: string, separatorNeeded: bool, bodyStart: string)
    returns (ret: string, addSignatureSeparator: bool, body: string)
    requires f.ValidArgs() && argumentsSkipped == f.Skips()
    requires var ps := CountParams(oneCall) + ObjectParams(f, proto);
             signatureStart == SignatureStart(functionName, ps) && separatorNeeded == (ps != [])
    requires !proto ==>
               bodyStart == if oneCall then ForwardStart(functionName, Names(ObjectParams(f, false)))
                            else Flatten(StmtTexts(StartStmts(f)))
    ensures var ps := CountParams(oneCall) + ObjectParams(f, proto) + AllArgParams(f.args);
            ret == SignatureStart(functionName, ps) && addSignatureSeparator == (ps != [])
    ensures proto ==> body == bodyStart
    ensures !proto ==>
              body == if oneCall
                      then ForwardStart(functionName, Names(ObjectParams(f, false)) + Names(AllArgParams(f.args)))
                      else Flatten(StmtTexts(StartStmts(f) + AllArgStmts(f.args, f.Skips())))
  {
    hide Join, ForwardStart, SignatureStart, Flatten, StmtTexts, Texts, Names, ArgParams, ArgStmts, ObjectParams,
         CountParams, StartStmts, ExpectationSignature, ExpectationCallArgument, ExpectationBody, f.Skips, f.Ignores;
    ret, addSignatureSeparator, body := signatureStart, separatorNeeded, bodyStart;
    ghost var ps, ns, ss := CountParams(oneCall) + ObjectParams(f, proto), Names(ObjectParams(f, false)), StartStmts(f);
    NoArguments(f.args, ps, ns, ss, f.Skips());
    for i := 0 to |f.args|
      invariant ret == SignatureStart(functionName, ps + AllArgParams(f.args[..i]))
      invariant addSignatureSeparator == (ps + AllArgParams(f.args[..i]) != [])
      invariant proto ==> body == bodyStart
      invariant !proto && oneCall ==> body == ForwardStart(functionName, ns + Names(AllArgParams(f.args[..i])))
      invariant !proto && !oneCall ==> body == Flatten(StmtTexts(ss + AllArgStmts(f.args[..i], f.Skips())))
    {
      var a := f.args[i];
      OneMoreArgument(f.args, i, ps, ns, ss, f.Skips());
      ArgTexts(a);
      AddParams(functionName, ps + AllArgParams(f.args[..i]), ArgParams(a));
      var argumentSignature := ExpectationSignature(a);
      if argumentSignature != "" {
        if addSignatureSeparator {
          ret := ret + ", ";
        } else {
          NothingAfter(ret);
        }
        ret := ret + argumentSignature;
        addSignatureSeparator := true;
      }
      if !proto {
        if oneCall {
          AddForward(functionName, ns + Names(AllArgParams(f.args[..i])), Names(ArgParams(a)));
          var callArgument := ExpectationCallArgument(a);
          if callArgument != "" {
            body := body + (", " + callArgument);
          }
        } else {
          ArgBody(a, argumentsSkipped);
          AddStmts(ss + AllArgStmts(f.args[..i], f.Skips()), ArgStmts(a, f.Skips()));
          body := body + ExpectationBody(a, argumentsSkipped);
        }
      }
    }
    assert f.args[..|f.args|] == f.args;
  }

  lemma NoArguments(args: seq<Argument>, ps: seq<Param>, ns: seq<string>, ss: seq<Stmt>, skips: bool)
    ensures ps + AllArgParams(args[..0]) == ps && ns + Names(AllArgParams(args[..0])) == ns &&
            ss + AllArgStmts(args[..0], skips) == ss
  {
  }

  lemma OneMoreArgument(args: seq<Argument>, i: nat, ps: seq<Param>, ns: seq<string>, ss: seq<Stmt>, skips: bool)
    requires (forall k :: 0 <= k < |args| ==> Valid(args[k])) && i < |args|
    ensures ps + AllArgParams(args[..i + 1]) == (ps + AllArgParams(args[..i])) + ArgParams(args[i])
    ensures ns + Names(AllArgParams(args[..i + 1])) == (ns + Names(AllArgParams(args[..i]))) + Names(ArgParams(args[i]))
    ensures ss + AllArgStmts(args[..i + 1], skips) == (ss + AllArgStmts(args[..i], skips)) + ArgStmts(args[i], skips)
    ensures Names(ArgParams(args[i])) == [] <==> ArgParams(args[i]) == []
  {
    hide ArgParams, ArgStmts;
    assert args[..i + 1][..i] == args[..i] && args[..i + 1][i] == args[i];
    Regroup(ps, AllArgParams(args[..i]), ArgParams(args[i]));
    assert Names(AllArgParams(args[..i]) + ArgParams(args[i])) ==
           Names(AllArgParams(args[..i])) + Names(ArgParams(args[i]));
    Regroup(ns, Names(AllArgParams(args[..i])), Names(ArgParams(args[i])));
    Regroup(ss, AllArgStmts(args[..i], skips), ArgStmts(args[i], skips));
  }

  /** The return part and the final part. */
  method GenerateEnd(f: Function, proto: bool, functionName: string, oneCall: bool, argumentsSkipped: bool,
                     checkIgnoredArguments: bool, signature: string, addSignatureSeparator: bool, bodySoFar: string)
    returns (text: string)
    requires f.ValidArgs() && argumentsSkipped == f.Skips() && checkIgnoredArguments == (!f.Skips() && f.Ignores())
    requires var ps := CountParams(oneCall) + ObjectParams(f, proto) + AllArgParams(f.args);
             signature == SignatureStart(functionName, ps) && addSignatureSeparator == (ps != [])
    requires !proto ==>
              bodySoFar == if oneCall
                           then ForwardStart(functionName, Names(ObjectParams(f, false)) + Names(AllArgParams(f.args)))
                           else Flatten(StmtTexts(StartStmts(f) + AllArgStmts(f.args, f.Skips())))
    ensures text == ExpectationText(f, proto, functionName, oneCall)
  {
    hide Join, ForwardStart, SignatureStart, Flatten, StmtTexts, Texts, Names, ObjectParams, CountParams,
         AllArgParams, AllArgStmts, StartStmts, f.Skips, f.Ignores;
    var ret, body := signature, bodySoFar;
    ghost var ps := CountParams(oneCall) + ObjectParams(f, proto) + AllArgParams(f.args);
    ghost var ns := Names(ObjectParams(f, false)) + Names(AllArgParams(f.args));
    ghost var ss := StartStmts(f) + AllArgStmts(f.args, f.Skips());
    AddParams(functionName, ps, ReturnParams(f));
    if f.ret.ReturnsValue? {
      ReturnTexts(f);
      var returnSignature := f.ret.declaration + "__return__";
      if addSignatureSeparator {
        ret := ret + ", ";
      } else {
        NothingAfter(ret);
      }
      ret := ret + returnSignature;
    }
    assert ret == SignatureStart(functionName, Params(f, proto, oneCall));
    if proto {
      text := ret + ");\n";
    } else {
      if oneCall {
        ForwardedNames(f);
        AddForward(functionName, ns, Names(ReturnParams(f)));
        if f.ret.ReturnsValue? {
          ReturnTexts(f);
          body := body + (", " + "__return__");
        }
        body := body + ");";
      } else {
        AddStmts(ss, ReturnStmts(f));
        if f.ret.ReturnsValue? {
          OneStmt(AndReturn(f.ret.expectationBody));
          body := body + f.ret.expectationBody;
        } else {
          NoStmts();
          NothingAfter(body);
        }
        body := GenerateTail(f, argumentsSkipped, checkIgnoredArguments, body, ss + ReturnStmts(f));
      }
      text := ret + (")\n{\n" + body + "\n}\n");
    }
  }

  method GenerateTail(f: Function, argumentsSkipped: bool, checkIgnoredArguments: bool, bodySoFar: string,
                      ghost ss: seq<Stmt>)
    returns (body: string)
    requires argumentsSkipped == f.Skips() && checkIgnoredArguments == (!f.Skips() && f.Ignores())
    requires bodySoFar == Flatten(StmtTexts(ss))
    ensures body == Flatten(StmtTexts(ss + EndStmts(f)))
  {
    hide Flatten, StmtTexts, StmtText, f.Skips, f.Ignores;
    body := bodySoFar;
    ghost var done: seq<Stmt> := [];
    assert ss + done == ss;
    if argumentsSkipped {
      AddStmt(ss, IgnoreOthers);
      body := body + StmtText(IgnoreOthers);
      done := [IgnoreOthers];
    } else if checkIgnoredArguments {
      AddStmt(ss, IgnoreOthersIfFlagged);
      body := body + StmtText(IgnoreOthersIfFlagged);
      done := [IgnoreOthersIfFlagged];
    }
    AddStmt(ss + done, ReturnCall);
    Regroup(ss, done, [ReturnCall]);
    body := body + StmtText(ReturnCall);
  }

  lemma ReturnTexts(f: Function)
    requires f.ret.ReturnsValue?
    ensures Join(Texts(ReturnParams(f)), ", ") == f.ret.declaration + "__return__"
    ensures Names(ReturnParams(f)) == ["__return__"] && Join(Names(ReturnParams(f)), ", ") == "__return__"
  {
    OneText(ReturnParams(f)[0]);
    NothingAfter(f.ret.declaration + "__return__");
  }

  lemma OneStmt(s: Stmt)
    ensures Flatten(StmtTexts([s])) == StmtText(s)
  {
    hide StmtText;
    assert StmtTexts([s]) == [StmtText(s)];
    NothingAfter(StmtText(s));
  }

  lemma ForwardedNames(f: Function)
    requires f.ValidArgs()
    ensures Names(Params(f, false, true)) ==
            Names(ObjectParams(f, false)) + Names(AllArgParams(f.args)) + Names(ReturnParams(f))
  {
    assert CountParams(true) == [];
    hide AllArgParams, ObjectParams, ReturnParams, CountParams, Names;
    var o, a, r := ObjectParams(f, false), AllArgParams(f.args), ReturnParams(f);
    assert [] + o == o;
    assert Params(f, false, true) == o + a + r;
    NamesConcat(o, a);
    NamesConcat(o + a, r);
  }

  lemma NamesConcat(a: seq<Param>, b: seq<Param>)
    ensures Names(a + b) == Names(a) + Names(b)
  {
  }

  /** One overload of the expectation function, or its prototype. */
  method GenerateExpectationFunction(f: Function, proto: bool, functionName: string, oneCall: bool)
      returns (text: string)
    requires f.ValidArgs()
    ensures text == ExpectationText(f, proto, functionName, oneCall)
  {
    hide *;
    var argumentsSkipped := HasSkippedArguments(f);
    var ignorable := HasIgnorableArguments(f);
    var checkIgnoredArguments := !argumentsSkipped && ignorable;
    var ret, addSignatureSeparator := GenerateSignatureStart(f, proto, functionName, oneCall);
    var body := "";
    if !proto {
      body := GenerateBodyStart(f, functionName, oneCall, checkIgnoredArguments);
    }
    ret, addSignatureSeparator, body :=
      GenerateArguments(f, proto, functionName, oneCall, argumentsSkipped, ret, addSignatureSeparator, body);
    text := GenerateEnd(f, proto, functionName, oneCall, argumentsSkipped, checkIgnoredArguments, ret,
      addSignatureSeparator, body);
  }

  // ----- The overloads fit together

  /** The one-call overload forwards 1 and then, in order, exactly the names of the remaining
      parameters of the N-call overload. */
  lemma OneCallForwardsAll(f: Function, functionName: string)
    requires f.ValidArgs()
    ensures Names(Params(f, false, false)) == ["__numCalls__"] + Names(Params(f, false, true))
    ensures Params(f, false, false)[1..] == Params(f, false, true)
    ensures BodyText(f, functionName, true) ==
            "    return " + functionName + "(" + Join(["1"] + Names(Params(f, false, false))[1..], ", ") + ");"
  {
    hide ObjectParams, AllArgParams, ReturnParams, Join;
    var rest := ObjectParams(f, false) + AllArgParams(f.args) + ReturnParams(f);
    assert Params(f, false, true) == rest;
    assert Params(f, false, false) == CountParams(false) + rest;
    assert Names(CountParams(false) + rest) == ["__numCalls__"] + Names(rest);
    assert Names(Params(f, false, false))[1..] == Names(rest);
  }

  /** Prototype and implementation declare the same parameters; only a destructor's prototype
      adds a default, and only to the object. */
  lemma PrototypeMatches(f: Function, oneCall: bool, i: nat)
    requires f.ValidArgs() && i < |Params(f, false, oneCall)|
    ensures |Params(f, true, oneCall)| == |Params(f, false, oneCall)|
    ensures var p, q := Params(f, true, oneCall)[i], Params(f, false, oneCall)[i];
            && p.declaration == q.declaration && p.name == q.name && q.deflt == ""
            && (p.deflt != "" <==> f.isNonStatic && f.ret.NoReturn? && i == |CountParams(oneCall)|)
  {
    hide ArgParams;
    var a, b := Params(f, true, oneCall), Params(f, false, oneCall);
    var n := |CountParams(oneCall)|;
    assert f.isNonStatic ==> a[n] == ObjectParams(f, true)[0] && b[n] == ObjectParams(f, false)[0];
    assert i < n ==> a[i] == CountParams(oneCall)[i] == b[i];
    var m := n + |ObjectParams(f, false)|;
    if i >= m {
      var tail := AllArgParams(f.args) + ReturnParams(f);
      assert a[i] == tail[i - m] && b[i] == tail[i - m];
      ArgParamsHaveNoDefault(f.args);
      assert i - m < |AllArgParams(f.args)| ==> tail[i - m] == AllArgParams(f.args)[i - m];
      assert i - m >= |AllArgParams(f.args)| ==> tail[i - m] == ReturnParams(f)[0];
    }
  }

  lemma {:induction false} ArgParamsHaveNoDefault(args: seq<Argument>)
    requires forall i :: 0 <= i < |args| ==> Valid(args[i])
    ensures forall i :: 0 <= i < |AllArgParams(args)| ==> AllArgParams(args)[i].deflt == ""
  {
    if args != [] { ArgParamsHaveNoDefault(args[..|args| - 1]); }
  }

  // ----- Namespaces

  function FunctionNameOf(f: Function, last: string): string {
    match f.nameKind
    case PlainName => last
    case ConstructorName => last + "$ctor"
    case DestructorName => (if last == "" then "" else last[1..]) + "$dtor"
  }

  function Openings(names: seq<string>): (ts: seq<string>)
    ensures |ts| == |names|
  {
    seq(|names|, i requires 0 <= i < |names| => " namespace " + names[i] + "$ {")
  }

  function Closings(n: nat): (ts: seq<string>)
    ensures |ts| == n
  {
    seq(n, i => "} ")
  }

  function Opening(names: seq<string>): string {
    "namespace expect {" + Flatten(Openings(names)) + "\n"
  }

  function Closing(n: nat): string {
    Flatten(Closings(n)) + "}\n"
  }

  function ExpectationsText(f: Function, proto: bool): string
    requires f.ValidArgs()
  {
    var parts := Decomposition(f.name);
    var names, fn := parts[..|parts| - 1], FunctionNameOf(f, parts[|parts| - 1]);
    Opening(names) + ExpectationText(f, proto, fn, true) + ExpectationText(f, proto, fn, false) + Closing(|names|)
  }

  /** Both overloads, inside the namespaces that mirror the function's own. */
  method GenerateExpectation(f: Function, proto: bool) returns (ret: string)
    requires f.ValidArgs()
    ensures ret == if f.name == "" then "" else ExpectationsText(f, proto)
  {
    if f.name == "" {
      return "";
    }
    hide Flatten, ExpectationText, Decomposition, FunctionNameOf;
    var namespaces := GetNamespaceDecomposition(f.name);
    var n := |namespaces| - 1;
    ret := "namespace expect {";
    NoPieces();
    NothingAfter(ret);
    assert Openings(namespaces[..0]) == [];
    for i := 0 to n
      invariant ret == "namespace expect {" + Flatten(Openings(namespaces[..i]))
    {
      OneMoreOpening(namespaces, i);
      Regroup("namespace expect {", Flatten(Openings(namespaces[..i])), " namespace " + namespaces[i] + "$ {");
      ret := ret + (" namespace " + namespaces[i] + "$ {");
    }
    ret := ret + "\n";
    var functionName := FunctionNameOf(f, namespaces[n]);
    var one := GenerateExpectationFunction(f, proto, functionName, true);
    var many := GenerateExpectationFunction(f, proto, functionName, false);
    ret := ret + one;
    ret := ret + many;
    ghost var before := ret;
    NothingAfter(before);
    assert Closings(0) == [];
    for i := 0 to n
      invariant ret == before + Flatten(Closings(i))
    {
      OneMoreClosing(i);
      Regroup(before, Flatten(Closings(i)), "} ");
      ret := ret + "} ";
    }
    Regroup(before, Flatten(Closings(n)), "}\n");
    ret := ret + "}\n";
  }

  lemma OneMoreOpening(names: seq<string>, i: nat)
    requires i < |names|
    ensures Flatten(Openings(names[..i + 1])) == Flatten(Openings(names[..i])) + (" namespace " + names[i] + "$ {")
  {
    assert Openings(names[..i + 1]) == Openings(names[..i]) + [" namespace " + names[i] + "$ {"];
    FlattenAppend(Openings(names[..i]), " namespace " + names[i] + "$ {");
  }

  lemma OneMoreClosing(i: nat)
    ensures Flatten(Closings(i + 1)) == Flatten(Closings(i)) + "} "
  {
    assert Closings(i + 1) == Closings(i) + ["} "];
    FlattenAppend(Closings(i), "} ");
  }

  lemma NoPieces()
    ensures Flatten([]) == ""
  {
  }
}
