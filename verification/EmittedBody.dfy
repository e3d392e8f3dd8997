/** Reading the whole body of an expectation function back, and running what is read
    (app/sources/Function.cpp, GenerateExpectation). */
module EmittedBody {
  import opened StringHelper
  import opened Overrides
  import opened Arguments
  import opened MockCalls
  import opened FunctionGenerator
  import opened Expressions
  import opened OutputFile
  import opened ReturnParser
  import opened StatementNames
  import opened EmittedText

  // ----- Reading a line

  /** What a line of the body does to the expected call. */
  datatype Action =
    | Expects(name: string)
    | ExpectsObject(guard: string, className: string)
    | SetsFlag(flag: bool)
    | Registers(p: Parameter)
    | RegistersUnlessIgnored(name: string, p: Parameter)
    | RegistersOrFlags(name: string, p: Parameter)
    | Ignores
    | IgnoresIfFlagged
    | Sets(value: string)
    | Other

  const EXPECTS := "    MockExpectedCall& " + CALL + " = mock().expectNCalls(" + "__numCalls__" + ", "
  const FLAG_IS := "    bool " + FLAG + " = "
  const ON_CALL := "    " + CALL + "."
  const GUARDED := ".isIgnored()) { " + CALL + "."
  const FLAGGED := ".isIgnored()) { " + FLAG + " = true; } else { " + CALL + "."

  function ReadOnCall(call: string): Action {
    if call == "ignoreOtherParameters();" then Ignores
    else if HasPrefix(call, "andReturnValue(") then (if |call| < 17 then Other else Sets(call[15..|call| - 2]))
    else match ReadParameter(call, false) { case None => Other case Some(p) => Registers(p) }
  }

  const ON_OBJECT := "onObject(const_cast<"

  /** The object itself is passed, cast to its class. */
  function ReadObject(name: string, cast: string): Action {
    var end := "*>(" + name + ".getValue())); }";
    if |end| <= |cast| && cast[|cast| - |end|..] == end then ExpectsObject(name, cast[..|cast| - |end|]) else Other
  }

  function ReadUnlessIgnored(name: string, call: string): Action {
    if HasPrefix(call, ON_OBJECT) then ReadObject(name, call[|ON_OBJECT|..])
    else match ReadParameter(call, false) { case None => Other case Some(p) => RegistersUnlessIgnored(name, p) }
  }

  function ReadGuarded(condition: string): Action {
    var dot := Find(condition, '.', 0);
    if !HasPrefix(condition[dot..], GUARDED) then Other
    else ReadUnlessIgnored(condition[..dot], condition[dot..][|GUARDED|..])
  }

  function ReadOrFlagged(name: string, call: string): Action {
    match ReadParameter(call, false) { case None => Other case Some(p) => RegistersOrFlags(name, p) }
  }

  function ReadFlagged(condition: string): Action {
    var dot := Find(condition, '.', 0);
    if condition == FLAG + ") { " + CALL + ".ignoreOtherParameters(); }" then IgnoresIfFlagged
    else if !HasPrefix(condition[dot..], FLAGGED) then Other
    else ReadOrFlagged(condition[..dot], condition[dot..][|FLAGGED|..])
  }

  function ReadExpects(name: string): Action {
    match ReadQuoted(name) { case None => Other case Some(n) => Expects(n.0) }
  }

  function ReadLine(line: string): Action {
    if HasPrefix(line, EXPECTS) then ReadExpects(line[|EXPECTS|..])
    else if HasPrefix(line, FLAG_IS) then SetsFlag(line[|FLAG_IS|..] == "true;")
    else if HasPrefix(line, ON_CALL) then ReadOnCall(line[|ON_CALL|..])
    else if HasPrefix(line, "    if(!") then ReadGuarded(line[8..])
    else if HasPrefix(line, "    if(") then ReadFlagged(line[7..])
    else Other
  }

  // ----- Running what is read

  /** What has been gathered for the expected call: the function, whether on an object, the
      parameters, whether others are ignored, and the value to return. */
  datatype Gathered = Gathered(flag: bool, expects: Option<string>, onObject: Option<string>,
                               registered: seq<Parameter>, ignoresOthers: bool, value: Option<string>) {
    function Call(): ExpectedCall
      requires expects.Some?
    {
      ExpectedCall(expects.value, onObject.Some?, registered, ignoresOthers)
    }
  }

  function RunLine(line: string, ignored: set<string>, g: Gathered): Gathered {
    match ReadLine(line)
    case Expects(name) => g.(expects := Some(name))
    case ExpectsObject(guard, className) => if guard in ignored then g else g.(onObject := Some(className))
    case SetsFlag(value) => g.(flag := value)
    case Registers(p) => g.(registered := g.registered + [p])
    case RegistersUnlessIgnored(name, p) => if name in ignored then g else g.(registered := g.registered + [p])
    case RegistersOrFlags(name, p) => if name in ignored then g.(flag := true) else g.(registered := g.registered + [p])
    case Ignores => g.(ignoresOthers := true)
    case IgnoresIfFlagged => if g.flag then g.(ignoresOthers := true) else g
    case Sets(value) => g.(value := Some(value))
    case Other => g
  }

  function RunLines(lines: seq<string>, ignored: set<string>, g: Gathered): Gathered {
    if lines == [] then g else RunLines(lines[1..], ignored, RunLine(lines[0], ignored, g))
  }

  /** Runs the text of a body, for a caller that ignores the parameters named in `ignored`. */
  function RunText(body: string, ignored: set<string>): Gathered {
    RunLines(Lines(body), ignored, Gathered(false, None, None, [], false, None))
  }

  // ----- The line of a statement

  function StmtLine(s: Stmt): string {
    match s
    case DeclareFlag => "    bool " + FLAG + " = false;"
    case DeclareCall(name) =>
      "    MockExpectedCall& " + CALL + " = mock().expectNCalls(" + "__numCalls__" + ", \"" + name + "\");"
    case OnObject(name) =>
      "    if(!" + "__object__" + ".isIgnored()) { " + CALL + ".onObject(" + "const_cast" + "<" + name + "*>(" +
      "__object__" + ".getValue())); }"
    case Register(a) => if a.Skipped? then "" else ON_CALL + ExpectationBodyCall(a, "") + ";"
    case RegisterUnlessIgnored(a) =>
      if a.Skipped? then "" else "    if(!" + a.name + GUARDED + ExpectationBodyCall(a, ".getValue()") + "; }"
    case RegisterOrFlag(a) =>
      if a.Skipped? then "" else "    if(" + a.name + FLAGGED + ExpectationBodyCall(a, ".getValue()") + "; }"
    case AndReturn(text) => if text == "" then "" else text[..|text| - 1]
    case IgnoreOthers => ON_CALL + "ignoreOtherParameters();"
    case IgnoreOthersIfFlagged => "    if(" + FLAG + ") { " + CALL + ".ignoreOtherParameters(); }"
    case ReturnCall => "    return " + CALL + ";"
  }

  lemma PrefixIsRead(prefix: string, rest: string)
    ensures HasPrefix(prefix + rest, prefix) && (prefix + rest)[|prefix|..] == rest
  {
  }

  /** Texts that differ where both go on do not share a prefix. */
  lemma NoPrefix(text: string, prefix: string, i: nat)
    requires i < |prefix| && (i >= |text| || text[i] != prefix[i])
    ensures !HasPrefix(text, prefix)
  {
    if |prefix| <= |text| { assert text[..|prefix|][i] == text[i]; }
  }

  lemma UpToDot(name: string, rest: string)
    requires '.' !in name && rest != "" && rest[0] == '.'
    ensures Find(name + rest, '.', 0) == |name| && (name + rest)[..|name|] == name && (name + rest)[|name|..] == rest
  {
    FoundAfter(name, '.', rest);
  }

  lemma ParametersBeginWithW(call: string)
    requires ReadParameter(call, false).Some?
    ensures call != "" && call[0] == 'w'
  {
    var open := Find(call, '(', 0);
    MethodsBeginWithW(call[..open], false);
    assert call[..open][0] == call[0];
  }

  // ----- How each statement is read

  /** The argument's call can be read and its name is a word. */
  ghost predicate IsLegibleArg(a: Argument) {
    a.Standard? && EndsItself(a) && IsWord(a.name)
  }

  lemma WordHoldsNoDot(name: string)
    requires IsWord(name)
    ensures '.' !in name && '!' !in name && name[0] != '!'
  {
  }

  lemma LinePrefixes()
    ensures |EXPECTS| > 5 && EXPECTS[4] == 'M' && |FLAG_IS| > 5 && FLAG_IS[4] == 'b'
    ensures |ON_CALL| == 21 && ON_CALL[4] == '_' && GUARDED != "" && GUARDED[0] == '.' && FLAGGED != "" &&
            FLAGGED[0] == '.'
    ensures '.' !in FLAG + ") { " && |FLAG + ") { "| == 25 && (FLAG + ") { ")[21] == ')'
  {
    assert |CALL| == 16;
    FourthStays("    MockExpectedCall& ", CALL, " = mock().expectNCalls(", "__numCalls__", ", ", "", "");
    FourthStays("    bool ", FLAG, " = ", "", "", "", "");
  }

  lemma RegisterIsRead(a: Argument)
    requires IsLegibleArg(a)
    ensures ReadLine(StmtLine(Register(a))) == Registers(ParameterOf(a))
  {
    hide ExpectationBodyCall, ReadParameter, EndsItself, HasPrefix;
    var call := ExpectationBodyCall(a, "") + ";";
    ExpectationCallIsRead(a, "", ";");
    ParametersBeginWithW(call);
    Regroup(ON_CALL, ExpectationBodyCall(a, ""), ";");
    OnCallLine(call);
    NoPrefix(call, "andReturnValue(", 0);
    assert call[0] == 'w' && "ignoreOtherParameters();"[0] == 'i';
  }

  lemma OnCallLine(call: string)
    ensures ReadLine(ON_CALL + call) == ReadOnCall(call)
  {
    hide HasPrefix, ReadOnCall;
    LinePrefixes();
    assert (ON_CALL + call)[4] == ON_CALL[4];
    NoPrefix(ON_CALL + call, EXPECTS, 4);
    NoPrefix(ON_CALL + call, FLAG_IS, 4);
    PrefixIsRead(ON_CALL, call);
  }

  /** A line that begins like this is none of the unguarded calls. */
  lemma ConditionLine(line: string)
    requires |line| >= 5 && line[4] == 'i'
    ensures !HasPrefix(line, ON_CALL) && !HasPrefix(line, EXPECTS) && !HasPrefix(line, FLAG_IS)
  {
    hide HasPrefix;
    LinePrefixes();
    NoPrefix(line, ON_CALL, 4);
    NoPrefix(line, EXPECTS, 4);
    NoPrefix(line, FLAG_IS, 4);
  }

  lemma GuardedIsRead(name: string, call: string)
    requires IsWord(name)
    ensures ReadLine("    if(!" + (name + (GUARDED + call))) == ReadUnlessIgnored(name, call)
  {
    hide ReadUnlessIgnored, HasPrefix, IsWord;
    var rest := name + (GUARDED + call);
    var line := "    if(!" + rest;
    assert line[4] == "    if(!"[4] == 'i';
    ConditionLine(line);
    PrefixIsRead("    if(!", rest);
    WordHoldsNoDot(name);
    LinePrefixes();
    FirstStays(GUARDED, call);
    UpToDot(name, GUARDED + call);
    PrefixIsRead(GUARDED, call);
  }

  lemma RegisterUnlessIgnoredIsRead(a: Argument)
    requires IsLegibleArg(a)
    ensures ReadLine(StmtLine(RegisterUnlessIgnored(a))) == RegistersUnlessIgnored(a.name, ParameterOf(a))
  {
    hide ExpectationBodyCall, ReadParameter, EndsItself, ReadLine, HasPrefix;
    var call := ExpectationBodyCall(a, ".getValue()");
    ExpectationCallIsRead(a, ".getValue()", "; }");
    ParametersBeginWithW(call + "; }");
    NoPrefix(call + "; }", ON_OBJECT, 0);
    GuardedIsRead(a.name, call + "; }");
    FourParts("    if(!", a.name, GUARDED, call, "; }");
  }

  lemma FourParts(a: string, b: string, c: string, d: string, e: string)
    ensures a + b + c + d + e == a + (b + (c + (d + e)))
  {
    Regroup(a + b + c, d, e);
    Regroup(a + b, c, d + e);
    Regroup(a, b, c + (d + e));
  }

  lemma NameIsNotFlag(name: string, rest: string)
    requires IsWord(name) && rest != "" && rest[0] == '.'
    ensures name + rest != FLAG + ") { " + CALL + ".ignoreOtherParameters(); }"
    ensures !HasPrefix(name + rest, FLAG + ") { ")
  {
    LinePrefixes();
    hide HasPrefix;
    var text := name + rest;
    assert text[|name|] == '.';
    if |name| < 25 {
      assert (FLAG + ") { ")[|name|] != '.';
      NoPrefix(text, FLAG + ") { ", |name|);
    } else {
      assert text[21] == name[21] && IsWordChar(name[21]);
      NoPrefix(text, FLAG + ") { ", 21);
    }
  }

  lemma RegisterOrFlagIsRead(a: Argument)
    requires IsLegibleArg(a)
    ensures ReadLine(StmtLine(RegisterOrFlag(a))) == RegistersOrFlags(a.name, ParameterOf(a))
  {
    hide ExpectationBodyCall, ReadParameter, EndsItself, ReadLine, HasPrefix;
    var call := ExpectationBodyCall(a, ".getValue()");
    ExpectationCallIsRead(a, ".getValue()", "; }");
    FlaggedIsRead(a.name, call + "; }");
    FourParts("    if(", a.name, FLAGGED, call, "; }");
  }

  lemma FlaggedIsRead(name: string, call: string)
    requires IsWord(name)
    ensures ReadLine("    if(" + (name + (FLAGGED + call))) == ReadOrFlagged(name, call)
  {
    hide ReadOrFlagged, HasPrefix, IsWord;
    var rest := name + (FLAGGED + call);
    var line := "    if(" + rest;
    assert line[4] == "    if("[4] == 'i';
    ConditionLine(line);
    WordHoldsNoDot(name);
    WordIsNotEmpty(name);
    assert line[7] == rest[0] == name[0] != '!';
    NoPrefix(line, "    if(!", 7);
    PrefixIsRead("    if(", rest);
    LinePrefixes();
    FirstStays(FLAGGED, call);
    UpToDot(name, FLAGGED + call);
    PrefixIsRead(FLAGGED, call);
    NameIsNotFlag(name, FLAGGED + call);
  }

  lemma WordIsNotEmpty(w: string)
    requires IsWord(w)
    ensures w != ""
  {
  }

  lemma OtherLine(line: string)
    requires |line| >= 5 && line[4] == 'r'
    ensures ReadLine(line) == Other
  {
    LinePrefixes();
    hide HasPrefix;
    NoPrefix(line, EXPECTS, 4);
    NoPrefix(line, FLAG_IS, 4);
    NoPrefix(line, ON_CALL, 4);
    NoPrefix(line, "    if(!", 4);
    NoPrefix(line, "    if(", 4);
  }

  lemma ReturnCallIsRead()
    ensures ReadLine(StmtLine(ReturnCall)) == Other
  {
    hide ReadLine;
    FourthStays("    return ", CALL, ";", "", "", "", "");
    OtherLine(StmtLine(ReturnCall));
  }

  lemma FlagIsRead()
    ensures ReadLine(StmtLine(DeclareFlag)) == SetsFlag(false)
  {
    hide HasPrefix;
    LinePrefixes();
    assert " = false;" == " = " + "false;";
    Regroup("    bool " + FLAG, " = ", "false;");
    var line := FLAG_IS + "false;";
    assert line[4] == FLAG_IS[4];
    NoPrefix(line, EXPECTS, 4);
    PrefixIsRead(FLAG_IS, "false;");
    assert "false;" != "true;";
  }

  /** The line that expects a function names it. */
  lemma ExpectsIsRead(name: string)
    requires NoQuote(name)
    ensures ReadLine(StmtLine(DeclareCall(name))) == Expects(name)
  {
    hide HasPrefix, ReadQuoted;
    var start := "    MockExpectedCall& " + CALL + " = mock().expectNCalls(" + "__numCalls__";
    assert ", \"" == ", " + "\"" && "\");" == "\"" + ");";
    Regroup(start, ", ", "\"");
    Regroup(EXPECTS, "\"", name);
    Regroup(EXPECTS, "\"" + name, "\"" + ");");
    Regroup("\"" + name, "\"", ");");
    assert StmtLine(DeclareCall(name)) == EXPECTS + (("\"" + name + "\"") + ");");
    PrefixIsRead(EXPECTS, ("\"" + name + "\"") + ");");
    QuotedIsRead(name, ");");
  }

  lemma FourthStays(a: string, b: string, c: string, d: string, e: string, f: string, g: string)
    requires |a| >= 5
    ensures |a + b + c| >= 5 && (a + b + c)[4] == a[4]
    ensures |a + b + c + d + e + f + g| >= 5 && (a + b + c + d + e + f + g)[4] == a[4]
  {
    OneStays(a, b);
    OneStays(a + b, c);
    OneStays(a + b + c, d);
    OneStays(a + b + c + d, e);
    OneStays(a + b + c + d + e, f);
    OneStays(a + b + c + d + e + f, g);
  }

  lemma OneStays(a: string, b: string)
    requires |a| >= 5
    ensures |a + b| >= 5 && (a + b)[4] == a[4]
  {
  }

  lemma ExpectedObjectIsRead(className: string)
    ensures ReadLine(StmtLine(OnObject(className))) == ExpectsObject("__object__", className)
  {
    hide ReadLine, ReadParameter, HasPrefix, ReadObject;
    var cast := className + ("*>(" + "__object__" + ".getValue())); }");
    FixedNamesAreWords();
    GuardedIsRead("__object__", ON_OBJECT + cast);
    PrefixIsRead(ON_OBJECT, cast);
    ObjectIsCast("__object__", className);
    ObjectLine(className);
  }

  lemma ObjectIsCast(name: string, className: string)
    ensures ReadObject(name, className + ("*>(" + name + ".getValue())); }")) == ExpectsObject(name, className)
  {
    var end := "*>(" + name + ".getValue())); }";
    var cast := className + end;
    assert cast[|cast| - |end|..] == end && cast[..|cast| - |end|] == className;
  }

  lemma ObjectLine(className: string)
    ensures StmtLine(OnObject(className)) ==
            "    if(!" +
            ("__object__" + (GUARDED + (ON_OBJECT + (className + ("*>(" + "__object__" + ".getValue())); }")))))
  {
    var start := "    if(!" + "__object__" + ".isIgnored()) { " + CALL + ".onObject(";
    var end := "*>(" + "__object__" + ".getValue())); }";
    SixParts(start, "const_cast", "<", className, "*>(", "__object__", ".getValue())); }");
    assert start == "    if(!" + ("__object__" + (GUARDED + "onObject(")) by { ObjectStart(); }
    CastParts(className, end);
    var tail := "const_cast" + "<" + className + "*>(" + "__object__" + ".getValue())); }";
    Regroup("    if(!", "__object__" + (GUARDED + "onObject("), tail);
    Regroup("__object__", GUARDED + "onObject(", tail);
    Regroup(GUARDED, "onObject(", tail);
    Regroup("const_cast" + "<" + className, "*>(", "__object__");
    Regroup("const_cast" + "<" + className, "*>(" + "__object__", ".getValue())); }");
  }

  lemma CastParts(className: string, end: string)
    ensures "onObject(" + (("const_cast" + "<" + className) + end) == ON_OBJECT + (className + end)
  {
    assert ON_OBJECT == "onObject(" + ("const_cast" + "<");
    Regroup("const_cast" + "<", className, end);
    Regroup("onObject(", "const_cast" + "<", className + end);
  }

  lemma SixParts(s: string, a: string, b: string, c: string, d: string, e: string, f: string)
    ensures s + a + b + c + d + e + f == s + (a + b + c + d + e + f)
  {
    Regroup(s, a, b);
    Regroup(s, a + b, c);
    Regroup(s, a + b + c, d);
    Regroup(s, a + b + c + d, e);
    Regroup(s, a + b + c + d + e, f);
  }

  lemma ObjectStart()
    ensures "    if(!" + "__object__" + ".isIgnored()) { " + CALL + ".onObject(" ==
            "    if(!" + ("__object__" + (GUARDED + "onObject("))
  {
    assert ".onObject(" == "." + "onObject(";
    Regroup("    if(!" + "__object__" + ".isIgnored()) { " + CALL, ".", "onObject(");
    Regroup("    if(!" + "__object__", ".isIgnored()) { ", CALL);
    Regroup("    if(!" + "__object__", ".isIgnored()) { " + CALL, ".");
    Regroup("    if(!" + "__object__", GUARDED, "onObject(");
    Regroup("    if(!", "__object__", GUARDED + "onObject(");
  }

  /** The text of the statement that sets a return value. */
  function SetText(value: string): string {
    (ON_CALL + ("andReturnValue(" + (value + ");"))) + "\n"
  }

  /** What such a statement sets. */
  function ValueIn(text: string): string {
    if |text| < 39 then "" else text[36..|text| - 3]
  }

  lemma ValueIsIn(value: string)
    ensures ValueIn(SetText(value)) == value
  {
    LinePrefixes();
    var text := SetText(value);
    Regroup(ON_CALL, "andReturnValue(", value + ");");
    assert text[..|text| - 1] == (ON_CALL + "andReturnValue(") + (value + ");");
    assert |ON_CALL + "andReturnValue("| == 36;
    assert text[36..|text| - 3] == (value + ");")[..|value|];
  }

  lemma SetIsRead(value: string)
    ensures ReadLine(ON_CALL + ("andReturnValue(" + (value + ");"))) == Sets(value)
  {
    hide ReadParameter, HasPrefix, ReadLine;
    var call := "andReturnValue(" + (value + ");");
    OnCallLine(call);
    assert call[0] == 'a' && "ignoreOtherParameters();"[0] == 'i';
    PrefixIsRead("andReturnValue(", value + ");");
    assert call[15..] == value + ");" && call[15..|call| - 2] == value;
  }

  lemma IgnoreIsRead()
    ensures ReadLine(StmtLine(IgnoreOthers)) == Ignores
  {
    hide HasPrefix, ReadLine;
    OnCallLine("ignoreOtherParameters();");
  }

  lemma IgnoreIfFlaggedIsRead()
    ensures ReadLine(StmtLine(IgnoreOthersIfFlagged)) == IgnoresIfFlagged
  {
    hide HasPrefix;
    var rest := FLAG + ") { " + CALL + ".ignoreOtherParameters(); }";
    var line := "    if(" + rest;
    Regroup("    if(", FLAG, ") { ");
    Regroup("    if(", FLAG + ") { ", CALL);
    Regroup("    if(", FLAG + ") { " + CALL, ".ignoreOtherParameters(); }");
    assert line[4] == 'i';
    ConditionLine(line);
    assert line[7] == FLAG[0] == '_';
    NoPrefix(line, "    if(!", 7);
    PrefixIsRead("    if(", rest);
  }

  /** A return that was built from a type ends the chain of the mock, and sets the return value in
      the expectation by a statement that can be read. */
  lemma BuiltReturnIsLegible(r: ReturnStandard)
    requires (r.isRValueRef ==> r.originalType != "") && IsReturnType(r.kind)
    ensures EndsChain(PartOf(r).bodyBack)
    ensures PartOf(r).expectationBody == SetText(RegisteredText(r))
  {
    hide CastOpening, Getter;
    assert r.MockBodyBack() == ("." + Getter(r.kind) + "()") + r.mockBack;
    var open, close := if r.needsCast then CastOpening(Base(r.kind)) else "", if r.needsCast then ")" else "";
    var start := "    __expectedCall__.andReturnValue(";
    ReturnStartText();
    ReturnStart();
    ReturnParts(start, open, r.expectFront, "__return__", r.expectBack, close);
    Regroup(RegisteredText(r), ");", "\n");
    Regroup(ON_CALL, "andReturnValue(", RegisteredText(r) + ");");
  }

  /** The value that is registered to be returned. */
  function RegisteredText(r: ReturnStandard): string
    reads r
  {
    (if r.needsCast then CastOpening(Base(r.kind)) else "") + r.expectFront + "__return__" + r.expectBack +
    (if r.needsCast then ")" else "")
  }

  lemma ReturnStart()
    ensures "    " + CALL + ".andReturnValue(" == ON_CALL + "andReturnValue("
  {
    assert ".andReturnValue(" == "." + "andReturnValue(";
    Regroup("    " + CALL, ".", "andReturnValue(");
  }

  lemma ReturnParts(s: string, a: string, b: string, c: string, d: string, e: string)
    ensures s + a + b + c + d + e + ");\n" == (s + ((a + b + c + d + e) + ");")) + "\n"
  {
    FlagParts(s, a, b, c, d, e);
    assert ");\n" == ");" + "\n";
    Regroup(s + (a + b + c + d + e), ");", "\n");
    Regroup(s, a + b + c + d + e, ");");
  }

  // ----- The lines of the body

  /** What can be read of a statement: it is one line, and its argument is legible. */
  ghost predicate IsLegibleStmt(s: Stmt) {
    && '\n' !in StmtLine(s)
    && match s
       case Register(a) => IsLegibleArg(a)
       case RegisterUnlessIgnored(a) => IsLegibleArg(a)
       case RegisterOrFlag(a) => IsLegibleArg(a)
       case DeclareCall(name) => NoQuote(name)
       case AndReturn(text) => exists value :: text == SetText(value)
       case _ => true
  }

  lemma EndOfLine(x: string, end: string, line: string)
    requires end == line + "\n"
    ensures x + end == (x + line) + "\n"
  {
    Regroup(x, line, "\n");
  }

  lemma ArgTextIsLine(s: Stmt)
    requires s.Register? || s.RegisterUnlessIgnored? || s.RegisterOrFlag?
    requires s.arg.Standard?
    ensures StmtText(s) == StmtLine(s) + "\n"
  {
    hide ExpectationBodyCall;
    var a := s.arg;
    var call := ExpectationBodyCall(a, ".getValue()");
    match s
    case Register(_) =>
      EndOfLine(ON_CALL + ExpectationBodyCall(a, ""), ";\n", ";");
    case RegisterUnlessIgnored(_) =>
      var x := "    if(!" + a.name;
      GuardParts(x, ".isIgnored()) { ", CALL, ".");
      EndOfLine(x + GUARDED + call, "; }\n", "; }");
    case RegisterOrFlag(_) =>
      var x := "    if(" + a.name;
      FlagParts(x, ".isIgnored()) { ", FLAG, " = true; } else { ", CALL, ".");
      EndOfLine(x + FLAGGED + call, "; }\n", "; }");
  }

  lemma GuardParts(x: string, a: string, b: string, c: string)
    ensures x + a + b + c == x + (a + b + c)
  {
    Regroup(x, a, b);
    Regroup(x, a + b, c);
  }

  lemma FlagParts(x: string, a: string, b: string, c: string, d: string, e: string)
    ensures x + a + b + c + d + e == x + (a + b + c + d + e)
  {
    Regroup(x, a, b);
    Regroup(x, a + b, c);
    Regroup(x, a + b + c, d);
    Regroup(x, a + b + c + d, e);
  }

  lemma OtherTextIsLine(s: Stmt)
    requires s.DeclareFlag? || s.DeclareCall? || s.OnObject? || s.IgnoreOthers? || s.IgnoreOthersIfFlagged?
    ensures StmtText(s) == StmtLine(s) + "\n"
  {
    match s
    case DeclareFlag => EndOfLine("    bool " + FLAG, " = false;\n", " = false;");
    case DeclareCall(name) =>
      EndOfLine("    MockExpectedCall& " + CALL + " = mock().expectNCalls(" + "__numCalls__" + ", \"" + name,
                "\");\n", "\");");
    case OnObject(name) =>
      EndOfLine("    if(!" + "__object__" + ".isIgnored()) { " + CALL + ".onObject(" + "const_cast" + "<" + name +
        "*>(" + "__object__",
                ".getValue())); }\n", ".getValue())); }");
    case IgnoreOthers => IgnoreText();
    case IgnoreOthersIfFlagged =>
      EndOfLine("    if(" + FLAG + ") { " + CALL, ".ignoreOtherParameters(); }\n", ".ignoreOtherParameters(); }");
  }

  lemma IgnoreText()
    ensures "    " + CALL + ".ignoreOtherParameters();\n" == ON_CALL + "ignoreOtherParameters();" + "\n"
  {
    assert ".ignoreOtherParameters();\n" == "." + ("ignoreOtherParameters();" + "\n");
    Regroup("    " + CALL, ".", "ignoreOtherParameters();" + "\n");
    Regroup(ON_CALL, "ignoreOtherParameters();", "\n");
  }

  lemma TextIsLine(s: Stmt)
    requires IsLegibleStmt(s) && !s.ReturnCall?
    ensures StmtText(s) == StmtLine(s) + "\n"
  {
    hide EndsItself, Registration, RegistrationUnlessIgnored, RegistrationOrFlag;
    match s
    case AndReturn(text) => var value :| text == SetText(value);
    case Register(_) => ArgTextIsLine(s);
    case RegisterUnlessIgnored(_) => ArgTextIsLine(s);
    case RegisterOrFlag(_) => ArgTextIsLine(s);
    case _ => OtherTextIsLine(s);
  }

  function StmtLines(stmts: seq<Stmt>): (lines: seq<string>)
    ensures |lines| == |stmts|
  {
    if stmts == [] then [] else [StmtLine(stmts[0])] + StmtLines(stmts[1..])
  }

  lemma {:induction false} LinesOfBody(stmts: seq<Stmt>, last: string)
    requires forall i :: 0 <= i < |stmts| ==> IsLegibleStmt(stmts[i]) && !stmts[i].ReturnCall?
    requires last != "" && '\n' !in last
    ensures Lines(Flatten(StmtTexts(stmts)) + last) == StmtLines(stmts) + [last]
  {
    hide IsLegibleStmt, Lines, StmtText, StmtLine;
    if stmts == [] {
      LastLine(last);
    } else {
      TextIsLine(stmts[0]);
      LinesOfBody(stmts[1..], last);
      assert StmtTexts(stmts)[0] == StmtText(stmts[0]) && StmtTexts(stmts)[1..] == StmtTexts(stmts[1..]);
      assert OneLine(StmtLine(stmts[0])) by { LegibleIsOneLine(stmts[0]); }
      Regroup(StmtText(stmts[0]), Flatten(StmtTexts(stmts[1..])), last);
      LinesCons(StmtLine(stmts[0]), Flatten(StmtTexts(stmts[1..])) + last);
      Regroup([StmtLine(stmts[0])], StmtLines(stmts[1..]), [last]);
    }
  }

  lemma LegibleIsOneLine(s: Stmt)
    requires IsLegibleStmt(s)
    ensures OneLine(StmtLine(s))
  {
  }

  lemma LastLine(last: string)
    requires last != "" && '\n' !in last
    ensures Lines(Flatten(StmtTexts([])) + last) == StmtLines([]) + [last]
  {
    assert Flatten(StmtTexts([])) + last == last;
  }

  // ----- Running the text is running the statements

  function GatheredBy(m: Machine): Gathered {
    Gathered(m.flag, m.expects, m.onObject, m.registered, m.ignoresOthers,
             match m.returnText case None => None case Some(text) => Some(ValueIn(text)))
  }

  lemma LineSimulates(s: Stmt, ignored: set<string>, m: Machine)
    requires IsLegibleStmt(s)
    ensures RunLine(StmtLine(s), ignored, GatheredBy(m)) == GatheredBy(Effect(s, ignored, m))
  {
    hide ReadLine, StmtLine, EndsItself, ValueIn;
    match s
    case DeclareCall(name) => ExpectsIsRead(name);
    case Register(a) => RegisterIsRead(a);
    case RegisterUnlessIgnored(a) => RegisterUnlessIgnoredIsRead(a);
    case RegisterOrFlag(a) => RegisterOrFlagIsRead(a);
    case OnObject(name) => ExpectedObjectIsRead(name);
    case AndReturn(text) =>
      var value :| text == SetText(value);
      SetIsRead(value);
      ValueIsIn(value);
      ReturnLine(text, ON_CALL + ("andReturnValue(" + (value + ");")));
    case IgnoreOthers => IgnoreIsRead();
    case IgnoreOthersIfFlagged => IgnoreIfFlaggedIsRead();
    case DeclareFlag => FlagIsRead();
    case ReturnCall => ReturnCallIsRead();
  }

  lemma ReturnLine(text: string, line: string)
    requires text == line + "\n"
    ensures StmtLine(AndReturn(text)) == line
  {
    assert text[..|text| - 1] == line;
  }

  lemma {:induction false} RunSimulates(stmts: seq<Stmt>, ignored: set<string>, m: Machine)
    requires (forall i :: 0 <= i < |stmts| ==> IsLegibleStmt(stmts[i])) && Exec(stmts, ignored, m).Some?
    ensures RunLines(StmtLines(stmts), ignored, GatheredBy(m)) == GatheredBy(Exec(stmts, ignored, m).value)
  {
    hide IsLegibleStmt, RunLine, StmtLine, Uses, Effect, GatheredBy;
    if stmts != [] {
      LineSimulates(stmts[0], ignored, m);
      RunSimulates(stmts[1..], ignored, Effect(stmts[0], ignored, m));
      assert StmtLines(stmts)[1..] == StmtLines(stmts[1..]);
    }
  }

  // ----- The whole text

  /** All but the last statement of an N-call body. */
  function AllButReturn(f: Function): seq<Stmt> {
    StartStmts(f) + AllArgStmts(f.args, f.Skips()) + ReturnStmts(f) + EndStmts(f)[..|EndStmts(f)| - 1]
  }

  lemma BodyEndsInReturn(f: Function)
    ensures NCallBody(f) == AllButReturn(f) + [ReturnCall]
  {
    hide AllArgStmts, f.Skips, f.Ignores;
    var e := EndStmts(f);
    assert e == e[..|e| - 1] + [ReturnCall];
    Regroup(StartStmts(f) + AllArgStmts(f.args, f.Skips()) + ReturnStmts(f), e[..|e| - 1], [ReturnCall]);
  }

  lemma {:induction false} ArgStmtsKinds(args: seq<Argument>, skips: bool)
    ensures forall i :: 0 <= i < |AllArgStmts(args, skips)| ==>
                          var s := AllArgStmts(args, skips)[i];
                          s.Register? || s.RegisterUnlessIgnored? || s.RegisterOrFlag?
  {
    if args != [] { ArgStmtsKinds(args[..|args| - 1], skips); }
  }

  lemma BodyKinds(f: Function)
    ensures forall i :: 0 <= i < |AllButReturn(f)| ==> !AllButReturn(f)[i].ReturnCall?
  {
    hide AllArgStmts, f.Skips, f.Ignores;
    ArgStmtsKinds(f.args, f.Skips());
    var a, b, c := StartStmts(f), AllArgStmts(f.args, f.Skips()), ReturnStmts(f);
    assert forall i :: 0 <= i < |a| ==> !a[i].ReturnCall?;
  }

  /** What makes the body of a function's expectation legible. */
  ghost predicate IsLegibleBody(f: Function) {
    forall i :: 0 <= i < |NCallBody(f)| ==> IsLegibleStmt(NCallBody(f)[i])
  }

  /** The value that the expectation is to return, as it is written. */
  function ValueSet(f: Function): Option<string> {
    if f.ret.ReturnsValue? then Some(ValueIn(f.ret.expectationBody)) else None
  }

  /** Running the emitted text of an N-call expectation, line by line as it is read, expects the
      function by its name and on its object unless that is ignored, registers exactly the
      parameters that are not ignored, ignores others exactly if something is skipped or ignored,
      and sets the return value. */
  lemma TextsAgree(f: Function, functionName: string, ignored: set<string>)
    requires f.ValidArgs() && IsLegibleBody(f)
    ensures var g := RunText(BodyText(f, functionName, false), ignored);
            && g.expects == Some(f.name) && g.onObject == ObjectOf(f, ignored)
            && g.registered == Expected(f.args, ignored)
            && g.ignoresOthers == (f.Skips() || SomeIgnored(f.args, ignored))
            && g.value == ValueSet(f)
  {
    hide Exec, NCallBody, AllButReturn, IsLegibleStmt, StmtTexts, Flatten, Lines, StmtText, StmtLines, RunLines,
         ValueIn;
    BodyEndsInReturn(f);
    BodyKinds(f);
    var init, last := AllButReturn(f), "    return " + CALL + ";";
    forall i | 0 <= i < |init| ensures IsLegibleStmt(init[i]) { assert init[i] == NCallBody(f)[i]; }
    AddStmt(init, ReturnCall);
    LastIsOneLine();
    assert StmtText(ReturnCall) == last == StmtLine(ReturnCall) by { ReturnCallText(); }
    LinesOfBody(init, last);
    StmtLinesAppend(init, ReturnCall);
    ExpectationRuns(f, ignored);
    RunSimulates(NCallBody(f), ignored, FunctionGenerator.Begin(f));
  }

  lemma ReturnCallText()
    ensures StmtText(ReturnCall) == "    return " + CALL + ";" == StmtLine(ReturnCall)
  {
  }

  lemma LastIsOneLine()
    ensures var last := "    return " + CALL + ";"; last != "" && '\n' !in last
  {
  }

  lemma {:induction false} StmtLinesAppend(stmts: seq<Stmt>, s: Stmt)
    ensures StmtLines(stmts + [s]) == StmtLines(stmts) + [StmtLine(s)]
  {
    hide StmtLine;
    if stmts == [] {
      assert [] + [s] == [s] && [s][1..] == [];
    } else {
      assert (stmts + [s])[1..] == stmts[1..] + [s];
      StmtLinesAppend(stmts[1..], s);
      Regroup([StmtLine(stmts[0])], StmtLines(stmts[1..]), [StmtLine(s)]);
    }
  }

  /** The call that is read from the emitted text of the mock fulfils the one that running the emitted
      text of the expectation describes, whichever parameters the test ignores: the same function, an
      in-order sublist of its parameters, all of them if none is ignored, and others ignored whenever
      something is missing. */
  lemma MockTextFulfilsExpectation(f: Function, functionName: string, ignored: set<string>)
    requires f.ValidArgs() && IsLegible(f) && IsLegibleBody(f)
    ensures var mock := ReadMock(MockText(f));
            var g := RunText(BodyText(f, functionName, false), ignored);
            && mock.Some? && g.expects == Some(mock.value.call.name) == Some(f.name)
            && IsSublist(g.registered, mock.value.call.parameters)
            && (|g.registered| < |mock.value.call.parameters| ==> g.ignoresOthers)
            && (!SomeIgnored(f.args, ignored) ==> g.registered == mock.value.call.parameters)
            && Fulfils(mock.value.call, g.Call())
  {
    hide ReadMock, RunText, MockText, BodyText, IsLegible, IsLegibleBody, Exec, NCallBody;
    MockIsRead(f);
    TextsAgree(f, functionName, ignored);
    MockFulfilsExpectation(f, ignored);
    ExpectationRuns(f, ignored);
  }
}
