/** Reading whole generated functions back: the chain of calls in a mock and the statements of an
    expectation (app/sources/Function.cpp, GenerateMock and GenerateExpectation). */
module EmittedText {
  import opened StringHelper
  import opened Overrides
  import opened CppTypes
  import opened Expressions
  import opened Arguments
  import opened ArgumentParser
  import opened ArgumentProperties
  import opened MockCalls
  import opened ReturnParser
  import opened ReturnProperties
  import opened FunctionGenerator

  // ----- The expressions in the text

  /** The chain of calls on the mock, without the getter. */
  function CallChain(f: Function): string {
    (("mock().actualCall(\"" + f.name + "\")") + (if f.isNonStatic then ".onObject(this)" else "")) +
      Flatten(MockBodies(f.args))
  }

  /** The body of a mock whose return was built from a type returns the expression of that type
      over the chain of calls and the getter. */
  lemma MockReturnsExpression(f: Function, r: ReturnStandard, s: RetSpec)
    requires (r.isRValueRef ==> r.originalType != "") && f.ret == PartOf(r) && r.Holds(s)
    ensures MockText(f) ==
            (MockHead(f) + Join(MockSignatures(f.args), ", ") + MockTail(f)) + "\n{\n    " +
            ("return " + Text(s.mock, CallChain(f) + ("." + Getter(s.kind) + "()"))) + ";\n}\n"
  {
    hide Text, Flatten, Join, MockBodies, MockSignatures;
    MockReturnText(r, s, CallChain(f));
    var front, call := f.ret.bodyFront, "mock().actualCall(\"" + f.name + "\")";
    var onObject := if f.isNonStatic then ".onObject(this)" else "";
    Regroup(front, call, onObject);
    Regroup(front, call + onObject, Flatten(MockBodies(f.args)));
  }

  lemma ValuePieces(h: string, front: string, name: string, back: string)
    ensures h + front + name + back == h + (front + name + back)
  {
    Regroup(h, front, name);
    Regroup(h, front + name, back);
  }

  /** The call of an argument that was built from its type passes the expression of that type over
      its name; in the expectation, over the name and what gets the value. */
  lemma CallsPassExpression(a: Argument, t: CType, s: ArgSpec, getter: string)
    requires a.Standard? && BuiltFromType(a, t, s)
    ensures MockBodyCall(a) ==
            CallFront(a.kind, true) + "\"" + a.name + "\", " + CallMiddle(a.kind) + Text(s.value, a.name) +
              CallBack(a, true, "")
    ensures ExpectationBodyCall(a, getter) ==
            CallFront(a.kind, false) + "\"" + a.name + "\", " + CallMiddle(a.kind) + Text(s.value, a.name + getter) +
            CallBack(a, false, getter)
  {
    hide Text, CallFront, CallMiddle, CallBack, Front, Back, TypeTexts;
    HalvesMakeText(s.value, a.name);
    HalvesMakeText(s.value, a.name + getter);
    ValuePieces(CallFront(a.kind, true) + "\"" + a.name + "\", " + CallMiddle(a.kind), a.front, a.name, a.back);
    var h := CallFront(a.kind, false) + "\"" + a.name + "\", " + CallMiddle(a.kind);
    ValuePieces(h, a.front, a.name + getter, a.back);
    Regroup(h + a.front, a.name, getter);
  }

  /** The call of an argument that was built from its type, over what stands for its value. */
  function BuiltCall(a: Argument, s: ArgSpec, getter: string): string
    requires a.Standard?
  {
    CallFront(a.kind, false) + "\"" + a.name + "\", " + CallMiddle(a.kind) + Text(s.value, a.name + getter) +
    CallBack(a, false, getter)
  }

  /** The statement for such an argument: the value is taken out of what wraps it exactly if it can be
      ignored, and if it is ignored that is noted unless arguments are skipped anyway. */
  lemma StatementsPass(a: Argument, t: CType, s: ArgSpec, skips: bool)
    requires a.Standard? && BuiltFromType(a, t, s)
    ensures StmtTexts(ArgStmts(a, skips)) ==
            [if !CanBeIgnored(a) then "    " + "__expectedCall__" + "." + BuiltCall(a, s, "") + ";\n"
             else if skips then
               "    if(!" + a.name + ".isIgnored()) { " + "__expectedCall__" + "." + BuiltCall(a, s, ".getValue()") +
               "; }\n"
             else
               "    if(" + a.name + ".isIgnored()) { " + "__ignoreOtherParams__" + " = true; } else { " +
               "__expectedCall__" + "." + BuiltCall(a, s, ".getValue()") + "; }\n"]
  {
    hide Text, CallFront, CallMiddle, CallBack, ExpectationBodyCall;
    CallsPassExpression(a, t, s, "");
    CallsPassExpression(a, t, s, ".getValue()");
    assert a.name + "" == a.name;
  }

  // ----- Where a call ends

  /** How many parentheses are open after s if k are before it; 0 once the last has closed. */
  function Level(s: string, k: nat): nat {
    if s == "" || k == 0 then k
    else Level(s[1..], if s[0] == '(' then k + 1 else if s[0] == ')' then k - 1 else k)
  }

  /** What follows the parenthesis that closes the call which the text starts with; parentheses in
      string literals do not count. */
  function AfterCall(text: string, depth: nat): (rest: string)
    ensures |rest| <= |text|
    decreases |text|
  {
    if text == "" then ""
    else if text[0] == '"' then
      var end := Find(text, '"', 1);
      if end == |text| then "" else AfterCall(text[end + 1..], depth)
    else if text[0] == '(' then AfterCall(text[1..], depth + 1)
    else if text[0] == ')' then (if depth <= 1 then text[1..] else AfterCall(text[1..], depth - 1))
    else AfterCall(text[1..], depth)
  }

  lemma {:induction false} LevelConcat(a: string, b: string, k: nat)
    ensures Level(a + b, k) == Level(b, Level(a, k))
  {
    if a == "" {
      assert a + b == b;
    } else if k > 0 {
      assert (a + b)[1..] == a[1..] + b;
      LevelConcat(a[1..], b, if a[0] == '(' then k + 1 else if a[0] == ')' then k - 1 else k);
    } else if b != "" {
      assert Level(b, 0) == 0;
    }
  }

  lemma {:induction false} LevelShift(s: string, k: nat, j: nat)
    requires Level(s, k) >= 1
    ensures Level(s, k + j) == Level(s, k) + j
  {
    if s != "" {
      assert k > 0;
      LevelShift(s[1..], if s[0] == '(' then k + 1 else if s[0] == ')' then k - 1 else k, j);
    }
  }

  lemma {:induction false} NoParens(s: string, k: nat)
    requires '(' !in s && ')' !in s
    ensures Level(s, k) == k
  {
    if s != "" && k > 0 { NoParens(s[1..], k); }
  }

  lemma {:induction false} SkipPiece(s: string, rest: string, k: nat)
    requires NoQuote(s) && k >= 1 && Level(s, k) >= 1
    ensures AfterCall(s + rest, k) == AfterCall(rest, Level(s, k))
    decreases |s|
  {
    if s == "" {
      assert s + rest == rest;
    } else {
      assert (s + rest)[1..] == s[1..] + rest && (s + rest)[0] == s[0];
      var next := if s[0] == '(' then k + 1 else if s[0] == ')' then k - 1 else k;
      assert next >= 1;
      SkipPiece(s[1..], rest, next);
    }
  }

  lemma {:induction false} SkipName(s: string, rest: string)
    requires IsLetters(s)
    ensures AfterCall(s + rest, 0) == AfterCall(rest, 0)
    decreases |s|
  {
    if s == "" {
      assert s + rest == rest;
    } else {
      assert (s + rest)[1..] == s[1..] + rest && (s + rest)[0] == s[0];
      SkipName(s[1..], rest);
    }
  }

  lemma SkipQuoted(s: string, rest: string, k: nat)
    requires NoQuote(s)
    ensures AfterCall(("\"" + s + "\"") + rest, k) == AfterCall(rest, k)
  {
    var text := ("\"" + s + "\"") + rest;
    assert text[0] == '"' && text[|s| + 1] == '"';
    assert Find(text, '"', 1) == |s| + 1;
    assert text[|s| + 2..] == rest;
  }

  /** A text that closes the parentheses it opens, and no others. */
  ghost predicate IsClosed(v: string) {
    NoQuote(v) && Level(v, 1) == 1
  }

  lemma ClosedConcat(a: string, b: string)
    requires IsClosed(a) && IsClosed(b)
    ensures IsClosed(a + b)
  {
    LevelConcat(a, b, 1);
  }

  lemma SkipOpen(rest: string)
    ensures AfterCall("(" + rest, 0) == AfterCall(rest, 1)
  {
    assert ("(" + rest)[1..] == rest;
  }

  lemma SkipClose(rest: string)
    ensures AfterCall(")" + rest, 1) == rest
  {
    assert (")" + rest)[1..] == rest;
  }

  lemma SkipType(k: ArgKind, rest: string)
    requires NoQuote(ExposedName(k))
    ensures AfterCall(TypeText(k) + rest, 1) == AfterCall(rest, 1)
  {
    if k.TypedInput? || k.TypedOutput? {
      var quoted := "\"" + k.exposed + "\"";
      Regroup(quoted, ", ", rest);
      SkipQuoted(k.exposed, ", " + rest, 1);
      NoParens(", ", 1);
      SkipPiece(", ", rest, 1);
    } else {
      assert "" + rest == rest;
    }
  }

  /** A `with...` call ends at its own parenthesis. */
  lemma CallIsSkipped(k: ArgKind, mock: bool, name: string, q: string, rest: string)
    requires IsBasicKind(k) && NoQuote(ExposedName(k)) && NoQuote(name) && IsClosed(q)
    ensures AfterCall((CallFront(k, mock) + (("\"" + name + "\"") + (q + ")"))) + rest, 0) == rest
  {
    hide AfterCall, MethodName, IsLetters, Level, TypeText, NoQuote;
    var m, t, quoted := MethodName(k, mock), TypeText(k), "\"" + name + "\"";
    MethodsAreLetters(k, mock);
    CallPieces(m, t, quoted, q, rest);
    SkipName(m, "(" + (t + (quoted + (q + (")" + rest)))));
    SkipOpen(t + (quoted + (q + (")" + rest))));
    SkipType(k, quoted + (q + (")" + rest)));
    SkipQuoted(name, q + (")" + rest), 1);
    SkipPiece(q, ")" + rest, 1);
    SkipClose(rest);
  }

  lemma CallPieces(m: string, t: string, quoted: string, q: string, rest: string)
    ensures ((m + "(" + t) + (quoted + (q + ")"))) + rest == m + ("(" + (t + (quoted + (q + (")" + rest)))))
  {
    Regroup(q, ")", rest);
    Regroup(quoted, q + ")", rest);
    Regroup(m + "(" + t, quoted + (q + ")"), rest);
    Regroup(m + "(", t, quoted + (q + (")" + rest)));
    Regroup(m, "(", t + (quoted + (q + (")" + rest))));
  }

  // ----- The call of an argument

  /** What the value is followed by, up to the parenthesis that ends the call. */
  function BeforeEnd(a: Argument, mock: bool, getter: string): string
    requires a.Standard?
  {
    match a.kind
    case OutputArg(_) => if mock then "" else ", " + Arguments.SizeText(a, false, "")
    case BufferArg(_) => ")), " + Arguments.SizeText(a, mock, getter)
    case _ => ""
  }

  lemma BackEnds(a: Argument, mock: bool, getter: string)
    requires a.Standard?
    ensures CallBack(a, mock, getter) == BeforeEnd(a, mock, getter) + ")"
  {
    assert "" + ")" == ")";
  }

  /** Everything after the quoted name, up to that parenthesis, for a value in place. */
  function Inside(a: Argument, mock: bool, value: string, getter: string): string
    requires a.Standard?
  {
    (", " + CallMiddle(a.kind)) + (value + BeforeEnd(a, mock, getter))
  }

  /** The value and the size of the argument close what they open, and hold no string literal. */
  ghost predicate EndsItself(a: Argument) {
    a.Standard? ==>
      && IsReadable(a) && IsClosed(a.name) && IsClosed(a.front + a.name + a.back)
      && IsClosed(a.front + a.name + ".getValue()" + a.back) && IsClosed(a.name + ".getValue()")
      && (a.kind.BufferArg? && a.kind.size.FromExpression? ==> IsClosed(Arguments.SizeText(a, true, "")))
  }

  lemma LevelThree(a: string, b: string, c: string, k: nat)
    ensures Level(a + b + c, k) == Level(c, Level(b, Level(a, k)))
  {
    LevelConcat(a, b, k);
    LevelConcat(a + b, c, k);
  }

  /** Neither a parenthesis nor a quote. */
  predicate Quiet(s: string) {
    forall i :: 0 <= i < |s| ==> s[i] != '(' && s[i] != ')' && s[i] != '"'
  }

  lemma QuietLevel(s: string, k: nat)
    requires Quiet(s)
    ensures Level(s, k) == k && NoQuote(s) && IsClosed(s)
  {
    NoParens(s, k);
    NoParens(s, 1);
  }

  lemma CastsAreQuiet()
    ensures Quiet("static_cast<const unsigned char *>") && Quiet("static_cast<const void *>")
  {
  }

  lemma PiecesAreQuiet()
    ensures Quiet(", ") && Quiet("__sizeof_") && Quiet("sizeof") && Quiet("*") && Quiet("")
  {
  }

  lemma ParenLevels(k: nat)
    ensures Level("(", k + 1) == k + 2 && NoQuote("(") && Level(")", k + 1) == k && NoQuote(")")
  {
    assert "("[1..] == "" && ")"[1..] == "";
  }

  lemma TwoCloseLevel()
    ensures Level(")), ", 3) == 1 && NoQuote(")), ")
  {
    PiecesAreQuiet();
    QuietLevel(", ", 1);
    ParenLevels(2);
    ParenLevels(1);
    hide Level;
    LevelThree(")", ")", ", ", 3);
    assert ")" + ")" + ", " == ")), ";
    NoQuoteFour(")", ")", ", ", "");
    assert ")), " + "" == ")), ";
  }

  lemma FixedLevels()
    ensures Level(", ", 1) == 1 && Level("static_cast<const unsigned char *>", 1) == 1 &&
            Level("static_cast<const void *>", 2) == 2
    ensures Level("(", 1) == 2 && Level("(", 2) == 3
    ensures Level(")), ", 3) == 1 && IsClosed("__sizeof_")
    ensures NoQuote(", ") && NoQuote("static_cast<const unsigned char *>") && NoQuote("static_cast<const void *>") &&
            NoQuote("(")
    ensures NoQuote(")), ")
  {
    hide Level, Quiet, NoQuote, IsClosed;
    CastsAreQuiet();
    PiecesAreQuiet();
    QuietLevel(", ", 1);
    QuietLevel("static_cast<const unsigned char *>", 1);
    QuietLevel("static_cast<const void *>", 2);
    QuietLevel("__sizeof_", 1);
    ParenLevels(0);
    ParenLevels(1);
    TwoCloseLevel();
  }

  lemma MiddleOpensTwo(k: ArgKind)
    ensures Level(", " + CallMiddle(k), 1) == (if k.BufferArg? then 3 else 1) && NoQuote(", " + CallMiddle(k))
  {
    FixedLevels();
    hide Level;
    var a, b := "static_cast<const unsigned char *>", "static_cast<const void *>";
    LevelConcat(", ", CallMiddle(k), 1);
    if k.BufferArg? {
      LevelThree(a, "(", b, 1);
      LevelConcat(a + "(" + b, "(", 1);
      NoQuoteFour(a, "(", b, "(");
    } else {
      assert ", " + "" == ", ";
    }
    NoQuoteConcat(", ", CallMiddle(k));
  }

  lemma NoQuoteConcat(a: string, b: string)
    requires NoQuote(a)
    ensures NoQuote(a + b) <==> NoQuote(b)
  {
    if NoQuote(a + b) { forall c | c in b ensures c in a + b {} }
  }

  lemma NoQuoteFour(a: string, b: string, c: string, d: string)
    requires NoQuote(a) && NoQuote(b) && NoQuote(c) && NoQuote(d)
    ensures NoQuote(a + b + c + d)
  {
  }

  lemma SizeofIsClosed(operand: string)
    requires IsClosed(operand)
    ensures IsClosed("sizeof(*" + operand + ")")
  {
    SizeofPieces();
    hide Level;
    assert "sizeof(*" == "sizeof" + "(*";
    LevelConcat("sizeof", "(*", 1);
    LevelShift(operand, 1, 1);
    LevelThree("sizeof(*", operand, ")", 1);
    NoQuoteFour("sizeof(*", operand, ")", "");
    assert "sizeof(*" + operand + ")" + "" == "sizeof(*" + operand + ")";
  }

  lemma SizeofPieces()
    ensures Level("sizeof", 1) == 1 && Level("(*", 1) == 2 && Level(")", 2) == 1
    ensures NoQuote("sizeof(*") && NoQuote(")") && NoQuote("")
  {
    hide Level, NoQuote;
    PiecesAreQuiet();
    QuietLevel("sizeof", 1);
    QuietLevel("*", 2);
    ParenLevels(0);
    ParenLevels(1);
    LevelConcat("(", "*", 1);
    assert "(" + "*" == "(*" && "sizeof" + "(*" == "sizeof(*";
    EmptyLevel();
    NoQuoteConcat("(", "*");
    NoQuoteConcat("sizeof", "(*");
  }

  lemma SizeIsClosed(a: Argument, mock: bool, getter: string)
    requires a.Standard? && EndsItself(a) && (getter == "" || getter == ".getValue()") && (mock ==> getter == "")
    ensures IsClosed(Arguments.SizeText(a, mock, getter))
  {
    hide Level, NoQuote, IsClosed;
    FixedLevels();
    if TakesSize(a) && !mock {
      ClosedConcat("__sizeof_", a.name);
    } else if a.kind.BufferArg? && a.kind.size.FromExpression? {
      assert mock;
    } else {
      var operand := a.front + a.name + getter + a.back;
      assert a.front + a.name + "" == a.front + a.name;
      SizeofIsClosed(operand);
      FourPieces("sizeof(*", a.front, a.name, getter, a.back);
    }
  }

  lemma FourPieces(h: string, f: string, n: string, g: string, b: string)
    ensures h + f + n + g + b == h + (f + n + g + b)
  {
    Regroup(h, f, n);
    Regroup(h, f + n, g);
    Regroup(h, f + n + g, b);
  }

  lemma InsideIsClosed(a: Argument, mock: bool, value: string, getter: string)
    requires a.Standard? && EndsItself(a) && IsClosed(value)
    requires (getter == "" || getter == ".getValue()") && (mock ==> getter == "")
    ensures IsClosed(Inside(a, mock, value, getter))
  {
    hide Level, EndsItself, NoQuote, CallMiddle;
    var m, e := ", " + CallMiddle(a.kind), BeforeEnd(a, mock, getter);
    FixedLevels();
    MiddleOpensTwo(a.kind);
    SizeIsClosed(a, mock, getter);
    SizeIsClosed(a, false, "");
    EndLevel(a, mock, getter);
    LevelShift(value, 1, if a.kind.BufferArg? then 2 else 0);
    LevelConcat(value, e, Level(m, 1));
    LevelConcat(m, value + e, 1);
    NoQuoteConcat(value, e);
    NoQuoteConcat(m, value + e);
  }

  lemma EndLevel(a: Argument, mock: bool, getter: string)
    requires a.Standard? && IsClosed(Arguments.SizeText(a, mock, getter)) && IsClosed(Arguments.SizeText(a, false, ""))
    ensures var e := BeforeEnd(a, mock, getter); Level(e, if a.kind.BufferArg? then 3 else 1) == 1 && NoQuote(e)
  {
    FixedLevels();
    hide Level;
    LevelConcat(")), ", Arguments.SizeText(a, mock, getter), 3);
    NoQuoteConcat(")), ", Arguments.SizeText(a, mock, getter));
    LevelConcat(", ", Arguments.SizeText(a, false, ""), 1);
    NoQuoteConcat(", ", Arguments.SizeText(a, false, ""));
    assert Level("", 1) == 1 && NoQuote("") by { EmptyLevel(); }
  }

  lemma EmptyLevel()
    ensures Level("", 1) == 1 && NoQuote("")
  {
  }

  lemma InsidePieces(front: string, name: string, m: string, value: string, e: string)
    ensures front + "\"" + name + "\", " + m + value + (e + ")") ==
            front + (("\"" + name + "\"") + (((", " + m) + (value + e)) + ")"))
  {
    var q := "\"" + name + "\"";
    NameIsQuoted(front, name);
    OnePieceMore(front, q, ", ", m);
    OnePieceMore(front, q, ", " + m, value);
    OnePieceMore(front, q, ", " + m + value, e + ")");
    assert ", " + m + value + (e + ")") == ((", " + m) + (value + e)) + ")" by {
      Regroup(", " + m, value, e + ")");
      Regroup(value, e, ")");
      Regroup(", " + m, value + e, ")");
    }
  }

  /** The call of an argument is read as its parameter and ends where it ends. */
  lemma MockCallIsRead(a: Argument, rest: string)
    requires a.Standard? && EndsItself(a)
    ensures ReadParameter(MockBodyCall(a) + rest, true) == Some(ParameterOf(a))
    ensures AfterCall(MockBodyCall(a) + rest, 0) == rest
  {
    hide ReadParameter, AfterCall, CallFront, CallMiddle, CallBack, Level, NoQuote;
    var value := a.front + a.name + a.back;
    InsideIsClosed(a, true, value, "");
    BackEnds(a, true, "");
    var front, quoted, inside := CallFront(a.kind, true), "\"" + a.name + "\"", Inside(a, true, value, "");
    InsidePieces(front, a.name, CallMiddle(a.kind), value, BeforeEnd(a, true, ""));
    ValuePieces(front + "\"" + a.name + "\", " + CallMiddle(a.kind), a.front, a.name, a.back);
    assert MockBodyCall(a) == front + (quoted + (inside + ")"));
    WithRestIsRead(a.kind, true, a.name, inside, rest);
  }

  lemma WithRestIsRead(k: ArgKind, mock: bool, name: string, inside: string, rest: string)
    requires IsBasicKind(k) && NoQuote(ExposedName(k)) && NoQuote(name) && IsClosed(inside)
    ensures var call := CallFront(k, mock) + (("\"" + name + "\"") + (inside + ")"));
            && ReadParameter(call + rest, mock) == Some(Parameter(Recorded(k), ExposedName(k), name))
            && AfterCall(call + rest, 0) == rest
  {
    hide ReadParameter, AfterCall, CallFront, NoQuote;
    CallIsSkipped(k, mock, name, inside, rest);
    WithCallIsRead(k, mock, name, (inside + ")") + rest);
    var quoted := "\"" + name + "\"";
    Regroup(CallFront(k, mock), quoted + (inside + ")"), rest);
    Regroup(quoted, inside + ")", rest);
  }

  lemma ExpectationCallIsRead(a: Argument, getter: string, rest: string)
    requires a.Standard? && EndsItself(a) && (getter == "" || getter == ".getValue()")
    ensures ReadParameter(ExpectationBodyCall(a, getter) + rest, false) == Some(ParameterOf(a))
    ensures AfterCall(ExpectationBodyCall(a, getter) + rest, 0) == rest
  {
    hide ReadParameter, AfterCall, CallFront, CallMiddle, CallBack, Level, NoQuote;
    var f, b := if a.useBaseType then "" else a.front, if a.useBaseType then "" else a.back;
    var value := f + a.name + getter + b;
    assert a.front + a.name + "" == a.front + a.name;
    assert "" + a.name + getter + "" == a.name + getter && a.name + "" == a.name;
    InsideIsClosed(a, false, value, getter);
    BackEnds(a, false, getter);
    var front, quoted, inside := CallFront(a.kind, false), "\"" + a.name + "\"", Inside(a, false, value, getter);
    InsidePieces(front, a.name, CallMiddle(a.kind), value, BeforeEnd(a, false, getter));
    FourPieces(front + "\"" + a.name + "\", " + CallMiddle(a.kind), f, a.name, getter, b);
    assert ExpectationBodyCall(a, getter) == front + (quoted + (inside + ")"));
    WithRestIsRead(a.kind, false, a.name, inside, rest);
  }

  /** Arguments that are built from their types end themselves, given that their names hold neither
      parentheses nor quotes. */
  lemma BuiltEndsItself(underlying: bool, t: CType, a: Argument)
    requires WellFormed(t) && ArgTypeSpec(underlying, t, t, false).Some? && a.Standard?
    requires BuiltFromType(a, t, ArgTypeSpec(underlying, t, t, false).value)
    requires Quiet(a.name) && NoQuote(ExposedName(a.kind))
    ensures EndsItself(a)
  {
    hide ArgTypeSpec, Level, Quiet, NoQuote, TypeTexts, IsClosed, Canonical, Spell;
    var s := ArgTypeSpec(underlying, t, t, false).value;
    ArgumentFlags(underlying, t, t, false);
    QuietLevel(a.name, 1);
    GetterIsClosed();
    ClosedConcat(a.name, ".getValue()");
    BuiltHalves(s, t);
    QuietLevelOf(a.name);
    Surround(a.front, a.name, a.back);
    Surround(a.front, a.name + ".getValue()", a.back);
    Regroup(a.front, a.name, ".getValue()");
  }

  lemma QuietLevelOf(name: string)
    requires Quiet(name)
    ensures NoQuote(name)
  {
  }

  lemma GetterIsClosed()
    ensures IsClosed(".getValue()")
  {
    assert ".getValue()" == ".getValue" + "()" && "()" == "(" + ")";
    assert Quiet(".getValue");
    QuietLevel(".getValue", 1);
    ParenLevels(0);
    ParenLevels(1);
    hide Level;
    LevelConcat("(", ")", 1);
    LevelConcat(".getValue", "()", 1);
  }

  lemma BuiltHalves(s: ArgSpec, t: CType)
    requires ShapedValue(s, t)
    ensures (Front(s.value) == "" && Back(s.value) == "") || (Front(s.value) == "&" && Back(s.value) == "") ||
            (Front(s.value) == "static_cast<int>(" && Back(s.value) == ")")
  {
    var x := Hole(t, true);
    assert Front(x) == "" && Back(x) == "";
    assert CastOpening(Base(Int)) == "static_cast<int>(";
    assert "static_cast<int>(" + "" == "static_cast<int>(" && "" + ")" == ")";
    assert "&" + "" == "&";
  }

  lemma Surround(front: string, inside: string, back: string)
    requires (front == "" && back == "") || (front == "&" && back == "") ||
             (front == "static_cast<int>(" && back == ")")
    requires IsClosed(inside)
    ensures IsClosed(front + inside + back)
  {
    SurroundPieces();
    hide Level, NoQuote;
    if back == ")" {
      LevelShift(inside, 1, 1);
      LevelThree(front, inside, back, 1);
      NoQuoteConcat(front, inside);
      NoQuoteConcat(front + inside, back);
    } else {
      LevelThree(front, inside, back, 1);
      NoQuoteConcat(front, inside);
      NoQuoteConcat(front + inside, back);
    }
  }

  lemma SurroundPieces()
    ensures Level("", 1) == 1 && NoQuote("") && Level("&", 1) == 1 && NoQuote("&")
    ensures Level("static_cast<int>(", 1) == 2 && NoQuote("static_cast<int>(") && Level(")", 2) == 1 && NoQuote(")")
  {
    hide Level, NoQuote;
    EmptyLevel();
    ShortPiecesAreQuiet();
    QuietLevel("&", 1);
    QuietLevel("static_cast<int>", 1);
    ParenLevels(0);
    ParenLevels(1);
    LevelConcat("static_cast<int>", "(", 1);
    NoQuoteConcat("static_cast<int>", "(");
    assert "static_cast<int>" + "(" == "static_cast<int>(";
  }

  lemma ShortPiecesAreQuiet()
    ensures Quiet("&") && Quiet("static_cast<int>")
  {
  }

  // ----- The whole mock

  /** Reads one `with...` call after the other, for as long as there is one. */
  function ReadChain(text: string): seq<Parameter>
    decreases |text|
  {
    if text == "" || text[0] != '.' then []
    else
      match ReadParameter(text[1..], true)
      case None => []
      case Some(p) => [p] + ReadChain(AfterCall(text[1..], 0))
  }

  /** What is left when no call can be read any more. */
  function AfterChain(text: string): string
    decreases |text|
  {
    if text == "" || text[0] != '.' || ReadParameter(text[1..], true).None? then text
    else AfterChain(AfterCall(text[1..], 0))
  }

  /** The kind of value that a call without arguments gives back. */
  function ReadGetter(text: string): Option<MockedType> {
    var open := Find(text, '(', 0);
    if text == "" || text[0] != '.' || open == 0 || !HasPrefix(text[open..], "()") then None else GivenBy(text[1..open])
  }

  lemma {:induction false} ReportedFromFront(args: seq<Argument>)
    requires args != []
    ensures Reported(args) == (if args[0].Standard? then [ParameterOf(args[0])] else []) + Reported(args[1..])
  {
    if |args| == 1 {
      assert args[..0] == [] && args[1..] == [];
    } else {
      var front := args[..|args| - 1];
      ReportedFromFront(front);
      assert front[1..] == args[1..][..|args| - 2] && args[1..][|args| - 2] == args[|args| - 1];
      Regroup(if args[0].Standard? then [ParameterOf(args[0])] else [], Reported(front[1..]),
              if args[|args| - 1].Standard? then [ParameterOf(args[|args| - 1])] else []);
    }
  }

  lemma BodiesFromFront(args: seq<Argument>, tail: string)
    requires args != []
    ensures Flatten(MockBodies(args)) + tail == MockBody(args[0]) + (Flatten(MockBodies(args[1..])) + tail)
  {
    hide MockBody;
    assert MockBodies(args)[0] == MockBody(args[0]) && MockBodies(args)[1..] == MockBodies(args[1..]);
    Regroup(MockBody(args[0]), Flatten(MockBodies(args[1..])), tail);
  }

  lemma ReadOneCall(a: Argument, rest: string)
    requires EndsItself(a)
    ensures ReadChain(MockBody(a) + rest) == (if a.Standard? then [ParameterOf(a)] else []) + ReadChain(rest)
    ensures AfterChain(MockBody(a) + rest) == AfterChain(rest)
  {
    hide ReadParameter, AfterCall, EndsItself, MockBodyCall;
    if a.Standard? {
      MockCallIsRead(a, rest);
      var text := "." + MockBodyCall(a) + rest;
      assert text[0] == '.' && text[1..] == MockBodyCall(a) + rest;
    } else {
      assert "" + rest == rest;
    }
  }

  /** The chain of calls that a mock makes is read as the parameters it reports. */
  lemma {:induction false} ChainIsRead(args: seq<Argument>, tail: string)
    requires (forall i :: 0 <= i < |args| ==> EndsItself(args[i])) && ReadChain(tail) == []
    ensures ReadChain(Flatten(MockBodies(args)) + tail) == Reported(args)
    ensures AfterChain(Flatten(MockBodies(args)) + tail) == tail
  {
    hide ReadChain, AfterChain, EndsItself, MockBody, Reported, Flatten, MockBodies;
    if args == [] {
      NothingReported(tail);
      NothingRead(tail);
    } else {
      ReportedFromFront(args);
      BodiesFromFront(args, tail);
      ReadOneCall(args[0], Flatten(MockBodies(args[1..])) + tail);
      ChainIsRead(args[1..], tail);
    }
  }

  lemma NothingRead(tail: string)
    requires ReadChain(tail) == []
    ensures AfterChain(tail) == tail
  {
  }

  lemma NothingReported(tail: string)
    ensures Flatten(MockBodies([])) + tail == tail && Reported([]) == []
  {
  }

  /** What a mock does, as read from its text: the call it reports, and the kind of the value that it
      takes for its own, if any. */
  datatype MockRead = MockRead(call: ActualCall, returned: Option<MockedType>)

  function ReadRest(name: string, onObject: bool, rest: string): MockRead {
    MockRead(ActualCall(name, onObject, ReadChain(rest)), ReadGetter(AfterChain(rest)))
  }

  function ReadMock(text: string): Option<MockRead> {
    var body := text[Find(text, '\n', 0)..];
    var dot := Find(body, '.', 0);
    var call := if dot == |body| then "" else body[dot + 1..];
    if !HasPrefix(call, "actualCall(") then None
    else
      match ReadQuoted(call[11..])
      case None => None
      case Some(name) =>
        var rest := AfterCall(call, 0);
        Some(if HasPrefix(rest, ".onObject(this)") then ReadRest(name.0, true, AfterCall(rest[1..], 0))
             else ReadRest(name.0, false, rest))
  }

  lemma GettersReturn(k: MockedType)
    requires IsReturnType(k)
    ensures Getter(k) != "" && Getter(k)[0] == 'r' && '(' !in Getter(k)
  {
  }

  /** Each getter gives back a value of the kind it is printed for. */
  lemma GettersMean(k: MockedType)
    requires IsReturnType(k)
    ensures GivenBy(Getter(k)) == Some(k)
  {
    match k
    case Bool => case Int => case UnsignedInt => case Long => case UnsignedLong => case Double =>
    case String => case Pointer => case ConstPointer =>
  }

  lemma MethodsBeginWithW(name: string, actual: bool)
    requires MeaningOf(name, actual).Some?
    ensures name != "" && name[0] == 'w'
  {
  }

  /** What follows the chain ends it: a getter, or the end of the statement. */
  ghost predicate EndsChain(back: string) {
    back == "" || exists k, rest :: IsReturnType(k) && back == ("." + Getter(k) + "()") + rest
  }

  /** The text does not go on with the object. */
  predicate NoObject(text: string) {
    |text| < 2 || text[0] != '.' || text[1] != 'o'
  }

  lemma TailEndsChain(back: string)
    requires EndsChain(back)
    ensures ReadChain(back + ";\n}\n") == [] && NoObject(back + ";\n}\n")
    ensures ReadGetter(back + ";\n}\n") == ReadGetter(back)
  {
    var end := ";\n}\n";
    if back == "" {
      assert back + end == end;
    } else {
      var k, rest :| IsReturnType(k) && back == ("." + Getter(k) + "()") + rest;
      GetterIsNoMethod(k, rest + end);
      GetterIsRead(k, rest);
      GetterIsRead(k, rest + end);
      Regroup("." + Getter(k) + "()", rest, end);
    }
  }

  lemma GetterIsNoMethod(k: MockedType, rest: string)
    requires IsReturnType(k)
    ensures var text := ("." + Getter(k) + "()") + rest; ReadChain(text) == [] && NoObject(text)
  {
    GettersReturn(k);
    hide Getter, MeaningOf;
    var text := ("." + Getter(k) + "()") + rest;
    var call := Getter(k) + "(" + (")" + rest);
    assert text[0] == '.' && text[1] == Getter(k)[0];
    assert text[1..] == call by { GetterPieces(Getter(k), rest); }
    CallIsRead(Getter(k), ")" + rest);
    if MeaningOf(Getter(k), true).Some? { MethodsBeginWithW(Getter(k), true); }
    assert ReadParameter(call, true) == None;
  }

  lemma GetterIsRead(k: MockedType, rest: string)
    requires IsReturnType(k)
    ensures ReadGetter(("." + Getter(k) + "()") + rest) == Some(k)
  {
    GettersReturn(k);
    GettersMean(k);
    hide Getter, GivenBy;
    var text := ("." + Getter(k) + "()") + rest;
    Regroup("." + Getter(k), "()", rest);
    FoundAfter("." + Getter(k), '(', "()" + rest);
    assert text[0] == '.' && text[1..|Getter(k)| + 1] == Getter(k);
    assert text[|Getter(k)| + 1..] == "()" + rest;
    assert ("()" + rest)[..2] == "()";
  }

  lemma GetterPieces(getter: string, rest: string)
    ensures (("." + getter + "()") + rest)[1..] == getter + "(" + (")" + rest)
  {
    assert "()" == "(" + ")";
    var text := ("." + getter + "()") + rest;
    assert text == "." + (getter + "(" + (")" + rest)) by {
      Regroup(".", getter, "()");
      Regroup(".", getter + "()", rest);
      Regroup(getter, "()", rest);
      Regroup("(", ")", rest);
      Regroup(getter, "(", ")" + rest);
    }
  }

  lemma {:induction false} ChainIsNoObject(args: seq<Argument>, tail: string)
    requires (forall i :: 0 <= i < |args| ==> EndsItself(args[i])) && NoObject(tail)
    ensures NoObject(Flatten(MockBodies(args)) + tail)
  {
    hide EndsItself, MockBody, Flatten, MockBodies;
    if args == [] {
      NothingReported(tail);
    } else {
      BodiesFromFront(args, tail);
      ChainIsNoObject(args[1..], tail);
      OneIsNoObject(args[0], Flatten(MockBodies(args[1..])) + tail);
    }
  }

  lemma OneIsNoObject(a: Argument, rest: string)
    requires EndsItself(a) && NoObject(rest)
    ensures NoObject(MockBody(a) + rest)
  {
    if a.Standard? {
      MethodsAreLetters(a.kind, true);
      MethodMeans(a.kind, true);
      MethodsBeginWithW(MethodName(a.kind, true), true);
      hide MethodName, MeaningOf, EndsItself, CallMiddle, CallBack;
      FirstOfCall(a);
      var text := "." + MockBodyCall(a) + rest;
      assert text[0] == '.' && text[1] == MockBodyCall(a)[0];
    } else {
      assert "" + rest == rest;
    }
  }

  lemma FirstOfCall(a: Argument)
    requires a.Standard? && MethodName(a.kind, true) != ""
    ensures MockBodyCall(a) != "" && MockBodyCall(a)[0] == MethodName(a.kind, true)[0]
  {
    hide MethodName, CallMiddle, CallBack, TypeText;
    var m := MethodName(a.kind, true);
    FirstStays(m, "(");
    FirstStays(m + "(", TypeText(a.kind));
    var front := CallFront(a.kind, true);
    FirstStays(front, "\"");
    FirstStays(front + "\"", a.name);
    FirstStays(front + "\"" + a.name, "\", ");
    var h := front + "\"" + a.name + "\", ";
    FirstStays(h, CallMiddle(a.kind));
    FirstStays(h + CallMiddle(a.kind), a.front);
    FirstStays(h + CallMiddle(a.kind) + a.front, a.name);
    FirstStays(h + CallMiddle(a.kind) + a.front + a.name, a.back);
    FirstStays(h + CallMiddle(a.kind) + a.front + a.name + a.back, CallBack(a, true, ""));
  }

  lemma FirstStays(a: string, b: string)
    requires a != ""
    ensures a + b != "" && (a + b)[0] == a[0]
  {
  }

  /** A function whose mock can be read: one line of signature, no dot before the call. */
  ghost predicate IsLegible(f: Function) {
    && '\n' !in MockHead(f) + Join(MockSignatures(f.args), ", ") + MockTail(f)
    && NoQuote(f.name) && (forall i :: 0 <= i < |f.args| ==> EndsItself(f.args[i]))
    && (f.ret.ReturnsValue? ==> '.' !in f.ret.bodyFront && EndsChain(f.ret.bodyBack))
  }

  lemma BodyStarts(signature: string, front: string, call: string)
    requires '\n' !in signature && '.' !in front
    ensures var text := signature + ("\n{\n    " + (front + ("mock()" + ("." + call))));
            var body := text[Find(text, '\n', 0)..];
            var dot := Find(body, '.', 0);
            dot < |body| && body[dot + 1..] == call
  {
    var start := "\n{\n    " + (front + "mock()");
    var text := signature + ("\n{\n    " + (front + ("mock()" + ("." + call))));
    assert "\n{\n    " + (front + ("mock()" + ("." + call))) == start + ("." + call) by {
      Regroup(front, "mock()", "." + call);
      Regroup("\n{\n    ", front + "mock()", "." + call);
    }
    assert text == signature + (start + ("." + call));
    FoundAfter(signature, '\n', start + ("." + call));
    assert text[|signature|..] == start + ("." + call);
    NoDots(front);
    FoundAfter(start, '.', "." + call);
    assert (start + ("." + call))[|start| + 1..] == call;
  }

  lemma NoDots(front: string)
    requires '.' !in front
    ensures '.' !in "\n{\n    " + (front + "mock()")
  {
    assert '.' !in "\n{\n    " && '.' !in "mock()";
  }

  lemma FoundAfter(before: string, c: char, rest: string)
    requires c !in before && rest != "" && rest[0] == c
    ensures Find(before + rest, c, 0) == |before|
  {
    var text := before + rest;
    assert text[|before|] == c;
    assert forall i :: 0 <= i < |before| ==> text[i] == before[i];
  }

  /** The call on the mock, its name and what follows. */
  lemma ActualCallIsRead(name: string, rest: string)
    requires NoQuote(name)
    ensures var call := "actualCall(" + (("\"" + name + "\"") + (")" + rest));
            && HasPrefix(call, "actualCall(") && ReadQuoted(call[11..]) == Some((name, ")" + rest))
            && AfterCall(call, 0) == rest
  {
    var quoted := ("\"" + name + "\"") + (")" + rest);
    var call := "actualCall(" + quoted;
    assert call[..11] == "actualCall(" && call[11..] == quoted;
    QuotedIsRead(name, ")" + rest);
    hide AfterCall, ReadQuoted;
    assert IsLetters("actualCall");
    assert call == "actualCall" + ("(" + quoted) by {
      assert "actualCall(" == "actualCall" + "(";
      Regroup("actualCall", "(", quoted);
    }
    SkipName("actualCall", "(" + quoted);
    SkipOpen(quoted);
    SkipQuoted(name, ")" + rest, 1);
    SkipClose(rest);
  }

  lemma ObjectIsRead(rest: string)
    ensures var text := ".onObject(this)" + rest;
            HasPrefix(text, ".onObject(this)") && AfterCall(text[1..], 0) == rest
  {
    var text := ".onObject(this)" + rest;
    assert text[..15] == ".onObject(this)";
    ObjectPieces(rest);
    hide AfterCall;
    assert IsLetters("onObject") && Quiet("this");
    QuietLevel("this", 1);
    SkipName("onObject", "(" + ("this" + (")" + rest)));
    SkipOpen("this" + (")" + rest));
    SkipPiece("this", ")" + rest, 1);
    SkipClose(rest);
  }

  lemma ObjectPieces(rest: string)
    ensures (".onObject(this)" + rest)[1..] == "onObject" + ("(" + ("this" + (")" + rest)))
  {
    assert ".onObject(this)" == "." + ("onObject" + ("(" + ("this" + ")")));
    Regroup(".", "onObject" + ("(" + ("this" + ")")), rest);
    Regroup("onObject", "(" + ("this" + ")"), rest);
    Regroup("(", "this" + ")", rest);
    Regroup("this", ")", rest);
  }

  lemma NotTheObject(text: string)
    requires NoObject(text)
    ensures !HasPrefix(text, ".onObject(this)")
  {
    if |text| >= 15 {
      assert text[..15][1] == text[1] && text[..15][0] == text[0];
    }
  }

  function CallText(name: string, rest: string): string {
    "actualCall(" + (("\"" + name + "\"") + (")" + rest))
  }

  lemma ReadMockOf(text: string, name: string, rest: string)
    requires NoQuote(name)
    requires var body := text[Find(text, '\n', 0)..];
             var dot := Find(body, '.', 0);
             dot < |body| && body[dot + 1..] == CallText(name, rest)
    ensures ReadMock(text) ==
            Some(if HasPrefix(rest, ".onObject(this)") then ReadRest(name, true, AfterCall(rest[1..], 0))
                 else ReadRest(name, false, rest))
  {
    hide ReadRest, AfterCall, ReadQuoted, HasPrefix, Find, NoQuote;
    ActualCallIsRead(name, rest);
  }

  /** The chain of a mock and what follows it. */
  function ChainText(f: Function): string {
    Flatten(MockBodies(f.args)) + ((if f.ret.ReturnsValue? then f.ret.bodyBack else "") + ";\n}\n")
  }

  /** The kind of value for which the mock's statement asks behind the chain. */
  function ReturnedBy(f: Function): Option<MockedType> {
    ReadGetter(if f.ret.ReturnsValue? then f.ret.bodyBack else "")
  }

  lemma ChainTextIsRead(f: Function)
    requires IsLegible(f)
    ensures ReadChain(ChainText(f)) == Reported(f.args) && NoObject(ChainText(f))
    ensures ReadGetter(AfterChain(ChainText(f))) == ReturnedBy(f)
  {
    hide ReadChain, AfterChain, ReadGetter, EndsItself, Reported, Flatten, MockBodies, EndsChain, NoObject;
    var back := if f.ret.ReturnsValue? then f.ret.bodyBack else "";
    EmptyEndsChain();
    TailEndsChain(back);
    ChainIsRead(f.args, back + ";\n}\n");
    ChainIsNoObject(f.args, back + ";\n}\n");
  }

  /** From the whole text of a mock one reads back the function it reports, whether it does so on
      its object, exactly the parameters that it reports, and the kind of value it asks for. */
  lemma MockIsRead(f: Function)
    requires IsLegible(f)
    ensures ReadMock(MockText(f)) == Some(MockRead(ReportedCall(f), ReturnedBy(f)))
  {
    hide ReadMock, ReadChain, AfterChain, ReadGetter, ReturnedBy, AfterCall, EndsItself, Reported, HasPrefix,
         MockHead, MockTail, Join, MockSignatures, EndsChain, NoObject, Find, NoQuote, ChainText, MockText;
    ChainTextIsRead(f);
    var chain := ChainText(f);
    var rest := if f.isNonStatic then ".onObject(this)" + chain else chain;
    MockTextPieces(f, rest);
    BodyStarts(MockHead(f) + Join(MockSignatures(f.args), ", ") + MockTail(f),
               if f.ret.ReturnsValue? then f.ret.bodyFront else "",
               CallText(f.name, rest));
    ReadMockOf(MockText(f), f.name, rest);
    if f.isNonStatic { ObjectIsRead(chain); } else { NotTheObject(chain); }
  }

  lemma EmptyEndsChain()
    ensures EndsChain("")
  {
  }

  lemma MockTextPieces(f: Function, rest: string)
    requires rest == if f.isNonStatic then ".onObject(this)" + ChainText(f) else ChainText(f)
    ensures MockText(f) ==
            (MockHead(f) + Join(MockSignatures(f.args), ", ") + MockTail(f)) +
            ("\n{\n    " + ((if f.ret.ReturnsValue? then f.ret.bodyFront else "") +
              ("mock()" + ("." + CallText(f.name, rest)))))
  {
    hide Flatten, MockBodies, MockHead, MockTail, Join, MockSignatures;
    var sig := MockHead(f) + Join(MockSignatures(f.args), ", ") + MockTail(f);
    var front, flat, end := if f.ret.ReturnsValue? then f.ret.bodyFront else "", Flatten(MockBodies(f.args)), ";\n}\n";
    var back := if f.ret.ReturnsValue? then f.ret.bodyBack else "";
    var onObject := if f.isNonStatic then ".onObject(this)" else "";
    var actual := "mock().actualCall(\"" + f.name + "\")";
    ActualPieces(f.name);
    assert rest == onObject + (flat + (back + end)) by { assert "" + (flat + (back + end)) == flat + (back + end); }
    var body := front + actual + onObject + flat + back;
    TailPieces(front, actual, onObject, flat, back, end);
    Regroup(sig, "\n{\n    ", body);
    Regroup(sig + "\n{\n    ", body, end);
    Regroup(sig, "\n{\n    ", body + end);
    ActualRest(f.name, rest);
  }

  lemma TailPieces(front: string, actual: string, onObject: string, flat: string, back: string, end: string)
    ensures (front + actual + onObject + flat + back) + end == front + (actual + (onObject + (flat + (back + end))))
  {
    Regroup(front + actual + onObject + flat, back, end);
    Regroup(front + actual + onObject, flat, back + end);
    Regroup(front + actual, onObject, flat + (back + end));
    Regroup(front, actual, onObject + (flat + (back + end)));
  }

  lemma ActualPieces(name: string)
    ensures "mock().actualCall(\"" + name + "\")" == ("mock()" + ("." + "actualCall(")) + (("\"" + name + "\"") + ")")
  {
    assert "mock().actualCall(\"" == ("mock()" + ("." + "actualCall(")) + "\"" && "\")" == "\"" + ")";
    Regroup("mock()" + ("." + "actualCall("), "\"", name);
    Regroup("mock()" + ("." + "actualCall("), "\"" + name, "\"" + ")");
    Regroup("\"" + name, "\"", ")");
  }

  lemma ActualRest(name: string, rest: string)
    ensures ("mock().actualCall(\"" + name + "\")") + rest ==
            "mock()" + ("." + ("actualCall(" + (("\"" + name + "\"") + (")" + rest))))
  {
    var quoted := "\"" + name + "\"";
    ActualPieces(name);
    Regroup("mock()" + ("." + "actualCall("), quoted + ")", rest);
    Regroup(quoted, ")", rest);
    Regroup("mock()", "." + "actualCall(", quoted + (")" + rest));
    Regroup(".", "actualCall(", quoted + (")" + rest));
  }
}
