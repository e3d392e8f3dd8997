/** Under which name, in which namespaces and with which parameters the expectations for a function
    are found (MANUAL.md, "What are Expectations?"; app/sources/Function.cpp, GenerateExpectation). */
module ExpectationNames {
  import opened StringHelper
  import opened Overrides
  import opened Arguments
  import opened Namespaces
  import opened FunctionGenerator
  import opened EmittedText
  import opened EmittedBody

  // ----- Reading namespaces and names

  const NAMESPACE := "namespace "

  /** The namespaces that a line opens one after the other. */
  function ReadNamespaces(line: string): seq<string>
    decreases |line|
  {
    if !HasPrefix(line, NAMESPACE) then []
    else
      var rest := line[|NAMESPACE|..];
      var end := Find(rest, ' ', 0);
      [rest[..end]] + if HasPrefix(rest[end..], " { ") then ReadNamespaces(rest[end..][3..]) else []
  }

  /** The name of the function that is declared first. */
  function ReadDeclared(text: string): string {
    var start := "MockExpectedCall& ";
    if HasPrefix(text, start) then text[|start|..][..Find(text[|start|..], '(', 0)] else ""
  }

  /** The namespaces of expectations: one of their own, and the function's with a sign. */
  function Mirrored(names: seq<string>): (ms: seq<string>)
    ensures |ms| == |names|
  {
    seq(|names|, i requires 0 <= i < |names| => names[i] + "$")
  }

  // ----- They are as documented

  lemma OneNamespace(name: string, more: string)
    requires ' ' !in name
    ensures ReadNamespaces(NAMESPACE + (name + (" { " + more))) == [name] + ReadNamespaces(more)
  {
    var rest := name + (" { " + more);
    PrefixIsRead(NAMESPACE, rest);
    FoundAfter(name, ' ', " { " + more);
    assert rest[..|name|] == name && rest[|name|..] == " { " + more;
    hide HasPrefix, Find;
    PrefixIsRead(" { ", more);
  }

  lemma LastNamespace(name: string, more: string)
    requires ' ' !in name && (more == "" || more[0] != ' ')
    ensures ReadNamespaces(NAMESPACE + (name + (" {" + more))) == [name]
  {
    var rest := name + (" {" + more);
    PrefixIsRead(NAMESPACE, rest);
    FoundAfter(name, ' ', " {" + more);
    assert rest[..|name|] == name && rest[|name|..] == " {" + more;
    NotAnother(more);
    hide HasPrefix, Find;
  }

  lemma NotAnother(more: string)
    requires more == "" || more[0] != ' '
    ensures !HasPrefix(" {" + more, " { ")
  {
    if more != "" { assert (" {" + more)[2] == more[0]; }
    NoPrefix(" {" + more, " { ", 2);
  }

  /** What opens after the first namespace. */
  function Rest(names: seq<string>): string {
    if names == [] then "\n" else " namespace " + names[0] + "$ {" + Rest(names[1..])
  }

  lemma {:induction false} OpeningRest(names: seq<string>)
    ensures Flatten(Openings(names)) + "\n" == Rest(names)
  {
    if names == [] {
      assert Openings(names) == [] && "" + "\n" == "\n";
    } else {
      OpeningRest(names[1..]);
      assert Openings(names)[0] == " namespace " + names[0] + "$ {" && Openings(names)[1..] == Openings(names[1..]);
      Regroup(" namespace " + names[0] + "$ {", Flatten(Openings(names[1..])), "\n");
    }
  }

  lemma {:induction false} NamespacesAreRead(name: string, names: seq<string>)
    requires ' ' !in name && forall i :: 0 <= i < |names| ==> ' ' !in names[i]
    ensures ReadNamespaces(NAMESPACE + (name + (" {" + Rest(names)))) == [name] + Mirrored(names)
    decreases |names|
  {
    hide ReadNamespaces;
    if names == [] {
      LastNamespace(name, "\n");
    } else {
      var next := names[0] + "$";
      NamespacesAreRead(next, names[1..]);
      NextPieces(names[0], Rest(names[1..]));
      OneNamespace(name, NAMESPACE + (next + (" {" + Rest(names[1..]))));
      assert Mirrored(names) == [next] + Mirrored(names[1..]);
    }
  }

  lemma NextPieces(name: string, rest: string)
    ensures " {" + (" namespace " + name + "$ {" + rest) == " { " + (NAMESPACE + ((name + "$") + (" {" + rest)))
  {
    assert "$ {" == "$" + " {" && " namespace " == " " + NAMESPACE && " { " == " {" + " ";
    Regroup(" ", NAMESPACE, name);
    Regroup(" " + (NAMESPACE + name), "$", " {");
    Regroup(" ", NAMESPACE + name, "$");
    Regroup(NAMESPACE, name, "$");
    Regroup(" " + (NAMESPACE + (name + "$")), " {", rest);
    Regroup(" ", NAMESPACE + (name + "$"), " {" + rest);
    Regroup(NAMESPACE, name + "$", " {" + rest);
    Regroup(" {", " ", NAMESPACE + ((name + "$") + (" {" + rest)));
  }

  /** Expectations are found in namespace `expect`, in namespaces that mirror the function's own. */
  lemma OpeningIsRead(names: seq<string>)
    requires forall i :: 0 <= i < |names| ==> ' ' !in names[i]
    ensures ReadNamespaces(Opening(names)) == ["expect"] + Mirrored(names)
  {
    hide ReadNamespaces, Rest, Openings, Flatten;
    OpeningRest(names);
    NamespacesAreRead("expect", names);
    assert "namespace expect {" == NAMESPACE + ("expect" + " {");
    Regroup("namespace expect {", Flatten(Openings(names)), "\n");
    Regroup(NAMESPACE, "expect" + " {", Rest(names));
    Regroup("expect", " {", Rest(names));
  }

  /** Either overload, and its prototype, goes by the name given. */
  lemma DeclaredIsRead(f: Function, proto: bool, name: string, oneCall: bool)
    requires f.ValidArgs() && '(' !in name
    ensures ReadDeclared(ExpectationText(f, proto, name, oneCall)) == name
  {
    hide Params, Join, BodyText, HasPrefix, Find;
    var start := "MockExpectedCall& ";
    var list := Join(Texts(Params(f, proto, oneCall)), ", ");
    var end := if proto then ");\n" else ")\n{\n" + BodyText(f, name, oneCall) + "\n}\n";
    var rest := "(" + list + end;
    DeclarationPieces(start, name, list, end);
    PrefixIsRead(start, name + rest);
    FoundAfter(name, '(', rest);
    assert (name + rest)[..|name|] == name;
  }

  lemma DeclarationPieces(start: string, name: string, list: string, end: string)
    ensures (start + name + "(") + list + end == start + (name + ("(" + list + end))
  {
    Regroup(start, name, "(");
    Regroup(start, name + "(", list);
    Regroup(start, name + "(" + list, end);
    Regroup(name, "(", list);
    Regroup(name, "(" + list, end);
  }

  /** How a test names the expectation: the namespaces, and the function's own name, or its class's with
      a sign for a constructor or destructor. */
  lemma ExpectationIsNamed(f: Function, path: seq<string>, own: string, proto: bool, oneCall: bool)
    requires f.ValidArgs() && f.name == Join(path + [own], SEPARATOR) && Separable(path + [own]) && '(' !in own
    requires forall i :: 0 <= i < |path| ==> ' ' !in path[i]
    requires f.nameKind.DestructorName? ==> own != "" && own[0] == '~'
    ensures ReadNamespaces(Opening(path)) == ["expect"] + Mirrored(path)
    ensures var name := match f.nameKind
                        case PlainName => own
                        case ConstructorName => own + "$ctor"
                        case DestructorName => own[1..] + "$dtor";
            && ReadDeclared(ExpectationText(f, proto, name, oneCall)) == name
            && ExpectationsText(f, proto) ==
               Opening(path) + ExpectationText(f, proto, name, true) + ExpectationText(f, proto, name, false) +
               Closing(|path|)
  {
    hide ExpectationText, Opening, Closing, ReadNamespaces, ReadDeclared, Separable, Join;
    OpeningIsRead(path);
    JoinIsDecomposed(path + [own]);
    var parts := path + [own];
    assert parts[..|parts| - 1] == path && parts[|parts| - 1] == own;
    var name := FunctionNameOf(f, own);
    NameHoldsNoParenthesis(f, own);
    DeclaredIsRead(f, proto, name, oneCall);
  }

  lemma NameHoldsNoParenthesis(f: Function, own: string)
    requires '(' !in own
    ensures '(' !in FunctionNameOf(f, own)
  {
    assert '(' !in "$ctor" && '(' !in "$dtor";
  }

  // ----- Its parameters

  /** The declarations that an argument adds: it is wrapped if it can be ignored, and may be followed by
      its size. */
  function ArgumentDeclarations(a: Argument): seq<string>
    requires Valid(a)
  {
    if a.Skipped? then []
    else
      [(if CanBeIgnored(a) then "CppUMockGen::Parameter<" + UsedType(a) + "> " else UsedType(a) + " ") + a.name + ""] +
      if TakesSize(a) then ["size_t __sizeof_" + a.name] else []
  }

  function AllArgumentDeclarations(args: seq<Argument>): seq<string>
    requires forall i :: 0 <= i < |args| ==> Valid(args[i])
  {
    if args == [] then [] else ArgumentDeclarations(args[0]) + AllArgumentDeclarations(args[1..])
  }

  lemma {:induction false} ArgumentTexts(args: seq<Argument>)
    requires forall i :: 0 <= i < |args| ==> Valid(args[i])
    ensures Texts(AllArgParams(args)) == AllArgumentDeclarations(args)
  {
    hide ArgParams, ArgumentDeclarations, Texts;
    if args != [] {
      var front, last := args[..|args| - 1], args[|args| - 1];
      ArgumentTexts(front);
      TextsConcat(AllArgParams(front), ArgParams(last));
      OneArgument(last);
      DeclarationsAppend(front, last);
      assert args == front + [last];
    } else {
      NothingDeclared();
    }
  }

  lemma NothingDeclared()
    ensures Texts([]) == []
  {
  }

  lemma OneArgument(a: Argument)
    requires Valid(a)
    ensures Texts(ArgParams(a)) == ArgumentDeclarations(a)
  {
    if a.Standard? && TakesSize(a) { assert "size_t " + ("__sizeof_" + a.name) + "" == "size_t __sizeof_" + a.name; }
  }

  lemma TextsConcat(a: seq<Param>, b: seq<Param>)
    ensures Texts(a + b) == Texts(a) + Texts(b)
  {
  }

  lemma {:induction false} DeclarationsAppend(args: seq<Argument>, last: Argument)
    requires (forall i :: 0 <= i < |args| ==> Valid(args[i])) && Valid(last)
    ensures AllArgumentDeclarations(args + [last]) == AllArgumentDeclarations(args) + ArgumentDeclarations(last)
  {
    hide ArgumentDeclarations;
    if args == [] {
      assert args + [last] == [last] && [last][1..] == [];
    } else {
      assert (args + [last])[0] == args[0] && (args + [last])[1..] == args[1..] + [last];
      DeclarationsAppend(args[1..], last);
    }
  }

  /** The parameters of an expectation, in order: how many calls, unless it is one, the object of a
      method that has one, those of the arguments, and the value to return. Only the prototype of a
      destructor lets the object be left out. */
  lemma ParametersAreDeclared(f: Function, proto: bool, oneCall: bool)
    requires f.ValidArgs()
    ensures Texts(Params(f, proto, oneCall)) ==
            (if oneCall then [] else ["unsigned int __numCalls__"]) +
            (if !f.isNonStatic then []
             else ["CppUMockGen::Parameter<const " + f.className + "*> __object__" +
                   (if proto && f.ret.NoReturn? then " = ::CppUMockGen::IgnoreParameter::YES" else "")]) +
            AllArgumentDeclarations(f.args) +
            (if f.ret.ReturnsValue? then [f.ret.declaration + "__return__"] else [])
  {
    hide AllArgParams, AllArgumentDeclarations;
    var c, o, a, r := CountParams(oneCall), ObjectParams(f, proto), AllArgParams(f.args), ReturnParams(f);
    TextsConcat(c + o + a, r);
    TextsConcat(c + o, a);
    TextsConcat(c, o);
    ArgumentTexts(f.args);
    CountText();
    ObjectIsDeclared(f, proto);
    hide CountParams, ObjectParams;
    if f.ret.ReturnsValue? { assert f.ret.declaration + "__return__" + "" == f.ret.declaration + "__return__"; }
  }

  lemma CountText()
    ensures Texts(CountParams(false)) == ["unsigned int __numCalls__"] && Texts(CountParams(true)) == []
  {
    assert "unsigned int " + "__numCalls__" + "" == "unsigned int __numCalls__";
  }

  lemma ObjectIsDeclared(f: Function, proto: bool)
    ensures Texts(ObjectParams(f, proto)) ==
            if !f.isNonStatic then []
            else ["CppUMockGen::Parameter<const " + f.className + "*> __object__" +
                  (if proto && f.ret.NoReturn? then " = ::CppUMockGen::IgnoreParameter::YES" else "")]
  {
    ObjectText(f.className);
  }

  lemma ObjectText(className: string)
    ensures ("CppUMockGen::Parameter<const " + className + "*> ") + "__object__" ==
            "CppUMockGen::Parameter<const " + className + "*> __object__"
  {
    assert "*> __object__" == "*> " + "__object__";
    Regroup("CppUMockGen::Parameter<const " + className, "*> ", "__object__");
  }

  /** An overload as a whole: what it declares, and for an implementation its body: for a single call a
      call of the other overload with 1 and all the parameters, otherwise its statements. */
  lemma OverloadText(f: Function, proto: bool, name: string, oneCall: bool)
    requires f.ValidArgs()
    ensures ExpectationText(f, proto, name, oneCall) ==
            "MockExpectedCall& " + name + "(" + Join(Texts(Params(f, proto, oneCall)), ", ") +
            if proto then ");\n"
            else ")\n{\n" +
                 (if oneCall then "    return " + name + "(" + Join(["1"] + Names(Params(f, false, true)), ", ") + ");"
                  else Flatten(StmtTexts(NCallBody(f)))) +
                 "\n}\n"
  {
    hide Params, Join, Texts, Names, Flatten, StmtTexts, NCallBody;
    if !proto && oneCall { OneCallBody(f, name); }
  }

  lemma OneCallBody(f: Function, name: string)
    requires f.ValidArgs()
    ensures BodyText(f, name, true) ==
            "    return " + name + "(" + Join(["1"] + Names(Params(f, false, true)), ", ") + ");"
  {
    hide Params, Join, Names;
    OneCallForwardsAll(f, name);
    AllButFirst(Names(Params(f, false, true)));
  }

  lemma AllButFirst(names: seq<string>)
    ensures (["__numCalls__"] + names)[1..] == names
  {
  }
}
