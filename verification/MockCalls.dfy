/** Reading a generated call back as CppUMock executes it: which parameter does the text
    report or register? */
module MockCalls {
  import opened StringHelper
  import opened Overrides
  import opened Arguments

  /** What a method of CppUMock records, on the actual call (in a mock) or on the expected one. */
  function MeaningOf(name: string, actual: bool): Option<MockedType> {
    match name
    case "withBoolParameter" => Some(Bool)
    case "withIntParameter" => Some(Int)
    case "withUnsignedIntParameter" => Some(UnsignedInt)
    case "withLongIntParameter" => Some(Long)
    case "withUnsignedLongIntParameter" => Some(UnsignedLong)
    case "withDoubleParameter" => Some(Double)
    case "withStringParameter" => Some(String)
    case "withPointerParameter" => Some(Pointer)
    case "withConstPointerParameter" => Some(ConstPointer)
    case "withMemoryBufferParameter" => Some(MemoryBuffer)
    case "withParameterOfType" => Some(InputOfType)
    case "withOutputParameter" => if actual then Some(Output) else None
    case "withOutputParameterReturning" => if actual then None else Some(Output)
    case "withOutputParameterOfType" => if actual then Some(OutputOfType) else None
    case "withOutputParameterOfTypeReturning" => if actual then None else Some(OutputOfType)
    case _ => None
  }

  /** What a method of CppUMock's actual call gives back. */
  function GivenBy(name: string): Option<MockedType> {
    match name
    case "returnBoolValue" => Some(Bool)
    case "returnIntValue" => Some(Int)
    case "returnUnsignedIntValue" => Some(UnsignedInt)
    case "returnLongIntValue" => Some(Long)
    case "returnUnsignedLongIntValue" => Some(UnsignedLong)
    case "returnDoubleValue" => Some(Double)
    case "returnStringValue" => Some(String)
    case "returnPointerValue" => Some(Pointer)
    case "returnConstPointerValue" => Some(ConstPointer)
    case _ => None
  }

  /** A string literal at the start of the text, and what follows it. */
  function ReadQuoted(text: string): Option<(string, string)> {
    if text == "" || text[0] != '"' then None
    else
      var end := Find(text, '"', 1);
      if end == |text| then None else Some((text[1..end], text[end + 1..]))
  }

  function ReadName(kind: MockedType, exposed: string, text: string): Option<Parameter> {
    match ReadQuoted(text)
    case None => None
    case Some(name) => Some(Parameter(kind, exposed, name.0))
  }

  /** The parameter that a `with...` call names. */
  function ReadParameter(call: string, actual: bool): Option<Parameter> {
    var open := Find(call, '(', 0);
    if open == |call| then None
    else
      var arguments := call[open + 1..];
      match MeaningOf(call[..open], actual)
      case None => None
      case Some(kind) =>
        if kind != InputOfType && kind != OutputOfType then ReadName(kind, "", arguments)
        else
          match ReadQuoted(arguments)
          case None => None
          case Some(ty) => if |ty.1| < 2 || ty.1[..2] != ", " then None else ReadName(kind, ty.0, ty.1[2..])
  }

  predicate NoQuote(s: string) {
    '"' !in s
  }

  lemma QuotedIsRead(s: string, rest: string)
    requires NoQuote(s)
    ensures ReadQuoted(("\"" + s + "\"") + rest) == Some((s, rest))
  {
    var text := ("\"" + s + "\"") + rest;
    assert text[|s| + 1] == '"' && text[1..|s| + 1] == s;
    assert Find(text, '"', 1) == |s| + 1;
    assert text[|s| + 2..] == rest;
  }

  lemma CallIsRead(name: string, arguments: string)
    requires '(' !in name
    ensures var call := name + "(" + arguments;
            var p := Find(call, '(', 0);
            p < |call| && call[..p] == name && call[p + 1..] == arguments
  {
    var call := name + "(" + arguments;
    assert call[|name|] == '(' && call[..|name|] == name;
    assert Find(call, '(', 0) == |name|;
  }

  predicate IsLetters(s: string) {
    forall i :: 0 <= i < |s| ==> 'a' <= s[i] <= 'z' || 'A' <= s[i] <= 'Z'
  }

  lemma ShortMethodsAreLetters(k: ArgKind, mock: bool)
    requires k.Simple? && k.ty in {Bool, Int, UnsignedInt, Long, Double, String}
    ensures IsLetters(MethodName(k, mock)) && MethodName(k, mock) != ""
  {
  }

  lemma LongMethodsAreLetters(k: ArgKind, mock: bool)
    requires k.Simple? && IsReturnType(k.ty) && k.ty !in {Bool, Int, UnsignedInt, Long, Double, String}
    ensures IsLetters(MethodName(k, mock)) && MethodName(k, mock) != ""
  {
  }

  lemma UntypedMethodsAreLetters(k: ArgKind, mock: bool)
    requires k.OutputArg? || k.BufferArg?
    ensures IsLetters(MethodName(k, mock)) && MethodName(k, mock) != ""
  {
  }

  lemma TypedMethodsAreLetters(k: ArgKind, mock: bool)
    requires k.TypedInput? || k.TypedOutput?
    ensures IsLetters(MethodName(k, mock)) && MethodName(k, mock) != ""
  {
  }

  lemma LettersHoldNoSign(s: string)
    requires IsLetters(s)
    ensures '(' !in s && ')' !in s && '"' !in s && '_' !in s && '{' !in s && '}' !in s && '.' !in s && '\n' !in s
  {
  }

  lemma MethodsAreLetters(k: ArgKind, mock: bool)
    requires IsBasicKind(k)
    ensures IsLetters(MethodName(k, mock)) && MethodName(k, mock) != ""
  {
    hide MethodName, IsLetters;
    if k.Simple? {
      if k.ty in {Bool, Int, UnsignedInt, Long, Double, String} {
        ShortMethodsAreLetters(k, mock);
      } else {
        LongMethodsAreLetters(k, mock);
      }
    } else if k.OutputArg? || k.BufferArg? {
      UntypedMethodsAreLetters(k, mock);
    } else {
      TypedMethodsAreLetters(k, mock);
    }
  }

  lemma SimpleMeanings(k: ArgKind, mock: bool)
    requires k.Simple? && IsReturnType(k.ty)
    ensures MeaningOf(MethodName(k, mock), mock) == Some(k.ty)
  {
    match k.ty
    case Bool => case Int => case UnsignedInt => case Long => case UnsignedLong => case Double =>
    case String => case Pointer => case ConstPointer =>
  }

  lemma OtherMeanings(k: ArgKind, mock: bool)
    requires !k.Simple?
    ensures MeaningOf(MethodName(k, mock), mock) == Some(Recorded(k))
  {
    match k
    case OutputArg(_) => case BufferArg(_) => case TypedInput(_, _) => case TypedOutput(_, _) =>
  }

  /** The method that is called records the kind of the argument. */
  lemma MethodMeans(k: ArgKind, mock: bool)
    requires IsBasicKind(k)
    ensures MeaningOf(MethodName(k, mock), mock) == Some(Recorded(k))
  {
    if k.Simple? { SimpleMeanings(k, mock); } else { OtherMeanings(k, mock); }
  }

  lemma TypeIsRead(k: ArgKind, name: string, rest: string)
    requires NoQuote(ExposedName(k)) && NoQuote(name)
    ensures var arguments := TypeText(k) + (("\"" + name + "\"") + rest);
            if k.TypedInput? || k.TypedOutput? then
              var ty := ReadQuoted(arguments);
              && ty.Some? && ty.value.0 == ExposedName(k) && |ty.value.1| >= 2 && ty.value.1[..2] == ", "
              && ReadQuoted(ty.value.1[2..]) == Some((name, rest))
            else ReadQuoted(arguments) == Some((name, rest))
  {
    hide ReadQuoted;
    var quoted := ("\"" + name + "\"") + rest;
    QuotedIsRead(name, rest);
    if k.TypedInput? || k.TypedOutput? {
      Regroup("\"" + k.exposed + "\"", ", ", quoted);
      QuotedIsRead(k.exposed, ", " + quoted);
      assert (", " + quoted)[..2] == ", " && (", " + quoted)[2..] == quoted;
    } else {
      assert "" + quoted == quoted;
    }
  }

  lemma WithCallIsRead(k: ArgKind, mock: bool, name: string, rest: string)
    requires IsBasicKind(k) && NoQuote(ExposedName(k)) && NoQuote(name)
    ensures ReadParameter(CallFront(k, mock) + (("\"" + name + "\"") + rest), mock) ==
            Some(Parameter(Recorded(k), ExposedName(k), name))
  {
    hide MethodName, IsLetters, MeaningOf, ReadQuoted, TypeText;
    var quoted := ("\"" + name + "\"") + rest;
    var m := MethodName(k, mock);
    MethodMeans(k, mock);
    MethodsAreLetters(k, mock);
    LettersHoldNoSign(m);
    Regroup(m + "(", TypeText(k), quoted);
    CallIsRead(m, TypeText(k) + quoted);
    TypeIsRead(k, name, rest);
    assert Recorded(k) in {InputOfType, OutputOfType} <==> k.TypedInput? || k.TypedOutput?;
  }

  lemma NameIsQuoted(front: string, name: string)
    ensures front + "\"" + name + "\", " == front + (("\"" + name + "\"") + ", ")
  {
    assert "\", " == "\"" + ", ";
  }

  lemma OnePieceMore(front: string, quoted: string, rest: string, piece: string)
    ensures (front + (quoted + rest)) + piece == front + (quoted + (rest + piece))
  {
  }

  lemma PiecesAfterName(front: string, name: string, a: string, b: string, c: string, d: string, e: string, f: string)
    ensures front + "\"" + name + "\", " + a + b + c + d + e + f ==
            front + (("\"" + name + "\"") + (", " + a + b + c + d + e + f))
  {
    NameIsQuoted(front, name);
    var q := "\"" + name + "\"";
    OnePieceMore(front, q, ", ", a);
    OnePieceMore(front, q, ", " + a, b);
    OnePieceMore(front, q, ", " + a + b, c);
    OnePieceMore(front, q, ", " + a + b + c, d);
    OnePieceMore(front, q, ", " + a + b + c + d, e);
    OnePieceMore(front, q, ", " + a + b + c + d + e, f);
  }

  /** The call in the mock and the call in the expectation name the same parameter: the same
      kind, exposed type and name, whatever the expectation gets the value with. */
  lemma CallsNameTheParameter(a: Argument, getter: string)
    requires a.Standard? && IsBasicKind(a.kind) && NoQuote(ExposedName(a.kind)) && NoQuote(a.name)
    ensures ReadParameter(MockBodyCall(a), true) == Some(ParameterOf(a))
    ensures ReadParameter(ExpectationBodyCall(a, getter), false) == Some(ParameterOf(a))
  {
    hide CallFront, ReadParameter, CallMiddle, CallBack;
    var m, k := CallMiddle(a.kind), CallBack(a, true, "");
    assert a.name + "" == a.name;
    NameThenNothing(CallFront(a.kind, true), a.name, m, a.front, a.back, k);
    PiecesAfterName(CallFront(a.kind, true), a.name, m, a.front, a.name, "", a.back, k);
    WithCallIsRead(a.kind, true, a.name, ", " + m + a.front + a.name + "" + a.back + k);
    var front, back := if a.useBaseType then "" else a.front, if a.useBaseType then "" else a.back;
    var e := CallBack(a, false, getter);
    PiecesAfterName(CallFront(a.kind, false), a.name, m, front, a.name, getter, back, e);
    WithCallIsRead(a.kind, false, a.name, ", " + m + front + a.name + getter + back + e);
  }

  lemma NameThenNothing(h: string, name: string, m: string, front: string, back: string, k: string)
    ensures h + "\"" + name + "\", " + m + front + name + "" + back + k ==
            h + "\"" + name + "\", " + m + front + name + back + k
  {
    var text := h + "\"" + name + "\", " + m + front + name;
    assert text + "" == text;
  }
}
