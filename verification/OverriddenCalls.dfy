/** What an override does, from the text that the manual gives for it to the calls that are generated
    (MANUAL.md, "Parameter Type Overrides" and "Return Type Overrides"; app/sources/Function.cpp). */
module OverriddenCalls {
  import opened StringHelper
  import opened Overrides
  import opened Expressions
  import opened CppTypes
  import opened Arguments
  import opened ArgumentParser
  import opened MockCalls
  import opened EmittedText
  import opened StatementNames
  import ReturnParser
  import OverrideOptions

  // ----- The overrides of the manual

  /** The mocked type of an override: a plain name, or one with a type or a size behind it. */
  datatype Mocked =
    | Plainly(name: string)
    | InputOf(declared: string, expected: Option<string>)
    | OutputOf(declared: string, expected: Option<string>)
    | BufferOf(front: string, back: Option<string>)

  function OfTypeText(declared: string, expected: Option<string>): string {
    match expected case None => declared case Some(e) => declared + "<" + e
  }

  function MockedText(m: Mocked): string {
    match m
    case Plainly(name) => name
    case InputOf(declared, expected) => "InputOfType:" + OfTypeText(declared, expected)
    case OutputOf(declared, expected) => "OutputOfType:" + OfTypeText(declared, expected)
    case BufferOf(front, None) => "MemoryBuffer:" + front
    case BufferOf(front, Some(back)) => "MemoryBuffer:" + (front + "$" + back)
  }

  /** The expression to pass instead of the parameter, around its name. */
  datatype Conversion = AsIs | By(front: string, back: string)

  function SpecText(m: Mocked, c: Conversion): string {
    MockedText(m) + match c case AsIs => "" case By(front, back) => "~" + (front + "$" + back)
  }

  /** The expression with something in place of the placeholder. */
  function Converted(c: Conversion, hole: string): string {
    match c case AsIs => hole case By(front, back) => front + hole + back
  }

  datatype SizeFrom = NoSize | FromPointedType | FromSizeExpression | FromParameter

  /** What is recorded, the type that the expectation takes if it is not the parameter's own, and
      where mock and expectation take the size from. */
  datatype Row = Row(recorded: MockedType, base: Option<string>, inMock: SizeFrom, inExpectation: SizeFrom)

  /** The table; None is what has no call. */
  function OverrideRow(m: Mocked): Option<Row> {
    match m
    case InputOf(declared, expected) => Some(Row(InputOfType, Some(PointerText(declared, expected)), NoSize, NoSize))
    case OutputOf(declared, expected) => Some(Row(OutputOfType, Some(PointerText(declared, expected)), NoSize, NoSize))
    case BufferOf(_, _) => Some(Row(MemoryBuffer, None, FromSizeExpression, FromParameter))
    case Plainly(name) =>
      match name
      case "Bool" => Some(Row(Bool, Some("bool"), NoSize, NoSize))
      case "Int" => Some(Row(Int, Some("int"), NoSize, NoSize))
      case "UnsignedInt" => Some(Row(UnsignedInt, Some("unsigned int"), NoSize, NoSize))
      case "LongInt" => Some(Row(Long, Some("long"), NoSize, NoSize))
      case "UnsignedLongInt" => Some(Row(UnsignedLong, Some("unsigned long"), NoSize, NoSize))
      case "Double" => Some(Row(Double, Some("double"), NoSize, NoSize))
      case "String" => Some(Row(String, Some("const char*"), NoSize, NoSize))
      case "Pointer" => Some(Row(Pointer, Some("void*"), NoSize, NoSize))
      case "ConstPointer" => Some(Row(ConstPointer, Some("const void*"), NoSize, NoSize))
      case "Output" => Some(Row(Output, None, NoSize, FromParameter))
      case "InputPOD" => Some(Row(MemoryBuffer, None, FromPointedType, FromPointedType))
      case "OutputPOD" => Some(Row(Output, None, NoSize, FromPointedType))
      case _ => None
  }

  function PointerText(declared: string, expected: Option<string>): string {
    "const " + (match expected case None => declared case Some(e) => e) + "*"
  }

  /** The type that is passed to the typed calls. */
  function DeclaredType(m: Mocked): string {
    match m case InputOf(d, _) => d case OutputOf(d, _) => d case _ => ""
  }

  const SIMPLE_NAMES := {"Bool", "Int", "UnsignedInt", "LongInt", "UnsignedLongInt", "Double", "String", "Pointer",
                         "ConstPointer"}
  const OTHER_NAMES := {"Output", "InputPOD", "OutputPOD", "Skip"}

  // ----- The specification that is read

  /** The specification that such a text stands for. */
  function SpecFor(m: Mocked, c: Conversion): OverrideSpec {
    var ty := match m
              case InputOf(_, _) => InputOfType
              case OutputOf(_, _) => OutputOfType
              case BufferOf(_, _) => MemoryBuffer
              case Plainly(name) => (match TypeNamed(name) case Some(t) => t case None => Skip);
    var expected := match m
                    case InputOf(d, e) => (match e case None => d case Some(x) => x)
                    case OutputOf(d, e) => (match e case None => d case Some(x) => x)
                    case _ => "";
    var size := match m
                case BufferOf(f, b) => (Some(b.Some?), f, match b case None => "" case Some(x) => x)
                case _ => (None, "", "");
    var mod := match c case AsIs => ("", "") case By(f, b) => (f, b);
    OverrideSpec(ty, DeclaredType(m), expected, mod.0, mod.1, size.0, size.1, size.2)
  }

  /** Text that can be written: one of the names, and parts that stand for themselves. */
  ghost predicate IsSaid(m: Mocked, c: Conversion, isReturn: bool) {
    && (m.Plainly? ==> m.name in SIMPLE_NAMES + OTHER_NAMES)
    && (m.InputOf? ==> m.expected != Some(m.declared)) && (m.OutputOf? ==> m.expected != Some(m.declared))
    && (c.By? ==> c.front != "" || c.back != "")
    && Expressible(SpecFor(m, c), isReturn)
  }

  lemma NamesAreTyped(name: string)
    requires name in SIMPLE_NAMES + OTHER_NAMES
    ensures TypeNamed(name).Some?
    ensures var t := TypeNamed(name).value; NameOf(t) == name && IsNamedType(t)
  {
    hide TypeNamed, NameOf;
    if name in SIMPLE_NAMES { SimpleNames(name); } else { OtherNames(name); }
  }

  lemma SimpleNames(name: string)
    requires name in SIMPLE_NAMES
    ensures TypeNamed(name).Some? && NameOf(TypeNamed(name).value) == name && IsReturnType(TypeNamed(name).value)
    ensures OverrideRow(Plainly(name)) ==
            Some(Row(TypeNamed(name).value, Some(BaseTypeText(TypeNamed(name).value)), NoSize, NoSize))
  {
  }

  lemma OtherNames(name: string)
    requires name in OTHER_NAMES
    ensures TypeNamed(name).Some? && NameOf(TypeNamed(name).value) == name && IsNamedType(TypeNamed(name).value)
    ensures !IsReturnType(TypeNamed(name).value)
  {
  }

  lemma SpecIsPrinted(m: Mocked, c: Conversion, isReturn: bool)
    requires IsSaid(m, c, isReturn)
    ensures SpecFor(m, c).ty.MemoryBuffer? <==> m.BufferOf?
    ensures SpecFor(m, c).ty.MemoryBuffer? ==> SpecFor(m, c).hasSizeExprPlaceholder.Some?
    ensures Print(SpecFor(m, c)) == SpecText(m, c)
  {
    hide Expressible, TypeNamed;
    var s := SpecFor(m, c);
    if m.Plainly? { NamesAreTyped(m.name); }
    MockedIsPrinted(m, c);
    match c
    case AsIs =>
    case By(front, back) => Regroup("~", front + ['$'], back);
  }

  lemma MockedIsPrinted(m: Mocked, c: Conversion)
    requires m.Plainly? ==> m.name in SIMPLE_NAMES + OTHER_NAMES
    requires (m.InputOf? ==> m.expected != Some(m.declared)) && (m.OutputOf? ==> m.expected != Some(m.declared))
    ensures var s := SpecFor(m, c);
            && (s.ty.MemoryBuffer? <==> m.BufferOf?) && (s.ty.MemoryBuffer? ==> s.hasSizeExprPlaceholder.Some?)
            && NameOf(s.ty) + RestText(s) == MockedText(m)
  {
    hide TypeNamed, Expressible;
    if m.Plainly? {
      NamesAreTyped(m.name);
      assert m.name + "" == m.name;
    }
  }

  /** The text of an override is read as the specification it stands for. */
  lemma SpecIsRead(m: Mocked, c: Conversion, isReturn: bool)
    requires IsSaid(m, c, isReturn)
    ensures SpecOf(SpecText(m, c), isReturn) == Ok(SpecFor(m, c))
  {
    SpecIsPrinted(m, c, isReturn);
    hide SpecFor, SpecText, Print, SpecOf, Expressible;
    SpecExpressible(m, c, isReturn);
    PrintedIsParsed(SpecFor(m, c), isReturn);
  }

  lemma SpecExpressible(m: Mocked, c: Conversion, isReturn: bool)
    requires IsSaid(m, c, isReturn)
    ensures Expressible(SpecFor(m, c), isReturn)
  {
  }

  // ----- The calls for an argument

  /** The argument was made by an override that says this. */
  ghost predicate IsMadeBy(a: Argument, t: CType, m: Mocked, c: Conversion) {
    a.Standard? && IsSaid(m, c, false) && BuiltFromOverride(a, t, SpecFor(m, c))
  }

  lemma OtherRows(name: string)
    requires name in OTHER_NAMES
    ensures TypeNamed(name).Some?
    ensures var t := TypeNamed(name).value;
            match OverrideRow(Plainly(name))
            case None => t == Skip
            case Some(row) =>
              || (t == Output && row == Row(Output, None, NoSize, FromParameter))
              || (t == InputPOD && row == Row(MemoryBuffer, None, FromPointedType, FromPointedType))
              || (t == OutputPOD && row == Row(Output, None, NoSize, FromPointedType))
  {
  }

  /** The kind of argument that has such calls. */
  ghost predicate KindFits(k: ArgKind, m: Mocked, row: Row) {
    match row.recorded
    case MemoryBuffer =>
      && k.BufferArg?
      && (if row.inMock == FromPointedType then k.size == FromType && row.inExpectation == FromPointedType
          else m.BufferOf? && row.inMock == FromSizeExpression && row.inExpectation == FromParameter &&
               k.size == FromExpression(m.back.Some?, m.front, match m.back case None => "" case Some(b) => b))
    case Output =>
      && k == OutputArg(row.inExpectation == FromPointedType) && row.inMock == NoSize
      && (row.inExpectation == FromPointedType || row.inExpectation == FromParameter)
    case InputOfType =>
      && k.TypedInput? && k.exposed == DeclaredType(m) && row.inMock == row.inExpectation == NoSize
    case OutputOfType =>
      && k.TypedOutput? && k.exposed == DeclaredType(m) && row.inMock == row.inExpectation == NoSize
    case ty => k == Simple(ty) && row.inMock == row.inExpectation == NoSize && IsReturnType(ty)
  }

  /** An override gives the kind of the table, and the expectation takes the table's type. */
  lemma KindOfOverride(m: Mocked, c: Conversion, k: ArgKind)
    requires IsSaid(m, c, false)
    ensures var s := SpecFor(m, c);
            && (s.ty.MemoryBuffer? ==> s.hasSizeExprPlaceholder.Some?)
            && (OverrideKind(s) == Some(k) ==>
                  && OverrideRow(m).Some?
                  && var row := OverrideRow(m).value;
                     && KindFits(k, m, row) && (DeclaredType(m) == "" || k.TypedInput? || k.TypedOutput?)
                     && OverrideUsesBaseType(s.ty) == row.base.Some?
                     && (row.base.Some? ==> KindBaseText(k) == row.base.value))
  {
    hide TypeNamed, Expressible, BaseTypeText;
    SpecIsPrinted(m, c, false);
    match m
    case Plainly(name) => if name in SIMPLE_NAMES { SimpleNames(name); } else { OtherRows(name); }
    case _ =>
  }

  /** What closes the call in the mock: the size comes from what the value points to, or from the
      size expression with the name for its placeholder. */
  function MockEnd(m: Mocked, c: Conversion, name: string): string {
    match OverrideRow(m)
    case Some(row) =>
      (match row.inMock
       case FromPointedType => ")), sizeof(*" + Converted(c, name) + "))"
       case FromSizeExpression =>
         ")), " + (match m case BufferOf(f, Some(b)) => f + name + b case BufferOf(f, None) => f case _ => "") + ")"
       case _ => ")")
    case None => ""
  }

  /** And in the expectation: from what the value points to, or from the parameter for the size. */
  function ExpectationEnd(m: Mocked, c: Conversion, name: string, getter: string): string {
    match OverrideRow(m)
    case Some(row) =>
      var open := if row.recorded == MemoryBuffer then ")), " else ", ";
      (match row.inExpectation
       case FromPointedType =>
         open + ("sizeof(*" + Converted(c, if row.recorded == Output then name else name + getter) + ")") + ")"
       case FromParameter => open + ("__sizeof_" + name) + ")"
       case _ => ")")
    case None => ""
  }

  /** What is passed where the mock's calls are printed. */
  function MockValue(m: Mocked, c: Conversion, name: string): string {
    CastsOf(m) + Converted(c, name) + MockEnd(m, c, name)
  }

  function CastsOf(m: Mocked): string {
    if OverrideRow(m).Some? && OverrideRow(m).value.recorded == MemoryBuffer
    then "static_cast<const unsigned char *>" + "(" + "static_cast<const void *>" + "(" else ""
  }

  /** The expectation takes the mocked type's base type for what it is, and converts a value of the
      parameter's own type as the mock does. */
  function ExpectationValue(m: Mocked, c: Conversion, name: string, getter: string): string {
    CastsOf(m) + (if OverrideRow(m).Some? && OverrideRow(m).value.base.Some? then name + getter
                  else Converted(c, name + getter)) +
    ExpectationEnd(m, c, name, getter)
  }

  lemma MadeByHalves(a: Argument, t: CType, m: Mocked, c: Conversion)
    requires IsMadeBy(a, t, m, c)
    ensures OverrideRow(m).Some? && KindFits(a.kind, m, OverrideRow(m).value)
    ensures DeclaredType(m) == "" || a.kind.TypedInput? || a.kind.TypedOutput?
    ensures var row := OverrideRow(m).value;
            a.useBaseType == row.base.Some? && (row.base.Some? ==> KindBaseText(a.kind) == row.base.value)
    ensures forall hole :: a.front + hole + a.back == Converted(c, hole)
    ensures !a.byRef && !a.isRValueRef && !a.forceNotIgnored
  {
    hide TypeNamed, Expressible, OverrideKind, KindFits, OverrideRow, OverrideUsesBaseType, TypeTexts, KindBaseText;
    KindOfOverride(m, c, a.kind);
    forall hole ensures a.front + hole + a.back == Converted(c, hole) {
      if c.AsIs? { assert "" + hole + "" == hole; }
    }
  }

  lemma FittingKind(k: ArgKind, m: Mocked, row: Row)
    requires OverrideRow(m) == Some(row) && KindFits(k, m, row)
    requires DeclaredType(m) == "" || k.TypedInput? || k.TypedOutput?
    ensures IsBasicKind(k) && Recorded(k) == row.recorded && ExposedName(k) == DeclaredType(m)
    ensures CallMiddle(k) == CastsOf(m)
    ensures row.inExpectation == FromParameter <==>
            (k.OutputArg? && !k.sizeFromType) || (k.BufferArg? && k.size.FromExpression?)
    ensures IsInput(k) <==> row.recorded != Output && row.recorded != OutputOfType
  {
  }

  /** The calls that are printed for an overridden parameter are read as recording what the table says,
      under its declared type and its name. */
  lemma OverriddenCallsAreRead(a: Argument, t: CType, m: Mocked, c: Conversion, getter: string)
    requires IsMadeBy(a, t, m, c) && NoQuote(DeclaredType(m)) && NoQuote(a.name)
    ensures OverrideRow(m).Some?
    ensures var p := Parameter(OverrideRow(m).value.recorded, DeclaredType(m), a.name);
            ReadParameter(MockBodyCall(a), true) == Some(p) == ReadParameter(ExpectationBodyCall(a, getter), false)
  {
    MadeByHalves(a, t, m, c);
    FittingKind(a.kind, m, OverrideRow(m).value);
    hide IsMadeBy, OverrideRow, KindFits, MockBodyCall, ExpectationBodyCall, ReadParameter;
    CallsNameTheParameter(a, getter);
  }

  lemma SizeParts(front: string, name: string, getter: string, back: string, whole: string)
    requires front + (name + getter) + back == whole
    ensures "sizeof(*" + front + name + getter + back + ")" == "sizeof(*" + whole + ")"
  {
    Regroup(front, name, getter);
    Regroup("sizeof(*", front, name);
    Regroup("sizeof(*", front + name, getter);
    Regroup("sizeof(*", front + name + getter, back);
  }

  lemma SizeClosed(whole: string)
    ensures ")), " + ("sizeof(*" + whole + ")") + ")" == ")), sizeof(*" + whole + "))"
  {
    assert ")), sizeof(*" == ")), " + "sizeof(*" && "))" == ")" + ")";
    Regroup(")), ", "sizeof(*", whole);
    Regroup(")), ", "sizeof(*" + whole, ")");
    Regroup(")), sizeof(*" + whole, ")", ")");
  }

  lemma BufferEnds(a: Argument, m: Mocked, c: Conversion, getter: string)
    requires a.Standard? && OverrideRow(m).Some? && KindFits(a.kind, m, OverrideRow(m).value)
    requires OverrideRow(m).value.recorded == MemoryBuffer
    requires forall hole :: a.front + hole + a.back == Converted(c, hole)
    ensures CallBack(a, true, "") == MockEnd(m, c, a.name)
    ensures CallBack(a, false, getter) == ExpectationEnd(m, c, a.name, getter)
  {
    hide OverrideRow, DeclaredType, Converted;
    assert a.name + "" == a.name && a.front + a.name + a.back == Converted(c, a.name);
    SizeParts(a.front, a.name, "", a.back, Converted(c, a.name));
    SizeParts(a.front, a.name, getter, a.back, Converted(c, a.name + getter));
    SizeClosed(Converted(c, a.name));
  }

  lemma OtherEnds(a: Argument, m: Mocked, c: Conversion, getter: string)
    requires a.Standard? && OverrideRow(m).Some? && KindFits(a.kind, m, OverrideRow(m).value)
    requires OverrideRow(m).value.recorded != MemoryBuffer
    requires forall hole :: a.front + hole + a.back == Converted(c, hole)
    ensures CallBack(a, true, "") == MockEnd(m, c, a.name)
    ensures CallBack(a, false, getter) == ExpectationEnd(m, c, a.name, getter)
  {
    hide OverrideRow, DeclaredType, Converted;
    assert a.name + "" == a.name && a.front + a.name + a.back == Converted(c, a.name);
    SizeParts(a.front, a.name, "", a.back, Converted(c, a.name));
  }

  lemma CallsEnd(a: Argument, t: CType, m: Mocked, c: Conversion, getter: string)
    requires IsMadeBy(a, t, m, c)
    ensures CallBack(a, true, "") == MockEnd(m, c, a.name)
    ensures CallBack(a, false, getter) == ExpectationEnd(m, c, a.name, getter)
  {
    MadeByHalves(a, t, m, c);
    hide CallBack, MockEnd, ExpectationEnd, OverrideRow, KindFits;
    if OverrideRow(m).value.recorded == MemoryBuffer {
      BufferEnds(a, m, c, getter);
    } else {
      OtherEnds(a, m, c, getter);
    }
  }

  lemma FiveParts(h: string, m: string, f: string, n: string, g: string, b: string, e: string, value: string)
    requires f + (n + g) + b == value
    ensures h + m + f + n + g + b + e == h + (m + value + e)
  {
    Regroup(f, n, g);
    Regroup(h, m, f);
    Regroup(h, m + f, n);
    Regroup(h, m + f + n, g);
    Regroup(h, m + f + n + g, b);
    Regroup(h, m + f + n + g + b, e);
    Regroup(m, f, n);
    Regroup(m, f + n, g);
    Regroup(m, f + n + g, b);
  }

  lemma MockPasses(a: Argument, t: CType, m: Mocked, c: Conversion)
    requires IsMadeBy(a, t, m, c)
    ensures MockBodyCall(a) == CallFront(a.kind, true) + "\"" + a.name + "\", " + MockValue(m, c, a.name)
  {
    MadeByHalves(a, t, m, c);
    FittingKind(a.kind, m, OverrideRow(m).value);
    CallsEnd(a, t, m, c, "");
    hide IsMadeBy, OverrideRow, KindFits, CallFront, CallMiddle, CallBack, MockEnd, CastsOf, Converted, DeclaredType;
    var head, e := CallFront(a.kind, true) + "\"" + a.name + "\", ", CallBack(a, true, "");
    assert a.front + (a.name + "") + a.back == Converted(c, a.name) by { assert a.name + "" == a.name; }
    FiveParts(head, CallMiddle(a.kind), a.front, a.name, "", a.back, e, Converted(c, a.name));
    assert head + CallMiddle(a.kind) + a.front + a.name + "" == head + CallMiddle(a.kind) + a.front + a.name;
  }

  lemma ExpectationPasses(a: Argument, t: CType, m: Mocked, c: Conversion, getter: string)
    requires IsMadeBy(a, t, m, c)
    ensures ExpectationBodyCall(a, getter) ==
            CallFront(a.kind, false) + "\"" + a.name + "\", " + ExpectationValue(m, c, a.name, getter)
  {
    MadeByHalves(a, t, m, c);
    FittingKind(a.kind, m, OverrideRow(m).value);
    CallsEnd(a, t, m, c, getter);
    hide IsMadeBy, OverrideRow, KindFits, CallFront, CallMiddle, CallBack, ExpectationEnd, CastsOf, Converted,
         DeclaredType;
    var front, back := if a.useBaseType then "" else a.front, if a.useBaseType then "" else a.back;
    var value := if a.useBaseType then a.name + getter else Converted(c, a.name + getter);
    assert "" + (a.name + getter) + "" == a.name + getter;
    FiveParts(CallFront(a.kind, false) + "\"" + a.name + "\", ", CallMiddle(a.kind), front, a.name, getter, back,
              CallBack(a, false, getter), value);
  }

  /** The mock passes the parameter, converted as the override says, and the size from where the table
      takes it; the expectation takes what the table says and passes it on likewise. */
  lemma OverriddenCallsPass(a: Argument, t: CType, m: Mocked, c: Conversion, getter: string)
    requires IsMadeBy(a, t, m, c)
    ensures MockBodyCall(a) == CallFront(a.kind, true) + "\"" + a.name + "\", " + MockValue(m, c, a.name)
    ensures ExpectationBodyCall(a, getter) ==
            CallFront(a.kind, false) + "\"" + a.name + "\", " + ExpectationValue(m, c, a.name, getter)
  {
    hide *;
    MockPasses(a, t, m, c);
    ExpectationPasses(a, t, m, c, getter);
  }

  /** The expectation declares the table's type, a parameter for the size exactly if the table takes it
      from there, and lets the parameter be ignored exactly if it is an input. */
  lemma OverriddenParameters(a: Argument, t: CType, m: Mocked, c: Conversion)
    requires IsMadeBy(a, t, m, c)
    ensures Valid(a) && OverrideRow(m).Some?
    ensures var row := OverrideRow(m).value;
            && UsedType(a) == (match row.base case Some(text) => text case None => a.expectationType)
            && (TakesSize(a) <==> row.inExpectation == FromParameter)
            && (CanBeIgnored(a) <==> row.recorded != Output && row.recorded != OutputOfType)
  {
    MadeByHalves(a, t, m, c);
    FittingKind(a.kind, m, OverrideRow(m).value);
    hide IsMadeBy, OverrideRow, KindBaseText, KindFits, Recorded, CallMiddle, CastsOf;
    assert a.expectationType + "" == a.expectationType;
  }

  // ----- The return

  /** An overridden return asks for the kind that the table names, converts it as the override says, and
      declares and registers a value of that kind's type. */
  lemma OverriddenReturn(r: ReturnParser.ReturnStandard, name: string, c: Conversion, call: string)
    requires IsSaid(Plainly(name), c, true) && r.HoldsOverride(SpecFor(Plainly(name), c))
    ensures OverrideRow(Plainly(name)).Some?
    ensures var row := OverrideRow(Plainly(name)).value;
            && GivenBy(ReturnParser.Getter(r.kind)) == Some(row.recorded)
            && row.base.Some? && r.ParamDeclaration() == row.base.value + " "
    ensures r.MockBodyFront() + call + r.MockBodyBack() ==
            "return " + Converted(c, call + ("." + ReturnParser.Getter(r.kind) + "()"))
    ensures r.ExpectationBody() == "    __expectedCall__.andReturnValue(__return__);\n"
  {
    hide TypeNamed, BaseTypeText, ReturnParser.Getter, GivenBy;
    ReturnName(name, c);
    SimpleNames(name);
    GettersMean(r.kind);
    ReturnedText(r.mockFront, call, "." + ReturnParser.Getter(r.kind) + "()", r.mockBack);
    if c.AsIs? { ReturnedAsIs("return ", call + ("." + ReturnParser.Getter(r.kind) + "()")); }
    PlainReturnText();
  }

  lemma ReturnName(name: string, c: Conversion)
    requires IsSaid(Plainly(name), c, true)
    ensures name in SIMPLE_NAMES
  {
    hide TypeNamed;
    if name in OTHER_NAMES { OtherNames(name); }
  }

  lemma ReturnedAsIs(start: string, value: string)
    ensures start + ("" + value + "") == start + value
  {
    assert "" + value + "" == value;
  }

  lemma ReturnedText(front: string, call: string, getter: string, back: string)
    ensures ("return " + front) + call + (getter + back) == "return " + (front + (call + getter) + back)
  {
    Regroup("return ", front, call);
    Regroup("return " + (front + call), getter, back);
    Regroup("return ", front + call, getter);
    Regroup(front, call, getter);
    Regroup("return ", front + (call + getter), back);
  }

  lemma PlainReturnText()
    ensures "    __expectedCall__.andReturnValue(" + "" + "" + "__return__" + "" + "" + ");\n" ==
            "    __expectedCall__.andReturnValue(__return__);\n"
  {
    var start := "    __expectedCall__.andReturnValue(";
    assert start + "" + "" == start && start + "__return__" + "" + "" == start + "__return__";
    assert "    __expectedCall__.andReturnValue(__return__);\n" == start + ("__return__" + ");\n");
    Regroup(start, "__return__", ");\n");
  }

  // ----- From the option to the argument

  /** An option is written as its subject, a separator and what the override says. */
  lemma OptionText(subject: OverrideOptions.Subject, m: Mocked, c: Conversion)
    requires OverrideOptions.Writes(subject) && IsSaid(m, c, OverrideOptions.IsForReturn(subject))
    ensures var o := OverrideOptions.Override(subject, SpecFor(m, c));
            && OverrideOptions.IsGiven(o)
            && OverrideOptions.Written(o) == OverrideOptions.Key(subject) + "=" + SpecText(m, c)
  {
    SpecIsPrinted(m, c, OverrideOptions.IsForReturn(subject));
    hide SpecFor, SpecText, Print, Expressible, OverrideOptions.Writes;
    SpecExpressible(m, c, OverrideOptions.IsForReturn(subject));
  }

  /** What comes of a parameter that an option names, or whose type one names and none the parameter:
      it is skipped if the option says so, and otherwise made by what the option says. */
  lemma OverrideApplies(p: Parser, options: seq<string>, overrides: seq<OverrideOptions.Override>, f: string,
      name: string, t: CType, r: ArgOutcome, m: Mocked, c: Conversion)
    requires OverrideOptions.Say(options, overrides) && Holds(p.config, options) && IsSaid(m, c, false)
    requires OverrideOptions.Reads(OverrideOptions.ParameterOf(f, name))
    requires OverrideOptions.Reads(OverrideOptions.ParameterOfType(Spell(t)))
    requires IsOutcome(r, p.useUnderlyingTypedef, p.OverrideFor(f, name, t), name, t)
    requires || OverrideOptions.IsOverridden(overrides, OverrideOptions.ParameterOf(f, name), SpecFor(m, c))
             || (OverrideOptions.IsOverridden(overrides, OverrideOptions.ParameterOfType(Spell(t)), SpecFor(m, c)) &&
                 forall s :: !OverrideOptions.IsOverridden(overrides, OverrideOptions.ParameterOf(f, name), s))
    ensures r.Parsed? && r.arg.name == name
    ensures if m == Plainly("Skip") then r.arg.Skipped? else IsMadeBy(r.arg, t, m, c)
  {
    OverrideOptions.ArgumentOverrideIs(p, options, overrides, f, name, t, SpecFor(m, c));
    SkipIsSkip(m, c);
    hide OverrideOptions.IsOverridden, OverrideOptions.Say, Holds, Spell, SpecFor, IsSaid, ArgTypeSpec, AreCutFrom,
         TypeTexts, p.OverrideFor;
  }

  lemma SkipIsSkip(m: Mocked, c: Conversion)
    requires IsSaid(m, c, false)
    ensures SpecFor(m, c).ty.Skip? <==> m == Plainly("Skip")
  {
    hide Expressible, TypeNamed;
    if m.Plainly? {
      if m.name in SIMPLE_NAMES { SimpleNames(m.name); } else { OtherRows(m.name); SkipIsNamed(m.name); }
    }
  }

  lemma SkipIsNamed(name: string)
    requires name in OTHER_NAMES
    ensures TypeNamed(name) == Some(Skip) <==> name == "Skip"
  {
  }
}
