/** The arguments of a function and what each contributes to the generated code
    (app/sources/Function.cpp, the Argument classes). */
module Arguments {
  import opened StringHelper
  import opened Overrides
  import opened Expressions

  /** The size of a memory buffer: that of the type pointed to, or an expression. */
  datatype BufferSize = FromType | FromExpression(hasPlaceholder: bool, front: string, back: string)

  datatype ArgKind =
    | Simple(ty: MockedType)
    | OutputArg(sizeFromType: bool)
    | BufferArg(size: BufferSize)
    | TypedInput(exposed: string, expected: string)
    | TypedOutput(exposed: string, expected: string)

  /** `front` and `back` surround the argument's name in the value passed to CppUMock. */
  datatype Argument =
    | Skipped(name: string, typePre: string, typePost: string)
    | Standard(name: string, typePre: string, typePost: string, expectationType: string, kind: ArgKind, front: string,
               back: string, byRef: bool, forceNotIgnored: bool, isRValueRef: bool, useBaseType: bool)

  /** A kind of its own for every type but the nine basic ones. */
  predicate IsBasicKind(k: ArgKind) {
    k.Simple? ==> IsReturnType(k.ty)
  }

  /** The kind of parameter that CppUMock records. */
  function Recorded(k: ArgKind): MockedType {
    match k
    case Simple(ty) => ty
    case OutputArg(_) => Output
    case BufferArg(_) => MemoryBuffer
    case TypedInput(_, _) => InputOfType
    case TypedOutput(_, _) => OutputOfType
  }

  /** A parameter as CppUMock knows it: what was recorded, for which exposed type, and its name. */
  datatype Parameter = Parameter(kind: MockedType, exposed: string, name: string)

  function ExposedName(k: ArgKind): string {
    if k.TypedInput? || k.TypedOutput? then k.exposed else ""
  }

  function ParameterOf(a: Argument): Parameter
    requires a.Standard?
  {
    Parameter(Recorded(a.kind), ExposedName(a.kind), a.name)
  }

  predicate IsInput(k: ArgKind) {
    !k.OutputArg? && !k.TypedOutput?
  }

  predicate CanBeIgnored(a: Argument) {
    a.Standard? && !a.forceNotIgnored && IsInput(a.kind)
  }

  /** The expectation takes the size as a parameter of its own. */
  predicate TakesSize(a: Argument) {
    a.Standard? && ((a.kind.OutputArg? && !a.kind.sizeFromType) || (a.kind.BufferArg? && a.kind.size.FromExpression?))
  }

  // ----- Signatures

  function SignatureText(typePre: string, name: string, typePost: string): string {
    TrimString(typePre + " " + name + typePost)
  }

  function MockSignature(a: Argument): string {
    if a.Skipped? then SignatureText(a.typePre, "", a.typePost) else SignatureText(a.typePre, a.name, a.typePost)
  }

  function KindBaseText(k: ArgKind): string {
    match k
    case Simple(ty) => BaseTypeText(ty)
    case OutputArg(_) => "const void*"
    case BufferArg(_) => "const void*"
    case TypedInput(_, expected) => "const " + expected + "*"
    case TypedOutput(_, expected) => "const " + expected + "*"
  }

  function ExpectationSignatureType(a: Argument): string
    requires a.Standard? && (a.isRValueRef ==> a.expectationType != "")
  {
    (if a.isRValueRef then a.expectationType[..|a.expectationType| - 1] else a.expectationType) +
    (if a.byRef then "&" else "")
  }

  ghost predicate Valid(a: Argument) {
    a.Standard? && a.isRValueRef ==> a.expectationType != ""
  }

  function UsedType(a: Argument): string
    requires a.Standard? && Valid(a)
  {
    if a.useBaseType then KindBaseText(a.kind) else ExpectationSignatureType(a)
  }

  function SizeName(a: Argument): string {
    "__sizeof_" + a.name
  }

  /** The declarations an argument adds to the expectation's signature; empty if skipped. */
  function ExpectationSignature(a: Argument): string
    requires Valid(a)
  {
    if a.Skipped? then ""
    else
      (if CanBeIgnored(a) then "CppUMockGen::Parameter<" + UsedType(a) + "> " else UsedType(a) + " ") + a.name +
      (if TakesSize(a) then ", size_t " + SizeName(a) else "")
  }

  /** The arguments with which one overload of the expectation calls the other. */
  function ExpectationCallArgument(a: Argument): string {
    if a.Skipped? then "" else a.name + (if TakesSize(a) then ", " + SizeName(a) else "")
  }

  // ----- Calls

  /** The method called on the actual call, in a mock, or on the expected one. */
  function MethodName(k: ArgKind, mock: bool): string {
    match k
    case Simple(ty) =>
      (match ty
       case Bool => "withBoolParameter" case Int => "withIntParameter" case UnsignedInt => "withUnsignedIntParameter"
       case Long => "withLongIntParameter" case UnsignedLong => "withUnsignedLongIntParameter"
       case Double => "withDoubleParameter" case String => "withStringParameter"
       case Pointer => "withPointerParameter" case _ => "withConstPointerParameter")
    case OutputArg(_) => if mock then "withOutputParameter" else "withOutputParameterReturning"
    case BufferArg(_) => "withMemoryBufferParameter"
    case TypedInput(_, _) => "withParameterOfType"
    case TypedOutput(_, _) => if mock then "withOutputParameterOfType" else "withOutputParameterOfTypeReturning"
  }

  /** What stands between the opening parenthesis and the name of the parameter. */
  function TypeText(k: ArgKind): string {
    if k.TypedInput? || k.TypedOutput? then ("\"" + k.exposed + "\"") + ", " else ""
  }

  function CallFront(k: ArgKind, mock: bool): string {
    MethodName(k, mock) + "(" + TypeText(k)
  }

  function CallMiddle(k: ArgKind): string {
    if k.BufferArg? then "static_cast<const unsigned char *>" + "(" + "static_cast<const void *>" + "(" else ""
  }

  /** The size passed with an output or a buffer: taken from the type, the parameter for it, or
      (in the mock) the expression of the override. */
  function SizeText(a: Argument, mock: bool, getter: string): string
    requires a.Standard?
  {
    if TakesSize(a) && !mock then SizeName(a)
    else
      match a.kind
      case BufferArg(FromExpression(placeholder, front, back)) => if placeholder then front + a.name + back else front
      case _ => "sizeof(*" + a.front + a.name + getter + a.back + ")"
  }

  function CallBack(a: Argument, mock: bool, getter: string): string
    requires a.Standard?
  {
    match a.kind
    case OutputArg(_) => if mock then ")" else ", " + SizeText(a, false, "") + ")"
    case BufferArg(_) => ")), " + SizeText(a, mock, getter) + ")"
    case _ => ")"
  }

  function MockBodyCall(a: Argument): string
    requires a.Standard?
  {
    CallFront(a.kind, true) + "\"" + a.name + "\", " + CallMiddle(a.kind) + a.front + a.name + a.back +
    CallBack(a, true, "")
  }

  function ExpectationBodyCall(a: Argument, getter: string): string
    requires a.Standard?
  {
    CallFront(a.kind, false) + "\"" + a.name + "\", " + CallMiddle(a.kind) +
    (if a.useBaseType then "" else a.front) + a.name + getter + (if a.useBaseType then "" else a.back) +
    CallBack(a, false, getter)
  }

  function MockBody(a: Argument): string {
    if a.Skipped? then "" else "." + MockBodyCall(a)
  }

  const CALL := "__expectedCall__"
  const FLAG := "__ignoreOtherParams__"

  function Registration(a: Argument): string
    requires a.Standard?
  {
    "    " + CALL + "." + ExpectationBodyCall(a, "") + ";\n"
  }

  function RegistrationUnlessIgnored(a: Argument): string
    requires a.Standard?
  {
    "    if(!" + a.name + ".isIgnored()) { " + CALL + "." + ExpectationBodyCall(a, ".getValue()") + "; }\n"
  }

  function RegistrationOrFlag(a: Argument): string
    requires a.Standard?
  {
    "    if(" + a.name + ".isIgnored()) { " + FLAG + " = true; } else { " + CALL + "." +
    ExpectationBodyCall(a, ".getValue()") + "; }\n"
  }

  function ExpectationBody(a: Argument, argumentsSkipped: bool): string {
    if a.Skipped? then ""
    else if !CanBeIgnored(a) then Registration(a)
    else if argumentsSkipped then RegistrationUnlessIgnored(a)
    else RegistrationOrFlag(a)
  }
}
