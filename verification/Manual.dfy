/** The manual's table of the calls that are made for each type (MANUAL.md, "Mocked Parameter and
    Return Types"), read row by row over canonical types and without regard to the code. */
module Manual {
  import opened StringHelper
  import opened Overrides
  import opened CppTypes
  import opened Arguments

  /** The rows of the primitive types; the two plain characters are both spelled `char`, and signed
      char is read as char. */
  function BasicRow(b: Basic): Option<MockedType> {
    match b
    case BoolType => Some(Bool)
    case CharS => Some(Int) case CharU => Some(Int) case SChar => Some(Int)
    case ShortType => Some(Int) case IntType => Some(Int) case WChar => Some(Int)
    case UChar => Some(UnsignedInt) case UShort => Some(UnsignedInt)
    case UInt => Some(UnsignedInt) case Char16 => Some(UnsignedInt)
    case LongType => Some(Long)
    case ULong => Some(UnsignedLong) case Char32 => Some(UnsignedLong)
    case FloatType => Some(Double) case DoubleType => Some(Double)
    case _ => None
  }

  predicate IsPlainChar(b: Basic) {
    b == CharS || b == CharU
  }

  predicate IsConstChar(p: CType) {
    p.isConst && p.shape.BasicType? && IsPlainChar(p.shape.basic)
  }

  /** The rows of pointers, by what they point to; const is looked at before anything else but
      class and character. */
  function PointerRow(p: CType): ArgKind {
    if IsConstChar(p) then Simple(String)
    else if IsClass(p) then (if p.isConst then TypedInput("", "") else TypedOutput("", ""))
    else if p.isConst then Simple(ConstPointer)
    else if IsVoid(p) || p.shape.PointerType? then Simple(Pointer)
    else OutputArg(false)
  }

  /** The rows of references, in which the size of an output is that of its type. */
  function ReferenceRow(p: CType): ArgKind {
    if IsClass(p) then (if p.isConst then TypedInput("", "") else TypedOutput("", ""))
    else if p.isConst then Simple(ConstPointer)
    else if p.shape.PointerType? then Simple(Pointer)
    else OutputArg(true)
  }

  /** The first two columns. An array parameter is a pointer to its element, and an rvalue reference
      to anything but a class is documented as what it refers to. */
  function DocumentedKind(c: CType): Option<ArgKind> {
    match c.shape
    case BasicType(b) => (match BasicRow(b) case None => None case Some(k) => Some(Simple(k)))
    case EnumType(_) => Some(Simple(Int))
    case PointerType(p) => Some(PointerRow(p))
    case IncompleteArray(e) => Some(PointerRow(CType(c.isConst, e.shape)))
    case LValueRef(p) => Some(ReferenceRow(p))
    case RValueRef(p) => if IsClass(p) then Some(ReferenceRow(p)) else DocumentedKind(p)
    case _ => Some(TypedInput("", ""))
  }

  /** The first column and the last. */
  function DocumentedReturn(c: CType): Option<MockedType> {
    match c.shape
    case BasicType(b) => BasicRow(b)
    case EnumType(_) => Some(Int)
    case PointerType(p) => Some(if IsConstChar(p) then String else if p.isConst then ConstPointer else Pointer)
    case LValueRef(p) => Some(if p.isConst then ConstPointer else Pointer)
    case RValueRef(p) => Some(if p.isConst then ConstPointer else Pointer)
    case IncompleteArray(_) => None
    case _ => Some(ConstPointer)
  }

  /** What the table speaks of behind an rvalue reference. */
  function Through(c: CType): CType {
    if c.shape.RValueRef? && !IsClass(c.shape.to) then c.shape.to else c
  }

  /** Unsigned plain characters, and pointers to them if they are const. */
  predicate IsUnsignedChar(c: CType) {
    || c.shape == BasicType(CharU)
    || (c.shape.PointerType? && c.shape.to == CType(true, BasicType(CharU)))
  }
}
