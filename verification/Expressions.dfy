/** The C++ expressions that mocks and expectations are built from: their text, their types
    (ISO/IEC 14882:2017, sections 8.2.9 and 7.11) and the values they have. */
module Expressions {
  import opened StringHelper
  import opened Overrides
  import opened CppTypes

  /** The type of what CppUMock stores for each kind of value. */
  function BaseType(k: MockedType): CType {
    match k
    case Bool => Plain(BoolType)
    case Int => Plain(IntType)
    case UnsignedInt => Plain(UInt)
    case Long => Plain(LongType)
    case UnsignedLong => Plain(ULong)
    case Double => Plain(DoubleType)
    case String => PointerTo(CharS, true)
    case Pointer => PointerTo(VoidType, false)
    case Output => PointerTo(VoidType, false)
    case OutputPOD => PointerTo(VoidType, false)
    case OutputOfType => PointerTo(VoidType, false)
    case MemoryBuffer => PointerTo(UChar, true)
    case _ => PointerTo(VoidType, true)
  }

  function Plain(b: Basic): CType {
    CType(false, BasicType(b))
  }

  function PointerTo(b: Basic, isConst: bool): CType {
    CType(false, PointerType(CType(isConst, BasicType(b))))
  }

  function BaseTypeText(k: MockedType): string {
    match k
    case Bool => "bool"
    case Int => "int"
    case UnsignedInt => "unsigned int"
    case Long => "long"
    case UnsignedLong => "unsigned long"
    case Double => "double"
    case String => "const char*"
    case Pointer => "void*"
    case _ => "const void*"
  }

  // ----- Expressions and their text

  /** The type-id of a cast, as it is written. */
  datatype CastTarget = Spelled(t: CType) | PtrTo(t: CType) | ConstPtrTo(t: CType) | Base(k: MockedType)

  /** An expression over one unknown: the call on the mock, or a variable. */
  datatype Expr =
    | Hole(ty: CType, isVariable: bool)
    | StaticCast(target: CastTarget, e: Expr)
    | Deref(e: Expr)
    | AddressOf(e: Expr)
    | Move(e: Expr)

  function TargetText(target: CastTarget): string {
    match target
    case Spelled(t) => Spell(t)
    case PtrTo(t) => Spell(t) + "*"
    case ConstPtrTo(t) => "const " + Spell(t) + "*"
    case Base(k) => BaseTypeText(k)
  }

  function CastOpening(target: CastTarget): string {
    "static_cast<" + TargetText(target) + ">("
  }

  /** What stands before the unknown. */
  function Front(e: Expr): string {
    match e
    case Hole(_, _) => ""
    case StaticCast(target, x) => CastOpening(target) + Front(x)
    case Deref(x) => "*" + Front(x)
    case AddressOf(x) => "&" + Front(x)
    case Move(x) => "std::move(" + Front(x)
  }

  /** What stands after it. */
  function Back(e: Expr): string {
    match e
    case Hole(_, _) => ""
    case StaticCast(_, x) => Back(x) + ")"
    case Deref(x) => Back(x)
    case AddressOf(x) => Back(x)
    case Move(x) => Back(x) + ")"
  }

  /** The whole expression with `hole` in place of the unknown. */
  function Text(e: Expr, hole: string): string {
    match e
    case Hole(_, _) => hole
    case StaticCast(target, x) => CastOpening(target) + Text(x, hole) + ")"
    case Deref(x) => "*" + Text(x, hole)
    case AddressOf(x) => "&" + Text(x, hole)
    case Move(x) => "std::move(" + Text(x, hole) + ")"
  }

  lemma Wrap5(open: string, front: string, hole: string, back: string, close: string)
    ensures open + (front + hole + back) + close == (open + front) + hole + (back + close)
  {
  }

  lemma Wrap4(open: string, front: string, hole: string, back: string)
    ensures open + (front + hole + back) == (open + front) + hole + back
  {
  }

  /** Front and back are the two halves of the printed expression. */
  lemma {:induction false} HalvesMakeText(e: Expr, hole: string)
    ensures Front(e) + hole + Back(e) == Text(e, hole)
  {
    match e
    case Hole(_, _) =>
    case StaticCast(target, x) =>
      HalvesMakeText(x, hole);
      Wrap5(CastOpening(target), Front(x), hole, Back(x), ")");
    case Deref(x) =>
      HalvesMakeText(x, hole);
      Wrap4("*", Front(x), hole, Back(x));
    case AddressOf(x) =>
      HalvesMakeText(x, hole);
      Wrap4("&", Front(x), hole, Back(x));
    case Move(x) =>
      HalvesMakeText(x, hole);
      Wrap5("std::move(", Front(x), hole, Back(x), ")");
  }

  /** The halves grow at the front and at the back as an expression is wrapped. */
  lemma WrappedHalves(e: Expr, target: CastTarget)
    ensures Front(Deref(e)) == "*" + Front(e) && Back(Deref(e)) == Back(e)
    ensures Front(StaticCast(target, e)) == CastOpening(target) + Front(e) &&
            Back(StaticCast(target, e)) == Back(e) + ")"
    ensures Front(Deref(StaticCast(target, e))) == ("*" + CastOpening(target)) + Front(e)
    ensures Back(Deref(StaticCast(target, e))) == Back(e) + ")"
    ensures Front(Move(Deref(e))) == ("std::move(" + "*") + Front(e) && Back(Move(Deref(e))) == Back(e) + ")"
  {
    assert Back(Deref(StaticCast(target, e))) == Back(StaticCast(target, e));
    Regroup("*", CastOpening(target), Front(e));
    assert Front(Move(Deref(e))) == "std::move(" + Front(Deref(e)) && Back(Move(Deref(e))) == Back(Deref(e)) + ")";
    Regroup("std::move(", "*", Front(e));
  }

  /** How the forms of expression are written. */
  lemma FormsAreWritten(t: CType, x: Expr, hole: string)
    ensures Text(StaticCast(Spelled(t), x), hole) == "static_cast<" + Spell(t) + ">(" + Text(x, hole) + ")"
    ensures Text(StaticCast(PtrTo(t), x), hole) == "static_cast<" + (Spell(t) + "*") + ">(" + Text(x, hole) + ")"
    ensures Text(StaticCast(ConstPtrTo(t), x), hole) ==
            "static_cast<" + ("const " + Spell(t) + "*") + ">(" + Text(x, hole) + ")"
    ensures Text(StaticCast(Base(Int), x), hole) == "static_cast<" + "int" + ">(" + Text(x, hole) + ")"
    ensures Text(Deref(x), hole) == "*" + Text(x, hole) && Text(AddressOf(x), hole) == "&" + Text(x, hole)
    ensures Text(Move(x), hole) == "std::move(" + Text(x, hole) + ")"
    ensures Text(Hole(t, true), hole) == hole
  {
    hide Spell;
    assert Text(Hole(t, true), hole) == hole;
  }

  // ----- Types

  datatype Category = LValue | XValue | PRValue

  /** The canonical, non-reference type of an expression and its value category. */
  datatype Typed = Typed(ty: CType, category: Category)

  /** The type of an expression declared with type `t`: a reference denotes what it refers to. */
  function Declared(t: CType): Typed {
    var c := Canonical(t);
    if IsRef(c) then Typed(c.shape.to, LValue) else Typed(c, LValue)
  }

  function TargetType(target: CastTarget): CType {
    match target
    case Spelled(t) => Canonical(t)
    case PtrTo(t) => CType(false, PointerType(Canonical(t)))
    case ConstPtrTo(t) => CType(false, PointerType(AddConst(Canonical(t), true)))
    case Base(k) => BaseType(k)
  }

  predicate IsArithmetic(t: CType) {
    t.shape.BasicType? && !IsVoid(t) && !t.shape.basic.NullPtr?
  }

  /** The same type but for const, which may only be added. */
  predicate Compatible(from: CType, to: CType) {
    from.shape == to.shape && (from.isConst ==> to.isConst)
  }

  /** Implicit conversion between pointers: to the same type or to void, adding const at most
      (section 7.11). */
  predicate PointerConverts(from: CType, to: CType) {
    (from.shape == to.shape || IsVoid(to)) && (from.isConst ==> to.isConst)
  }

  /** static_cast between pointers: an implicit conversion, or one from void (8.2.9, paragraph 13). */
  predicate PointerCasts(from: CType, to: CType) {
    PointerConverts(from, to) || (IsVoid(from) && (from.isConst ==> to.isConst))
  }

  predicate CastAllowed(x: Typed, to: CType) {
    match to.shape
    case LValueRef(u) => x.category.LValue? && Compatible(x.ty, u)
    case RValueRef(u) => !x.category.PRValue? && Compatible(x.ty, u)
    case PointerType(u) => x.ty.shape.PointerType? && PointerCasts(x.ty.shape.to, u)
    case EnumType(_) => IsArithmetic(x.ty) || x.ty.shape.EnumType?
    case BasicType(_) => IsArithmetic(to) && (IsArithmetic(x.ty) || x.ty.shape.EnumType?)
    case _ => false
  }

  function CastResult(to: CType): Typed {
    match to.shape
    case LValueRef(u) => Typed(u, LValue)
    case RValueRef(u) => Typed(u, XValue)
    case _ => Typed(to, PRValue)
  }

  function TypeOf(e: Expr): Option<Typed> {
    match e
    case Hole(t, isVariable) => Some(if isVariable then Declared(t) else Typed(t, PRValue))
    case StaticCast(target, x) =>
      match TypeOf(x) {
        case None => None
        case Some(tx) => if CastAllowed(tx, TargetType(target)) then Some(CastResult(TargetType(target))) else None
      }
    case Deref(x) =>
      match TypeOf(x) {
        case None => None
        case Some(tx) =>
          if tx.ty.shape.PointerType? && !IsVoid(tx.ty.shape.to) then Some(Typed(tx.ty.shape.to, LValue)) else None
      }
    case AddressOf(x) =>
      match TypeOf(x) {
        case None => None
        case Some(tx) => if tx.category.LValue? then Some(Typed(CType(false, PointerType(tx.ty)), PRValue)) else None
      }
    case Move(x) =>
      match TypeOf(x) {
        case None => None
        case Some(tx) => if tx.category.PRValue? then None else Some(Typed(tx.ty, XValue))
      }
  }

  /** Whether a declaration of canonical type `to` can be initialised with such an expression. A
      reference has to bind directly; enumerations do not convert to arithmetic types, since
      scoped ones do not. */
  predicate Converts(x: Typed, to: CType) {
    match to.shape
    case LValueRef(u) => x.category.LValue? && Compatible(x.ty, u)
    case RValueRef(u) => x.category.XValue? && Compatible(x.ty, u)
    case PointerType(u) =>
      if x.ty.shape.IncompleteArray? then PointerConverts(CType(x.ty.isConst, x.ty.shape.of.shape), u)
      else x.ty.shape.PointerType? && PointerConverts(x.ty.shape.to, u)
    case BasicType(_) => IsArithmetic(to) && IsArithmetic(x.ty)
    case EnumType(_) => x.ty.shape == to.shape
    case RecordType(_) => x.ty.shape == to.shape
    case UnexposedType(_) => x.ty.shape == to.shape
    case _ => false
  }

  // ----- Values

  /** A number, a floating point number, an address, or the contents of an object. */
  datatype Value = Num(n: int) | Flt(r: real) | Addr(loc: int) | Contents(id: int)

  /** What an expression denotes: the object at a location, or a value. */
  datatype Denotation = At(loc: int) | Pure(v: Value)

  type Store = map<int, Value>

  function Load(d: Denotation, store: Store): Option<Value> {
    match d
    case At(loc) => if loc in store then Some(store[loc]) else None
    case Pure(v) => Some(v)
  }

  /** The values of an integer type (64-bit long, 32-bit int and signed wchar_t). */
  function Lowest(b: Basic): int {
    match b
    case CharS => -0x80 case SChar => -0x80
    case ShortType => -0x8000
    case IntType => -0x8000_0000 case WChar => -0x8000_0000
    case LongType => -0x8000_0000_0000_0000 case LongLong => -0x8000_0000_0000_0000
    case _ => 0
  }

  function Highest(b: Basic): int {
    match b
    case BoolType => 1
    case CharS => 0x7F case SChar => 0x7F
    case CharU => 0xFF case UChar => 0xFF
    case ShortType => 0x7FFF
    case UShort => 0xFFFF case Char16 => 0xFFFF
    case IntType => 0x7FFF_FFFF case WChar => 0x7FFF_FFFF
    case UInt => 0xFFFF_FFFF case Char32 => 0xFFFF_FFFF
    case LongType => 0x7FFF_FFFF_FFFF_FFFF case LongLong => 0x7FFF_FFFF_FFFF_FFFF
    case ULong => 0xFFFF_FFFF_FFFF_FFFF case ULongLong => 0xFFFF_FFFF_FFFF_FFFF
    case _ => 0
  }

  predicate IsFloating(b: Basic) {
    b.FloatType? || b.DoubleType? || b.LongDouble?
  }

  /** Conversion to an integer type keeps a value it can hold and wraps any other; conversion
      to bool tests for zero. */
  function WrapTo(b: Basic, n: int): int {
    if b.BoolType? then (if n != 0 then 1 else 0)
    else if Lowest(b) <= n <= Highest(b) then n
    else (n - Lowest(b)) % (Highest(b) - Lowest(b) + 1) + Lowest(b)
  }

  /** Conversion of a value to a non-reference type. Enumerations are taken to be stored as int;
      rounding of floating point numbers is not modelled. */
  function ConvertTo(to: CType, v: Value): Option<Value> {
    match to.shape
    case PointerType(_) => if v.Addr? then Some(v) else None
    case EnumType(_) => if v.Num? then Some(Num(WrapTo(IntType, v.n))) else None
    case BasicType(b) =>
      if IsFloating(b) then (if v.Flt? then Some(v) else None)
      else if v.Num? then Some(Num(WrapTo(b, v.n))) else None
    case _ => None
  }

  /** `v` is a value that an object of type `t` can have. */
  predicate IsValueOf(v: Value, t: CType) {
    match t.shape
    case PointerType(_) => v.Addr?
    case EnumType(_) => v.Num? && Lowest(IntType) <= v.n <= Highest(IntType)
    case BasicType(b) => if IsFloating(b) then v.Flt? else v.Num? && Lowest(b) <= v.n <= Highest(b)
    case RecordType(_) => v.Contents?
    case UnexposedType(_) => v.Contents?
    case _ => false
  }

  /** The denotation of an expression whose unknown denotes `hole`. */
  function Eval(e: Expr, hole: Denotation, store: Store): Option<Denotation> {
    match e
    case Hole(_, _) => Some(hole)
    case StaticCast(target, x) =>
      match Eval(x, hole, store) {
        case None => None
        case Some(d) =>
          var to := TargetType(target);
          if IsRef(to) then Some(d)
          else
            match Load(d, store) {
              case None => None
              case Some(v) =>
                match ConvertTo(to, v) {
                  case None => None
                  case Some(r) => Some(Pure(r))
                }
            }
      }
    case Deref(x) =>
      match Eval(x, hole, store) {
        case None => None
        case Some(d) =>
          match Load(d, store) {
            case Some(Addr(loc)) => Some(At(loc))
            case _ => None
          }
      }
    case AddressOf(x) =>
      match Eval(x, hole, store) {
        case Some(At(loc)) => Some(Pure(Addr(loc)))
        case _ => None
      }
    case Move(x) => Eval(x, hole, store)
  }
}
