/** C++ types as clang presents them: every node may be const, typedefs and elaborated names
    are sugar over another type. */
module CppTypes {

  datatype Basic =
    | VoidType | BoolType | CharS | SChar | CharU | UChar | ShortType | UShort | IntType | UInt | LongType | ULong
    | LongLong | ULongLong | Char16 | Char32 | WChar | FloatType | DoubleType | LongDouble | NullPtr

  datatype CType = CType(isConst: bool, shape: Shape)

  /** `UnexposedType` is the kind given to template classes. */
  datatype Shape =
    | BasicType(basic: Basic)
    | EnumType(name: string)
    | RecordType(name: string)
    | UnexposedType(name: string)
    | PointerType(to: CType)
    | LValueRef(to: CType)
    | RValueRef(to: CType)
    | IncompleteArray(of: CType)
    | TypedefType(name: string, def: CType)
    | ElaboratedType(prefix: string, named: CType)

  predicate IsRef(t: CType) {
    t.shape.LValueRef? || t.shape.RValueRef?
  }

  predicate IsClass(t: CType) {
    t.shape.RecordType? || t.shape.UnexposedType?
  }

  predicate IsSugar(t: CType) {
    t.shape.TypedefType? || t.shape.ElaboratedType?
  }

  predicate IsVoid(t: CType) {
    t.shape == BasicType(VoidType)
  }

  /** Const on a type: adding it twice is adding it once, and on a reference it has no effect. */
  function AddConst(t: CType, isConst: bool): CType {
    if IsRef(t) then t else CType(t.isConst || isConst, t.shape)
  }

  /** The type without sugar. References to references collapse, and const on the element of
      an array becomes const on the array. */
  function Canonical(t: CType): (c: CType)
    ensures !IsSugar(c)
  {
    match t.shape
    case TypedefType(_, u) => AddConst(Canonical(u), t.isConst)
    case ElaboratedType(_, u) => AddConst(Canonical(u), t.isConst)
    case PointerType(p) => CType(t.isConst, PointerType(Canonical(p)))
    case LValueRef(p) =>
      var c := Canonical(p);
      CType(false, LValueRef(if IsRef(c) then c.shape.to else c))
    case RValueRef(p) =>
      var c := Canonical(p);
      if IsRef(c) then c else CType(false, RValueRef(c))
    case IncompleteArray(e) =>
      var c := Canonical(e);
      CType(t.isConst || c.isConst, IncompleteArray(CType(false, c.shape)))
    case _ => t
  }

  /** The type a reference refers to, looking through references it was formed from. */
  function Referee(p: CType): CType {
    match p.shape
    case LValueRef(q) => Referee(q)
    case RValueRef(q) => Referee(q)
    case TypedefType(_, u) => if IsRef(Canonical(u)) then Referee(u) else p
    case ElaboratedType(_, u) => if IsRef(Canonical(u)) then Referee(u) else p
    case _ => p
  }

  function Pointee(t: CType): CType
    requires t.shape.PointerType? || IsRef(t)
  {
    match t.shape
    case PointerType(p) => p
    case LValueRef(p) => Referee(p)
    case RValueRef(p) => Referee(p)
  }

  lemma {:induction false} RefereeIsCanonicalTarget(p: CType)
    ensures Canonical(Referee(p)) == if IsRef(Canonical(p)) then Canonical(p).shape.to else Canonical(p)
  {
    match p.shape
    case LValueRef(q) => RefereeIsCanonicalTarget(q);
    case RValueRef(q) => RefereeIsCanonicalTarget(q);
    case TypedefType(_, u) => RefereeIsCanonicalTarget(u);
    case ElaboratedType(_, u) => RefereeIsCanonicalTarget(u);
    case _ =>
  }

  /** Taking the pointee commutes with removing sugar. */
  lemma PointeeOfCanonical(t: CType)
    requires t.shape.PointerType? || t.shape.LValueRef? ||
             (t.shape.RValueRef? && !Canonical(t.shape.to).shape.LValueRef?)
    ensures var c := Canonical(t);
            && c.shape.PointerType? == t.shape.PointerType? && c.shape.LValueRef? == t.shape.LValueRef?
            && c.shape.RValueRef? == t.shape.RValueRef? && c.shape.to == Canonical(Pointee(t))
  {
    if !t.shape.PointerType? { RefereeIsCanonicalTarget(t.shape.to); }
  }

  // ----- Which types a declaration can have

  /** What C++ and clang allow, short of the types left out of the model. A reference is never
      const, an array node is not (its element is), only names are elaborated, and an rvalue
      reference to an lvalue reference is an lvalue reference. Pointees that would be spelled
      around the declarator (arrays) are left out where they are written as such; a name may
      still stand for one. */
  predicate WellFormed(t: CType) {
    match t.shape
    case TypedefType(_, u) => WellFormed(u) && (IsRef(Canonical(u)) ==> !t.isConst)
    case ElaboratedType(_, u) =>
      WellFormed(u) && !u.isConst && (u.shape.TypedefType? || u.shape.EnumType? || IsClass(u)) &&
        (IsRef(Canonical(u)) ==> !t.isConst)
    case PointerType(p) => WellFormed(p) && !IsRef(Canonical(p)) && !p.shape.IncompleteArray?
    case LValueRef(p) => WellFormed(p) && !t.isConst && !IsVoid(Canonical(p)) && !Referee(p).shape.IncompleteArray?
    case RValueRef(p) =>
      WellFormed(p) && !t.isConst && !IsVoid(Canonical(p)) && !Referee(p).shape.IncompleteArray? &&
        !Canonical(p).shape.LValueRef?
    case IncompleteArray(e) =>
      WellFormed(e) && !t.isConst && !IsRef(Canonical(e)) && !IsVoid(Canonical(e)) &&
        !Canonical(e).shape.IncompleteArray?
    case _ => true
  }

  /** Canonical types that canonicalisation leaves alone. */
  predicate IsCanonical(c: CType) {
    Canonical(c) == c
  }

  lemma {:induction false} CanonicalIsIdempotent(t: CType)
    requires WellFormed(t)
    ensures IsCanonical(Canonical(t))
    ensures IsRef(Canonical(t)) ==> !IsRef(Canonical(t).shape.to) && IsCanonical(Canonical(t).shape.to)
    ensures Canonical(t).shape.IncompleteArray? ==> !Canonical(t).shape.of.isConst
  {
    match t.shape
    case TypedefType(_, u) => CanonicalIsIdempotent(u);
    case ElaboratedType(_, u) => CanonicalIsIdempotent(u);
    case PointerType(p) => CanonicalIsIdempotent(p);
    case LValueRef(p) => CanonicalIsIdempotent(p);
    case RValueRef(p) => CanonicalIsIdempotent(p);
    case IncompleteArray(e) =>
      CanonicalIsIdempotent(e);
    case _ =>
  }

  // ----- Termination of the parsers

  /** How many times a parser may still descend: one for each layer of sugar or rvalue
      reference at the head. */
  function Rank(t: CType): nat {
    match t.shape
    case TypedefType(_, u) => 1 + Rank(u)
    case ElaboratedType(_, u) => 1 + Rank(u)
    case LValueRef(p) => Rank(p)
    case RValueRef(p) => 1 + Rank(p)
    case _ => 0
  }

  lemma {:induction false} RankOfReferee(p: CType)
    ensures Rank(Referee(p)) <= Rank(p)
  {
    match p.shape
    case LValueRef(q) => RankOfReferee(q);
    case RValueRef(q) => RankOfReferee(q);
    case TypedefType(_, u) => RankOfReferee(u);
    case ElaboratedType(_, u) => RankOfReferee(u);
    case _ =>
  }

  /** Canonicalisation never raises the measure and lowers it under sugar. */
  lemma {:induction false} CanonicalLowersRank(t: CType)
    ensures Rank(Canonical(t)) <= Rank(t)
    ensures IsSugar(t) ==> Rank(Canonical(t)) < Rank(t)
  {
    match t.shape
    case TypedefType(_, u) => CanonicalLowersRank(u);
    case ElaboratedType(_, u) => CanonicalLowersRank(u);
    case LValueRef(p) => CanonicalLowersRank(p);
    case RValueRef(p) => CanonicalLowersRank(p);
    case _ =>
  }

  // ----- Spelling

  function BasicName(b: Basic): string {
    match b
    case VoidType => "void" case BoolType => "bool"
    case CharS => "char" case SChar => "signed char" case CharU => "char" case UChar => "unsigned char"
    case ShortType => "short" case UShort => "unsigned short"
    case IntType => "int" case UInt => "unsigned int" case LongType => "long" case ULong => "unsigned long"
    case LongLong => "long long" case ULongLong => "unsigned long long"
    case Char16 => "char16_t" case Char32 => "char32_t" case WChar => "wchar_t"
    case FloatType => "float" case DoubleType => "double" case LongDouble => "long double"
    case NullPtr => "std::nullptr_t"
  }

  function ConstPrefix(isConst: bool): string {
    if isConst then "const " else ""
  }

  /** A declarator sign follows another sign directly and anything else after a space. */
  function Signed(text: string, sign: string): string {
    if text != "" && (text[|text| - 1] == '*' || text[|text| - 1] == '&') then text + sign else text + " " + sign
  }

  /** The type as source text. */
  function Spell(t: CType): string {
    match t.shape
    case BasicType(b) => ConstPrefix(t.isConst) + BasicName(b)
    case EnumType(n) => ConstPrefix(t.isConst) + n
    case RecordType(n) => ConstPrefix(t.isConst) + n
    case UnexposedType(n) => ConstPrefix(t.isConst) + n
    case TypedefType(n, _) => ConstPrefix(t.isConst) + n
    case ElaboratedType(prefix, u) => ConstPrefix(t.isConst) + prefix + Spell(u)
    case PointerType(p) => Signed(Spell(p), "*") + if t.isConst then "const" else ""
    case LValueRef(p) => Signed(Spell(p), "&")
    case RValueRef(p) => Signed(Spell(p), "&&")
    case IncompleteArray(e) => Spell(e) + " []"
  }

  /** Dropping the last sign of an rvalue reference leaves the lvalue reference to the same type. */
  lemma RValueRefSpelling(p: CType)
    ensures var s := Spell(CType(false, RValueRef(p)));
            s != "" && s[..|s| - 1] == Spell(CType(false, LValueRef(p)))
  {
  }
}
