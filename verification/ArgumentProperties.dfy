/** What holds of the value and kind chosen for every argument type. */
module ArgumentProperties {
  import opened StringHelper
  import opened Overrides
  import opened CppTypes
  import opened Expressions
  import opened Arguments
  import opened ArgumentParser
  import opened ReturnProperties
  import opened Manual

  // ----- The value converts to what CppUMock takes

  /** The canonical type that the `with...` call of a kind takes for the value. */
  function Taken(k: ArgKind): CType {
    BaseType(if k.BufferArg? then ConstPointer else Recorded(k))
  }

  predicate IsWritable(k: ArgKind) {
    k.OutputArg? || k.TypedOutput? || k == Simple(Pointer)
  }

  /** Const that is written on an elaborated array type is dropped with the name. */
  predicate DropsConst(t: CType) {
    t.shape.ElaboratedType? && t.isConst && Canonical(t.shape.named).shape.IncompleteArray? &&
      !Canonical(t.shape.named).isConst
  }

  /** The types for which it is dropped: such a type itself or behind an rvalue reference. */
  predicate LosesConst(t: CType) {
    DropsConst(t) || (t.shape.RValueRef? && DropsConst(Pointee(t)))
  }

  /** The type being looked at stands for the type of the argument: the same object, const
      possibly dropped except on arrays. */
  ghost predicate Matches(t: CType, orig: CType) {
    var c, o := Target(Canonical(t)), Target(Canonical(orig));
    && c.shape == o.shape && (c.isConst ==> o.isConst) && (c.shape.IncompleteArray? ==> c.isConst == o.isConst)
    && (IsRef(Canonical(t)) ==> Canonical(t) == Canonical(orig))
  }

  ghost predicate WellTyped(s: ArgSpec) {
    TypeOf(s.value).Some? && Converts(TypeOf(s.value).value, Taken(s.kind))
  }

  lemma HoleTyping(orig: CType)
    ensures var o := Target(Canonical(orig));
            && TypeOf(Hole(orig, true)) == Some(Typed(o, LValue))
            && TypeOf(AddressOf(Hole(orig, true))) == Some(Typed(CType(false, PointerType(o)), PRValue))
  {
  }

  lemma PointeeArgTyping(underlying: bool, t: CType, orig: CType)
    requires (t.shape.PointerType? || IsRef(t)) && GoodPointee(t) && Matches(t, orig)
    requires t.shape.RValueRef? ==> !Canonical(t.shape.to).shape.LValueRef?
    ensures WellTyped(PointerArg(underlying, t, orig))
  {
    hide BareTypeSpelling, Spell, TypeOf;
    HoleTyping(orig);
    PointeeOfCanonical(t);
    ConstIsKept(Pointee(t));
  }

  lemma OpaqueArgTyping(c: CType, orig: CType)
    requires (c.shape.PointerType? || IsRef(c)) && IsCanonical(c) && GoodPointee(c) && Matches(c, orig)
    requires IsRef(c) ==> !IsRef(c.shape.to) && IsCanonical(c.shape.to) && Pointee(c) == c.shape.to
    ensures WellTyped(OpaqueArg(c, orig))
  {
    hide Spell, TypeOf;
    HoleTyping(orig);
  }

  lemma ClassArgTyping(underlying: bool, t: CType, orig: CType, inheritConst: bool)
    requires IsClass(t) && Matches(t, orig)
    ensures WellTyped(ClassArg(underlying, t, orig, inheritConst))
  {
    hide Spell, TypeOf, BareTypeSpelling;
    HoleTyping(orig);
  }

  lemma ArrayArgTyping(t: CType, orig: CType)
    requires t.shape.IncompleteArray? && WellFormed(t) && Matches(t, orig)
    ensures WellTyped(ArrayArg(t, orig))
  {
    hide Spell, TypeOf;
    HoleTyping(orig);
    ConstIsKept(t.shape.of);
  }

  lemma ScalarArgTyping(underlying: bool, t: CType, orig: CType, inheritConst: bool)
    requires (t.shape.BasicType? || t.shape.EnumType?) && Matches(t, orig) &&
             ArgTypeSpec(underlying, t, orig, inheritConst).Some?
    ensures WellTyped(ArgTypeSpec(underlying, t, orig, inheritConst).value)
  {
    hide Spell;
    HoleTyping(orig);
  }

  lemma {:induction false} WellFormedReferee(p: CType)
    requires WellFormed(p)
    ensures WellFormed(Referee(p)) && !IsRef(Canonical(Referee(p)))
  {
    RefereeIsCanonicalTarget(p);
    CanonicalIsIdempotent(p);
    match p.shape
    case LValueRef(q) => WellFormedReferee(q);
    case RValueRef(q) => WellFormedReferee(q);
    case TypedefType(_, u) => WellFormedReferee(u);
    case ElaboratedType(_, u) => WellFormedReferee(u);
    case _ =>
  }

  lemma ElaboratedMatches(t: CType, orig: CType)
    requires t.shape.ElaboratedType? && Matches(t, orig) && !DropsConst(t)
    ensures Matches(t.shape.named, orig)
  {
    hide Spell;
  }

  lemma BarePointeeMatches(t: CType, orig: CType)
    requires t.shape.RValueRef? && WellFormed(t) && Matches(t, orig) && !LosesConst(t)
    ensures var p := BarePointee(t);
            WellFormed(p) && Matches(p, orig) && !p.shape.ElaboratedType? && !IsRef(p)
  {
    hide Spell;
    var p := Pointee(t);
    WellFormedReferee(t.shape.to);
    PointeeOfCanonical(t);
    CanonicalTargetIs(t);
    assert Target(Canonical(t)) == Canonical(p);
  }

  lemma CanonicalTargetIs(t: CType)
    requires t.shape.RValueRef? && !Canonical(t.shape.to).shape.LValueRef?
    ensures Target(Canonical(t)) == Canonical(Pointee(t))
  {
    RefereeIsCanonicalTarget(t.shape.to);
  }

  lemma TypedefArgTyping(underlying: bool, t: CType, orig: CType, inheritConst: bool)
    requires t.shape.TypedefType? && WellFormed(t) && Matches(t, orig)
    requires ArgTypeSpec(underlying, t, orig, inheritConst).Some?
    ensures WellTyped(ArgTypeSpec(underlying, t, orig, inheritConst).value)
  {
    hide Spell, TypeOf, Canonical, OpaqueArg, ClassArg;
    CanonicalIsIdempotent(t);
    CanonicalLowersRank(t);
    var c := Canonical(t);
    assert Matches(c, orig);
    if c.shape.PointerType? || IsRef(c) {
      if IsRef(c) { RefNeverToVoid(t); RefereeOfCanonical(c); } else { PointerNeverToRef(t); }
      CanonicalIsGood(c);
      OpaqueArgTyping(c, orig);
    } else if c.shape.IncompleteArray? {
      HoleTyping(orig);
    } else if IsClass(c) {
      ClassArgTyping(underlying, c, orig, t.isConst || inheritConst);
    } else {
      ScalarArgTyping(underlying, c, orig, t.isConst || inheritConst);
    }
  }

  lemma {:induction false} ArgTyping(underlying: bool, t: CType, orig: CType, inheritConst: bool)
    requires WellFormed(t) && Matches(t, orig) && !LosesConst(t)
    requires ArgTypeSpec(underlying, t, orig, inheritConst).Some?
    ensures WellTyped(ArgTypeSpec(underlying, t, orig, inheritConst).value)
    decreases Rank(t)
  {
    hide Spell, TypeOf, Canonical, Matches, PointerArg, ArrayArg, ClassArg, OpaqueArg, WellTyped, LosesConst,
         DropsConst;
    match t.shape
    case PointerType(_) => WellFormedPointee(t); PointeeArgTyping(underlying, t, orig);
    case LValueRef(_) => WellFormedPointee(t); PointeeArgTyping(underlying, t, orig);
    case IncompleteArray(_) => ArrayArgTyping(t, orig);
    case RValueRef(_) => RValueRefTyping(underlying, t, orig);
    case TypedefType(_, _) => TypedefArgTyping(underlying, t, orig, inheritConst);
    case RecordType(_) => ClassArgTyping(underlying, t, orig, inheritConst);
    case UnexposedType(_) => ClassArgTyping(underlying, t, orig, inheritConst);
    case BasicType(_) => ScalarArgTyping(underlying, t, orig, inheritConst);
    case EnumType(_) => ScalarArgTyping(underlying, t, orig, inheritConst);
    case ElaboratedType(_, u) =>
      NamesKeepConst(t);
      ElaboratedMatches(t, orig);
      ArgTyping(underlying, u, orig, inheritConst);
  }

  lemma NamesKeepConst(t: CType)
    requires t.shape.ElaboratedType? && WellFormed(t) && !LosesConst(t)
    ensures !DropsConst(t) && !LosesConst(t.shape.named)
  {
  }

  lemma {:induction false} RValueRefTyping(underlying: bool, t: CType, orig: CType)
    requires t.shape.RValueRef? && WellFormed(t) && Matches(t, orig) && !LosesConst(t)
    requires ArgTypeSpec(underlying, t, orig, false).Some?
    ensures WellTyped(ArgTypeSpec(underlying, t, orig, false).value)
    decreases Rank(t), 0
  {
    hide Spell, TypeOf, Canonical, Matches, PointerArg;
    BarePointeeLowersRank(t);
    BarePointeeMatches(t, orig);
    var p := BarePointee(t);
    if IsClass(p) {
      WellFormedPointee(t);
      PointeeArgTyping(underlying, t, orig);
    } else {
      ArgTyping(underlying, p, orig, p.isConst);
    }
  }

  /** Where const is lost, the array is passed as an output although its elements are const. */
  lemma LostConstIsOutput(underlying: bool, t: CType)
    requires WellFormed(t) && LosesConst(t)
    ensures ArgTypeSpec(underlying, t, t, false).Some?
    ensures var s := ArgTypeSpec(underlying, t, t, false).value;
            var o := Target(Canonical(t));
            s.kind == OutputArg(false) && s.value == Hole(t, true) && o.shape.IncompleteArray? && o.isConst
  {
    hide Spell, PointerArg, ArrayArg, ClassArg, OpaqueArg;
    if t.shape.RValueRef? {
      WellFormedReferee(t.shape.to);
      CanonicalTargetIs(t);
      BarePointeeLowersRank(t);
      assert BarePointee(t).shape.TypedefType?;
    } else {
      assert t.shape.named.shape.TypedefType?;
    }
  }

  /** For every supported argument type the value in the mock converts to what the chosen call
      takes, except where const on an elaborated array name is lost, and there it never does. */
  lemma ArgumentIsWellTypedExactly(underlying: bool, t: CType)
    requires WellFormed(t) && ArgTypeSpec(underlying, t, t, false).Some?
    ensures WellTyped(ArgTypeSpec(underlying, t, t, false).value) <==> !LosesConst(t)
  {
    hide ArgTypeSpec, Canonical, LosesConst, TypeOf, Spell;
    if LosesConst(t) {
      LostConstIsOutput(underlying, t);
      HoleTyping(t);
    } else {
      ArgTyping(underlying, t, t, false);
    }
  }

  /** What a pointer points to, or the elements of an array. */
  function Reached(x: CType): Option<CType> {
    match x.shape
    case PointerType(p) => Some(p)
    case IncompleteArray(e) => Some(CType(x.isConst, e.shape))
    case _ => None
  }

  /** What a value of this type gives access to may be written. */
  predicate ReachesMutable(x: Option<Typed>) {
    x.Some? && Reached(x.value.ty).Some? && !Reached(x.value.ty).value.isConst
  }

  /** A kind through which the mock writes is chosen only if what is written is not const, through
      any chain of typedefs: exactly where const is not lost. */
  lemma WritableReachesMutable(underlying: bool, t: CType)
    requires WellFormed(t) && ArgTypeSpec(underlying, t, t, false).Some?
    requires IsWritable(ArgTypeSpec(underlying, t, t, false).value.kind)
    ensures ReachesMutable(TypeOf(ArgTypeSpec(underlying, t, t, false).value.value)) <==> !LosesConst(t)
  {
    hide ArgTypeSpec, Canonical, LosesConst, TypeOf, Spell;
    ArgumentIsWellTypedExactly(underlying, t);
    if LosesConst(t) {
      LostConstIsOutput(underlying, t);
      HoleTyping(t);
    }
  }

  /** For instance `const ns::Array`, where Array names int[]: supported, and ill typed. */
  lemma LostConstExample(underlying: bool)
    ensures var a := CType(false, TypedefType("Array", CType(false, IncompleteArray(Plain(IntType)))));
            var t := CType(true, ElaboratedType("ns::", a));
            && WellFormed(t) && LosesConst(t)
            && ArgTypeSpec(underlying, t, t, false).Some? && !WellTyped(ArgTypeSpec(underlying, t, t, false).value)
  {
    hide Spell, ArgTypeSpec, TypeOf;
    var a := CType(false, TypedefType("Array", CType(false, IncompleteArray(Plain(IntType)))));
    assert Canonical(a) == CType(false, IncompleteArray(Plain(IntType)));
    var t := CType(true, ElaboratedType("ns::", a));
    LostConstIsOutput(underlying, t);
    ArgumentIsWellTypedExactly(underlying, t);
  }

  // ----- The kind that is chosen

  function Erase(k: ArgKind): ArgKind {
    match k
    case TypedInput(_, _) => TypedInput("", "")
    case TypedOutput(_, _) => TypedOutput("", "")
    case _ => k
  }

  /** The kind for what a reference refers to. */
  function ReferenceKind(p: CType): ArgKind {
    if p.isConst then (if IsClass(p) then TypedInput("", "") else Simple(ConstPointer))
    else if p.shape.PointerType? then Simple(Pointer)
    else if IsClass(p) then TypedOutput("", "")
    else OutputArg(true)
  }

  function PointeeKind(p: CType): ArgKind {
    if p == CType(true, BasicType(CharS)) then Simple(String)
    else if p.isConst then (if IsClass(p) then TypedInput("", "") else Simple(ConstPointer))
    else if IsVoid(p) || p.shape.PointerType? then Simple(Pointer)
    else if IsClass(p) then TypedOutput("", "")
    else OutputArg(false)
  }

  /** The kind chosen for a type that hides nothing. */
  function ChosenKind(c: CType): Option<ArgKind> {
    match c.shape
    case BasicType(b) => (match BasicArgKind(b) case None => None case Some(k) => Some(Simple(k)))
    case EnumType(_) => Some(Simple(Int))
    case PointerType(p) => Some(PointeeKind(p))
    case LValueRef(p) => Some(ReferenceKind(p))
    case RValueRef(p) => if IsClass(p) then Some(ReferenceKind(p)) else ChosenKind(p)
    case IncompleteArray(_) => Some(if c.isConst then Simple(ConstPointer) else OutputArg(false))
    case _ => Some(TypedInput("", ""))
  }

  /** The kind for a typedef of a pointer or reference: only const and char are looked at. */
  function HiddenKind(c: CType): ArgKind
    requires c.shape.PointerType? || IsRef(c)
  {
    if c.shape.PointerType? && c.shape.to == CType(true, BasicType(CharS)) then Simple(String)
    else if c.shape.to.isConst then Simple(ConstPointer) else Simple(Pointer)
  }

  /** The name under which a type is written, without elaboration; behind an rvalue reference,
      that of what it refers to. */
  function Head(t: CType): CType {
    match t.shape
    case ElaboratedType(_, u) => u
    case RValueRef(_) => BarePointee(t)
    case _ => t
  }

  /** A typedef stands where a pointer or reference is. */
  predicate HidesIndirection(t: CType) {
    Head(t).shape.TypedefType? && (Canonical(Head(t)).shape.PointerType? || IsRef(Canonical(Head(t))))
  }

  /** A pointer to const char that is not written `const char *`. */
  predicate HidesChar(t: CType) {
    var h := Head(t);
    h.shape.PointerType? && Canonical(h.shape.to) == CType(true, BasicType(CharS)) &&
      h.shape.to != CType(true, BasicType(CharS))
  }

  /** An rvalue reference to a class named by a typedef is taken as the class by value. */
  predicate HidesClass(t: CType) {
    t.shape.RValueRef? && Head(t).shape.TypedefType? && IsClass(Canonical(Head(t)))
  }

  /** The kind the code chooses: one for each canonical type, but for three ways of hiding it. */
  function ExpectedKind(t: CType): Option<ArgKind> {
    if HidesClass(t) then Some(TypedInput("", ""))
    else if HidesIndirection(t) then Some(HiddenKind(Canonical(Head(t))))
    else if HidesChar(t) then Some(Simple(ConstPointer))
    else ChosenKind(Canonical(t))
  }

  lemma PointerKind(underlying: bool, t: CType, orig: CType)
    requires (t.shape.PointerType? || IsRef(t)) && GoodPointee(t)
    requires t.shape.RValueRef? ==> !Canonical(t.shape.to).shape.LValueRef?
    ensures var p := Canonical(Pointee(t));
            Erase(PointerArg(underlying, t, orig).kind) ==
            if !t.shape.PointerType? then ReferenceKind(p)
            else if HidesChar(t) then Simple(ConstPointer) else PointeeKind(p)
  {
    hide Spell, BareTypeSpelling;
    ConstIsKept(Pointee(t));
  }

  /** A type written without typedef or rvalue reference at its head. */
  lemma PlainKind(underlying: bool, t: CType, orig: CType, inheritConst: bool)
    requires WellFormed(t) && !IsSugar(t) && !t.shape.RValueRef?
    ensures var s := ArgTypeSpec(underlying, t, orig, inheritConst);
            if HidesChar(t) then s.Some? && s.value.kind == Simple(ConstPointer)
            else s.Some? == ChosenKind(Canonical(t)).Some? &&
                 (s.Some? ==> Erase(s.value.kind) == ChosenKind(Canonical(t)).value)
  {
    hide Spell, BareTypeSpelling, PointerArg, PointeeKind, ReferenceKind, GoodPointee;
    match t.shape
    case PointerType(_) => WellFormedPointee(t); PointerKind(underlying, t, orig); PointeeOfCanonical(t);
    case LValueRef(_) => WellFormedPointee(t); PointerKind(underlying, t, orig); PointeeOfCanonical(t);
    case IncompleteArray(e) => ConstIsKept(e);
    case _ =>
  }

  lemma TypedefKind(underlying: bool, t: CType, orig: CType, inheritConst: bool)
    requires WellFormed(t) && t.shape.TypedefType?
    ensures var s := ArgTypeSpec(underlying, t, orig, inheritConst);
            var c := Canonical(t);
            if c.shape.PointerType? || IsRef(c) then s.Some? && s.value.kind == HiddenKind(c)
            else s.Some? == ChosenKind(c).Some? && (s.Some? ==> Erase(s.value.kind) == ChosenKind(c).value)
  {
    hide Spell, BareTypeSpelling, Canonical, PointeeKind, ReferenceKind;
    CanonicalIsIdempotent(t);
    CanonicalLowersRank(t);
    var c := Canonical(t);
    if IsRef(c) { RefereeOfCanonical(c); }
  }

  lemma ElaboratedKind(underlying: bool, t: CType, orig: CType)
    requires WellFormed(t) && t.shape.ElaboratedType? && !LosesConst(t)
    ensures var s := ArgTypeSpec(underlying, t, orig, false);
            s.Some? == ExpectedKind(t).Some? && (s.Some? ==> Erase(s.value.kind) == ExpectedKind(t).value)
  {
    hide Spell, BareTypeSpelling, Canonical, PointeeKind, ReferenceKind, HiddenKind;
    var u := t.shape.named;
    NamesOnly(t);
    if u.shape.TypedefType? {
      TypedefKind(underlying, u, orig, false);
    } else {
      PlainKind(underlying, u, orig, false);
    }
  }

  /** Const on a name changes the documented kind only for arrays. */
  lemma NamesOnly(t: CType)
    requires WellFormed(t) && t.shape.ElaboratedType? && !LosesConst(t)
    ensures var c := Canonical(t.shape.named);
            && (c.shape.PointerType? || IsRef(c) || ChosenKind(Canonical(t)) == ChosenKind(c))
            && !HidesChar(t) && (!t.shape.named.shape.TypedefType? ==> !HidesChar(t.shape.named))
            && (!t.shape.named.shape.TypedefType? ==> !c.shape.PointerType? && !IsRef(c))
  {
    hide Spell;
  }

  lemma RValueRefKind(underlying: bool, t: CType, orig: CType)
    requires WellFormed(t) && t.shape.RValueRef? && !LosesConst(t)
    ensures var s := ArgTypeSpec(underlying, t, orig, false);
            s.Some? == ExpectedKind(t).Some? && (s.Some? ==> Erase(s.value.kind) == ExpectedKind(t).value)
  {
    hide Spell, BareTypeSpelling, Canonical, PointerArg, PointeeKind, ReferenceKind, HiddenKind, GoodPointee;
    var p := BarePointee(t);
    RValueRefTarget(t);
    BarePointeeLowersRank(t);
    if IsClass(p) {
      WellFormedPointee(t);
      PointerKind(underlying, t, orig);
    } else if p.shape.TypedefType? {
      TypedefKind(underlying, p, orig, p.isConst);
    } else {
      PlainKind(underlying, p, orig, p.isConst);
    }
  }

  lemma RValueRefTarget(t: CType)
    requires WellFormed(t) && t.shape.RValueRef? && !LosesConst(t)
    ensures var p := BarePointee(t);
            var c := Canonical(p);
            && WellFormed(p) && !p.shape.ElaboratedType? && !IsRef(c) && !IsRef(p)
            && Canonical(t) == CType(false, RValueRef(Canonical(Pointee(t))))
            && Canonical(Pointee(t)).shape == c.shape
            && (IsClass(p) ==> IsClass(c))
            && (!IsClass(c) && !c.shape.PointerType? ==> ChosenKind(Canonical(Pointee(t))) == ChosenKind(c))
            && (c.shape.PointerType? ==> ChosenKind(Canonical(Pointee(t))) == ChosenKind(c))
            && (!p.shape.TypedefType? && IsClass(c) ==> IsClass(p))
  {
    hide Spell, PointeeKind, ReferenceKind;
    WellFormedReferee(t.shape.to);
    CanonicalTargetIs(t);
    PointeeOfCanonical(t);
    RValueRefIsPlain(t);
  }

  lemma RValueRefIsPlain(t: CType)
    requires WellFormed(t) && t.shape.RValueRef?
    ensures Canonical(t).shape.RValueRef? && !Canonical(t).isConst
  {
    CanonicalIsIdempotent(t.shape.to);
    CanonicalRefIsPlain(t.shape.to);
  }

  lemma {:induction false} CanonicalRefIsPlain(t: CType)
    ensures IsRef(Canonical(t)) ==> !Canonical(t).isConst
  {
    match t.shape
    case TypedefType(_, u) => CanonicalRefIsPlain(u);
    case ElaboratedType(_, u) => CanonicalRefIsPlain(u);
    case RValueRef(p) => CanonicalRefIsPlain(p);
    case _ =>
  }

  /** For every argument type, which types are supported and which kind each gets. */
  lemma ArgumentKindIsAsExpected(underlying: bool, t: CType)
    requires WellFormed(t) && !LosesConst(t)
    ensures var s := ArgTypeSpec(underlying, t, t, false);
            s.Some? == ExpectedKind(t).Some? && (s.Some? ==> Erase(s.value.kind) == ExpectedKind(t).value)
  {
    hide Spell, BareTypeSpelling, ArgTypeSpec, Canonical, ChosenKind, LosesConst;
    match t.shape
    case ElaboratedType(_, _) => ElaboratedKind(underlying, t, t);
    case RValueRef(_) => RValueRefKind(underlying, t, t);
    case TypedefType(_, _) => TypedefKind(underlying, t, t, false);
    case _ => PlainKind(underlying, t, t, false);
  }

  // ----- Where the kind is not the documented one

  /** Through a typedef of a pointer the kind is still the documented one if the pointer is to a signed
      const char, or to anything else that is const but neither class nor character, or to void or
      a pointer. */
  predicate PointerAgrees(p: CType) {
    || p == CType(true, BasicType(CharS))
    || (!IsClass(p) && !IsConstChar(p) && (p.isConst || IsVoid(p) || p.shape.PointerType?))
  }

  /** Through a typedef of an rvalue reference, which is documented as what it refers to. */
  predicate RValueAgrees(p: CType) {
    match p.shape
    case PointerType(q) =>
      !IsConstChar(q) && !IsClass(q) &&
      (if q.isConst then p.isConst else !p.isConst && (IsVoid(q) || q.shape.PointerType?))
    case IncompleteArray(e) =>
      !IsConstChar(CType(p.isConst, e.shape)) && !IsClass(e) && (p.isConst || e.shape.PointerType?)
    case _ => false
  }

  predicate HiddenAgrees(c: CType) {
    match c.shape
    case PointerType(p) => PointerAgrees(p)
    case LValueRef(p) => !IsClass(p) && (p.isConst || p.shape.PointerType?)
    case RValueRef(p) => RValueAgrees(p)
    case _ => true
  }

  /** An array is documented as a pointer to its element, but it is passed as one to const or to
      memory whatever the element is. */
  predicate ArrayDiffers(c: CType) {
    c.shape.IncompleteArray? &&
      (IsClass(c.shape.of) || IsConstChar(CType(c.isConst, c.shape.of.shape)) ||
       (c.shape.of.shape.PointerType? && !c.isConst))
  }

  /** The types for which the code departs from the manual's table: const lost on an array; a plain
      character, by itself or const behind a pointer, that is unsigned; a pointer or reference hidden
      as a whole where const, void and pointers do not make up for it; and where none is hidden, a
      class that is not const hidden behind an rvalue reference, const char hidden behind a pointer,
      and arrays of classes, of const characters and of pointers that are not const. */
  predicate Differs(t: CType) {
    var c := Through(Canonical(t));
    || LosesConst(t)
    || IsUnsignedChar(c)
    || (if HidesIndirection(t) then !HiddenAgrees(Canonical(Head(t)))
        else (HidesClass(t) && !Target(Canonical(t)).isConst) || HidesChar(t) || ArrayDiffers(c))
  }

  predicate HoldsVoid(c: CType) {
    c.shape.IncompleteArray? && IsVoid(c.shape.of)
  }

  lemma {:induction false} ArraysHoldNoVoid(t: CType)
    requires WellFormed(t)
    ensures !HoldsVoid(Canonical(t)) && (IsRef(Canonical(t)) ==> !HoldsVoid(Canonical(t).shape.to))
  {
    match t.shape
    case TypedefType(_, u) => ArraysHoldNoVoid(u);
    case ElaboratedType(_, u) => ArraysHoldNoVoid(u);
    case LValueRef(p) => ArraysHoldNoVoid(p);
    case RValueRef(p) => ArraysHoldNoVoid(p);
    case _ =>
  }

  lemma HiddenKindAgrees(c: CType)
    requires c.shape.PointerType? || IsRef(c)
    requires IsRef(c) ==> !IsRef(c.shape.to) && !HoldsVoid(c.shape.to)
    ensures Some(HiddenKind(c)) == DocumentedKind(c) <==> HiddenAgrees(c)
    ensures IsUnsignedChar(Through(c)) ==> !HiddenAgrees(c)
  {
  }

  /** What is chosen where nothing is hidden agrees with the table but for these. */
  lemma ChosenAgrees(c: CType)
    requires !HoldsVoid(Through(c)) && (IsRef(c) ==> !IsRef(c.shape.to))
    ensures ChosenKind(c) == DocumentedKind(c) <==> !IsUnsignedChar(Through(c)) && !ArrayDiffers(Through(c))
  {
    if c.shape.RValueRef? && !IsClass(c.shape.to) { WrittenAgrees(c.shape.to); } else { WrittenAgrees(c); }
  }

  lemma WrittenAgrees(c: CType)
    requires !HoldsVoid(c)
    requires c.shape.RValueRef? ==> IsClass(c.shape.to)
    ensures ChosenKind(c) == DocumentedKind(c) <==> !IsUnsignedChar(c) && !ArrayDiffers(c)
  {
  }

  /** Behind an rvalue reference or an elaborated name, a hidden pointer is documented as itself. */
  lemma HiddenIsDocumentedAsItself(t: CType)
    requires WellFormed(t) && HidesIndirection(t)
    ensures DocumentedKind(Canonical(t)) == DocumentedKind(Canonical(Head(t)))
    ensures IsUnsignedChar(Through(Canonical(t))) == IsUnsignedChar(Through(Canonical(Head(t))))
    ensures IsRef(Canonical(Head(t))) ==>
              !IsRef(Canonical(Head(t)).shape.to) && !HoldsVoid(Canonical(Head(t)).shape.to)
  {
    hide Spell, PointerRow, ReferenceRow;
    CanonicalIsIdempotent(t);
    if t.shape.RValueRef? {
      WellFormedReferee(t.shape.to);
      CanonicalTargetIs(t);
    } else {
      CanonicalIsIdempotent(Head(t));
      ArraysHoldNoVoid(Head(t));
    }
  }

  lemma HiddenClassIsDocumented(t: CType)
    requires WellFormed(t) && HidesClass(t)
    ensures DocumentedKind(Canonical(t)) ==
            Some(if Target(Canonical(t)).isConst then TypedInput("", "") else TypedOutput("", ""))
    ensures !IsUnsignedChar(Through(Canonical(t))) && !ArrayDiffers(Through(Canonical(t)))
  {
    hide Spell;
    WellFormedReferee(t.shape.to);
    CanonicalTargetIs(t);
    RValueRefIsPlain(t);
  }

  lemma HiddenCharIsDocumented(t: CType)
    requires WellFormed(t) && HidesChar(t)
    ensures DocumentedKind(Canonical(t)) == Some(Simple(String))
  {
    hide Spell;
    if t.shape.RValueRef? {
      WellFormedReferee(t.shape.to);
      CanonicalTargetIs(t);
      RValueRefIsPlain(t);
    }
  }

  lemma LostConstIsDocumented(t: CType)
    requires WellFormed(t) && LosesConst(t)
    ensures DocumentedKind(Canonical(t)).Some? && DocumentedKind(Canonical(t)) != Some(OutputArg(false))
  {
    hide Spell;
    if t.shape.RValueRef? {
      WellFormedReferee(t.shape.to);
      CanonicalTargetIs(t);
      RValueRefIsPlain(t);
    }
  }

  /** The kind chosen for an argument of this type is the one the manual promises. */
  predicate IsDocumented(underlying: bool, t: CType)
    requires ArgTypeSpec(underlying, t, t, false).Some?
  {
    Some(Erase(ArgTypeSpec(underlying, t, t, false).value.kind)) == DocumentedKind(Canonical(t))
  }

  /** For every supported argument type the kind is the documented one, exactly if the type is none
      of those that differ. */
  lemma KindIsDocumentedExactly(underlying: bool, t: CType)
    requires WellFormed(t) && ArgTypeSpec(underlying, t, t, false).Some?
    ensures IsDocumented(underlying, t) <==> !Differs(t)
  {
    hide Spell, BareTypeSpelling, ArgTypeSpec, Canonical, DocumentedKind, LosesConst, HidesClass, HidesIndirection,
         HidesChar, HiddenKind, HiddenAgrees, ChosenKind, Through, IsUnsignedChar, ArrayDiffers;
    if LosesConst(t) {
      LostConstIsOutput(underlying, t);
      LostConstIsDocumented(t);
    } else {
      ArgumentKindIsAsExpected(underlying, t);
      OneWayOfHiding(t);
      if HidesClass(t) {
        HiddenClassIsDocumented(t);
      } else if HidesIndirection(t) {
        HiddenIsDocumentedAsItself(t);
        HiddenIsIndirect(t);
        HiddenKindAgrees(Canonical(Head(t)));
      } else if HidesChar(t) {
        HiddenCharIsDocumented(t);
      } else {
        CanonicalIsComparable(t);
        ChosenAgrees(Canonical(t));
      }
    }
  }

  lemma CanonicalIsComparable(t: CType)
    requires WellFormed(t)
    ensures var c := Canonical(t); !HoldsVoid(Through(c)) && (IsRef(c) ==> !IsRef(c.shape.to))
  {
    CanonicalIsIdempotent(t);
    ArraysHoldNoVoid(t);
  }

  lemma HiddenIsIndirect(t: CType)
    requires HidesIndirection(t)
    ensures Canonical(Head(t)).shape.PointerType? || IsRef(Canonical(Head(t)))
  {
  }

  lemma OneWayOfHiding(t: CType)
    ensures HidesClass(t) ==> !HidesIndirection(t) && !HidesChar(t)
    ensures HidesIndirection(t) ==> !HidesChar(t)
  {
  }

  const ALIAS := CType(false, TypedefType("Alias", CType(false, RecordType("S"))))
  const INT_PTR := CType(false, TypedefType("IntPtr", CType(false, PointerType(Plain(IntType)))))
  const CHARACTER := CType(true, TypedefType("Character", Plain(CharS)))

  /** For instance `Alias &&`, where Alias names a class, `IntPtr`, where it names int *, and
      `const Character *`, where it names char. But `const Alias &&` is as documented. */
  lemma DifferingExamples(underlying: bool)
    ensures forall t :: t in {CType(false, RValueRef(ALIAS)), INT_PTR, CType(false, PointerType(CHARACTER))} ==>
                          WellFormed(t) && ArgTypeSpec(underlying, t, t, false).Some? && !IsDocumented(underlying, t)
    ensures var t := CType(false, RValueRef(ALIAS.(isConst := true)));
            && WellFormed(t) && HidesClass(t)
            && ArgTypeSpec(underlying, t, t, false).Some? && IsDocumented(underlying, t)
  {
    hide Spell, BareTypeSpelling, DocumentedKind;
    HiddenClassExample(underlying, false);
    HiddenClassExample(underlying, true);
    HiddenPointerExample(underlying);
    HiddenCharExample(underlying);
  }

  lemma HiddenClassExample(underlying: bool, isConst: bool)
    ensures var t := CType(false, RValueRef(ALIAS.(isConst := isConst)));
            && WellFormed(t) && HidesClass(t)
            && ArgTypeSpec(underlying, t, t, false).Some? && (IsDocumented(underlying, t) <==> isConst)
  {
    hide Spell, BareTypeSpelling, DocumentedKind, PointerRow;
    var a := ALIAS.(isConst := isConst);
    var t := CType(false, RValueRef(a));
    assert Canonical(a) == CType(isConst, RecordType("S")) && BarePointee(t) == a;
    KindIsDocumentedExactly(underlying, t);
  }

  lemma HiddenPointerExample(underlying: bool)
    ensures WellFormed(INT_PTR) && ArgTypeSpec(underlying, INT_PTR, INT_PTR, false).Some?
    ensures !IsDocumented(underlying, INT_PTR)
  {
    hide Spell, BareTypeSpelling, DocumentedKind;
    assert Canonical(INT_PTR) == CType(false, PointerType(Plain(IntType)));
    KindIsDocumentedExactly(underlying, INT_PTR);
  }

  lemma HiddenCharExample(underlying: bool)
    ensures var t := CType(false, PointerType(CHARACTER));
            && WellFormed(t) && ArgTypeSpec(underlying, t, t, false).Some? && !IsDocumented(underlying, t)
  {
    hide Spell, BareTypeSpelling, DocumentedKind;
    var t := CType(false, PointerType(CHARACTER));
    assert Canonical(CHARACTER) == CType(true, BasicType(CharS));
    assert HidesChar(t);
    KindIsDocumentedExactly(underlying, t);
  }

  /** For instance `char` and `const char *` where plain characters are unsigned. */
  lemma UnsignedCharExamples(underlying: bool)
    ensures Spell(UCHARACTER) == "char" && Spell(USTRING) == "const char *"
    ensures forall t :: t in {UCHARACTER, USTRING} ==>
                          WellFormed(t) && ArgTypeSpec(underlying, t, t, false).Some? && !IsDocumented(underlying, t)
    ensures ArgTypeSpec(underlying, UCHARACTER, UCHARACTER, false).value.kind == Simple(UnsignedInt)
    ensures ArgTypeSpec(underlying, USTRING, USTRING, false).value.kind == Simple(ConstPointer)
  {
    UnsignedCharReturns();
    hide Spell, BareTypeSpelling;
    ConstPointerToChar(underlying);
  }

  lemma ConstPointerToChar(underlying: bool)
    ensures PointerArg(underlying, USTRING, USTRING).kind == Simple(ConstPointer)
  {
    hide Spell, BareTypeSpelling;
    assert Canonical(USTRING.shape.to) == CType(true, BasicType(CharU));
  }

  const CLASSES := CType(false, IncompleteArray(CType(false, RecordType("S"))))
  const CHARACTERS := CType(false, IncompleteArray(CType(true, BasicType(CharS))))
  const POINTERS := CType(false, IncompleteArray(CType(false, PointerType(Plain(IntType)))))

  /** For instance `S a[]`, `const char a[]` and `int *a[]`; `int a[]` is as documented. */
  lemma ArrayExamples(underlying: bool)
    ensures forall t :: t in {CLASSES, CHARACTERS, POINTERS} ==>
                          WellFormed(t) && ArgTypeSpec(underlying, t, t, false).Some? && !IsDocumented(underlying, t)
    ensures var t := CType(false, IncompleteArray(Plain(IntType)));
            WellFormed(t) && ArgTypeSpec(underlying, t, t, false).Some? && IsDocumented(underlying, t)
  {
    hide Spell, BareTypeSpelling;
    assert Canonical(POINTERS.shape.of) == POINTERS.shape.of;
  }

  // ----- The remaining choices

  /** The address is passed for references and classes by value, an enumeration is cast to int, and
      anything else is passed as it is; the size of an output is known from the type exactly when
      it is passed by address. */
  predicate ShapedValue(s: ArgSpec, orig: CType) {
    var x := Hole(orig, true);
    && (s.value == x || s.value == AddressOf(x) || (s.value == StaticCast(Base(Int), x) && s.kind == Simple(Int)))
    && (s.kind.OutputArg? ==> s.kind.sizeFromType == (s.value == AddressOf(x)))
    && !s.kind.BufferArg? && IsBasicKind(s.kind)
  }

  lemma {:induction false} ArgumentFlags(underlying: bool, t: CType, orig: CType, inheritConst: bool)
    requires WellFormed(t) && ArgTypeSpec(underlying, t, orig, inheritConst).Some?
    ensures var s := ArgTypeSpec(underlying, t, orig, inheritConst).value;
            && ShapedValue(s, orig)
            && s.isRValueRef == t.shape.RValueRef?
            && s.forceNotIgnored == Canonical(t).shape.RValueRef?
            && (IsClass(Canonical(t)) ==> s.byRef && s.kind.TypedInput?)
            && (s.byRef ==> IsClass(Target(Canonical(t))) && (t.shape.RValueRef? || !IsRef(Canonical(t))))
            && (s.value.AddressOf? ==> s.byRef || IsRef(Canonical(t)))
            && (Canonical(t).shape.IncompleteArray? ==> s.kind == Simple(ConstPointer) || s.kind.OutputArg?)
    decreases Rank(t)
  {
    hide Spell, BareTypeSpelling, PointeeArg;
    match t.shape
    case ElaboratedType(_, u) => ArgumentFlags(underlying, u, orig, inheritConst);
    case PointerType(_) => PointeeArgFlags(underlying, t, orig);
    case LValueRef(_) => PointeeArgFlags(underlying, t, orig);
    case RValueRef(_) => RValueRefFlags(underlying, t, orig);
    case TypedefType(_, _) => TypedefFlags(underlying, t, orig, inheritConst);
    case _ =>
  }

  lemma {:induction false} RValueRefFlags(underlying: bool, t: CType, orig: CType)
    requires WellFormed(t) && t.shape.RValueRef? && ArgTypeSpec(underlying, t, orig, false).Some?
    ensures var s := ArgTypeSpec(underlying, t, orig, false).value;
            ShapedValue(s, orig) && s.isRValueRef && s.forceNotIgnored && (s.byRef ==> IsClass(Target(Canonical(t))))
    ensures Canonical(t).shape.RValueRef?
    decreases Rank(t), 0
  {
    hide Spell, BareTypeSpelling, PointeeArg, Canonical;
    var p := BarePointee(t);
    BarePointeeLowersRank(t);
    RValueRefIsPlain(t);
    BarePointeeTarget(t);
    if IsClass(p) {
      PointeeArgFlags(underlying, t, orig);
    } else {
      ArgumentFlags(underlying, p, orig, p.isConst);
    }
  }

  lemma BarePointeeTarget(t: CType)
    requires WellFormed(t) && t.shape.RValueRef?
    ensures WellFormed(BarePointee(t)) && !IsRef(Canonical(BarePointee(t)))
    ensures Target(Canonical(t)).shape == Canonical(BarePointee(t)).shape
  {
    hide Spell;
    WellFormedReferee(t.shape.to);
    CanonicalTargetIs(t);
  }

  lemma TypedefFlags(underlying: bool, t: CType, orig: CType, inheritConst: bool)
    requires WellFormed(t) && t.shape.TypedefType? && ArgTypeSpec(underlying, t, orig, inheritConst).Some?
    ensures var s := ArgTypeSpec(underlying, t, orig, inheritConst).value;
            && ShapedValue(s, orig) && !s.isRValueRef && s.forceNotIgnored == Canonical(t).shape.RValueRef?
            && s.byRef == IsClass(Canonical(t)) && (s.byRef ==> s.kind.TypedInput?)
            && (s.value.AddressOf? ==> s.byRef || IsRef(Canonical(t)))
            && (Canonical(t).shape.IncompleteArray? ==> s.kind == Simple(ConstPointer) || s.kind.OutputArg?)
  {
    hide Spell, BareTypeSpelling, Canonical;
    CanonicalLowersRank(t);
  }

  lemma PointeeArgFlags(underlying: bool, t: CType, orig: CType)
    requires t.shape.PointerType? || IsRef(t)
    ensures var s := PointeeArg(underlying, t, orig);
            && s.value == Hole(orig, true) && !s.byRef && !s.forceNotIgnored && !s.isRValueRef
            && (s.kind.OutputArg? ==> s.kind.sizeFromType == IsRef(t)) && !s.kind.BufferArg? && IsBasicKind(s.kind)
  {
    hide Spell, BareTypeSpelling, Canonical;
  }

  /** An argument built from its type is one the generator can handle: there is a sign to strip
      from the type of an rvalue reference, and the kind is one of CppUMock's. */
  lemma ParsedArgumentIsValid(underlying: bool, t: CType, a: Argument)
    requires WellFormed(t) && ArgTypeSpec(underlying, t, t, false).Some?
    requires a.Standard? && BuiltFromType(a, t, ArgTypeSpec(underlying, t, t, false).value)
    ensures Valid(a) && IsBasicKind(a.kind)
  {
    hide ArgTypeSpec, Front, Back;
    ArgumentFlags(underlying, t, t, false);
    if t.shape.RValueRef? { RValueRefSpelling(t.shape.to); }
  }
}
