/** What holds of the code generated for every return type. */
module ReturnProperties {
  import opened StringHelper
  import opened Overrides
  import opened CppTypes
  import opened Expressions
  import opened ReturnParser
  import opened Manual

  // ----- Which return types are supported

  predicate SupportedReturn(c: CType) {
    match c.shape
    case BasicType(b) => BasicKind(b).Some?
    case IncompleteArray(_) => false
    case _ => true
  }

  /** Sugar makes no difference: a return type is rejected exactly when its canonical type is
      void, an array, or a basic type without a getter. */
  lemma {:induction false} SupportedExactly(t: CType, enableCast: bool)
    ensures ReturnSpec(t, enableCast).Some? <==> SupportedReturn(Canonical(t))
    decreases Rank(t)
  {
    hide Spell, BaseType, PointerSpec, ClassSpec, ScalarSpec;
    CanonicalLowersRank(t);
    match t.shape
    case ElaboratedType(_, u) => SupportedExactly(u, enableCast);
    case TypedefType(_, _) => SupportedExactly(Canonical(t), false); CanonicalShape(t);
    case _ =>
  }

  lemma CanonicalShape(t: CType)
    ensures Canonical(Canonical(t)).shape.BasicType? ==> Canonical(Canonical(t)).shape == Canonical(t).shape
    ensures Canonical(t).shape.IncompleteArray? <==> Canonical(Canonical(t)).shape.IncompleteArray?
    ensures Canonical(t).shape.BasicType? ==> Canonical(Canonical(t)) == Canonical(t)
  {
  }

  // ----- The returned expression is well typed

  lemma {:induction false} RefNeverToVoid(t: CType)
    requires WellFormed(t) && IsRef(Canonical(t))
    ensures !IsVoid(Canonical(t).shape.to)
  {
    match t.shape
    case TypedefType(_, u) => RefNeverToVoid(u);
    case ElaboratedType(_, u) => RefNeverToVoid(u);
    case LValueRef(p) => if IsRef(Canonical(p)) { RefNeverToVoid(p); }
    case RValueRef(p) => if IsRef(Canonical(p)) { RefNeverToVoid(p); }
    case _ =>
  }

  lemma {:induction false} PointerNeverToRef(t: CType)
    requires WellFormed(t) && Canonical(t).shape.PointerType?
    ensures !IsRef(Canonical(t).shape.to)
  {
    match t.shape
    case TypedefType(_, u) => PointerNeverToRef(u);
    case ElaboratedType(_, u) => PointerNeverToRef(u);
    case _ =>
  }

  lemma ConstIsKept(p: CType)
    requires !IsRef(Canonical(p))
    ensures p.isConst ==> Canonical(p).isConst
  {
  }

  /** What PointerSpec relies on: the pointee, where it is, is not a reference, and behind a
      reference not void. */
  predicate GoodPointee(t: CType)
    requires t.shape.PointerType? || IsRef(t)
  {
    !IsRef(Canonical(Pointee(t))) && (IsRef(t) ==> !IsVoid(Canonical(Pointee(t))) && !IsVoid(Pointee(t)))
  }

  lemma WellFormedPointee(t: CType)
    requires (t.shape.PointerType? || IsRef(t)) && WellFormed(t)
    ensures GoodPointee(t)
  {
    if IsRef(t) {
      RefereeIsCanonicalTarget(t.shape.to);
      CanonicalIsIdempotent(t.shape.to);
      if IsRef(Canonical(t.shape.to)) { RefNeverToVoid(t.shape.to); }
    }
  }

  /** The type of the pointer that the mock returns, after the cast to the pointee's type. */
  lemma PointeeTyping(t: CType)
    requires (t.shape.PointerType? || IsRef(t)) && GoodPointee(t)
    ensures var s := PointeeSpec(t, true);
            var target := Canonical(Pointee(t));
            TypeOf(s.mock) == Some(Typed(CType(false, PointerType(target)), PRValue))
  {
    ConstIsKept(Pointee(t));
  }

  lemma PointerTyping(t: CType)
    requires (t.shape.PointerType? || IsRef(t)) && GoodPointee(t)
    ensures var target := Canonical(Pointee(t));
            TypeOf(PointerSpec(t, true).mock) ==
            Some(if t.shape.PointerType? then Typed(CType(false, PointerType(target)), PRValue)
                 else if t.shape.LValueRef? then Typed(target, LValue) else Typed(target, XValue))
  {
    hide PointeeSpec;
    PointeeTyping(t);
  }

  /** A typedef of a pointer gets one cast from what the mock returns. */
  lemma TypedefOfPointerTyping(t: CType)
    requires t.shape.TypedefType? && Canonical(t).shape.PointerType? && WellFormed(t)
    ensures TypeOf(TypedefSpec(t).value.mock) == Some(Typed(Canonical(t), PRValue))
  {
    CanonicalIsIdempotent(t);
    var c := Canonical(t);
    assert Canonical(c.shape.to) == c.shape.to;
  }

  lemma TypedefOfReferenceTyping(t: CType)
    requires t.shape.TypedefType? && IsRef(Canonical(t)) && WellFormed(t)
    ensures var c := Canonical(t);
            TypeOf(TypedefSpec(t).value.mock) == Some(Typed(c.shape.to, if c.shape.LValueRef? then LValue else XValue))
  {
    hide PointerSpec, Canonical;
    CanonicalIsIdempotent(t);
    RefNeverToVoid(t);
    var c := Canonical(t);
    RefereeOfCanonical(c);
    PointerTyping(c);
  }

  lemma RefereeOfCanonical(c: CType)
    requires IsRef(c) && !IsSugar(c.shape.to) && !IsRef(c.shape.to)
    ensures Pointee(c) == c.shape.to
  {
  }

  lemma TypedefOfClassTyping(t: CType)
    requires t.shape.TypedefType? && IsClass(Canonical(t))
    ensures TypedefSpec(t).Some?
    ensures TypeOf(TypedefSpec(t).value.mock) == Some(Typed(AddConst(Canonical(t), true), LValue))
  {
    var c := Canonical(t);
    CanonicalLowersRank(t);
    var s := ClassSpec(c, false);
    assert ReturnSpec(c, false) == Some(s);
    assert TypedefSpec(t) == Some(ThroughTypedef(t, c, s));
    assert TypeOf(s.mock) == Some(Typed(BaseType(ConstPointer), PRValue));
    assert TypeOf(StaticCast(ConstPtrTo(t), s.mock)) ==
           Some(Typed(CType(false, PointerType(AddConst(c, true))), PRValue));
  }

  lemma TypedefOfScalarTyping(t: CType)
    requires t.shape.TypedefType? && (Canonical(t).shape.BasicType? || Canonical(t).shape.EnumType?) &&
             TypedefSpec(t).Some?
    ensures TypeOf(TypedefSpec(t).value.mock) == Some(Typed(Canonical(t), PRValue))
    ensures Canonical(t).shape.EnumType? || IsArithmetic(Canonical(t))
  {
  }

  lemma ScalarIsWellTyped(t: CType)
    requires (t.shape.BasicType? || t.shape.EnumType?) && ReturnSpec(t, true).Some?
    ensures var x := TypeOf(ReturnSpec(t, true).value.mock); x.Some? && Converts(x.value, Canonical(t))
  {
  }

  lemma ClassIsWellTyped(t: CType)
    requires IsClass(t)
    ensures ReturnSpec(t, true).Some?
    ensures var x := TypeOf(ReturnSpec(t, true).value.mock); x.Some? && Converts(x.value, Canonical(t))
  {
    var s := NewSpec(ConstPointer);
    assert TypeOf(StaticCast(ConstPtrTo(t), s.mock)) ==
           Some(Typed(CType(false, PointerType(AddConst(t, true))), PRValue));
    assert ReturnSpec(t, true) == Some(ClassSpec(t, true));
  }

  /** For every supported return type the expression a mock returns is well typed and converts
      to that type. */
  lemma {:induction false} ReturnIsWellTyped(t: CType)
    requires WellFormed(t) && ReturnSpec(t, true).Some?
    ensures var x := TypeOf(ReturnSpec(t, true).value.mock); x.Some? && Converts(x.value, Canonical(t))
  {
    hide PointerSpec, TypedefSpec;
    match t.shape
    case ElaboratedType(_, u) => ReturnIsWellTyped(u);
    case PointerType(_) => PointerIsWellTyped(t);
    case LValueRef(_) => PointerIsWellTyped(t);
    case RValueRef(_) => PointerIsWellTyped(t);
    case TypedefType(_, _) => TypedefIsWellTyped(t);
    case RecordType(_) => ClassIsWellTyped(t);
    case UnexposedType(_) => ClassIsWellTyped(t);
    case BasicType(_) => ScalarIsWellTyped(t);
    case EnumType(_) => ScalarIsWellTyped(t);
    case IncompleteArray(_) =>
  }

  lemma PointerIsWellTyped(t: CType)
    requires (t.shape.PointerType? || IsRef(t)) && WellFormed(t)
    ensures var x := TypeOf(PointerSpec(t, true).mock); x.Some? && Converts(x.value, Canonical(t))
  {
    hide PointerSpec, Canonical;
    WellFormedPointee(t);
    PointerTyping(t);
    PointeeOfCanonical(t);
  }

  lemma TypedefIsWellTyped(t: CType)
    requires t.shape.TypedefType? && WellFormed(t) && TypedefSpec(t).Some?
    ensures var x := TypeOf(TypedefSpec(t).value.mock); x.Some? && Converts(x.value, Canonical(t))
  {
    hide TypedefSpec;
    var c := Canonical(t);
    if c.shape.PointerType? { TypedefOfPointerTyping(t); }
    else if IsRef(c) { TypedefOfReferenceTyping(t); }
    else if IsClass(c) { TypedefOfClassTyping(t); }
    else { TypedefIsNotArray(t); TypedefOfScalarTyping(t); }
  }

  lemma TypedefIsNotArray(t: CType)
    requires t.shape.TypedefType? && TypedefSpec(t).Some?
    ensures !Canonical(t).shape.IncompleteArray? && !IsVoid(Canonical(t))
  {
  }

  // ----- What the expectation registers

  /** The declared type of `__return__` in the expectation function. */
  function ParamType(s: RetSpec, t: CType): CType {
    if s.byRef then CType(false, LValueRef(t))
    else if s.isRValueRef && t.shape.RValueRef? then CType(false, LValueRef(t.shape.to))
    else t
  }

  /** The argument of andReturnValue. */
  function ExpectExpr(s: RetSpec, t: CType): Expr {
    var x := Hole(ParamType(s, t), true);
    var y := if s.addressed then AddressOf(x) else x;
    if s.needsCast then StaticCast(Base(s.kind), y) else y
  }

  lemma ExpectHalves(s: RetSpec, t: CType)
    ensures Front(ExpectExpr(s, t)) == (if s.needsCast then CastOpening(Base(s.kind)) else "") +
            (if s.addressed then "&" else "")
    ensures Back(ExpectExpr(s, t)) == if s.needsCast then ")" else ""
  {
    var x := Hole(ParamType(s, t), true);
    var y := if s.addressed then AddressOf(x) else x;
    assert Front(y) == (if s.addressed then "&" else "") && Back(y) == "";
  }

  /** The generated statement passes exactly that expression. */
  lemma ExpectationBodyText(r: ReturnStandard, s: RetSpec, t: CType)
    requires r.Holds(s)
    ensures r.ExpectationBody() == "    __expectedCall__.andReturnValue(" + Text(ExpectExpr(s, t), "__return__") +
            ");\n"
  {
    hide CastOpening, Spell;
    HalvesMakeText(ExpectExpr(s, t), "__return__");
    ExpectHalves(s, t);
    var open, amp := if s.needsCast then CastOpening(Base(s.kind)) else "", if s.addressed then "&" else "";
    var close := if s.needsCast then ")" else "";
    RegroupBody("    __expectedCall__.andReturnValue(", open, amp, "__return__", close, ");\n");
  }

  lemma RegroupBody<T>(a: seq<T>, open: seq<T>, amp: seq<T>, hole: seq<T>, close: seq<T>, b: seq<T>)
    ensures a + open + amp + hole + [] + close + b == a + ((open + amp) + hole + close) + b
  {
  }

  /** The mock returns exactly the printed expression over its call on the mock. */
  lemma MockReturnText(r: ReturnStandard, s: RetSpec, call: string)
    requires r.Holds(s)
    ensures r.MockBodyFront() + call + r.MockBodyBack() ==
            "return " + Text(s.mock, call + ("." + Getter(s.kind) + "()"))
  {
    var getter := "." + Getter(s.kind) + "()";
    HalvesMakeText(s.mock, call + getter);
    RegroupReturn("return ", Front(s.mock), call, getter, Back(s.mock));
  }

  lemma RegroupReturn<T>(a: seq<T>, f: seq<T>, c: seq<T>, g: seq<T>, b: seq<T>)
    ensures (a + f) + c + (g + b) == a + (f + (c + g) + b)
  {
  }

  lemma {:induction false} OnlyRValueRefIsMarked(t: CType)
    requires WellFormed(t) && ReturnSpec(t, true).Some?
    ensures ReturnSpec(t, true).value.isRValueRef <==> t.shape.RValueRef?
  {
    hide Spell, BaseType, Referee, BasicKind;
    match t.shape
    case ElaboratedType(_, u) => OnlyRValueRefIsMarked(u);
    case TypedefType(_, _) => TypedefFlags(t);
    case _ =>
  }

  lemma TypedefFlags(t: CType)
    requires t.shape.TypedefType? && TypedefSpec(t).Some?
    ensures var s := TypedefSpec(t).value;
            !s.isRValueRef && s.byRef == IsClass(Canonical(t)) &&
              s.addressed == (IsClass(Canonical(t)) || IsRef(Canonical(t)))
  {
    hide Spell, BaseType, Referee, BasicKind;
  }

  // ----- Kind and flags in terms of the canonical type

  /** The referred type of a reference, and any other type itself. */
  function Target(c: CType): CType {
    if IsRef(c) then c.shape.to else c
  }

  ghost predicate Profile(s: RetSpec, c: CType) {
    && s.byRef == IsClass(c) && s.addressed == (IsRef(c) || IsClass(c))
    && match c.shape
       case BasicType(b) =>
         BasicKind(b).Some? && s.kind == BasicKind(b).value.0 && (BasicKind(b).value.1 ==> s.needsCast)
       case EnumType(_) => s.kind == Int && s.needsCast
       case PointerType(p) =>
         if s.kind == String then p == CType(true, BasicType(CharS))
         else s.kind == (if p.isConst then ConstPointer else Pointer) && (s.needsCast || IsVoid(p))
       case LValueRef(p) => s.kind == (if p.isConst then ConstPointer else Pointer) && s.needsCast
       case RValueRef(p) => s.kind == (if p.isConst then ConstPointer else Pointer) && s.needsCast
       case IncompleteArray(_) => false
       case _ => s.kind == ConstPointer && s.needsCast
  }

  lemma PointerProfile(t: CType, enableCast: bool)
    requires (t.shape.PointerType? || IsRef(t)) && GoodPointee(t)
    requires t.shape.RValueRef? ==> !Canonical(t.shape.to).shape.LValueRef?
    ensures Profile(PointerSpec(t, enableCast), Canonical(t))
  {
    hide Spell, BaseType;
    PointeeOfCanonical(t);
    ConstIsKept(Pointee(t));
  }

  lemma TypedefProfile(t: CType)
    requires t.shape.TypedefType? && WellFormed(t) && TypedefSpec(t).Some?
    ensures Profile(TypedefSpec(t).value.(needsCast := true), Canonical(t))
  {
    hide Spell, BaseType, PointerSpec;
    var c := Canonical(t);
    CanonicalIsIdempotent(t);
    if c.shape.PointerType? || IsRef(c) {
      if IsRef(c) { RefNeverToVoid(t); RefereeOfCanonical(c); } else { PointerNeverToRef(t); }
      CanonicalIsGood(c);
      PointerProfile(c, !c.shape.PointerType?);
    } else {
      TypedefIsNotArray(t);
    }
  }

  lemma CanonicalIsGood(c: CType)
    requires IsCanonical(c) && (c.shape.PointerType? || IsRef(c))
    requires IsRef(c) ==> !IsRef(c.shape.to) && IsCanonical(c.shape.to)
    requires IsRef(c) ==> Pointee(c) == c.shape.to && !IsVoid(c.shape.to)
    requires c.shape.PointerType? ==> !IsRef(c.shape.to)
    ensures GoodPointee(c)
  {
    if c.shape.PointerType? { assert Canonical(c.shape.to) == c.shape.to; }
  }

  /** Kind and flags follow from the canonical type alone, except that a pointer to const char
      hidden behind a typedef of char is returned as a plain const pointer. */
  lemma {:induction false} ReturnProfile(t: CType)
    requires WellFormed(t) && ReturnSpec(t, true).Some?
    ensures Profile(ReturnSpec(t, true).value, Canonical(t))
  {
    hide Spell, BaseType, PointerSpec, TypedefSpec;
    match t.shape
    case ElaboratedType(_, u) => ReturnProfile(u);
    case PointerType(_) => WellFormedPointee(t); PointerProfile(t, true);
    case LValueRef(_) => WellFormedPointee(t); PointerProfile(t, true);
    case RValueRef(_) => WellFormedPointee(t); PointerProfile(t, true);
    case TypedefType(_, _) => TypedefProfile(t);
    case _ =>
  }

  /** A pointer to const char that is written as one but not to `const char`. */
  predicate HidesReturnedChar(t: CType) {
    t.shape.PointerType? && Canonical(t.shape.to) == CType(true, BasicType(CharS)) &&
      t.shape.to != CType(true, BasicType(CharS))
  }

  /** The getter is the documented one exactly if no pointer to const char is hidden behind a name
      for what it points to, and no plain character, by itself or const behind a pointer, is
      unsigned. */
  lemma {:induction false} ReturnKindIsDocumentedExactly(t: CType)
    requires WellFormed(t) && ReturnSpec(t, true).Some?
    ensures Some(ReturnSpec(t, true).value.kind) == DocumentedReturn(Canonical(t)) <==>
            !HidesReturnedChar(t) && !IsUnsignedChar(Canonical(t))
  {
    hide Spell, BaseType, Canonical, DocumentedReturn, IsUnsignedChar;
    match t.shape
    case ElaboratedType(_, u) => ReturnKindIsDocumentedExactly(u); NamesHideNoChar(t);
    case TypedefType(_, u) => TypedefReturnKind(t);
    case _ => WrittenReturnKind(t);
  }

  lemma NamesHideNoChar(t: CType)
    requires WellFormed(t) && t.shape.ElaboratedType?
    ensures !HidesReturnedChar(t) && !HidesReturnedChar(t.shape.named)
    ensures DocumentedReturn(Canonical(t)) == DocumentedReturn(Canonical(t.shape.named))
    ensures IsUnsignedChar(Canonical(t)) == IsUnsignedChar(Canonical(t.shape.named))
  {
  }

  lemma TypedefReturnKind(t: CType)
    requires WellFormed(t) && t.shape.TypedefType? && TypedefSpec(t).Some?
    ensures Some(TypedefSpec(t).value.kind) == DocumentedReturn(Canonical(t)) <==> !IsUnsignedChar(Canonical(t))
  {
    hide Spell, BaseType, Canonical;
    CanonicalIsIdempotent(t);
    CanonicalLowersRank(t);
    var c := Canonical(t);
    if c.shape.PointerType? { assert Canonical(c.shape.to) == c.shape.to by { CanonicalPointee(c); } }
    if IsRef(c) { RefereeOfCanonical(c); }
  }

  lemma CanonicalPointee(c: CType)
    requires c.shape.PointerType? && IsCanonical(c)
    ensures IsCanonical(c.shape.to)
  {
  }

  lemma WrittenReturnKind(t: CType)
    requires WellFormed(t) && !IsSugar(t) && ReturnSpec(t, true).Some?
    ensures Some(ReturnSpec(t, true).value.kind) == DocumentedReturn(Canonical(t)) <==>
            !HidesReturnedChar(t) && !IsUnsignedChar(Canonical(t))
  {
    hide Spell, BaseType;
    if t.shape.PointerType? || IsRef(t) {
      WellFormedPointee(t);
      PointeeOfCanonical(t);
      ConstIsKept(Pointee(t));
    }
  }

  const UCHARACTER := CType(false, BasicType(CharU))
  const USTRING := CType(false, PointerType(CType(true, BasicType(CharU))))

  /** For instance `char` and `const char *` where plain characters are unsigned. */
  lemma UnsignedCharReturns()
    ensures Spell(UCHARACTER) == "char" && Spell(USTRING) == "const char *"
    ensures forall t :: t in {UCHARACTER, USTRING} ==>
                          && WellFormed(t) && ReturnSpec(t, true).Some? && !HidesReturnedChar(t)
                          && Some(ReturnSpec(t, true).value.kind) != DocumentedReturn(Canonical(t))
    ensures ReturnSpec(UCHARACTER, true).value.kind == UnsignedInt
    ensures ReturnSpec(USTRING, true).value.kind == ConstPointer
  {
    assert Spell(UCHARACTER) == "" + "char" && Spell(USTRING.shape.to) == "const " + "char";
    assert Spell(USTRING) == Signed("const char", "*") + "";
  }

  lemma ParamIsTarget(s: RetSpec, t: CType)
    requires s.byRef == IsClass(Canonical(t)) && (s.isRValueRef <==> t.shape.RValueRef?)
    ensures Declared(ParamType(s, t)) == Typed(Target(Canonical(t)), LValue)
  {
    hide Spell;
    var c := Canonical(t);
    if s.byRef {
      LValueRefDeclares(t);
    } else if s.isRValueRef {
      LValueRefDeclares(t.shape.to);
    }
  }

  lemma LValueRefDeclares(t: CType)
    ensures Declared(CType(false, LValueRef(t))) == Typed(Target(Canonical(t)), LValue)
  {
  }

  lemma ProfiledIsRegistered(s: RetSpec, t: CType)
    requires Profile(s, Canonical(t)) && Declared(ParamType(s, t)) == Typed(Target(Canonical(t)), LValue)
    ensures var x := TypeOf(ExpectExpr(s, t));
            x.Some? && x.value.ty.shape == BaseType(s.kind).shape
  {
    hide ParamType, Declared, Canonical, Spell;
    var c := Canonical(t);
    var x := Hole(ParamType(s, t), true);
    assert TypeOf(x) == Some(Typed(Target(c), LValue));
    if s.addressed {
      assert TypeOf(AddressOf(x)) == Some(Typed(CType(false, PointerType(Target(c))), PRValue));
      assert s.kind == ConstPointer || (s.kind == Pointer && !Target(c).isConst);
    } else if s.needsCast {
      assert CastAllowed(Typed(c, LValue), BaseType(s.kind));
    } else {
      assert c.shape == BaseType(s.kind).shape;
    }
  }

  /** What the expectation registers has the type that selects, among the overloads of
      andReturnValue, the kind that the mock's getter reads. */
  lemma ExpectationRegistersWhatMockReads(t: CType)
    requires WellFormed(t) && ReturnSpec(t, true).Some?
    ensures var s := ReturnSpec(t, true).value;
            var x := TypeOf(ExpectExpr(s, t));
            x.Some? && x.value.ty.shape == BaseType(s.kind).shape
  {
    hide Canonical, ReturnSpec, TypeOf, ExpectExpr, ParamType, Declared, Spell;
    var s := ReturnSpec(t, true).value;
    ReturnProfile(t);
    OnlyRValueRefIsMarked(t);
    ParamIsTarget(s, t);
    ProfiledIsRegistered(s, t);
  }

  // ----- The value comes through

  /** What the statement in the expectation stores, for the object `__return__` at `loc`. */
  function Registered(s: RetSpec, t: CType, loc: int, store: Store): Option<Value> {
    match Eval(ExpectExpr(s, t), At(loc), store)
    case None => None
    case Some(d) => Load(d, store)
  }

  lemma PointeeEval(t: CType, a: int, store: Store)
    requires t.shape.PointerType? || IsRef(t)
    ensures Eval(PointeeSpec(t, true).mock, Pure(Addr(a)), store) == Some(Pure(Addr(a)))
    ensures PointeeSpec(t, false).mock == NewSpec(PointeeSpec(t, false).kind).mock
  {
    hide Canonical, Spell, BaseType;
  }

  lemma PointerEval(t: CType, a: int, store: Store)
    requires t.shape.PointerType? || IsRef(t)
    ensures Eval(PointerSpec(t, true).mock, Pure(Addr(a)), store) == Some(if IsRef(t) then At(a) else Pure(Addr(a)))
  {
    hide PointeeSpec;
    PointeeEval(t, a, store);
  }

  /** A reference or an object is returned as the very object whose address was registered, and
      a pointer as the pointer registered. */
  lemma {:induction false} MockReturnsAddress(t: CType, a: int, store: Store)
    requires ReturnSpec(t, true).Some?
    requires var c := Canonical(t); IsRef(c) || IsClass(c) || c.shape.PointerType?
    ensures Eval(ReturnSpec(t, true).value.mock, Pure(Addr(a)), store) ==
            Some(if Canonical(t).shape.PointerType? then Pure(Addr(a)) else At(a))
  {
    hide Spell, BaseType, PointerSpec, TypedefSpec;
    match t.shape
    case ElaboratedType(_, u) => MockReturnsAddress(u, a, store);
    case TypedefType(_, _) => TypedefReturnsAddress(t, a, store);
    case PointerType(_) => PointerEval(t, a, store);
    case LValueRef(_) => PointerEval(t, a, store);
    case RValueRef(_) => PointerEval(t, a, store);
    case RecordType(_) => ClassCastEval(t, a, store);
    case UnexposedType(_) => ClassCastEval(t, a, store);
    case _ =>
  }

  lemma ClassCastEval(t: CType, a: int, store: Store)
    ensures Eval(Deref(StaticCast(ConstPtrTo(t), NewSpec(ConstPointer).mock)), Pure(Addr(a)), store) == Some(At(a))
  {
    hide Spell, BaseType, Canonical;
    assert Eval(StaticCast(ConstPtrTo(t), NewSpec(ConstPointer).mock), Pure(Addr(a)), store) == Some(Pure(Addr(a)));
  }

  lemma SpelledCastEval(t: CType, e: Expr, hole: Denotation, store: Store)
    requires Eval(e, hole, store).Some?
    requires Canonical(t).shape.PointerType? ==> Eval(e, hole, store).value.Pure? && Eval(e, hole, store).value.v.Addr?
    ensures IsRef(Canonical(t)) || Canonical(t).shape.PointerType? ==>
              Eval(StaticCast(Spelled(t), e), hole, store) == Eval(e, hole, store)
  {
    hide Canonical, Spell;
  }

  lemma TypedefReturnsAddress(t: CType, a: int, store: Store)
    requires t.shape.TypedefType? && TypedefSpec(t).Some?
    requires var c := Canonical(t); IsRef(c) || IsClass(c) || c.shape.PointerType?
    ensures Eval(TypedefSpec(t).value.mock, Pure(Addr(a)), store) ==
            Some(if Canonical(t).shape.PointerType? then Pure(Addr(a)) else At(a))
  {
    hide Spell, BaseType, PointeeSpec, Eval, Canonical;
    CanonicalLowersRank(t);
    var c := Canonical(t);
    if IsClass(c) {
      assert ReturnSpec(c, false) == Some(ClassSpec(c, false));
      ClassCastEval(t, a, store);
    } else if IsRef(c) {
      PointerEval(c, a, store);
      SpelledCastEval(t, PointerSpec(c, true).mock, Pure(Addr(a)), store);
    } else {
      PointeeEval(c, a, store);
      HoleEval(PointerSpec(c, false).kind, Pure(Addr(a)), store);
      SpelledCastEval(t, PointerSpec(c, false).mock, Pure(Addr(a)), store);
    }
  }

  lemma HoleEval(kind: MockedType, hole: Denotation, store: Store)
    ensures Eval(NewSpec(kind).mock, hole, store) == Some(hole)
  {
  }

  /** Every value of a scalar type is a value of the base type of its kind. */
  lemma ScalarFits(c: CType, kind: MockedType, v: Value)
    requires IsValueOf(v, c)
    requires (c.shape.BasicType? && BasicKind(c.shape.basic).Some? && kind == BasicKind(c.shape.basic).value.0) ||
             (c.shape.EnumType? && kind == Int)
    ensures ConvertTo(BaseType(kind), v) == Some(v) && ConvertTo(c, v) == Some(v)
  {
  }

  /** A number comes through the base type of its kind unchanged. */
  lemma {:induction false} MockReturnsScalar(t: CType, v: Value, store: Store)
    requires ReturnSpec(t, true).Some?
    requires var c := Canonical(t); (c.shape.BasicType? || c.shape.EnumType?) && IsValueOf(v, c)
    ensures var s := ReturnSpec(t, true).value;
            ConvertTo(BaseType(s.kind), v) == Some(v) && Eval(s.mock, Pure(v), store) == Some(Pure(v))
  {
    hide Spell, TypedefSpec, ConvertTo, BaseType;
    match t.shape
    case ElaboratedType(_, u) => MockReturnsScalar(u, v, store);
    case TypedefType(_, _) => TypedefReturnsScalar(t, v, store);
    case BasicType(b) => ScalarFits(t, BasicKind(b).value.0, v);
    case EnumType(_) => ScalarFits(t, Int, v);
    case _ =>
  }

  lemma TypedefReturnsScalar(t: CType, v: Value, store: Store)
    requires t.shape.TypedefType? && TypedefSpec(t).Some?
    requires var c := Canonical(t); (c.shape.BasicType? || c.shape.EnumType?) && IsValueOf(v, c)
    ensures var s := TypedefSpec(t).value;
            ConvertTo(BaseType(s.kind), v) == Some(v) && Eval(s.mock, Pure(v), store) == Some(Pure(v))
  {
    hide Spell, ConvertTo, BaseType, Canonical;
    CanonicalLowersRank(t);
    var c := Canonical(t);
    ScalarFits(c, if c.shape.EnumType? then Int else BasicKind(c.shape.basic).value.0, v);
  }

  lemma {:induction false} UncastPointer(t: CType)
    requires WellFormed(t) && ReturnSpec(t, true).Some? && Canonical(t).shape.PointerType?
    ensures BaseType(ReturnSpec(t, true).value.kind).shape.PointerType?
  {
    hide ReturnSpec, Canonical, Spell;
    ReturnProfile(t);
  }

  /** What the mock returns is what the expectation was given: the same object for references
      and classes, the same value for everything else. */
  lemma ReturnValueComesThrough(t: CType, loc: int, store: Store)
    requires WellFormed(t) && ReturnSpec(t, true).Some? && loc in store
    requires var c := Canonical(t); IsRef(c) || IsClass(c) || IsValueOf(store[loc], c)
    ensures var s := ReturnSpec(t, true).value;
            var c := Canonical(t);
            var v := Registered(s, t, loc, store);
            && v.Some? && Eval(s.mock, Pure(v.value), store).Some?
            && var d := Eval(s.mock, Pure(v.value), store).value;
               if IsRef(c) || IsClass(c) then v == Some(Addr(loc)) && d == At(loc) else d == Pure(store[loc])
  {
    hide ReturnSpec, Canonical, Spell, ParamType;
    var s := ReturnSpec(t, true).value;
    var c := Canonical(t);
    ReturnProfile(t);
    var x := Hole(ParamType(s, t), true);
    assert Eval(x, At(loc), store) == Some(At(loc));
    if IsRef(c) || IsClass(c) {
      assert Eval(AddressOf(x), At(loc), store) == Some(Pure(Addr(loc)));
      MockReturnsAddress(t, loc, store);
    } else if c.shape.PointerType? {
      UncastPointer(t);
      MockReturnsAddress(t, store[loc].loc, store);
    } else {
      MockReturnsScalar(t, store[loc], store);
    }
  }

  // ----- Text of the declaration and of the casts

  /** The expectation declares `__return__` with the type spelled as declared, less one sign for
      an rvalue reference, and with a sign more where it is taken by reference. */
  lemma SignatureTypeText(r: ReturnStandard, t: CType)
    requires WellFormed(t) && ReturnSpec(t, true).Some? && r.Holds(ReturnSpec(t, true).value) &&
             r.originalType == Spell(t)
    ensures r.isRValueRef ==> r.originalType != ""
    ensures t.shape.RValueRef? ==> r.SignatureType() == Spell(CType(false, LValueRef(t.shape.to)))
    ensures !t.shape.RValueRef? ==> r.SignatureType() == Spell(t)
    ensures var p := ParamType(ReturnSpec(t, true).value, t);
            r.ParamDeclaration() == if IsClass(Canonical(t)) then Spell(t) + " &" else Spell(p) + " "
  {
    hide ReturnSpec, Spell, Canonical;
    OnlyRValueRefIsMarked(t);
    ReturnProfile(t);
    if t.shape.RValueRef? {
      RValueRefSpelling(t.shape.to);
      SpelledAsIs(t);
      RValueRefIsNoClass(t);
    }
  }

  lemma SpelledAsIs(t: CType)
    requires t.shape.RValueRef?
    ensures Spell(t) == Spell(CType(false, RValueRef(t.shape.to)))
  {
  }

  lemma RValueRefIsNoClass(t: CType)
    requires t.shape.RValueRef?
    ensures !IsClass(Canonical(t))
  {
  }

  /** A cast that writes `const` in front of a type whose own spelling starts with it. */
  predicate DoublesConst(e: Expr) {
    match e
    case Hole(_, _) => false
    case StaticCast(target, x) => (target.ConstPtrTo? && target.t.isConst) || DoublesConst(x)
    case Deref(x) => DoublesConst(x)
    case AddressOf(x) => DoublesConst(x)
    case Move(x) => DoublesConst(x)
  }

  lemma PointerDoesNotDouble(t: CType, enableCast: bool)
    requires t.shape.PointerType? || IsRef(t)
    ensures !DoublesConst(PointerSpec(t, enableCast).mock)
  {
    assert !DoublesConst(PointeeSpec(t, enableCast).mock);
  }

  /** The cast in the mock repeats `const`, which C++ does not allow, exactly for a class type
      that is declared const under its own name or a typedef's. */
  lemma {:induction false} ConstIsDoubledExactly(t: CType)
    requires WellFormed(t) && ReturnSpec(t, true).Some?
    ensures DoublesConst(ReturnSpec(t, true).value.mock) <==>
            t.isConst && IsClass(Canonical(t)) && !t.shape.ElaboratedType?
  {
    hide Spell, BaseType, PointerSpec, Canonical;
    match t.shape
    case ElaboratedType(_, u) => ConstIsDoubledExactly(u);
    case PointerType(_) => PointerDoesNotDouble(t, true); ClassHead(t);
    case LValueRef(_) => PointerDoesNotDouble(t, true); ClassHead(t);
    case RValueRef(_) => PointerDoesNotDouble(t, true); ClassHead(t);
    case TypedefType(_, _) => TypedefDoublesExactly(t);
    case RecordType(_) => ClassDoublesExactly(t); ClassHead(t);
    case UnexposedType(_) => ClassDoublesExactly(t); ClassHead(t);
    case _ => ClassHead(t);
  }

  lemma ClassDoublesExactly(t: CType)
    ensures DoublesConst(ClassSpec(t, true).mock) <==> t.isConst
  {
    assert DoublesConst(StaticCast(ConstPtrTo(t), NewSpec(ConstPointer).mock)) <==> t.isConst;
  }

  lemma ClassHead(t: CType)
    requires !IsSugar(t)
    ensures t.shape.RValueRef? || IsClass(Canonical(t)) == IsClass(t)
    ensures t.shape.RValueRef? && WellFormed(t) ==> !IsClass(Canonical(t))
  {
  }

  lemma TypedefDoublesExactly(t: CType)
    requires t.shape.TypedefType? && TypedefSpec(t).Some?
    ensures DoublesConst(TypedefSpec(t).value.mock) <==> t.isConst && IsClass(Canonical(t))
  {
    hide Spell, BaseType, PointerSpec, Canonical;
    CanonicalLowersRank(t);
    var c := Canonical(t);
    if c.shape.PointerType? || IsRef(c) {
      PointerDoesNotDouble(c, !c.shape.PointerType?);
    } else {
      assert !DoublesConst(ReturnSpec(c, false).value.mock);
    }
  }

  /** For instance, a function returning `const S`. */
  lemma DoubledConstExample()
    ensures var t := CType(true, RecordType("S"));
            WellFormed(t) && ReturnSpec(t, true).Some? &&
              Front(ReturnSpec(t, true).value.mock) == "*static_cast<const const S*>("
  {
    var t := CType(true, RecordType("S"));
    var cast := StaticCast(ConstPtrTo(t), NewSpec(ConstPointer).mock);
    assert ReturnSpec(t, true).value.mock == Deref(cast);
    assert Spell(t) == "const S";
    assert CastOpening(ConstPtrTo(t)) == "static_cast<const const S*>(";
    assert Front(cast) == CastOpening(ConstPtrTo(t)) + "";
  }
}
