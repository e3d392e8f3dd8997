/** Whether the expectation functions type-check: the value an argument passes on, and the call
    with which the one-call overload forwards to the other
    (app/sources/Function.cpp, GetExpectationSignatureType and GenerateExpectation). */
module ExpectationTypes {
  import opened StringHelper
  import opened Overrides
  import opened CppTypes
  import opened Expressions
  import opened Arguments
  import opened ArgumentParser
  import opened ReturnParser
  import opened ReturnProperties
  import opened TypeIds
  import opened ArgumentProperties

  // ----- The types that the expectation declares

  /** The type of an argument in the expectation: its own, with one sign less for an rvalue
      reference and one more for what is taken by reference; an array is written as a pointer. */
  function ParameterType(s: ArgSpec, t: CType): CType {
    if s.isRValueRef && t.shape.RValueRef? then (if s.byRef then t else CType(false, LValueRef(t.shape.to)))
    else if s.byRef then CType(false, LValueRef(t))
    else if t.shape.IncompleteArray? then CType(false, PointerType(t.shape.of))
    else t
  }

  // ----- The value that the expectation passes on

  predicate Ignorable(s: ArgSpec) {
    !s.forceNotIgnored && IsInput(s.kind)
  }

  /** What the name stands for in the value expression: the parameter itself or, where it can be
      ignored, the reference to const that the wrapper's getValue returns. */
  function ValueType(s: ArgSpec, t: CType): CType {
    var p := ParameterType(s, t);
    if Ignorable(s) then CType(false, LValueRef(AddConst(p, true))) else p
  }

  function Rehole(e: Expr, t: CType): Expr {
    match e
    case Hole(_, v) => Hole(t, v)
    case StaticCast(target, x) => StaticCast(target, Rehole(x, t))
    case Deref(x) => Deref(Rehole(x, t))
    case AddressOf(x) => AddressOf(Rehole(x, t))
    case Move(x) => Move(Rehole(x, t))
  }

  lemma {:induction false} ReholeKeepsText(e: Expr, t: CType)
    ensures Front(Rehole(e, t)) == Front(e) && Back(Rehole(e, t)) == Back(e)
  {
    match e
    case Hole(_, _) =>
    case StaticCast(_, x) => ReholeKeepsText(x, t);
    case Deref(x) => ReholeKeepsText(x, t);
    case AddressOf(x) => ReholeKeepsText(x, t);
    case Move(x) => ReholeKeepsText(x, t);
  }

  /** The parameter of the expectation denotes what the argument of the mock does. */
  lemma ParameterDenotes(s: ArgSpec, t: CType)
    requires s.byRef ==> IsClass(Target(Canonical(t)))
    ensures !t.shape.IncompleteArray? ==> Declared(ParameterType(s, t)) == Typed(Target(Canonical(t)), LValue)
    ensures IsRef(Canonical(ParameterType(s, t))) <==> IsRef(Canonical(t)) || s.byRef
  {
    hide Canonical;
    ReferenceTo(t);
    if t.shape.RValueRef? { ReferenceTo(t.shape.to); RValueRefDeclares(t); }
    if t.shape.IncompleteArray? { NotAReference(t); }
  }

  lemma NotAReference(t: CType)
    requires t.shape.IncompleteArray?
    ensures Canonical(t).shape.IncompleteArray? && Canonical(CType(false, PointerType(t.shape.of))).shape.PointerType?
  {
  }

  lemma ReferenceTo(t: CType)
    ensures var r := Canonical(CType(false, LValueRef(t)));
            IsRef(r) && r.shape.to == Target(Canonical(t))
  {
  }

  lemma RValueRefDeclares(t: CType)
    requires t.shape.RValueRef?
    ensures IsRef(Canonical(t)) && Target(Canonical(t)) == Target(Canonical(t.shape.to))
  {
  }

  lemma ValueDenotes(s: ArgSpec, t: CType)
    ensures var p := ParameterType(s, t);
            Declared(ValueType(s, t)) ==
            if Ignorable(s) && !IsRef(Canonical(p)) then Typed(AddConst(Canonical(p), true), LValue) else Declared(p)
  {
    hide Spell, ParameterType;
    var p := ParameterType(s, t);
    if Ignorable(s) {
      assert Canonical(AddConst(p, true)) == AddConst(Canonical(p), true) by { ConstThroughCanonical(p); }
    }
  }

  lemma ConstThroughCanonical(p: CType)
    ensures Canonical(AddConst(p, true)) == AddConst(Canonical(p), true)
  {
  }

  lemma ArrayValueDenotes(s: ArgSpec, t: CType)
    requires t.shape.IncompleteArray? && WellFormed(t) && !s.byRef
    ensures var o := Canonical(t);
            && o.shape.IncompleteArray?
            && Declared(ParameterType(s, t)) ==
               Typed(CType(false, PointerType(CType(o.isConst, o.shape.of.shape))), LValue)
  {
  }

  /** Const on what a call takes by value makes no difference. */
  lemma ConstConverts(o: CType, k: ArgKind)
    requires o.shape.IncompleteArray? ==> k == Simple(ConstPointer)
    ensures Converts(Typed(AddConst(o, true), LValue), Taken(k)) <==> Converts(Typed(o, LValue), Taken(k))
  {
  }

  lemma ArrayConverts(o: CType, k: ArgKind, isConst: bool)
    requires o.shape.IncompleteArray?
    ensures Converts(Typed(CType(isConst, PointerType(CType(o.isConst, o.shape.of.shape))), LValue), Taken(k)) <==>
            Converts(Typed(o, LValue), Taken(k))
  {
  }

  lemma SameHole(e: Expr, t: CType, orig: CType)
    requires e == Hole(orig, true) || e == AddressOf(Hole(orig, true)) || e == StaticCast(Base(Int), Hole(orig, true))
    ensures Declared(t) == Declared(orig) ==> TypeOf(Rehole(e, t)) == TypeOf(e)
    ensures e.Hole? ==> TypeOf(e) == Some(Declared(orig)) && TypeOf(Rehole(e, t)) == Some(Declared(t))
    ensures e.StaticCast? && Declared(t).ty.shape == Declared(orig).ty.shape ==> TypeOf(Rehole(e, t)) == TypeOf(e)
  {
    hide Declared;
    assert TypeOf(Hole(t, true)) == Some(Declared(t)) && TypeOf(Hole(orig, true)) == Some(Declared(orig));
  }

  /** The value that the expectation passes on has a type that the call takes, exactly when it does
      in the mock. */
  lemma ExpectationValueIsWellTypedExactly(underlying: bool, t: CType)
    requires WellFormed(t) && ArgTypeSpec(underlying, t, t, false).Some?
    ensures var s := ArgTypeSpec(underlying, t, t, false).value;
            WellTyped(s.(value := Rehole(s.value, ValueType(s, t)))) <==> !LosesConst(t)
  {
    hide ArgTypeSpec, Canonical, LosesConst, Spell, ParameterType, ValueType, Converts, Taken, TypeOf;
    var s := ArgTypeSpec(underlying, t, t, false).value;
    var p := ParameterType(s, t);
    ArgumentFlags(underlying, t, t, false);
    ArgumentIsWellTypedExactly(underlying, t);
    ValueDenotes(s, t);
    SameHole(s.value, ValueType(s, t), t);
    if t.shape.IncompleteArray? {
      ArrayIsPassedAsItIs(underlying, t);
      ArrayValueDenotes(s, t);
      ArrayConverts(Canonical(t), s.kind, false);
      ArrayConverts(Canonical(t), s.kind, true);
    } else {
      ParameterDenotes(s, t);
      if Ignorable(s) { ConstConverts(Canonical(t), s.kind); }
    }
  }

  lemma ArrayIsPassedAsItIs(underlying: bool, t: CType)
    requires t.shape.IncompleteArray?
    ensures var s := ArgTypeSpec(underlying, t, t, false);
            s.Some? && s.value.value == Hole(t, true) && !s.value.byRef && !s.value.isRValueRef
  {
    hide Spell, Canonical;
  }

  // ----- The size that goes with it

  /** The operand of the `sizeof` that an output whose size follows from the type is given. */
  function SizeOperand(s: ArgSpec, t: CType): Expr {
    Deref(Rehole(s.value, ParameterType(s, t)))
  }

  /** That is what is printed. */
  lemma SizeOperandText(underlying: bool, t: CType, a: Argument)
    requires ArgTypeSpec(underlying, t, t, false).Some? && a.Standard? && a.kind == OutputArg(true)
    requires BuiltFromType(a, t, ArgTypeSpec(underlying, t, t, false).value)
    ensures Arguments.SizeText(a, false, "") ==
            "sizeof(" + Text(SizeOperand(ArgTypeSpec(underlying, t, t, false).value, t), a.name) + ")"
  {
    hide ArgTypeSpec, Front, Back, Text, Spell, ParameterType, TypeTexts;
    var s := ArgTypeSpec(underlying, t, t, false).value;
    var e := Rehole(s.value, ParameterType(s, t));
    ReholeKeepsText(s.value, ParameterType(s, t));
    HalvesMakeText(e, a.name);
    DerefText(e, a.name);
    SizePieces(a.front, a.name, a.back);
  }

  lemma DerefText(e: Expr, hole: string)
    ensures Text(Deref(e), hole) == "*" + Text(e, hole)
  {
  }

  lemma SizePieces(front: string, name: string, back: string)
    ensures "sizeof(*" + front + name + "" + back + ")" == "sizeof(" + ("*" + (front + name + back)) + ")"
  {
    assert "sizeof(*" == "sizeof(" + "*";
    assert "sizeof(*" + front + name + "" == "sizeof(*" + front + name;
    assert "sizeof(*" + front + name + back == "sizeof(" + ("*" + (front + name + back)) by {
      Regroup("sizeof(", "*", front);
    }
  }

  /** Of incomplete types there is no size. */
  predicate HasSize(x: Option<Typed>) {
    x.Some? && !IsVoid(x.value.ty) && !x.value.ty.shape.IncompleteArray?
  }

  predicate SizeTypeChecks(s: ArgSpec, t: CType) {
    s.kind == OutputArg(true) ==> HasSize(TypeOf(SizeOperand(s, t)))
  }

  /** A reference, written as one, to an array that may be written. */
  predicate RefersToArray(t: CType) {
    t.shape.LValueRef? && Target(Canonical(t)).shape.IncompleteArray? && !Target(Canonical(t)).isConst
  }

  /** What is passed with its size is documented to be, as a reference that nothing hides. */
  lemma SizedIsReference(underlying: bool, t: CType)
    requires WellFormed(t) && ArgTypeSpec(underlying, t, t, false).Some? && !LosesConst(t)
    ensures ArgTypeSpec(underlying, t, t, false).value.kind == OutputArg(true) ==>
              t.shape.LValueRef? && !Target(Canonical(t)).isConst
    ensures RefersToArray(t) ==> ArgTypeSpec(underlying, t, t, false).value.kind == OutputArg(true)
  {
    hide ArgTypeSpec, LosesConst, Spell;
    ArgumentKindIsAsExpected(underlying, t);
    CanonicalIsIdempotent(t);
    OnlyReferencesAreSized(t);
  }

  lemma OnlyReferencesAreSized(t: CType)
    requires WellFormed(t)
    ensures ExpectedKind(t) == Some(OutputArg(true)) ==> t.shape.LValueRef? && !Target(Canonical(t)).isConst
    ensures RefersToArray(t) ==> ExpectedKind(t) == Some(OutputArg(true))
  {
    hide Spell;
    CanonicalIsIdempotent(t);
    if t.shape.RValueRef? {
      RValueRefIsPlain(t);
      RValueRefTargetIsNoRef(t);
      NotSized(Canonical(t).shape.to);
    } else if !t.shape.LValueRef? && !IsSugar(t) {
      NotSized(Canonical(t));
    }
  }

  lemma NotSized(c: CType)
    requires !IsRef(c)
    ensures ChosenKind(c) != Some(OutputArg(true))
  {
  }

  lemma RValueRefTargetIsNoRef(t: CType)
    requires WellFormed(t) && t.shape.RValueRef?
    ensures !IsRef(Canonical(t).shape.to) && IsRef(Canonical(t))
  {
    CanonicalIsIdempotent(t);
    RValueRefIsPlain(t);
  }

  lemma SizeOperandTyping(s: ArgSpec, t: CType)
    requires s.kind == OutputArg(true) && ShapedValue(s, t) && t.shape.LValueRef? && !s.byRef && !s.isRValueRef &&
             WellFormed(t)
    ensures TypeOf(SizeOperand(s, t)) == Some(Typed(Target(Canonical(t)), LValue))
    ensures !IsVoid(Target(Canonical(t)))
  {
    hide Canonical, Spell;
    var x := AddressOf(Hole(t, true));
    assert s.value == x && Rehole(x, t) == x by { assert Rehole(Hole(t, true), t) == Hole(t, true); }
    assert ParameterType(s, t) == t;
    HoleTyping(t);
    NoVoidTarget(t);
    assert TypeOf(Deref(x)) == Some(Typed(Target(Canonical(t)), LValue));
  }

  lemma NoVoidTarget(t: CType)
    requires WellFormed(t) && t.shape.LValueRef?
    ensures !IsVoid(Target(Canonical(t)))
  {
    RefNeverToVoid(t);
  }

  /** For every supported argument type, the value and the size that the expectation passes on
      type-check, exactly if no const is lost and the size is not that of an incomplete array. */
  lemma ExpectationArgumentIsWellTypedExactly(underlying: bool, t: CType)
    requires WellFormed(t) && ArgTypeSpec(underlying, t, t, false).Some?
    ensures var s := ArgTypeSpec(underlying, t, t, false).value;
            WellTyped(s.(value := Rehole(s.value, ValueType(s, t)))) && SizeTypeChecks(s, t) <==>
            !LosesConst(t) && !RefersToArray(t)
  {
    hide ArgTypeSpec, Canonical, LosesConst, Spell, WellTyped, TypeOf, ShapedValue, SizeOperand;
    var s := ArgTypeSpec(underlying, t, t, false).value;
    ExpectationValueIsWellTypedExactly(underlying, t);
    if !LosesConst(t) {
      SizedIsReference(underlying, t);
      ArgumentFlags(underlying, t, t, false);
      if s.kind == OutputArg(true) {
        NotByReference(t, s);
        SizeOperandTyping(s, t);
      }
    }
  }

  lemma NotByReference(t: CType, s: ArgSpec)
    requires t.shape.LValueRef?
    requires s.byRef ==> IsClass(Target(Canonical(t))) && (t.shape.RValueRef? || !IsRef(Canonical(t)))
    ensures !s.byRef
  {
  }

  lemma ReferenceIsSupported(underlying: bool, t: CType)
    requires t.shape.LValueRef?
    ensures ArgTypeSpec(underlying, t, t, false).Some?
  {
    hide Spell, BareTypeSpelling, Canonical;
  }

  /** For instance `A &`, where A names int[]. */
  lemma ArrayReferenceExample(underlying: bool)
    ensures var a := CType(false, TypedefType("A", CType(false, IncompleteArray(Plain(IntType)))));
            var t := CType(false, LValueRef(a));
            && WellFormed(t) && ArgTypeSpec(underlying, t, t, false).Some? && RefersToArray(t)
            && !SizeTypeChecks(ArgTypeSpec(underlying, t, t, false).value, t)
  {
    hide Spell, BareTypeSpelling, ArgTypeSpec, SizeTypeChecks, WellTyped;
    var ints := CType(false, IncompleteArray(Plain(IntType)));
    var a := CType(false, TypedefType("A", ints));
    var t := CType(false, LValueRef(a));
    assert Canonical(a) == ints && Canonical(t) == CType(false, LValueRef(ints));
    ReferenceIsSupported(underlying, t);
    ExpectationValueIsWellTypedExactly(underlying, t);
    ExpectationArgumentIsWellTypedExactly(underlying, t);
  }

  // ----- The forwarding call

  /** The type of a function's parameter: an array stands for a pointer. */
  function Adjusted(c: CType): CType {
    if c.shape.IncompleteArray? then CType(false, PointerType(CType(c.isConst, c.shape.of.shape))) else c
  }

  /** A parameter of this type can be passed on by its name to a parameter of the same type. */
  predicate Forwards(p: CType) {
    var c := Adjusted(Canonical(p));
    Converts(Typed(Target(c), LValue), c)
  }

  /** A name is an lvalue, to which no rvalue reference binds. */
  lemma NamesForward(p: CType)
    requires Canonical(p).shape.BasicType? ==> IsArithmetic(Canonical(p))
    ensures Forwards(p) <==> !Canonical(p).shape.RValueRef?
  {
    hide Canonical;
  }

  /** An rvalue reference under another name, or to a class under another name. */
  predicate NamesRValue(t: CType) {
    HidesClass(t) || (Canonical(t).shape.RValueRef? && !t.shape.RValueRef?)
  }

  lemma SupportedIsArithmetic(underlying: bool, t: CType)
    requires WellFormed(t) && ArgTypeSpec(underlying, t, t, false).Some? && Canonical(t).shape.BasicType?
    ensures IsArithmetic(Canonical(t))
  {
    hide ArgTypeSpec, Canonical, Spell;
    var s := ArgTypeSpec(underlying, t, t, false).value;
    ArgumentFlags(underlying, t, t, false);
    NoArrayNoLoss(t);
    ArgumentIsWellTypedExactly(underlying, t);
    HoleTyping(t);
  }

  lemma NoArrayNoLoss(t: CType)
    requires WellFormed(t) && Canonical(t).shape.BasicType?
    ensures !LosesConst(t)
  {
    if t.shape.RValueRef? { RValueRefIsPlain(t); }
  }

  /** Behind an rvalue reference, taken by reference means a class that is hidden. */
  lemma ByRefIsHidden(underlying: bool, t: CType)
    requires WellFormed(t) && t.shape.RValueRef? && ArgTypeSpec(underlying, t, t, false).Some?
    ensures ArgTypeSpec(underlying, t, t, false).value.byRef <==> HidesClass(t)
  {
    hide Canonical, Spell, PointeeArg, BareTypeSpelling;
    var p := BarePointee(t);
    BarePointeeLowersRank(t);
    BarePointeeTarget(t);
    BarePointeeIsBare(t);
    if IsClass(p) {
      PointeeArgFlags(underlying, t, t);
    } else {
      ArgumentFlags(underlying, p, t, p.isConst);
      if !p.shape.TypedefType? { ClassHead(p); }
    }
  }

  lemma BarePointeeIsBare(t: CType)
    requires WellFormed(t) && t.shape.RValueRef?
    ensures !BarePointee(t).shape.ElaboratedType? && !BarePointee(t).shape.RValueRef?
  {
    hide Spell;
    WellFormedReferee(t.shape.to);
  }

  lemma ParameterKeepsRValue(s: ArgSpec, t: CType)
    requires WellFormed(t) && s.isRValueRef == t.shape.RValueRef?
    ensures var p := Canonical(ParameterType(s, t));
            p.shape.RValueRef? <==> if t.shape.RValueRef? then s.byRef else Canonical(t).shape.RValueRef? && !s.byRef
    ensures Canonical(ParameterType(s, t)).shape.BasicType? ==> Canonical(ParameterType(s, t)) == Canonical(t)
  {
    if t.shape.RValueRef? { RValueRefIsPlain(t); }
  }

  /** The one-call overload's call type-checks in every argument but the rvalue references that
      hide behind a typedef, and those to a class behind one: there the name of an rvalue
      reference parameter is passed on, and that is an lvalue. */
  lemma ForwardingTypeChecksExactly(underlying: bool, t: CType)
    requires WellFormed(t) && ArgTypeSpec(underlying, t, t, false).Some?
    ensures var s := ArgTypeSpec(underlying, t, t, false).value;
            (Ignorable(s) || Forwards(ParameterType(s, t))) <==> !NamesRValue(t)
  {
    hide ArgTypeSpec, Canonical, Spell, Forwards, ParameterType, HidesClass;
    var s := ArgTypeSpec(underlying, t, t, false).value;
    ArgumentFlags(underlying, t, t, false);
    ParameterKeepsRValue(s, t);
    if Canonical(t).shape.BasicType? { SupportedIsArithmetic(underlying, t); }
    NamesForward(ParameterType(s, t));
    if t.shape.RValueRef? {
      ByRefIsHidden(underlying, t);
      RValueRefIsPlain(t);
    } else {
      OnlyRValueRefsHideClasses(t);
    }
  }

  lemma OnlyRValueRefsHideClasses(t: CType)
    requires !t.shape.RValueRef?
    ensures !HidesClass(t)
  {
  }

  /** For instance `Alias &&`, where Alias names a class. */
  lemma ForwardingFailsExample(underlying: bool)
    ensures var t := CType(false, RValueRef(CType(false, TypedefType("Alias", CType(false, RecordType("S"))))));
            var s := ArgTypeSpec(underlying, t, t, false);
            && WellFormed(t) && s.Some? && ParameterType(s.value, t) == t
            && !Ignorable(s.value) && !Forwards(t)
  {
    hide BareTypeSpelling, Spell;
    var a := CType(false, TypedefType("Alias", CType(false, RecordType("S"))));
    var t := CType(false, RValueRef(a));
    assert Canonical(a) == CType(false, RecordType("S"));
    assert BarePointee(t) == a;
    NamesForward(t);
    ForwardingTypeChecksExactly(underlying, t);
  }

  /** The same for the return value: it is forwarded but where an rvalue reference hides. */
  lemma ReturnForwardingTypeChecksExactly(t: CType)
    requires WellFormed(t) && ReturnSpec(t, true).Some?
    ensures Forwards(ParamType(ReturnSpec(t, true).value, t)) <==>
            !(Canonical(t).shape.RValueRef? && !t.shape.RValueRef?)
  {
    hide ReturnSpec, Spell, Forwards, Canonical, ParamType;
    var s := ReturnSpec(t, true).value;
    ReturnProfile(t);
    OnlyRValueRefIsMarked(t);
    ReturnParameter(s, t);
    NamesForward(ParamType(s, t));
  }

  lemma ReturnParameter(s: RetSpec, t: CType)
    requires Profile(s, Canonical(t)) && (s.isRValueRef <==> t.shape.RValueRef?)
    ensures var p := Canonical(ParamType(s, t));
            && (p.shape.RValueRef? <==> Canonical(t).shape.RValueRef? && !t.shape.RValueRef?)
            && (p.shape.BasicType? ==> IsArithmetic(p))
  {
    hide Spell;
  }
}
