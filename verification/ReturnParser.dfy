/** How a return type becomes the expression a mock returns and the value an expectation
    registers (app/sources/Function.cpp, the Return classes and ReturnParser). */
module ReturnParser {
  import opened StringHelper
  import opened Overrides
  import opened CppTypes
  import opened Expressions

  // ----- What the parser builds for a type

  /** `mock` is the returned expression over the call on the mock; the flags say how the
      expectation declares and passes the value. */
  datatype RetSpec = RetSpec(kind: MockedType, mock: Expr, addressed: bool, byRef: bool, needsCast: bool,
    isRValueRef: bool)

  function NewSpec(kind: MockedType): RetSpec {
    RetSpec(kind, Hole(BaseType(kind), false), false, false, false, false)
  }

  lemma NewHalves(kind: MockedType)
    ensures Front(NewSpec(kind).mock) == "" && Back(NewSpec(kind).mock) == ""
  {
  }

  /** The getter for a basic type and whether its value needs casts on both sides. */
  function BasicKind(b: Basic): Option<(MockedType, bool)> {
    match b
    case BoolType => Some((Bool, false))
    case IntType => Some((Int, false))
    case CharS => Some((Int, true)) case SChar => Some((Int, true))
    case ShortType => Some((Int, true)) case WChar => Some((Int, true))
    case UInt => Some((UnsignedInt, false))
    case CharU => Some((UnsignedInt, true)) case UChar => Some((UnsignedInt, true))
    case UShort => Some((UnsignedInt, true))
    case Char16 => Some((UnsignedInt, true))
    case LongType => Some((Long, false))
    case ULong => Some((UnsignedLong, false))
    case Char32 => Some((UnsignedLong, true))
    case DoubleType => Some((Double, false))
    case FloatType => Some((Double, true))
    case _ => None
  }

  function ScalarSpec(t: CType, kind: MockedType, cast: bool, enableCast: bool): RetSpec {
    var s := NewSpec(kind).(needsCast := cast);
    if cast && enableCast then s.(mock := StaticCast(Spelled(t), s.mock)) else s
  }

  function ClassSpec(t: CType, enableCast: bool): RetSpec {
    var s := NewSpec(ConstPointer).(needsCast := true, byRef := true);
    if enableCast then s.(mock := Deref(StaticCast(ConstPtrTo(t), s.mock)), addressed := true) else s
  }

  function PointeeSpec(t: CType, enableCast: bool): (s: RetSpec)
    requires t.shape.PointerType? || IsRef(t)
    ensures !s.addressed && !s.byRef && !s.isRValueRef
  {
    var p := Pointee(t);
    if t.shape.PointerType? && p == CType(true, BasicType(CharS)) then NewSpec(String)
    else
      var s := NewSpec(if p.isConst || Canonical(p).isConst then ConstPointer else Pointer);
      if IsVoid(p) then s
      else if enableCast then s.(needsCast := true, mock := StaticCast(PtrTo(p), s.mock))
      else s.(needsCast := true)
  }

  function PointerSpec(t: CType, enableCast: bool): RetSpec
    requires t.shape.PointerType? || IsRef(t)
  {
    var s := PointeeSpec(t, enableCast);
    if t.shape.LValueRef? then s.(mock := Deref(s.mock), addressed := true)
    else if t.shape.RValueRef? then s.(mock := Move(Deref(s.mock)), addressed := true)
    else s
  }

  function ThroughTypedef(t: CType, c: CType, s: RetSpec): RetSpec {
    if IsClass(c) then s.(mock := Deref(StaticCast(ConstPtrTo(t), s.mock)), byRef := true, addressed := true)
    else s.(mock := StaticCast(Spelled(t), s.mock))
  }

  function TypedefSpec(t: CType): Option<RetSpec>
    requires t.shape.TypedefType?
    decreases Rank(t), 0
  {
    CanonicalLowersRank(t);
    var c := Canonical(t);
    var s := if c.shape.PointerType? || IsRef(c) then Some(PointerSpec(c, !c.shape.PointerType?))
             else ReturnSpec(c, false);
    match s
    case None => None
    case Some(r) => Some(ThroughTypedef(t, c, r))
  }

  /** None stands for an unsupported return type. */
  function ReturnSpec(t: CType, enableCast: bool): Option<RetSpec>
    decreases Rank(t), 1
  {
    match t.shape
    case BasicType(b) =>
      (match BasicKind(b) case None => None case Some((kind, cast)) => Some(ScalarSpec(t, kind, cast, enableCast)))
    case EnumType(_) => Some(ScalarSpec(t, Int, true, enableCast))
    case PointerType(_) => Some(PointerSpec(t, enableCast))
    case LValueRef(_) => Some(PointerSpec(t, enableCast))
    case RValueRef(_) => Some(PointerSpec(t, enableCast).(isRValueRef := true))
    case RecordType(_) => Some(ClassSpec(t, enableCast))
    case UnexposedType(_) => Some(ClassSpec(t, enableCast))
    case ElaboratedType(_, u) => ReturnSpec(u, enableCast)
    case TypedefType(_, _) =>
      (match TypedefSpec(t) case None => None case Some(s) => Some(s.(needsCast := true)))
    case IncompleteArray(_) => None
  }

  // ----- The object that is built

  class ReturnStandard {
    const kind: MockedType
    var mockFront: string
    var mockBack: string
    var expectFront: string
    var expectBack: string
    var argByRef: bool
    var needsCast: bool
    var isRValueRef: bool
    var useBaseType: bool
    var originalType: string

    constructor (kind: MockedType)
      ensures this.kind == kind && mockFront == mockBack == expectFront == expectBack == originalType == ""
      ensures !argByRef && !needsCast && !isRValueRef && !useBaseType
    {
      this.kind := kind;
      mockFront, mockBack, expectFront, expectBack, originalType := "", "", "", "", "";
      argByRef, needsCast, isRValueRef, useBaseType := false, false, false, false;
    }

    /** The object holds exactly the halves and flags of `s`. */
    ghost predicate Is(s: RetSpec)
      reads this
    {
      Holds(s) && originalType == ""
    }

    /** The same once the declared type is set. */
    ghost predicate Holds(s: RetSpec)
      reads this
    {
      && kind == s.kind && mockFront == Front(s.mock) && mockBack == Back(s.mock)
      && expectFront == (if s.addressed then "&" else "") && expectBack == ""
      && argByRef == s.byRef && needsCast == s.needsCast && isRValueRef == s.isRValueRef && !useBaseType
    }

    /** Or exactly what an override says. */
    ghost predicate HoldsOverride(s: OverrideSpec)
      reads this
    {
      && kind == s.ty && mockFront == s.exprModFront && mockBack == s.exprModBack
      && expectFront == expectBack == "" && !argByRef && !needsCast && !isRValueRef && useBaseType
    }

    method MockRetExprPrepend(expr: string)
      modifies `mockFront
      ensures mockFront == expr + old(mockFront)
    {
      mockFront := expr + mockFront;
    }

    method MockRetExprAppend(expr: string)
      modifies `mockBack
      ensures mockBack == old(mockBack) + expr
    {
      mockBack := mockBack + expr;
    }

    method ExpectationRetExprPrepend(expr: string)
      modifies `expectFront
      ensures expectFront == expr + old(expectFront)
    {
      expectFront := expr + expectFront;
    }

    /** Casts what is there to `target`. */
    method MockCast(target: CastTarget)
      modifies `mockFront, `mockBack
      ensures mockFront == CastOpening(target) + old(mockFront) && mockBack == old(mockBack) + ")"
    {
      MockRetExprPrepend(CastOpening(target));
      MockRetExprAppend(")");
    }

    // What it contributes to the generated code

    function MockBodyFront(): string
      reads this
    {
      "return " + mockFront
    }

    function MockBodyBack(): string
      reads this
    {
      "." + Getter(kind) + "()" + mockBack
    }

    function SignatureType(): string
      requires isRValueRef ==> originalType != ""
      reads this
    {
      if isRValueRef then originalType[..|originalType| - 1] else originalType
    }

    /** What stands before `__return__` where the expectation declares it. */
    function ParamDeclaration(): string
      requires isRValueRef ==> originalType != ""
      reads this
    {
      if useBaseType then BaseTypeText(kind) + " " else SignatureType() + (if argByRef then " &" else " ")
    }

    function ExpectationBody(): string
      reads this
    {
      "    __expectedCall__.andReturnValue(" + (if needsCast then CastOpening(Base(kind)) else "") + expectFront +
      "__return__" + expectBack + (if needsCast then ")" else "") + ");\n"
    }
  }

  function Getter(k: MockedType): string {
    match k
    case Bool => "returnBoolValue"
    case Int => "returnIntValue"
    case UnsignedInt => "returnUnsignedIntValue"
    case Long => "returnLongIntValue"
    case UnsignedLong => "returnUnsignedLongIntValue"
    case Double => "returnDoubleValue"
    case String => "returnStringValue"
    case Pointer => "returnPointerValue"
    case _ => "returnConstPointerValue"
  }

  /** What parsing a return type comes to; the last two stand for the exceptions thrown. */
  datatype Outcome = ReturnVoid | Returns(ret: ReturnStandard) | Unsupported | InternalError

  class Parser {
    const config: map<string, OverrideSpec>

    constructor (config: map<string, OverrideSpec>)
      ensures this.config == config
    {
      this.config := config;
    }

    /** The first half of ProcessTypePointer: the kind and the cast to the pointee's type. */
    method ProcessPointee(t: CType, enableCast: bool) returns (ret: ReturnStandard)
      requires t.shape.PointerType? || IsRef(t)
      ensures fresh(ret) && ret.Is(PointeeSpec(t, enableCast))
    {
      hide Canonical, BaseType, Referee, CastOpening, Front, Back;
      var pointeeType := Pointee(t);
      var isPointeeConst := pointeeType.isConst;
      if t.shape.PointerType? && pointeeType.shape == BasicType(CharS) && isPointeeConst {
        ret := new ReturnStandard(String);
        NewHalves(String);
      } else {
        var underlyingPointeeType := Canonical(pointeeType);
        ret := new ReturnStandard(if isPointeeConst || underlyingPointeeType.isConst then ConstPointer else Pointer);
        NewHalves(ret.kind);
        WrappedHalves(NewSpec(ret.kind).mock, PtrTo(pointeeType));
        if pointeeType.shape != BasicType(VoidType) {
          ret.needsCast := true;
          if enableCast {
            ret.MockCast(PtrTo(pointeeType));
          }
        }
      }
    }

    method ProcessTypePointer(t: CType, enableCast: bool) returns (ret: ReturnStandard)
      requires t.shape.PointerType? || IsRef(t)
      ensures fresh(ret) && ret.Is(PointerSpec(t, enableCast))
    {
      hide PointeeSpec, CastOpening, Front, Back;
      ret := ProcessPointee(t, enableCast);
      WrappedHalves(PointeeSpec(t, enableCast).mock, Spelled(t));
      if t.shape.LValueRef? {
        ret.MockRetExprPrepend("*");
        ret.ExpectationRetExprPrepend("&");
      } else if t.shape.RValueRef? {
        ret.MockRetExprPrepend("std::move(" + "*");
        ret.MockRetExprAppend(")");
        ret.ExpectationRetExprPrepend("&");
      }
    }

    method ProcessTypeTypedef(t: CType) returns (ret: ReturnStandard?)
      requires t.shape.TypedefType?
      ensures ret == null <==> TypedefSpec(t).None?
      ensures ret != null ==> fresh(ret) && ret.Is(TypedefSpec(t).value)
      decreases Rank(t), 0
    {
      hide CastOpening, BaseType, Referee, PointerSpec, ScalarSpec, BasicKind;
      CanonicalLowersRank(t);
      var underlyingType := Canonical(t);
      if underlyingType.shape.PointerType? || IsRef(underlyingType) {
        ret := ProcessTypePointer(underlyingType, !underlyingType.shape.PointerType?);
      } else {
        ret := ProcessType(underlyingType, false);
        if ret == null {
          return;
        }
      }
      if IsClass(underlyingType) {
        assert ret.Is(ClassSpec(underlyingType, false));
        WrappedHalves(NewSpec(ConstPointer).mock, ConstPtrTo(t));
        ret.MockRetExprPrepend("*" + CastOpening(ConstPtrTo(t)));
        ret.MockRetExprAppend(")");
        ret.argByRef := true;
        ret.ExpectationRetExprPrepend("&");
      } else {
        ret.MockCast(Spelled(t));
      }
    }

    method ProcessType(t: CType, enableCast: bool) returns (ret: ReturnStandard?)
      ensures ret == null <==> ReturnSpec(t, enableCast).None?
      ensures ret != null ==> fresh(ret) && ret.Is(ReturnSpec(t, enableCast).value)
      decreases Rank(t), 1
    {
      hide CastOpening, BaseType, Referee, Canonical, PointerSpec, TypedefSpec;
      var mockNeedsCast := false;
      match t.shape {
        case BasicType(b) =>
          match BasicKind(b) {
            case None => return null;
            case Some((kind, cast)) =>
              ret := new ReturnStandard(kind);
              ret.needsCast := cast;
              mockNeedsCast := cast;
          }
        case EnumType(_) =>
          ret := new ReturnStandard(Int);
          ret.needsCast := true;
          mockNeedsCast := true;
        case PointerType(_) => ret := ProcessTypePointer(t, enableCast);
        case LValueRef(_) => ret := ProcessTypePointer(t, enableCast);
        case RValueRef(_) =>
          ret := ProcessTypePointer(t, enableCast);
          ret.isRValueRef := true;
        case RecordType(_) => ret := ProcessClass(t, enableCast);
        case UnexposedType(_) => ret := ProcessClass(t, enableCast);
        case TypedefType(_, _) =>
          ret := ProcessTypeTypedef(t);
          if ret == null {
            return;
          }
          ret.needsCast := true;
        case ElaboratedType(_, u) => ret := ProcessType(u, enableCast);
        case IncompleteArray(_) => return null;
      }
      if mockNeedsCast && enableCast {
        assert ret.Is(NewSpec(ret.kind).(needsCast := true));
        ret.MockCast(Spelled(t));
      }
    }

    method ProcessClass(t: CType, enableCast: bool) returns (ret: ReturnStandard)
      requires IsClass(t)
      ensures fresh(ret) && ret.Is(ClassSpec(t, enableCast))
    {
      hide CastOpening, BaseType;
      ret := new ReturnStandard(ConstPointer);
      ret.needsCast := true;
      ret.argByRef := true;
      if enableCast {
        WrappedHalves(NewSpec(ConstPointer).mock, ConstPtrTo(t));
        ret.MockRetExprPrepend("*" + CastOpening(ConstPtrTo(t)));
        ret.MockRetExprAppend(")");
        ret.ExpectationRetExprPrepend("&");
      }
    }

    method ProcessOverride(spec: OverrideSpec) returns (r: Outcome)
      ensures r.InternalError? <==> !IsReturnType(spec.ty)
      ensures !r.InternalError? ==>
                && r.Returns? && fresh(r.ret) && r.ret.kind == spec.ty && r.ret.useBaseType && r.ret.originalType == ""
                && r.ret.mockFront == spec.exprModFront && r.ret.mockBack == spec.exprModBack
                && r.ret.expectFront == r.ret.expectBack == "" && !r.ret.needsCast
                && !r.ret.argByRef && !r.ret.isRValueRef
    {
      if !IsReturnType(spec.ty) {
        return InternalError;
      }
      var ret := new ReturnStandard(spec.ty);
      ret.MockRetExprPrepend(spec.exprModFront);
      ret.MockRetExprAppend(spec.exprModBack);
      ret.useBaseType := true;
      assert spec.exprModFront + "" == spec.exprModFront && "" + spec.exprModBack == spec.exprModBack;
      r := Returns(ret);
    }

    /** The override that applies: one for the function before one for the type. */
    function OverrideFor(funcName: string, t: CType): Option<OverrideSpec> {
      var specific := GetOverride(config, funcName + "@");
      if specific.Some? then specific else GetOverride(config, "@" + Spell(t))
    }

    method Process(funcName: string, t: CType) returns (r: Outcome)
      ensures r.ReturnVoid? <==> IsVoid(t)
      ensures !IsVoid(t) && OverrideFor(funcName, t).None? ==>
                (r.Unsupported? <==> ReturnSpec(t, true).None?) && (ReturnSpec(t, true).Some? ==> r.Returns?)
      ensures !IsVoid(t) && OverrideFor(funcName, t).Some? ==>
                (r.Returns? <==> IsReturnType(OverrideFor(funcName, t).value.ty)) && (r.Returns? || r.InternalError?)
      ensures r.Returns? ==> fresh(r.ret) && r.ret.originalType == Spell(t)
      ensures r.Returns? && OverrideFor(funcName, t).None? ==> r.ret.Holds(ReturnSpec(t, true).value)
      ensures r.Returns? && OverrideFor(funcName, t).Some? ==> r.ret.HoldsOverride(OverrideFor(funcName, t).value)
      ensures Accepted(config) && '#' !in funcName && '#' !in Spell(t) ==> !r.InternalError?
    {
      hide Spell, ReturnSpec, Accepted, Expressible;
      if t.shape == BasicType(VoidType) {
        return ReturnVoid;
      }
      var spec := GetOverride(config, funcName + "@");
      ghost var key := funcName + "@";
      if spec.None? {
        spec := GetOverride(config, "@" + Spell(t));
        key := "@" + Spell(t);
      }
      if spec.None? {
        var ret := ProcessType(t, true);
        if ret == null {
          return Unsupported;
        }
        ret.originalType := Spell(t);
        r := Returns(ret);
      } else {
        r := ProcessOverride(spec.value);
        if Accepted(config) && '#' !in funcName && '#' !in Spell(t) {
          LookupFindsExpressible(config, key);
        }
        if r.Returns? {
          r.ret.originalType := Spell(t);
        }
      }
    }
  }
}
