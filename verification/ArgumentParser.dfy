/** How an argument's type becomes a kind of CppUMock parameter and the value passed for it
    (app/sources/Function.cpp, ArgumentParser). */
module ArgumentParser {
  import opened StringHelper
  import opened Overrides
  import opened CppTypes
  import opened Expressions
  import opened Arguments

  /** `value` is an expression over the argument. */
  datatype ArgSpec = ArgSpec(kind: ArgKind, value: Expr, byRef: bool, forceNotIgnored: bool, isRValueRef: bool)

  function NewArg(kind: ArgKind, orig: CType): ArgSpec {
    ArgSpec(kind, Hole(orig, true), false, false, false)
  }

  function Addressed(s: ArgSpec): ArgSpec {
    s.(value := AddressOf(s.value))
  }

  function BasicArgKind(b: Basic): Option<MockedType> {
    match b
    case BoolType => Some(Bool)
    case CharS => Some(Int) case SChar => Some(Int) case IntType => Some(Int)
    case ShortType => Some(Int) case WChar => Some(Int)
    case CharU => Some(UnsignedInt) case UChar => Some(UnsignedInt) case UInt => Some(UnsignedInt)
    case UShort => Some(UnsignedInt) case Char16 => Some(UnsignedInt)
    case LongType => Some(Long)
    case ULong => Some(UnsignedLong) case Char32 => Some(UnsignedLong)
    case FloatType => Some(Double) case DoubleType => Some(Double)
    case _ => None
  }

  /** Position of the last space, or |s|. */
  function LastSpace(s: string): (p: nat)
    ensures p <= |s|
    ensures p < |s| ==> s[p] == ' '
    ensures forall i :: p < i < |s| ==> s[i] != ' '
    ensures p == |s| ==> ' ' !in s
  {
    if s == "" then 0
    else if s[|s| - 1] == ' ' then |s| - 1
    else
      var p := LastSpace(s[..|s| - 1]);
      if p == |s| - 1 then |s| else p
  }

  /** The last word of a type's spelling, a trailing sign apart (app/sources/ClangHelper.cpp). */
  function BareTypeSpelling(t: CType): string {
    var full := Spell(t);
    var p := LastSpace(full);
    var name := if p + 1 < |full| && (full[p + 1] == '*' || full[p + 1] == '&') then full[..p] else full;
    var q := LastSpace(name);
    if q < |name| then name[q + 1..] else name
  }

  // ----- What the parser builds for a type

  function RecordSpec(underlying: bool, t: CType, orig: CType, inheritConst: bool, isPointee: bool): ArgSpec {
    var exposed := BareTypeSpelling(if underlying then t else orig);
    NewArg(if !isPointee || t.isConst || inheritConst then TypedInput(exposed, "") else TypedOutput(exposed, ""), orig)
  }

  function PointeeArg(underlying: bool, t: CType, orig: CType): ArgSpec
    requires t.shape.PointerType? || IsRef(t)
  {
    var p := Pointee(t);
    var u := Canonical(p);
    if t.shape.PointerType? && p == CType(true, BasicType(CharS)) then NewArg(Simple(String), orig)
    else if p.isConst || u.isConst then
      if IsClass(u) then RecordSpec(underlying, u, orig, true, true) else NewArg(Simple(ConstPointer), orig)
    else if IsVoid(u) || u.shape.PointerType? then NewArg(Simple(Pointer), orig)
    else if IsClass(u) then RecordSpec(underlying, u, orig, false, true)
    else NewArg(OutputArg(!t.shape.PointerType?), orig)
  }

  function PointerArg(underlying: bool, t: CType, orig: CType): ArgSpec
    requires t.shape.PointerType? || IsRef(t)
  {
    if t.shape.PointerType? then PointeeArg(underlying, t, orig) else Addressed(PointeeArg(underlying, t, orig))
  }

  function ArrayArg(t: CType, orig: CType): ArgSpec
    requires t.shape.IncompleteArray?
  {
    NewArg(if t.shape.of.isConst || Canonical(t.shape.of).isConst then Simple(ConstPointer) else OutputArg(false), orig)
  }

  function ClassArg(underlying: bool, t: CType, orig: CType, inheritConst: bool): ArgSpec {
    Addressed(RecordSpec(underlying, t, orig, inheritConst, false)).(byRef := true)
  }

  function ThroughRValueRef(s: Option<ArgSpec>): Option<ArgSpec> {
    match s
    case None => None
    case Some(r) => Some(r.(forceNotIgnored := true, isRValueRef := true))
  }

  /** A typedef of a pointer, reference or array is not looked into beyond const. */
  function OpaqueArg(c: CType, orig: CType): ArgSpec
    requires c.shape.PointerType? || IsRef(c)
  {
    var p := Pointee(c);
    var kind := if c.shape.PointerType? && p == CType(true, BasicType(CharS)) then String
                else if p.isConst then ConstPointer else Pointer;
    var s := NewArg(Simple(kind), orig).(forceNotIgnored := c.shape.RValueRef?);
    if c.shape.PointerType? then s else Addressed(s)
  }

  /** The pointee of an rvalue reference without the name it is elaborated with. */
  function BarePointee(t: CType): CType
    requires t.shape.RValueRef?
  {
    var p := Pointee(t);
    if p.shape.ElaboratedType? then p.shape.named else p
  }

  lemma BarePointeeLowersRank(t: CType)
    requires t.shape.RValueRef?
    ensures Rank(BarePointee(t)) < Rank(t)
  {
    RankOfReferee(t.shape.to);
  }

  /** None stands for an unsupported parameter type. */
  function ArgTypeSpec(underlying: bool, t: CType, orig: CType, inheritConst: bool): Option<ArgSpec>
    decreases Rank(t)
  {
    match t.shape
    case BasicType(b) => (match BasicArgKind(b) case None => None case Some(k) => Some(NewArg(Simple(k), orig)))
    case EnumType(_) => Some(NewArg(Simple(Int), orig).(value := StaticCast(Base(Int), Hole(orig, true))))
    case PointerType(_) => Some(PointerArg(underlying, t, orig))
    case LValueRef(_) => Some(PointerArg(underlying, t, orig))
    case IncompleteArray(_) => Some(ArrayArg(t, orig))
    case RValueRef(_) =>
      BarePointeeLowersRank(t);
      var p := BarePointee(t);
      ThroughRValueRef(
        if IsClass(p) then Some(PointerArg(underlying, t, orig)) else ArgTypeSpec(underlying, p, orig, p.isConst))
    case TypedefType(_, _) =>
      CanonicalLowersRank(t);
      var c := Canonical(t);
      if c.shape.PointerType? || IsRef(c) then Some(OpaqueArg(c, orig))
      else if c.shape.IncompleteArray? then
        Some(NewArg(if c.isConst then Simple(ConstPointer) else OutputArg(false), orig))
      else ArgTypeSpec(underlying, c, orig, t.isConst || inheritConst)
    case RecordType(_) => Some(ClassArg(underlying, t, orig, inheritConst))
    case UnexposedType(_) => Some(ClassArg(underlying, t, orig, inheritConst))
    case ElaboratedType(_, u) => ArgTypeSpec(underlying, u, orig, inheritConst)
  }

  // ----- The object that is built

  class ArgumentStandard {
    const kind: ArgKind
    const useBaseType: bool
    var front: string
    var back: string
    var byRef: bool
    var forceNotIgnored: bool
    var isRValueRef: bool

    constructor (kind: ArgKind, useBaseType: bool)
      ensures this.kind == kind && this.useBaseType == useBaseType && front == back == ""
      ensures !byRef && !forceNotIgnored && !isRValueRef
    {
      this.kind, this.useBaseType := kind, useBaseType;
      front, back := "", "";
      byRef, forceNotIgnored, isRValueRef := false, false, false;
    }

    /** The object holds exactly the halves and flags of `s`. */
    ghost predicate Is(s: ArgSpec)
      reads this
    {
      && kind == s.kind && !useBaseType && front == Front(s.value) && back == Back(s.value)
      && byRef == s.byRef && forceNotIgnored == s.forceNotIgnored && isRValueRef == s.isRValueRef
    }

    method MockArgExprPrepend(expr: string)
      modifies `front
      ensures front == expr + old(front)
    {
      front := expr + front;
    }

    method MockArgExprAppend(expr: string)
      modifies `back
      ensures back == old(back) + expr
    {
      back := back + expr;
    }

    /** The finished argument; an array type is written around the name. */
    function Finished(name: string, typeExpr: string): Argument
      reads this
    {
      var cut := SplitAt(typeExpr, '[');
      var pre := if cut.found then TrimString(cut.front) else typeExpr;
      Standard(name, pre, if cut.found then ['['] + cut.back else "", if cut.found then pre + " *" else typeExpr,
               kind, front, back, byRef, forceNotIgnored, isRValueRef, useBaseType)
    }
  }

  /** Decimal digits of a number. */
  function Digits(n: nat): string {
    if n < 10 then [('0' as int + n) as char] else Digits(n / 10) + [('0' as int + n % 10) as char]
  }

  /** What parsing an argument comes to; Unsupported stands for the exception thrown. */
  datatype ArgOutcome = Parsed(arg: Argument) | Unsupported

  /** The kind of argument an override asks for; None is Skip. The match is exhaustive: no type
      is left for an internal error. */
  function OverrideKind(spec: OverrideSpec): (k: Option<ArgKind>)
    requires spec.ty.MemoryBuffer? ==> spec.hasSizeExprPlaceholder.Some?
    ensures k.None? <==> spec.ty.Skip?
    ensures k.Some? ==> IsBasicKind(k.value)
  {
    match spec.ty
    case InputOfType => Some(TypedInput(spec.exposedTypeName, spec.expectationArgTypeName))
    case OutputOfType => Some(TypedOutput(spec.exposedTypeName, spec.expectationArgTypeName))
    case MemoryBuffer =>
      Some(BufferArg(FromExpression(spec.hasSizeExprPlaceholder.value, spec.sizeExprFront, spec.sizeExprBack)))
    case Output => Some(OutputArg(false))
    case InputPOD => Some(BufferArg(FromType))
    case OutputPOD => Some(OutputArg(true))
    case Skip => None
    case ty => Some(Simple(ty))
  }

  /** Outputs and buffers keep the type of the argument in the expectation. */
  function OverrideUsesBaseType(ty: MockedType): bool {
    IsReturnType(ty) || ty.InputOfType? || ty.OutputOfType?
  }

  class Parser {
    const config: map<string, OverrideSpec>
    const useUnderlyingTypedef: bool

    constructor (config: map<string, OverrideSpec>, useUnderlyingTypedef: bool)
      ensures this.config == config && this.useUnderlyingTypedef == useUnderlyingTypedef
    {
      this.config, this.useUnderlyingTypedef := config, useUnderlyingTypedef;
    }

    method ProcessTypeRecord(t: CType, orig: CType, inheritConst: bool, isPointee: bool) returns (ret: ArgumentStandard)
      ensures fresh(ret) && ret.Is(RecordSpec(useUnderlyingTypedef, t, orig, inheritConst, isPointee))
    {
      hide BareTypeSpelling;
      var isConst := t.isConst || inheritConst;
      var exposedType := BareTypeSpelling(if useUnderlyingTypedef then t else orig);
      if !isPointee || isConst {
        ret := new ArgumentStandard(TypedInput(exposedType, ""), false);
      } else {
        ret := new ArgumentStandard(TypedOutput(exposedType, ""), false);
      }
    }

    method ProcessTypePointer(t: CType, orig: CType) returns (ret: ArgumentStandard)
      requires t.shape.PointerType? || IsRef(t)
      ensures fresh(ret) && ret.Is(PointerArg(useUnderlyingTypedef, t, orig))
    {
      hide Canonical, Referee, BareTypeSpelling, RecordSpec;
      var pointeeType := Pointee(t);
      var isPointeeConst := pointeeType.isConst;
      if t.shape.PointerType? && pointeeType.shape == BasicType(CharS) && isPointeeConst {
        ret := new ArgumentStandard(Simple(String), false);
      } else {
        var underlyingPointeeType := Canonical(pointeeType);
        if isPointeeConst || underlyingPointeeType.isConst {
          if IsClass(underlyingPointeeType) {
            ret := ProcessTypeRecord(underlyingPointeeType, orig, true, true);
          } else {
            ret := new ArgumentStandard(Simple(ConstPointer), false);
          }
        } else {
          if IsVoid(underlyingPointeeType) || underlyingPointeeType.shape.PointerType? {
            ret := new ArgumentStandard(Simple(Pointer), false);
          } else if IsClass(underlyingPointeeType) {
            ret := ProcessTypeRecord(underlyingPointeeType, orig, false, true);
          } else {
            ret := new ArgumentStandard(OutputArg(!t.shape.PointerType?), false);
          }
        }
      }
      assert ret.Is(PointeeArg(useUnderlyingTypedef, t, orig));
      if !t.shape.PointerType? {
        ret.MockArgExprPrepend("&");
      }
    }

    method ProcessTypeArray(t: CType, orig: CType) returns (ret: ArgumentStandard)
      requires t.shape.IncompleteArray?
      ensures fresh(ret) && ret.Is(ArrayArg(t, orig))
    {
      var elementType := t.shape.of;
      if elementType.isConst || Canonical(elementType).isConst {
        ret := new ArgumentStandard(Simple(ConstPointer), false);
      } else {
        ret := new ArgumentStandard(OutputArg(false), false);
      }
    }

    method ProcessTypeRVReference(t: CType, orig: CType) returns (ret: ArgumentStandard?)
      requires t.shape.RValueRef?
      ensures ret == null <==> ArgTypeSpec(useUnderlyingTypedef, t, orig, false).None?
      ensures ret != null ==> fresh(ret) && ret.Is(ArgTypeSpec(useUnderlyingTypedef, t, orig, false).value)
      decreases Rank(t), 0
    {
      hide Canonical, Referee, PointerArg;
      BarePointeeLowersRank(t);
      var pointeeType := Pointee(t);
      if pointeeType.shape.ElaboratedType? {
        pointeeType := pointeeType.shape.named;
      }
      if IsClass(pointeeType) {
        ret := ProcessTypePointer(t, orig);
      } else {
        ret := ProcessType(pointeeType, orig, pointeeType.isConst);
        if ret == null {
          return;
        }
      }
      ret.forceNotIgnored := true;
      ret.isRValueRef := true;
    }

    method ProcessTypeTypedef(t: CType, orig: CType, inheritConst: bool) returns (ret: ArgumentStandard?)
      requires t.shape.TypedefType?
      ensures ret == null <==> ArgTypeSpec(useUnderlyingTypedef, t, orig, inheritConst).None?
      ensures ret != null ==> fresh(ret) && ret.Is(ArgTypeSpec(useUnderlyingTypedef, t, orig, inheritConst).value)
      decreases Rank(t), 0
    {
      hide Canonical, Referee;
      CanonicalLowersRank(t);
      var underlyingType := Canonical(t);
      if underlyingType.shape.PointerType? || IsRef(underlyingType) {
        var pointeeType := Pointee(underlyingType);
        if underlyingType.shape.PointerType? && pointeeType.shape == BasicType(CharS) && pointeeType.isConst {
          ret := new ArgumentStandard(Simple(String), false);
        } else if pointeeType.isConst {
          ret := new ArgumentStandard(Simple(ConstPointer), false);
        } else {
          ret := new ArgumentStandard(Simple(Pointer), false);
        }
        if underlyingType.shape.RValueRef? {
          ret.forceNotIgnored := true;
        }
        ghost var s := OpaqueArg(underlyingType, orig);
        assert Front(Hole(orig, true)) == "" && Front(AddressOf(Hole(orig, true))) == "&" + "";
        if !underlyingType.shape.PointerType? {
          ret.MockArgExprPrepend("&");
        }
        assert ret.front == Front(s.value) && ret.back == Back(s.value);
      } else if underlyingType.shape.IncompleteArray? {
        if underlyingType.isConst {
          ret := new ArgumentStandard(Simple(ConstPointer), false);
        } else {
          ret := new ArgumentStandard(OutputArg(false), false);
        }
      } else {
        ret := ProcessType(underlyingType, orig, t.isConst || inheritConst);
      }
    }

    method ProcessType(t: CType, orig: CType, inheritConst: bool) returns (ret: ArgumentStandard?)
      ensures ret == null <==> ArgTypeSpec(useUnderlyingTypedef, t, orig, inheritConst).None?
      ensures ret != null ==> fresh(ret) && ret.Is(ArgTypeSpec(useUnderlyingTypedef, t, orig, inheritConst).value)
      decreases Rank(t), 1
    {
      hide Canonical, Referee, PointerArg, RecordSpec, ArrayArg, OpaqueArg;
      match t.shape {
        case BasicType(b) =>
          match BasicArgKind(b) {
            case None => return null;
            case Some(k) => ret := new ArgumentStandard(Simple(k), false);
          }
        case EnumType(_) =>
          ret := new ArgumentStandard(Simple(Int), false);
          EnumHalves(orig);
          ret.MockArgExprPrepend("static_cast<int>(");
          ret.MockArgExprAppend(")");
          assert ret.Is(NewArg(Simple(Int), orig).(value := StaticCast(Base(Int), Hole(orig, true))));
        case PointerType(_) => ret := ProcessTypePointer(t, orig);
        case LValueRef(_) => ret := ProcessTypePointer(t, orig);
        case IncompleteArray(_) => ret := ProcessTypeArray(t, orig);
        case RValueRef(_) =>
          ret := ProcessTypeRVReference(t, orig);
        case TypedefType(_, _) => ret := ProcessTypeTypedef(t, orig, inheritConst);
        case RecordType(_) => ret := ProcessClass(t, orig, inheritConst);
        case UnexposedType(_) => ret := ProcessClass(t, orig, inheritConst);
        case ElaboratedType(_, u) => ret := ProcessType(u, orig, inheritConst);
      }
    }

    method ProcessClass(t: CType, orig: CType, inheritConst: bool) returns (ret: ArgumentStandard)
      requires IsClass(t)
      ensures fresh(ret) && ret.Is(ClassArg(useUnderlyingTypedef, t, orig, inheritConst))
    {
      hide BareTypeSpelling;
      ret := ProcessTypeRecord(t, orig, inheritConst, false);
      ret.MockArgExprPrepend("&");
      ret.byRef := true;
    }

    method ProcessOverride(spec: OverrideSpec) returns (ret: ArgumentStandard?)
      requires spec.ty.MemoryBuffer? ==> spec.hasSizeExprPlaceholder.Some?
      ensures ret == null <==> spec.ty.Skip?
      ensures ret != null ==>
                && fresh(ret) && Some(ret.kind) == OverrideKind(spec) &&
                   ret.useBaseType == OverrideUsesBaseType(spec.ty)
                && ret.front == spec.exprModFront && ret.back == spec.exprModBack
                && !ret.byRef && !ret.forceNotIgnored && !ret.isRValueRef
    {
      var kind := OverrideKind(spec);
      if kind.None? {
        return null;
      }
      ret := new ArgumentStandard(kind.value, OverrideUsesBaseType(spec.ty));
      ret.MockArgExprPrepend(spec.exprModFront);
      ret.MockArgExprAppend(spec.exprModBack);
      assert spec.exprModFront + "" == spec.exprModFront && "" + spec.exprModBack == spec.exprModBack;
    }

    /** The override that applies: one for the argument before one for the type. */
    function OverrideFor(funcName: string, argName: string, t: CType): Option<OverrideSpec> {
      var specific := GetOverride(config, funcName + "#" + argName);
      if specific.Some? then specific else GetOverride(config, "#" + Spell(t))
    }

    /** Every override that a lookup can find is handled; in particular the size expression of a
        memory buffer is only read where it was set, since the map comes from accepted options. */
    method Process(funcName: string, name: string, t: CType, argNum: nat) returns (r: ArgOutcome)
      requires Accepted(config)
      ensures IsOutcome(r, useUnderlyingTypedef, OverrideFor(funcName, ArgumentName(name, argNum), t),
                        ArgumentName(name, argNum), t)
    {
      hide Spell, ArgTypeSpec, Accepted, Expressible, TrimString, TypeTexts, AreCutFrom, ArgumentName, OverrideKind;
      var argName := ArgumentName(name, argNum);
      var typeExpr := Spell(t);
      var spec := GetOverride(config, funcName + "#" + argName);
      ghost var key := funcName + "#" + argName;
      if spec.None? {
        spec := GetOverride(config, "#" + typeExpr);
        key := "#" + typeExpr;
      }
      var ret: ArgumentStandard?;
      if spec.None? {
        ret := ProcessType(t, t, false);
        if ret == null {
          return Unsupported;
        }
      } else {
        LookupFindsExpressible(config, key);
        ret := ProcessOverride(spec.value);
        if ret == null {
          var cut := SplitAt(typeExpr, '[');
          CutIsCutFrom(typeExpr);
          return Parsed(if cut.found then Skipped(argName, TrimString(cut.front), ['['] + cut.back)
                        else Skipped(argName, typeExpr, ""));
        }
      }
      FinishedTexts(ret, argName, typeExpr);
      r := Parsed(ret.Finished(argName, typeExpr));
    }
  }

  /** What parsing comes to for an argument of this name and type, under this override if any: a type
      without an override may be unsupported, and an override may skip the argument. */
  ghost predicate IsOutcome(r: ArgOutcome, underlying: bool, o: Option<OverrideSpec>, name: string, t: CType) {
    match r
    case Unsupported => o.None? && ArgTypeSpec(underlying, t, t, false).None?
    case Parsed(a) =>
      && a.name == name && (a.Skipped? <==> o.Some? && o.value.ty.Skip?)
      && (a.Skipped? ==> AreCutFrom(a.typePre, a.typePost, Spell(t)))
      && (a.Standard? && o.None? ==>
            ArgTypeSpec(underlying, t, t, false).Some? &&
            BuiltFromType(a, t, ArgTypeSpec(underlying, t, t, false).value))
      && (a.Standard? && o.Some? ==> BuiltFromOverride(a, t, o.value))
  }

  ghost predicate BuiltFromType(a: Argument, t: CType, s: ArgSpec)
    requires a.Standard?
  {
    && a.kind == s.kind && a.front == Front(s.value) && a.back == Back(s.value) && !a.useBaseType
    && a.byRef == s.byRef && a.forceNotIgnored == s.forceNotIgnored && a.isRValueRef == s.isRValueRef
    && TypeTexts(a, Spell(t))
  }

  ghost predicate BuiltFromOverride(a: Argument, t: CType, spec: OverrideSpec)
    requires a.Standard?
  {
    && (spec.ty.MemoryBuffer? ==> spec.hasSizeExprPlaceholder.Some?) && Some(a.kind) == OverrideKind(spec)
    && a.front == spec.exprModFront && a.back == spec.exprModBack && a.useBaseType == OverrideUsesBaseType(spec.ty)
    && !a.byRef && !a.forceNotIgnored && !a.isRValueRef
    && TypeTexts(a, Spell(t))
  }

  /** The texts before and after the name come from the spelling, cut before its first `[`. */
  ghost predicate AreCutFrom(pre: string, post: string, spelling: string) {
    if '[' in spelling then
      && post != "" && post[0] == '['
      && exists front :: '[' !in front && spelling == front + post && pre == TrimString(front)
    else
      pre == spelling && post == ""
  }

  /** In the expectation what was cut off becomes a sign. */
  ghost predicate TypeTexts(a: Argument, spelling: string)
    requires a.Standard?
  {
    && AreCutFrom(a.typePre, a.typePost, spelling)
    && a.expectationType == if '[' in spelling then a.typePre + " *" else spelling
  }

  lemma CutIsCutFrom(typeExpr: string)
    ensures var cut := SplitAt(typeExpr, '[');
            if cut.found then AreCutFrom(TrimString(cut.front), ['['] + cut.back, typeExpr)
            else AreCutFrom(typeExpr, "", typeExpr)
  {
    hide TrimString;
    var cut := SplitAt(typeExpr, '[');
    if cut.found {
      assert cut.front + ['['] + cut.back == cut.front + (['['] + cut.back);
      assert typeExpr[|cut.front|] == '[';
    }
  }

  lemma FinishedTexts(ret: ArgumentStandard, name: string, typeExpr: string)
    ensures TypeTexts(ret.Finished(name, typeExpr), typeExpr)
  {
    CutIsCutFrom(typeExpr);
    hide TrimString, AreCutFrom;
    assert '[' in typeExpr <==> SplitAt(typeExpr, '[').found by { BracketIsFound(typeExpr); }
  }

  lemma BracketIsFound(typeExpr: string)
    ensures '[' in typeExpr <==> SplitAt(typeExpr, '[').found
  {
    var cut := SplitAt(typeExpr, '[');
    if cut.found { assert typeExpr[|cut.front|] == '['; }
  }

  /** The name an argument goes by: its own, or one made from its position. */
  function ArgumentName(name: string, argNum: nat): string {
    if name == "" then "_unnamedArg" + Digits(argNum) else name
  }

  lemma EnumHalves(orig: CType)
    ensures var e := StaticCast(Base(Int), Hole(orig, true));
            Front(e) == "static_cast<int>(" + "" && Back(e) == "" + ")"
  {
    assert CastOpening(Base(Int)) == "static_cast<int>(";
  }
}
