/** The values that the mock reports and the expectation registers for an argument
    (app/sources/Function.cpp, GetMockBodyCall and GetExpectationBodyCall). */
module ArgumentValues {
  import opened StringHelper
  import opened Overrides
  import opened CppTypes
  import opened Expressions
  import opened Arguments
  import opened ArgumentParser
  import opened ReturnParser
  import opened ReturnProperties
  import opened ArgumentProperties
  import opened ExpectationTypes

  /** What CppUMock receives for an expression over the object at `loc`. */
  function Received(k: ArgKind, e: Expr, loc: int, store: Store): Option<Value> {
    match Eval(e, At(loc), store)
    case None => None
    case Some(d) =>
      match Load(d, store)
      case None => None
      case Some(v) => ConvertTo(Taken(k), v)
  }

  lemma {:induction false} ReholeKeepsValue(e: Expr, t: CType, hole: Denotation, store: Store)
    ensures Eval(Rehole(e, t), hole, store) == Eval(e, hole, store)
  {
    hide ConvertTo;
    match e
    case Hole(_, _) =>
    case StaticCast(_, x) => ReholeKeepsValue(x, t, hole, store);
    case Deref(x) => ReholeKeepsValue(x, t, hole, store);
    case AddressOf(x) => ReholeKeepsValue(x, t, hole, store);
    case Move(x) => ReholeKeepsValue(x, t, hole, store);
  }

  /** The kind of a scalar that is passed by value. */
  ghost predicate ScalarKind(s: ArgSpec, o: CType) {
    && (o.shape.BasicType? ==> BasicArgKind(o.shape.basic).Some? && s.kind == Simple(BasicArgKind(o.shape.basic).value))
    && (o.shape.EnumType? ==> s.kind == Simple(Int))
  }

  lemma {:induction false} PassedByValue(underlying: bool, t: CType, orig: CType, inheritConst: bool)
    requires WellFormed(t) && ArgTypeSpec(underlying, t, orig, inheritConst).Some?
    ensures var s := ArgTypeSpec(underlying, t, orig, inheritConst).value;
            !s.value.AddressOf? ==> ScalarKind(s, Target(Canonical(t)))
    decreases Rank(t)
  {
    hide Spell, BareTypeSpelling, PointeeArg;
    match t.shape
    case ElaboratedType(_, u) => PassedByValue(underlying, u, orig, inheritConst);
    case RValueRef(_) => PassedByRValue(underlying, t, orig);
    case TypedefType(_, _) => PassedByTypedef(underlying, t, orig, inheritConst);
    case _ =>
  }

  lemma {:induction false} PassedByRValue(underlying: bool, t: CType, orig: CType)
    requires WellFormed(t) && t.shape.RValueRef? && ArgTypeSpec(underlying, t, orig, false).Some?
    ensures var s := ArgTypeSpec(underlying, t, orig, false).value;
            !s.value.AddressOf? ==> ScalarKind(s, Target(Canonical(t)))
    decreases Rank(t), 0
  {
    hide Spell, BareTypeSpelling, PointeeArg, Canonical;
    var p := BarePointee(t);
    BarePointeeLowersRank(t);
    BarePointeeTarget(t);
    if !IsClass(p) { PassedByValue(underlying, p, orig, p.isConst); }
  }

  lemma PassedByTypedef(underlying: bool, t: CType, orig: CType, inheritConst: bool)
    requires WellFormed(t) && t.shape.TypedefType? && ArgTypeSpec(underlying, t, orig, inheritConst).Some?
    ensures var s := ArgTypeSpec(underlying, t, orig, inheritConst).value;
            !s.value.AddressOf? ==> ScalarKind(s, Target(Canonical(t)))
  {
    hide Spell, BareTypeSpelling, Canonical;
    CanonicalLowersRank(t);
  }

  /** The parameter that mocks take is known by its value, or by its address where one is passed. */
  lemma ArgumentIsReceived(underlying: bool, t: CType, loc: int, store: Store)
    requires WellFormed(t) && ArgTypeSpec(underlying, t, t, false).Some? && !LosesConst(t) && loc in store
    requires ArgTypeSpec(underlying, t, t, false).value.value.AddressOf? ||
             IsValueOf(store[loc], Adjusted(Target(Canonical(t))))
    ensures var s := ArgTypeSpec(underlying, t, t, false).value;
            Received(s.kind, s.value, loc, store) == Some(if s.value.AddressOf? then Addr(loc) else store[loc])
  {
    hide ArgTypeSpec, LosesConst, Spell, Canonical, ConvertTo;
    var s := ArgTypeSpec(underlying, t, t, false).value;
    ArgumentFlags(underlying, t, t, false);
    ArgumentIsWellTypedExactly(underlying, t);
    PassedByValue(underlying, t, t, false);
    ReceivedFits(s, t, loc, store);
  }

  lemma ReceivedFits(s: ArgSpec, t: CType, loc: int, store: Store)
    requires ShapedValue(s, t) && WellTyped(s) && loc in store
    requires s.value.AddressOf? || (ScalarKind(s, Target(Canonical(t))) &&
             IsValueOf(store[loc], Adjusted(Target(Canonical(t)))))
    ensures Received(s.kind, s.value, loc, store) == Some(if s.value.AddressOf? then Addr(loc) else store[loc])
  {
    hide Spell, Canonical, ConvertTo, BaseType, Taken;
    var x, o := Hole(t, true), Target(Canonical(t));
    HoleTyping(t);
    assert Eval(x, At(loc), store) == Some(At(loc));
    if s.value.AddressOf? {
      assert Eval(AddressOf(x), At(loc), store) == Some(Pure(Addr(loc)));
      PointersAreKept(s.kind, Typed(CType(false, PointerType(o)), PRValue), Addr(loc));
    } else if o.shape.BasicType? || o.shape.EnumType? {
      ScalarFits(o, if o.shape.EnumType? then Int else BasicKind(o.shape.basic).value.0, store[loc]);
      assert Taken(s.kind) == BaseType(if o.shape.EnumType? then Int else BasicKind(o.shape.basic).value.0) by {
        SimpleTaken(s.kind);
      }
    } else {
      NotCast(t, o);
      PointersAreKept(s.kind, Typed(o, LValue), store[loc]);
    }
  }

  lemma SimpleTaken(k: ArgKind)
    ensures k.Simple? && !k.ty.MemoryBuffer? ==> Taken(k) == BaseType(k.ty)
  {
  }

  lemma NotCast(t: CType, o: CType)
    requires TypeOf(Hole(t, true)) == Some(Typed(o, LValue)) && !o.shape.BasicType? && !o.shape.EnumType?
    ensures TypeOf(StaticCast(Base(Int), Hole(t, true))) == None
  {
  }

  lemma PointersAreKept(k: ArgKind, x: Typed, v: Value)
    requires Converts(x, Taken(k)) && IsValueOf(v, Adjusted(x.ty)) && !x.ty.shape.BasicType?
    ensures ConvertTo(Taken(k), v) == Some(v)
  {
  }

  /** For every argument type, the mock called with one object and the expectation given another
      pass equal values to CppUMock exactly when the objects have the same value or, where an
      address is passed, are the same object. */
  lemma ValuesMatchExactly(underlying: bool, t: CType, actual: int, expected: int, store: Store)
    requires WellFormed(t) && ArgTypeSpec(underlying, t, t, false).Some? && !LosesConst(t) && actual in store &&
             expected in store
    requires var s := ArgTypeSpec(underlying, t, t, false).value;
             var o := Adjusted(Target(Canonical(t)));
             s.value.AddressOf? || (IsValueOf(store[actual], o) && IsValueOf(store[expected], o))
    ensures var s := ArgTypeSpec(underlying, t, t, false).value;
            var reported := Received(s.kind, s.value, actual, store);
            var registered := Received(s.kind, Rehole(s.value, ValueType(s, t)), expected, store);
            && reported.Some? && registered.Some?
            && (reported == registered <==> if s.value.AddressOf? then actual == expected
               else store[actual] == store[expected])
  {
    hide ArgTypeSpec, LosesConst, Spell, Canonical, ConvertTo, ValueType, Eval;
    var s := ArgTypeSpec(underlying, t, t, false).value;
    ArgumentIsReceived(underlying, t, actual, store);
    ArgumentIsReceived(underlying, t, expected, store);
    ReholeKeepsValue(s.value, ValueType(s, t), At(expected), store);
  }
}
