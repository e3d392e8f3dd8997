/** The name under which an argument of a class is compared and copied (MANUAL.md, "Handling of
    Typedefs"; app/sources/Function.cpp, ProcessTypeRecord; app/sources/ClangHelper.cpp). */
module ExposedNames {
  import opened StringHelper
  import opened Overrides
  import opened CppTypes
  import opened Arguments
  import opened ArgumentParser
  import opened ArgumentProperties
  import opened ReturnProperties
  import opened TypeIds

  // ----- What is left of a spelling

  lemma SpaceAt(s: string, q: nat)
    requires q < |s| && s[q] == ' ' && forall i :: q < i < |s| ==> s[i] != ' '
    ensures LastSpace(s) == q
  {
  }

  lemma LastSpaceIs(a: string, b: string)
    requires ' ' !in b
    ensures LastSpace(a + " " + b) == |a|
  {
    hide LastSpace;
    var s := a + " " + b;
    Tail(a, b);
    forall i | |a| < i < |s| ensures s[i] != ' ' { assert s[i] in s[|a| + 1..]; }
    SpaceAt(s, |a|);
  }

  lemma Tail(a: string, b: string)
    ensures (a + " " + b)[|a|] == ' ' && (a + " " + b)[|a| + 1..] == b
  {
  }

  lemma NoSpaceAtAll(s: string)
    requires ' ' !in s
    ensures LastSpace(s) == |s|
  {
  }

  function LastWord(s: string): string {
    var q := LastSpace(s);
    if q < |s| then s[q + 1..] else s
  }

  /** A sign after the last space is cut off, and what follows it. */
  lemma CutAtSign(t: CType, b: string, sign: string)
    requires Spell(t) == b + " " + sign && ' ' !in sign && sign != "" && (sign[0] == '*' || sign[0] == '&')
    ensures BareTypeSpelling(t) == LastWord(b)
  {
    hide Spell, LastSpace;
    var full := b + " " + sign;
    LastSpaceIs(b, sign);
    assert full[|b| + 1] == sign[0] && full[..|b|] == b;
  }

  lemma BareHoldsNoSpace(t: CType)
    ensures ' ' !in BareTypeSpelling(t)
  {
  }

  /** A type with a name of one word. */
  lemma BareOfNamed(t: CType)
    requires IsNamed(t) && GoodName(BaseName(t)) && ' ' !in BaseName(t)
    ensures BareTypeSpelling(t) == BaseName(t)
  {
    var n := BaseName(t);
    SpellIsBase(t);
    FirstIsNoSign(n);
    NoSpaceAtAll(n);
    hide LastSpace, Spell;
    if t.isConst {
      assert "const" + " " + n == "const " + n;
      LastSpaceIs("const", n);
      assert ("const " + n)[6..] == n;
    } else {
      assert "" + n == n;
    }
  }

  lemma FirstIsNoSign(n: string)
    requires GoodName(n)
    ensures n[0] != '*' && n[0] != '&'
  {
    var rest := n[1..];
    assert n == [n[0]] + rest;
    if IsSign(n[0]) { assert Outside(n, 0)[0] == n[0]; }
  }

  function SignOf(t: CType): string
    requires t.shape.PointerType? || IsRef(t)
  {
    if t.shape.PointerType? then (if t.isConst then "*const" else "*") else if t.shape.LValueRef? then "&" else "&&"
  }

  /** A pointer or reference to one: the sign and what follows it are cut off. */
  lemma BareOfSigned(t: CType)
    requires (t.shape.PointerType? || IsRef(t)) && IsNamed(t.shape.to)
    requires GoodName(BaseName(t.shape.to)) && ' ' !in BaseName(t.shape.to)
    ensures BareTypeSpelling(t) == BaseName(t.shape.to)
  {
    hide LastSpace, Spell, BareTypeSpelling, GoodName, BaseName, SignOf, LastWord;
    SignedSpelling(t);
    BareIsOneCut(t.shape.to);
    CutAtSign(t, Spell(t.shape.to), SignOf(t));
  }

  /** For a named type nothing but words is cut off. */
  lemma BareIsOneCut(t: CType)
    requires IsNamed(t) && GoodName(BaseName(t)) && ' ' !in BaseName(t)
    ensures LastWord(Spell(t)) == BaseName(t)
  {
    var n := BaseName(t);
    SpellIsBase(t);
    NoSpaceAtAll(n);
    hide LastSpace, Spell;
    if t.isConst {
      assert "const" + " " + n == "const " + n;
      LastSpaceIs("const", n);
      assert ("const " + n)[6..] == n;
    } else {
      assert "" + n == n;
    }
  }

  lemma SignedSpelling(t: CType)
    requires (t.shape.PointerType? || IsRef(t)) && IsNamed(t.shape.to) && GoodName(BaseName(t.shape.to))
    ensures Spell(t) == Spell(t.shape.to) + " " + SignOf(t) && ' ' !in SignOf(t) && SignOf(t) != ""
    ensures SignOf(t)[0] == '*' || SignOf(t)[0] == '&'
  {
    var p := t.shape.to;
    SpellIsBase(p);
    LastOfName(BaseName(p));
    hide BasicName, GoodName;
    assert Spell(p)[|Spell(p)| - 1] == BaseName(p)[|BaseName(p)| - 1];
    if t.shape.PointerType? {
      assert Signed(Spell(p), "*") == Spell(p) + " " + "*";
      if t.isConst { assert Spell(p) + " " + "*" + "const" == Spell(p) + " " + "*const"; }
    }
  }

  // ----- Which type's name it is

  predicate IsTyped(k: ArgKind) {
    k.TypedInput? || k.TypedOutput?
  }

  /** The class that an argument is of, points or refers to, perhaps through a pointer. */
  function ClassIn(c: CType): CType {
    var d := if IsRef(c) then c.shape.to else c;
    if d.shape.PointerType? then d.shape.to else d
  }

  lemma PointeeExposes(underlying: bool, t: CType, orig: CType)
    requires (t.shape.PointerType? || IsRef(t)) && IsTyped(PointerArg(underlying, t, orig).kind)
    ensures var u := Canonical(Pointee(t));
            IsClass(u) &&
            ExposedName(PointerArg(underlying, t, orig).kind) == BareTypeSpelling(if underlying then u else orig)
  {
    hide BareTypeSpelling, Spell;
  }

  /** A typed kind is exposed by the spelling of the argument's own type or, on request, of its class. */
  lemma {:induction false} TypedExposes(underlying: bool, t: CType, orig: CType, inheritConst: bool) returns (u: CType)
    requires WellFormed(t) && ArgTypeSpec(underlying, t, orig, inheritConst).Some?
    requires IsTyped(ArgTypeSpec(underlying, t, orig, inheritConst).value.kind)
    ensures IsClass(u) && u.shape == ClassIn(Canonical(t)).shape
    ensures ExposedName(ArgTypeSpec(underlying, t, orig, inheritConst).value.kind) ==
            BareTypeSpelling(if underlying then u else orig)
    decreases Rank(t)
  {
    hide BareTypeSpelling, Spell, PointerArg;
    match t.shape
    case PointerType(_) => PointeeExposes(underlying, t, orig); PointeeOfCanonical(t); u := Canonical(Pointee(t));
    case LValueRef(_) => PointeeExposes(underlying, t, orig); PointeeOfCanonical(t); u := Canonical(Pointee(t));
    case RValueRef(_) =>
      BarePointeeLowersRank(t);
      var p := BarePointee(t);
      PointeeOfCanonical(t);
      if IsClass(p) {
        PointeeExposes(underlying, t, orig);
        u := Canonical(Pointee(t));
      } else {
        BarePointeeTarget(t);
        u := TypedExposes(underlying, p, orig, p.isConst);
        RValueRefIsPlain(t);
      }
    case TypedefType(_, _) =>
      CanonicalLowersRank(t);
      var c := Canonical(t);
      if !c.shape.PointerType? && !IsRef(c) && !c.shape.IncompleteArray? {
        u := TypedExposes(underlying, c, orig, t.isConst || inheritConst);
        CanonicalIsIdempotent(t);
      } else {
        u := c;
      }
    case ElaboratedType(_, n) => u := TypedExposes(underlying, n, orig, inheritConst);
    case _ => u := t;
  }

  // ----- The name that is exposed

  /** The name that is written: signs apart. */
  function WrittenBase(t: CType): CType {
    var u := if IsRef(t) then t.shape.to else t;
    if u.shape.PointerType? then u.shape.to else u
  }

  /** A sign stands by itself between spaces. */
  predicate HasLoneSign(t: CType) {
    IsRef(t) && t.shape.to.shape.PointerType? && t.shape.to.isConst
  }

  /** Typed arguments are written by a name. */
  lemma TypedIsNamed(underlying: bool, t: CType)
    requires WellFormed(t) && IsWritten(t) && ArgTypeSpec(underlying, t, t, false).Some?
    requires IsTyped(ArgTypeSpec(underlying, t, t, false).value.kind)
    ensures IsNamed(WrittenBase(t))
    ensures IsRef(t) && t.shape.to.shape.PointerType? ==> t.shape.RValueRef?
  {
    hide BareTypeSpelling, Spell;
    if IsRef(t) && t.shape.to.shape.PointerType? { assert Pointee(t) == t.shape.to; }
  }

  lemma DeclaredBase(scope: Scope, t: CType)
    requires Declares(scope, t) && IsNamed(WrittenBase(t))
    ensures GoodName(BaseName(WrittenBase(t)))
  {
    hide GoodName, Spell;
    NameIsDeclared(scope, WrittenBase(t));
  }

  lemma BareOfTwoSigns(t: CType)
    requires t.shape.RValueRef? && t.shape.to.shape.PointerType? && IsNamed(WrittenBase(t))
    requires GoodName(BaseName(WrittenBase(t))) && ' ' !in BaseName(WrittenBase(t))
    ensures BareTypeSpelling(t) == if t.shape.to.isConst then "*const" else BaseName(WrittenBase(t))
  {
    hide *;
    var p, b := t.shape.to, WrittenBase(t);
    assert p.shape.to == b by { PointerBase(t); }
    SignedSpelling(p);
    BareIsOneCut(b);
    assert SignOf(p) == if p.isConst then "*const" else "*" by { PointerSign(p); }
    if p.isConst {
      LonelySign(t, Spell(b));
    } else {
      TwoSigns(t, Spell(b));
      assert ' ' !in "*&&" && "*&&"[0] == '*';
      CutAtSign(t, Spell(b), "*&&");
    }
  }

  lemma PointerBase(t: CType)
    requires IsRef(t) && t.shape.to.shape.PointerType?
    ensures t.shape.to.shape.to == WrittenBase(t)
  {
  }

  lemma PointerSign(p: CType)
    requires p.shape.PointerType?
    ensures SignOf(p) == if p.isConst then "*const" else "*"
  {
  }

  lemma TwoSigns(t: CType, b: string)
    requires t.shape.RValueRef? && Spell(t.shape.to) == b + " " + "*"
    ensures Spell(t) == b + " " + "*&&"
  {
    assert b + " " + "*" + "&&" == b + " " + "*&&";
  }

  lemma LonelySign(t: CType, b: string)
    requires t.shape.RValueRef? && Spell(t.shape.to) == b + " " + "*const"
    ensures BareTypeSpelling(t) == "*const"
  {
    var inner := b + " " + "*const";
    assert inner[|inner| - 1] == 't';
    assert Spell(t) == inner + " " + "&&";
    hide LastSpace, Spell;
    CutAtSign(t, inner, "&&");
    LastSpaceIs(b, "*const");
    assert inner[|b| + 1..] == "*const";
  }

  /** An argument of a class, or a pointer or reference to one, is exposed by the name it is written with,
      or on request by that of the class itself, exactly if the name is a single word and no sign
      stands by itself. */
  lemma ExposedNameExactly(scope: Scope, underlying: bool, t: CType)
    requires WellFormed(t) && IsWritten(t) && Declares(scope, t) && ArgTypeSpec(underlying, t, t, false).Some?
    requires IsTyped(ArgTypeSpec(underlying, t, t, false).value.kind)
    ensures IsNamed(WrittenBase(t)) && IsClass(ClassIn(Canonical(t)))
    ensures var exposed := ExposedName(ArgTypeSpec(underlying, t, t, false).value.kind);
            if underlying then exposed == BaseName(ClassIn(Canonical(t))) <==> ' ' !in BaseName(ClassIn(Canonical(t)))
            else exposed == BaseName(WrittenBase(t)) <==> ' ' !in BaseName(WrittenBase(t)) && !HasLoneSign(t)
  {
    var u := TypedExposes(underlying, t, t, false);
    TypedIsNamed(underlying, t);
    DeclaredBase(scope, t);
    BareHoldsNoSpace(if underlying then u else t);
    if underlying {
      ClassIsGood(scope, t);
      if ' ' !in BaseName(u) { BareOfNamed(u); }
    } else if ' ' !in BaseName(WrittenBase(t)) {
      FirstIsNoSign(BaseName(WrittenBase(t)));
      hide BareTypeSpelling, Spell, GoodName, ArgTypeSpec;
      if IsRef(t) && t.shape.to.shape.PointerType? {
        BareOfTwoSigns(t);
      } else if IsRef(t) || t.shape.PointerType? {
        BareOfSigned(t);
      } else {
        BareOfNamed(t);
      }
    }
  }

  lemma ClassIsGood(scope: Scope, t: CType)
    requires WellFormed(t) && Declares(scope, t) && IsClass(ClassIn(Canonical(t)))
    ensures GoodName(BaseName(ClassIn(Canonical(t))))
  {
    hide GoodName, Spell;
    CanonicalIsSpellable(scope, t);
  }

  /** For instance `F<int, char>`, whose arguments are compared as `char>`. */
  lemma CutNameExample()
    ensures BareTypeSpelling(CType(false, UnexposedType("F<int, char>"))) == "char>"
  {
    var t := CType(false, UnexposedType("F<int, char>"));
    assert "" + "F<int, char>" == "F<int," + " " + "char>" == Spell(t);
    hide LastSpace;
    LastSpaceIs("F<int,", "char>");
  }
}
