/** What the signatures of mocks and expectations declare, as text and as types
    (app/sources/Function.cpp, SetOriginalType, GetMockSignature and GetExpectationSignature). */
module Signatures {
  import opened StringHelper
  import opened Overrides
  import opened CppTypes
  import opened Expressions
  import opened Arguments
  import opened ArgumentParser
  import opened ReturnParser
  import opened ReturnProperties
  import opened TypeIds
  import opened ArgumentProperties
  import opened ExpectationTypes

  /** What is written before the name in a declaration: the type, or the element of an array. */
  function Before(t: CType): CType {
    if t.shape.IncompleteArray? then t.shape.of else t
  }

  /** The spelling has a bracket that does not belong to an array declarator, as in template
      arguments; there the generator cuts it all the same. */
  predicate IsCut(t: CType) {
    '[' in Spell(Before(t))
  }

  function AfterName(t: CType): string {
    if t.shape.IncompleteArray? then "[]" else ""
  }

  lemma ArraySpelling(e: CType)
    ensures Spell(CType(false, IncompleteArray(e))) == Spell(e) + " []"
  {
  }

  // ----- Where a text is cut

  /** A text is cut at its first bracket in one way only. */
  lemma SameFront(a: string, x: string, b: string, y: string)
    requires '[' !in a && '[' !in b && x != "" && y != "" && x[0] == y[0] == '[' && a + x == b + y
    ensures a == b && x == y
  {
    assert (a + x)[|a|] == '[' && (b + y)[|b|] == '[';
    assert a == (a + x)[..|a|] && b == (b + y)[..|b|];
    assert x == (a + x)[|a|..] && y == (b + y)[|b|..];
  }

  lemma SlicesHoldNoMore(s: string, c: char)
    requires c !in s
    ensures c !in TrimString(s)
  {
    var r := TrimString(s);
    hide TrimString, AllSpaces, Trimmed;
    var a, b :| 0 <= a <= b <= |s| && r == s[a..b];
  }

  /** The texts of a type that is not cut are its own, around the name. */
  lemma WholePieces(pre: string, post: string, t: CType)
    requires AreCutFrom(pre, post, Spell(t)) && !IsCut(t) && (t.shape.IncompleteArray? ==> !t.isConst)
    requires t.shape.IncompleteArray? ==> Spell(t.shape.of) != "" && Trimmed(Spell(t.shape.of))
    ensures pre == Spell(Before(t)) && post == AfterName(t)
    ensures '[' in Spell(t) <==> t.shape.IncompleteArray?
  {
    hide Spell, Canonical, TrimString;
    if t.shape.IncompleteArray? {
      var e := Spell(t.shape.of);
      ArraySpelling(t.shape.of);
      ArrayText(e);
      var front :| '[' !in front && e + " []" == front + post && pre == TrimString(front);
      SameFront(front, post, e + " ", "[]");
      TrimStripsPadding("", e, " ");
      assert "" + e + " " == front;
    }
  }

  lemma WholeTexts(a: Argument, t: CType)
    requires a.Standard? && TypeTexts(a, Spell(t)) && WellFormed(t) && !IsCut(t)
    requires t.shape.IncompleteArray? ==> Spell(t.shape.of) != "" && Trimmed(Spell(t.shape.of))
    ensures a.typePre == Spell(Before(t)) && a.typePost == AfterName(t)
    ensures a.expectationType == if t.shape.IncompleteArray? then Spell(t.shape.of) + " *" else Spell(t)
  {
    hide Spell, Canonical, AreCutFrom, IsCut;
    WholePieces(a.typePre, a.typePost, t);
  }

  lemma ArrayText(e: string)
    ensures e + " []" == (e + " ") + "[]" && '[' in e + " []"
  {
    assert (e + " []")[|e| + 1] == '[';
  }

  /** A type that is cut leaves its first bracket and what follows it behind the name. */
  lemma CutTexts(a: Argument, t: CType) returns (front: string)
    requires a.Standard? && TypeTexts(a, Spell(t)) && WellFormed(t) && IsCut(t)
    ensures '[' !in front && |front| < |Spell(Before(t))| && a.typePre == TrimString(front)
    ensures '[' !in a.typePre && a.expectationType == a.typePre + " *"
    ensures a.typePost != "" && a.typePost[0] == '['
    ensures Spell(Before(t)) + (if t.shape.IncompleteArray? then " []" else "") == front + a.typePost
  {
    hide Spell, Canonical, TrimString;
    var s := Spell(Before(t));
    if t.shape.IncompleteArray? { ArraySpelling(t.shape.of); ArrayText(s); }
    var whole := s + if t.shape.IncompleteArray? then " []" else "";
    assert whole == Spell(t);
    front :| '[' !in front && whole == front + a.typePost && a.typePre == TrimString(front);
    SlicesHoldNoMore(front, '[');
    FrontIsShorter(s, whole[|s|..], front, a.typePost);
  }

  lemma FrontIsShorter(s: string, rest: string, front: string, post: string)
    requires s + rest == front + post && '[' in s && '[' !in front
    ensures |front| < |s|
  {
    var i :| 0 <= i < |s| && s[i] == '[';
    assert (s + rest)[i] == '[';
  }

  // ----- The texts of the expectation

  lemma RValueRefSigns(t: CType)
    requires t.shape.RValueRef?
    ensures Spell(t) != "" && Spell(t)[..|Spell(t)| - 1] + "&" == Spell(t)
    ensures Spell(CType(false, RValueRef(t.shape.to))) == Spell(t)
    ensures '[' in Spell(t) ==> '[' in Spell(t)[..|Spell(t)| - 1]
  {
    var of := Spell(t.shape.to);
    assert Spell(t) == Signed(of, "&&");
    var s := Spell(t);
    assert s[|s| - 1] == '&';
    assert s == s[..|s| - 1] + [s[|s| - 1]];
  }

  /** The declaration of a parameter: its type's text, up to the space before the sign. */
  function ParameterText(s: ArgSpec, t: CType): string {
    var p := ParameterType(s, t);
    if t.shape.IncompleteArray? then Spell(t.shape.of) + " *"
    else if p.shape.LValueRef? && p.shape.to == t then Spell(t) + "&"
    else Spell(p)
  }

  /** That is what the expectation declares, exactly if the type is not cut. */
  lemma ParameterTypeText(underlying: bool, t: CType, a: Argument)
    requires WellFormed(t) && ArgTypeSpec(underlying, t, t, false).Some? && a.Standard?
    requires BuiltFromType(a, t, ArgTypeSpec(underlying, t, t, false).value)
    requires t.shape.IncompleteArray? ==> Spell(t.shape.of) != "" && Trimmed(Spell(t.shape.of))
    ensures Valid(a)
    ensures UsedType(a) == ParameterText(ArgTypeSpec(underlying, t, t, false).value, t) <==> !IsCut(t)
  {
    hide ArgTypeSpec, Front, Back, Canonical, Spell, TypeTexts, IsCut;
    var s := ArgTypeSpec(underlying, t, t, false).value;
    ArgumentFlags(underlying, t, t, false);
    ParsedArgumentIsValid(underlying, t, a);
    if t.shape.RValueRef? {
      RValueRefSpelling(t.shape.to);
      RValueRefSigns(t);
    }
    if t.shape.IncompleteArray? { ArrayIsPassedAsItIs(underlying, t); }
    if IsCut(t) {
      CutIsNotDeclared(s, t, a);
    } else {
      WholeTexts(a, t);
      assert Spell(t) + "" == Spell(t);
    }
  }

  /** What is left of a type that is cut holds no bracket, and what should be declared does. */
  lemma CutIsNotDeclared(s: ArgSpec, t: CType, a: Argument)
    requires WellFormed(t) && IsCut(t) && a.Standard? && Valid(a) && !a.useBaseType
    requires BuiltFromType(a, t, s) && s.isRValueRef == t.shape.RValueRef? && (t.shape.IncompleteArray? ==> !s.byRef)
    ensures UsedType(a) != ParameterText(s, t)
  {
    var front := CutTexts(a, t);
    hide Spell, TypeTexts, Canonical, Front, Back, TrimString;
    DeclaredBracket(s, t);
    var pre := a.typePre;
    assert (pre + " *")[..|pre + " *"| - 1] == pre + " ";
    assert '[' !in " *" && '[' !in " " && '[' !in "&" && '[' !in "";
    assert '[' !in UsedType(a);
  }

  lemma DeclaredBracket(s: ArgSpec, t: CType)
    requires IsCut(t) && s.isRValueRef == t.shape.RValueRef? && (t.shape.IncompleteArray? ==> !s.byRef)
    ensures '[' in ParameterText(s, t)
  {
    hide Spell, Canonical;
    if t.shape.RValueRef? {
      RValueRefSpelling(t.shape.to);
      RValueRefSigns(t);
    }
  }

  // ----- The types that they name

  /** What is written before a name names a type of its own. */
  lemma BeforeIsSpellable(scope: Scope, t: CType)
    requires WellFormed(t) && Declares(scope, t) && IsWritten(t)
    ensures IsSpellable(Before(t)) && Declares(scope, Before(t))
    ensures t.shape.IncompleteArray? ==> !IsRef(Canonical(Before(t)))
  {
    hide Spell, GoodName, Canonical;
    if t.shape.IncompleteArray? {
      RefereeIsSpellable(scope, t.shape.of);
      ElementIsPlain(t);
    } else {
      WrittenIsSpellable(scope, t);
    }
  }

  lemma ElementIsPlain(t: CType)
    requires WellFormed(t) && t.shape.IncompleteArray?
    ensures !IsRef(t.shape.of) && !t.shape.of.shape.IncompleteArray? && !IsRef(Canonical(t.shape.of))
  {
    if IsRef(t.shape.of) { CanonicalOfRef(t.shape.of); }
  }

  lemma {:induction false} SameAngles(s: string, d: nat)
    requires '<' !in s && '>' !in s
    ensures Angles(s, d) == d
  {
    if s != "" { SameAngles(s[1..], d); }
  }

  /** Cutting a spelling at a bracket leaves angle brackets open. */
  lemma CutLeavesOpen(scope: Scope, t: CType, front: string, post: string)
    requires IsSpellable(t) && Declares(scope, t)
    requires post != "" && post[0] == '[' && front + post == Spell(t)
    ensures Angles(front, 0) > 0
  {
    SpellingNames(scope, t);
    var o := TypeIdHolds(scope, IdOf(t));
    BracketOutside(front, post);
  }

  lemma BracketOutside(front: string, post: string)
    requires post != "" && post[0] == '['
    ensures Angles(front, 0) == 0 ==> '[' in Outside(front + post, 0)
  {
    OutsideConcat(front, post, 0);
    assert Outside(post, 0) == ['['] + Outside(post[1..], 0);
    assert Outside(post, 0)[0] == '[';
  }

  lemma TrimKeepsAngles(s: string)
    ensures Angles(TrimString(s), 0) == Angles(s, 0)
  {
    hide *;
    var r := TrimString(s);
    var a, b :| 0 <= a <= b <= |s| && r == s[a..b] && AllSpaces(s[..a]) && AllSpaces(s[b..]);
    ThreeSlices(s, a, b);
    SpacesKeepAngles(s[..a], r, s[b..]);
  }

  lemma ThreeSlices(s: string, a: nat, b: nat)
    requires a <= b <= |s|
    ensures s == (s[..a] + s[a..b]) + s[b..]
  {
  }

  lemma SpacesKeepAngles(left: string, s: string, right: string)
    requires AllSpaces(left) && AllSpaces(right)
    ensures Angles((left + s) + right, 0) == Angles(s, 0)
  {
    hide Angles, Outside;
    SameAngles(left, 0);
    OutsideConcat(left, s, 0);
    OutsideConcat(left + s, right, 0);
    SameAngles(right, Angles(s, 0));
  }

  lemma OpenIsNoTypeId(scope: Scope, pre: string, rest: string, c: CType)
    requires Angles(pre, 0) > 0 && '<' !in rest && '>' !in rest
    ensures !Names(scope, pre + rest, c)
  {
    OutsideConcat(pre, rest, 0);
    SameAngles(rest, Angles(pre, 0));
    if id :| IdText(id) == pre + rest && Meaning(scope, id) == Some(c) {
      var o := TypeIdHolds(scope, id);
      assert false;
    }
  }

  /** The text that the expectation declares a parameter with names the parameter's type in every
      scope that declares the argument's, exactly if the type is not cut. */
  lemma ParameterTypeIsNamed(scope: Scope, underlying: bool, t: CType, a: Argument)
    requires WellFormed(t) && Declares(scope, t) && IsWritten(t)
    requires ArgTypeSpec(underlying, t, t, false).Some? && a.Standard?
    requires BuiltFromType(a, t, ArgTypeSpec(underlying, t, t, false).value)
    ensures Valid(a)
    ensures Names(scope, UsedType(a), Canonical(ParameterType(ArgTypeSpec(underlying, t, t, false).value, t))) <==>
            !IsCut(t)
  {
    hide ArgTypeSpec, Front, Back, Canonical, Spell, Declares, Names, UsedType, IsCut, TypeTexts, IsSpellable, GoodName;
    var s := ArgTypeSpec(underlying, t, t, false).value;
    BeforeIsSpellable(scope, t);
    BeforeIsTrimmed(scope, t);
    ParameterTypeText(underlying, t, a);
    ArgumentFlags(underlying, t, t, false);
    if t.shape.IncompleteArray? { ArrayIsPassedAsItIs(underlying, t); }
    if IsCut(t) {
      CutIsNotNamed(scope, s, t, a);
    } else {
      ParameterTextIsNamed(scope, s, t);
    }
  }

  lemma BeforeIsTrimmed(scope: Scope, t: CType)
    requires IsSpellable(Before(t)) && Declares(scope, Before(t))
    ensures var s := Spell(Before(t)); s != "" && Trimmed(s) && s[0] != '['
  {
    SpellingIsTrimmed(scope, Before(t));
  }

  lemma {:induction false} SpellingIsTrimmed(scope: Scope, t: CType)
    requires IsSpellable(t) && Declares(scope, t)
    ensures Spell(t) != "" && Trimmed(Spell(t)) && Spell(t)[0] != '['
  {
    hide GoodName, BasicName, Canonical;
    match t.shape
    case PointerType(p) => SpellingIsTrimmed(scope, p);
    case LValueRef(p) => SpellingIsTrimmed(scope, p);
    case RValueRef(p) => SpellingIsTrimmed(scope, p);
    case _ =>
      hide *;
      NamedIsTrimmed(scope, t);
  }

  lemma NamedIsTrimmed(scope: Scope, t: CType)
    requires IsNamed(t) && Declares(scope, t)
    ensures Spell(t) != "" && Trimmed(Spell(t)) && Spell(t)[0] != '['
  {
    hide GoodName, Spell, Canonical, Declares;
    SpellIsBase(t);
    NameIsDeclared(scope, t);
    NameIsTrimmed(BaseName(t));
  }

  lemma NameIsTrimmed(n: string)
    requires GoodName(n)
    ensures n != "" && Trimmed(n) && n[0] != '['
  {
    var rest := n[1..];
    assert n == [n[0]] + rest;
    if n[0] == '[' { assert Outside(n, 0)[0] == '['; }
  }

  lemma ParameterTextIsNamed(scope: Scope, s: ArgSpec, t: CType)
    requires IsSpellable(Before(t)) && Declares(scope, Before(t)) && s.isRValueRef == t.shape.RValueRef?
    requires s.byRef ==> IsClass(Target(Canonical(t))) && (t.shape.RValueRef? || !IsRef(Canonical(t)))
    requires t.shape.IncompleteArray? ==> !s.byRef && !IsRef(Canonical(t.shape.of))
    ensures Names(scope, ParameterText(s, t), Canonical(ParameterType(s, t)))
  {
    hide Canonical, Spell, Declares, Names, GoodName;
    if t.shape.IncompleteArray? {
      ElementPointerIsNamed(scope, t.shape.of);
    } else if t.shape.RValueRef? {
      LessOneSign(scope, t);
      RValueParameterIsWritten(s, t);
      SpellingNamesIt(scope, ParameterType(s, t));
    } else if s.byRef {
      ByRefIsNoReference(s, t);
      ReferenceIsNamed(scope, t, false);
    } else {
      SpellingNamesIt(scope, t);
    }
  }

  lemma ElementPointerIsNamed(scope: Scope, e: CType)
    requires IsSpellable(e) && Declares(scope, e) && !IsRef(Canonical(e))
    ensures Names(scope, Spell(e) + " *", Canonical(CType(false, PointerType(e))))
  {
    hide Spell, Declares, IsSpellable, IdOf;
    SpellingNames(scope, e);
    var id := PtrId(IdOf(e), true, false);
    assert Spell(e) + " *" + "" == Spell(e) + " *";
    assert IdText(id) == Spell(e) + " *" && Meaning(scope, id) == Some(Canonical(CType(false, PointerType(e))));
  }

  lemma RValueParameterIsWritten(s: ArgSpec, t: CType)
    requires t.shape.RValueRef? && s.isRValueRef && IsSpellable(t)
    ensures ParameterType(s, t) == t || ParameterType(s, t) == CType(false, LValueRef(t.shape.to))
    ensures !(ParameterType(s, t).shape.LValueRef? && ParameterType(s, t).shape.to == t)
  {
  }

  lemma ByRefIsNoReference(s: ArgSpec, t: CType)
    requires s.byRef ==> IsClass(Target(Canonical(t))) && (t.shape.RValueRef? || !IsRef(Canonical(t)))
    ensures s.byRef && !t.shape.RValueRef? ==> !IsRef(t)
  {
  }

  lemma CutIsNotNamed(scope: Scope, s: ArgSpec, t: CType, a: Argument)
    requires WellFormed(t) && IsCut(t) && IsSpellable(Before(t)) && Declares(scope, Before(t))
    requires a.Standard? && Valid(a) && BuiltFromType(a, t, s)
    ensures !Names(scope, UsedType(a), Canonical(ParameterType(s, t)))
  {
    var front := CutTexts(a, t);
    var before := Before(t);
    hide Spell, TypeTexts, Canonical, Front, Back, TrimString, IsSpellable, Declares, ParameterType, Names, Angles,
         UsedType;
    var post := Spell(before)[|front|..];
    CutBefore(Spell(before), if t.shape.IncompleteArray? then " []" else "", front, a.typePost);
    CutLeavesOpen(scope, before, front, post);
    TrimKeepsAngles(front);
    var rest := CutUse(a);
    OpenIsNoTypeId(scope, a.typePre, rest, Canonical(ParameterType(s, t)));
  }

  lemma CutUse(a: Argument) returns (rest: string)
    requires a.Standard? && Valid(a) && !a.useBaseType && a.expectationType == a.typePre + " *"
    ensures '<' !in rest && '>' !in rest && UsedType(a) == a.typePre + rest
  {
    rest := (if a.isRValueRef then " " else " *") + (if a.byRef then "&" else "");
    RestIsFlat(a.isRValueRef, a.byRef);
    assert (a.typePre + " *")[..|a.typePre + " *"| - 1] == a.typePre + " ";
    Regroup(a.typePre, if a.isRValueRef then " " else " *", if a.byRef then "&" else "");
  }

  lemma CutBefore(s: string, rest: string, front: string, post: string)
    requires s + rest == front + post && |front| < |s| && post != ""
    ensures front + s[|front|..] == s && s[|front|..] != "" && s[|front|] == post[0]
  {
    assert (s + rest)[|front|] == s[|front|] && (front + post)[|front|] == post[0];
    assert s[..|front|] == (s + rest)[..|front|] == front;
  }

  lemma RestIsFlat(less: bool, more: bool)
    ensures var rest := (if less then " " else " *") + (if more then "&" else ""); '<' !in rest && '>' !in rest
  {
  }

  // ----- The text of the mock

  /** A name that can be declared. */
  predicate IsPlainName(n: string) {
    n != "" && Trimmed(n) && '[' !in n
  }

  /** The mock declares a parameter as its type requires, the brackets of an array behind the name,
      exactly if the type is not cut. */
  lemma MockDeclares(scope: Scope, t: CType, a: Argument)
    requires WellFormed(t) && Declares(scope, t) && IsWritten(t)
    requires a.Standard? && TypeTexts(a, Spell(t)) && IsPlainName(a.name)
    ensures MockSignature(a) == Spell(Before(t)) + " " + a.name + AfterName(t) <==> !IsCut(t)
  {
    hide Spell, Declares, IsCut, TypeTexts, IsSpellable, GoodName, TrimString, Canonical;
    BeforeIsSpellable(scope, t);
    BeforeIsTrimmed(scope, t);
    if IsCut(t) {
      CutDeclaration(t, a);
    } else {
      WholeTexts(a, t);
      LastOfDeclaration(Spell(Before(t)), a.name, AfterName(t));
      TrimIsIdentity(a.typePre + " " + a.name + a.typePost);
    }
  }

  /** And one that is skipped as its type alone. */
  lemma SkippedDeclares(scope: Scope, t: CType, a: Argument)
    requires WellFormed(t) && Declares(scope, t) && IsWritten(t)
    requires a.Skipped? && AreCutFrom(a.typePre, a.typePost, Spell(t)) && !IsCut(t)
    ensures MockSignature(a) == Spell(t)
  {
    hide Spell, Declares, IsCut, AreCutFrom, IsSpellable, GoodName, TrimString, Canonical;
    BeforeIsSpellable(scope, t);
    BeforeIsTrimmed(scope, t);
    WholePieces(a.typePre, a.typePost, t);
    var s := Spell(Before(t));
    assert s + " " + "" == s + " ";
    if t.shape.IncompleteArray? {
      ArraySpelling(t.shape.of);
      ArrayText(s);
      TrimIsIdentity(s + " []");
    } else {
      TrimStripsPadding("", s, " ");
      assert "" + s + " " == s + " " + "" + "";
    }
  }

  lemma LastOfDeclaration(pre: string, name: string, post: string)
    requires pre != "" && pre[0] != ' ' && name != "" && name[|name| - 1] != ' '
    requires post != "" ==> post[|post| - 1] != ' '
    ensures Trimmed(pre + " " + name + post)
  {
  }

  lemma CutDeclaration(t: CType, a: Argument)
    requires WellFormed(t) && IsCut(t) && a.Standard? && TypeTexts(a, Spell(t)) && IsPlainName(a.name)
    requires var s := Spell(Before(t)); s != "" && Trimmed(s) && s[0] != '['
    ensures MockSignature(a) != Spell(Before(t)) + " " + a.name + AfterName(t)
  {
    hide *;
    var front := CutTexts(a, t);
    var s, rest := Spell(Before(t)), if t.shape.IncompleteArray? then " []" else "";
    var q := s[|front|..];
    CutBefore(s, rest, front, a.typePost);
    CutRest(s, rest, front, a.typePost);
    CutEnd(s, rest, front, a.typePost);
    FrontIsTrimmed(front, s);
    AfterRest(t);
    MovedDeclaration(front, a.typePre, a.name, a.typePost, q, rest, AfterName(t));
    SignatureOf(a);
  }

  lemma AfterRest(t: CType)
    ensures AfterName(t) == if t.shape.IncompleteArray? then "[]" else ""
  {
  }

  lemma MovedDeclaration(front: string, pre: string, name: string, post: string, q: string, rest: string, after: string)
    requires '[' !in front && '[' !in pre && IsPlainName(name) && pre != "" && pre[0] != ' '
    requires post == q + rest && q != "" && q[0] == '['
    requires (rest == "" && after == "") || (rest == " []" && after == "[]")
    requires post[|post| - 1] != ' '
    ensures TrimString(pre + " " + name + post) != (front + q) + " " + name + after
  {
    hide TrimString;
    LastOfDeclaration(pre, name, post);
    TrimIsIdentity(pre + " " + name + post);
    hide *;
    NotDeclared(front, pre, name, post, q, rest, after);
    FourParts(front, q, name, after);
  }

  lemma SignatureOf(a: Argument)
    requires a.Standard?
    ensures MockSignature(a) == TrimString(a.typePre + " " + a.name + a.typePost)
  {
  }

  lemma FourParts(a: string, b: string, c: string, d: string)
    ensures (a + b) + " " + c + d == a + (b + " " + c + d)
  {
    Regroup(a, b, " ");
    Regroup(a, b + " ", c);
    Regroup(a, b + " " + c, d);
  }

  lemma CutRest(s: string, rest: string, front: string, post: string)
    requires s + rest == front + post && |front| < |s|
    ensures post == s[|front|..] + rest
  {
    assert (s + rest)[|front|..] == s[|front|..] + rest && (front + post)[|front|..] == post;
  }

  lemma FrontIsTrimmed(front: string, s: string)
    requires |front| < |s| && front + s[|front|..] == s && Trimmed(s) && s[0] != '[' && s[|front|] == '['
    ensures var r := TrimString(front); r != "" && r[0] != ' ' && |r| <= |front|
  {
    assert front == s[..|front|] && front[0] == s[0];
    assert !AllSpaces(front);
  }

  lemma CutEnd(s: string, rest: string, front: string, post: string)
    requires s + rest == front + post && post != "" && Trimmed(s) && s != "" && (rest == "" || rest == " []")
    ensures post[|post| - 1] != ' '
  {
    assert (front + post)[|front + post| - 1] == post[|post| - 1];
    assert (s + rest)[|s + rest| - 1] == if rest == "" then s[|s| - 1] else ']';
  }

  /** Behind a name, what was cut off does not make up the declaration. */
  lemma NotDeclared(front: string, pre: string, name: string, post: string, q: string, rest: string, after: string)
    requires '[' !in front && '[' !in pre && '[' !in name && name != ""
    requires post == q + rest && q != "" && q[0] == '['
    requires (rest == "" && after == "") || (rest == " []" && after == "[]")
    ensures pre + " " + name + post != front + (q + " " + name + after)
  {
    var moved := q + " " + name + after;
    assert |moved| == |q| + 1 + |name| + |after| && moved[0] == '[';
    if pre + " " + name + post == front + moved {
      SameFront(pre + " " + name, post, front, moved);
    }
  }

  /** For instance an argument x of type `F<int[2]>`, which the mock declares as `F<int x[2]>`. */
  lemma CutExample(a: Argument)
    requires a.Standard? && a.name == "x"
    requires TypeTexts(a, Spell(CType(false, UnexposedType("F<int[2]>"))))
    ensures var t := CType(false, UnexposedType("F<int[2]>"));
            WellFormed(t) && Declares(map["F<int[2]>" := t], t) && IsCut(t)
    ensures MockSignature(a) == "F<int" + " " + "x" + "[2]>"
  {
    hide *;
    var t := CType(false, UnexposedType("F<int[2]>"));
    TemplateText(t);
    TemplateIsDeclared(t);
    var front := CutTexts(a, t);
    SameFront(front, a.typePost, "F<int", "[2]>");
    PiecesAreTrimmed();
    TrimIsIdentity("F<int");
    TrimIsIdentity("F<int" + " " + "x" + "[2]>");
    SignatureOf(a);
  }

  lemma PiecesAreTrimmed()
    ensures Trimmed("F<int") && Trimmed("F<int" + " " + "x" + "[2]>")
  {
  }

  lemma TemplateText(t: CType)
    requires t == CType(false, UnexposedType("F<int[2]>"))
    ensures Before(t) == t && Spell(t) + "" == "F<int" + "[2]>" && '[' !in "F<int" && "[2]>"[0] == '[' && WellFormed(t)
    ensures IsCut(t) && !t.shape.IncompleteArray?
  {
    assert Spell(t) == "" + "F<int[2]>" == "F<int" + "[2]>";
    assert Spell(t)[5] == '[';
  }

  lemma TemplateIsDeclared(t: CType)
    requires t == CType(false, UnexposedType("F<int[2]>"))
    ensures Declares(map["F<int[2]>" := t], t)
  {
    hide GoodName;
    assert GoodName("F<int[2]>") by {
      NoConstStart("F<int[2]>");
      assert ("F" + "<") + "int[2]" + ">" == "F<int[2]>";
      TemplateIsGood("F", "int[2]");
    }
  }

  /** A name with template arguments is good whatever they are, short of more angle brackets. */
  lemma TemplateIsGood(n: string, inner: string)
    requires n != "" && n[0] != ' ' && SignFree(n) && '<' !in n && '>' !in n && '<' !in inner && '>' !in inner
    requires !StartsWithConst((n + "<") + inner + ">")
    ensures GoodName((n + "<") + inner + ">")
  {
    hide Angles, Outside, StartsWithConst;
    NoAngles(n);
    OneAngle();
    OutsideConcat(n, "<", 0);
    OutsideConcat(n + "<", inner, 0);
    SameAngles(inner, 1);
    NothingInside(inner, 1);
    OutsideConcat((n + "<") + inner, ">", 0);
    assert (n + "") + "" + "" == n;
  }

  lemma OneAngle()
    ensures Angles("<", 0) == 1 && Outside("<", 0) == "" && Angles(">", 1) == 0 && Outside(">", 1) == ""
  {
    assert Outside("<"[1..], 1) == "" && Outside(">"[1..], 0) == "";
    assert Angles("<", 0) == Angles("<"[1..], 1) && Angles(">", 1) == Angles(">"[1..], 0);
  }

  lemma {:induction false} NothingInside(s: string, d: nat)
    requires '<' !in s && '>' !in s && d > 0
    ensures Outside(s, d) == ""
  {
    if s != "" { NothingInside(s[1..], d); }
  }
}
