/** Which type the text of a cast names: a small grammar of type-ids, read independently of how
    types are spelled (ISO/IEC 14882:2017, sections 10.1.7 and 11.1). */
module TypeIds {
  import opened StringHelper
  import opened Overrides
  import opened CppTypes
  import opened Expressions
  import opened ReturnParser
  import opened ReturnProperties

  // ----- Text outside template arguments

  /** How many angle brackets are open after s, if d were before it. */
  function Angles(s: string, d: nat): nat {
    if s == "" then d
    else Angles(s[1..], if s[0] == '<' then d + 1 else if s[0] == '>' && d > 0 then d - 1 else d)
  }

  /** The characters of s that stand in no angle brackets. */
  function Outside(s: string, d: nat): string {
    if s == "" then ""
    else if s[0] == '<' then Outside(s[1..], d + 1)
    else if s[0] == '>' then Outside(s[1..], if d > 0 then d - 1 else d)
    else (if d == 0 then [s[0]] else []) + Outside(s[1..], d)
  }

  lemma {:induction false} OutsideConcat(a: string, b: string, d: nat)
    ensures Angles(a + b, d) == Angles(b, Angles(a, d))
    ensures Outside(a + b, d) == Outside(a, d) + Outside(b, Angles(a, d))
  {
    if a == "" {
      assert a + b == b;
    } else {
      assert (a + b)[1..] == a[1..] + b && (a + b)[0] == a[0];
      var e := if a[0] == '<' then d + 1 else if a[0] == '>' && d > 0 then d - 1 else d;
      OutsideConcat(a[1..], b, e);
      if a[0] != '<' && a[0] != '>' {
        Regroup(if d == 0 then [a[0]] else [], Outside(a[1..], d), Outside(b, Angles(a[1..], d)));
      }
    }
  }

  lemma {:induction false} NoAngles(s: string)
    requires '<' !in s && '>' !in s
    ensures Angles(s, 0) == 0 && Outside(s, 0) == s
  {
    if s != "" { NoAngles(s[1..]); }
  }

  /** Text that closes the angle brackets it opens, and what it holds outside of them. */
  ghost predicate Holds(text: string, outside: string) {
    Angles(text, 0) == 0 && Outside(text, 0) == outside
  }

  lemma HoldsConcat(a: string, x: string, b: string, y: string)
    requires Holds(a, x) && Holds(b, y)
    ensures Holds(a + b, x + y)
  {
    OutsideConcat(a, b, 0);
  }

  // ----- Names

  predicate IsSign(c: char) {
    c == '*' || c == '&' || c == '['
  }

  predicate SignFree(s: string) {
    forall i :: 0 <= i < |s| ==> !IsSign(s[i])
  }

  predicate StartsWithConst(s: string) {
    |s| >= 6 && s[..6] == "const "
  }

  /** The name of a type: template arguments may hold anything, the rest no sign, and neither const
      nor a space around it is part of it. */
  predicate GoodName(n: string) {
    n != "" && Trimmed(n) && Angles(n, 0) == 0 && SignFree(Outside(n, 0)) && !StartsWithConst(n)
  }

  /** Which type each name stands for where the text is compiled; types are canonical. */
  type Scope = map<string, CType>

  predicate Denotes(scope: Scope, n: string, c: CType) {
    GoodName(n) && n in scope && scope[n] == c
  }

  /** The basic names stand for the basic types; which of the two plain characters `char` is depends
      on the platform. */
  predicate HasBasics(scope: Scope) {
    forall b :: b != CharS && b != CharU ==> Denotes(scope, BasicName(b), Plain(b))
  }

  /** All the names from which a type is made stand in the scope for what they stand for in it. */
  predicate Declares(scope: Scope, t: CType) {
    match t.shape
    case BasicType(b) => Denotes(scope, BasicName(b), Plain(b))
    case EnumType(n) => Denotes(scope, n, CType(false, t.shape))
    case RecordType(n) => Denotes(scope, n, CType(false, t.shape))
    case UnexposedType(n) => Denotes(scope, n, CType(false, t.shape))
    case PointerType(p) => Declares(scope, p)
    case LValueRef(p) => Declares(scope, p)
    case RValueRef(p) => Declares(scope, p)
    case IncompleteArray(e) => Declares(scope, e)
    case TypedefType(n, u) => Denotes(scope, n, Canonical(u)) && Declares(scope, u)
    case ElaboratedType(prefix, u) => Denotes(scope, prefix + Spell(u), Canonical(u)) && Declares(scope, u)
  }

  predicate IsNamed(t: CType) {
    !t.shape.PointerType? && !IsRef(t) && !t.shape.IncompleteArray?
  }

  lemma OneBasic(b: Basic, c: Basic)
    requires BasicName(b) == BasicName(c) && b != CharU && c != CharU
    ensures b == c
  {
    var n, m := BasicName(b), BasicName(c);
    if |n| > 2 {
      assert n[0] == m[0] && n[1] == m[1] && n[2] == m[2] && n[|n| - 1] == m[|m| - 1] && n[|n| - 2] == m[|m| - 2];
    }
  }

  ghost function BasicNamed(n: string): Basic
    requires exists b :: b != CharU && BasicName(b) == n
  {
    var b :| b != CharU && BasicName(b) == n;
    b
  }

  /** A scope with the basic names, on a platform where plain characters are signed. */
  lemma BasicScope() returns (scope: Scope)
    ensures HasBasics(scope) && Denotes(scope, "char", Plain(CharS))
  {
    hide BasicName, GoodName;
    var names := set b: Basic | b != CharU :: BasicName(b);
    scope := map n | n in names :: Plain(BasicNamed(n));
    forall b | b != CharU ensures Denotes(scope, BasicName(b), Plain(b)) {
      BasicNamesAreGood(b);
      assert BasicName(b) in names;
      OneBasic(BasicNamed(BasicName(b)), b);
    }
    assert BasicName(CharS) == "char" by { CharName(); }
  }

  lemma CharName()
    ensures BasicName(CharS) == "char"
  {
  }

  /** The name under which a type is spelled. */
  function BaseName(t: CType): string
    requires IsNamed(t)
  {
    match t.shape
    case BasicType(b) => BasicName(b)
    case EnumType(n) => n
    case RecordType(n) => n
    case UnexposedType(n) => n
    case TypedefType(n, _) => n
    case ElaboratedType(prefix, u) => prefix + Spell(u)
  }

  lemma SpellIsBase(t: CType)
    requires IsNamed(t)
    ensures Spell(t) == ConstPrefix(t.isConst) + BaseName(t)
  {
    if t.shape.ElaboratedType? {
      Regroup(ConstPrefix(t.isConst), t.shape.prefix, Spell(t.shape.named));
    }
  }

  // ----- Type-ids

  /** A name, perhaps const, followed by signs; a sign may follow a space. */
  datatype TypeId =
    | BaseId(isConst: bool, name: string)
    | PtrId(of: TypeId, spaced: bool, isConst: bool)
    | RefId(of: TypeId, spaced: bool, rvalue: bool)

  function IdText(id: TypeId): string {
    match id
    case BaseId(isConst, name) => ConstPrefix(isConst) + name
    case PtrId(of, spaced, isConst) => (IdText(of) + if spaced then " *" else "*") + if isConst then "const" else ""
    case RefId(of, spaced, rvalue) => IdText(of) + (if spaced then " " else "") + if rvalue then "&&" else "&"
  }

  /** The type that is meant: names mean what the scope says, and references to references collapse. */
  function Meaning(scope: Scope, id: TypeId): Option<CType> {
    match id
    case BaseId(isConst, name) =>
      if GoodName(name) && name in scope then Some(AddConst(scope[name], isConst)) else None
    case PtrId(of, _, isConst) =>
      (match Meaning(scope, of)
       case Some(m) => if IsRef(m) then None else Some(CType(isConst, PointerType(m)))
       case None => None)
    case RefId(of, _, rvalue) =>
      if of.RefId? then None
      else
        match Meaning(scope, of)
        case Some(m) =>
          Some(if !IsRef(m) then CType(false, if rvalue then RValueRef(m) else LValueRef(m))
               else if rvalue then m else CType(false, LValueRef(m.shape.to)))
        case None => None
  }

  /** In this scope the text is a type-id that names the canonical type c. */
  ghost predicate Names(scope: Scope, text: string, c: CType) {
    exists id :: IdText(id) == text && Meaning(scope, id) == Some(c)
  }

  /** The text of a cast names the type cast to. */
  ghost predicate NamesTarget(scope: Scope, target: CastTarget) {
    Names(scope, TargetText(target), TargetType(target))
  }

  // ----- Spellings that are type-ids

  /** Types that are spelled with names and signs alone. */
  predicate IsSpellable(t: CType) {
    match t.shape
    case PointerType(p) => IsSpellable(p) && !IsRef(Canonical(p))
    case LValueRef(p) => IsSpellable(p) && !IsRef(p) && !t.isConst
    case RValueRef(p) => IsSpellable(p) && !IsRef(p) && !t.isConst
    case IncompleteArray(_) => false
    case ElaboratedType(_, u) => !u.isConst && IsNamed(u)
    case _ => true
  }

  function EndsInSign(text: string): bool {
    text != "" && (text[|text| - 1] == '*' || text[|text| - 1] == '&')
  }

  function IdOf(t: CType): TypeId {
    match t.shape
    case PointerType(p) => PtrId(IdOf(p), !EndsInSign(Spell(p)), t.isConst)
    case LValueRef(p) => RefId(IdOf(p), !EndsInSign(Spell(p)), false)
    case RValueRef(p) => RefId(IdOf(p), !EndsInSign(Spell(p)), true)
    case _ => BaseId(t.isConst, if IsNamed(t) then BaseName(t) else "")
  }

  /** A name of words: no sign and no bracket at all. */
  predicate IsWords(n: string) {
    forall i :: 0 <= i < |n| ==> n[i] == ' ' || n[i] == '_' || n[i] == ':' || 'a' <= n[i] <= 'z' || '0' <= n[i] <= '9'
  }

  lemma NoConstStart(n: string)
    requires |n| >= 2 && (n[0] != 'c' || n[1] != 'o')
    ensures !StartsWithConst(n)
  {
    if |n| >= 6 { assert n[..6][0] == n[0] && n[..6][1] == n[1]; }
  }

  lemma ShortNamesAreWords(b: Basic)
    requires b in {VoidType, BoolType, CharS, CharU, ShortType, IntType, LongType, Char16, Char32, WChar, FloatType}
    ensures var n := BasicName(b);
            IsWords(n) && |n| >= 2 && Trimmed(n) && (n[0] != 'c' || n[1] != 'o')
  {
  }

  lemma LongNamesAreWords(b: Basic)
    requires b in {SChar, UChar, UShort, UInt, ULong, LongLong, ULongLong, DoubleType, LongDouble, NullPtr}
    ensures var n := BasicName(b); IsWords(n) && |n| >= 2 && Trimmed(n) && n[0] != 'c'
  {
  }

  lemma BasicNamesAreGood(b: Basic)
    ensures GoodName(BasicName(b))
  {
    hide BasicName, StartsWithConst, Angles, Outside;
    if b in {VoidType, BoolType, CharS, CharU, ShortType, IntType, LongType, Char16, Char32, WChar, FloatType} {
      ShortNamesAreWords(b);
    } else {
      LongNamesAreWords(b);
    }
    NoConstStart(BasicName(b));
    NoAngles(BasicName(b));
  }

  lemma NameIsDeclared(scope: Scope, t: CType)
    requires IsNamed(t) && Declares(scope, t)
    ensures Denotes(scope, BaseName(t), Canonical(CType(false, t.shape)))
    ensures Canonical(t) == AddConst(Canonical(CType(false, t.shape)), t.isConst)
  {
    hide GoodName, Spell;
  }

  lemma NamedSpellingNames(scope: Scope, t: CType)
    requires IsNamed(t) && Declares(scope, t)
    ensures IdText(IdOf(t)) == Spell(t) && Meaning(scope, IdOf(t)) == Some(Canonical(t))
  {
    hide GoodName, Spell, Canonical, Declares;
    NameIsDeclared(scope, t);
    SpellIsBase(t);
  }

  /** Every spellable type is spelled by a type-id that names it. */
  lemma {:induction false} SpellingNames(scope: Scope, t: CType)
    requires IsSpellable(t) && Declares(scope, t)
    ensures IdText(IdOf(t)) == Spell(t) && Meaning(scope, IdOf(t)) == Some(Canonical(t))
  {
    hide GoodName, BasicName, Signed, EndsInSign;
    match t.shape
    case PointerType(p) => SpellingNames(scope, p); SignedText(Spell(p), "*");
    case LValueRef(p) => SpellingNames(scope, p); SignedText(Spell(p), "&");
    case RValueRef(p) => SpellingNames(scope, p); SignedText(Spell(p), "&&");
    case _ =>
      hide *;
      NamedSpellingNames(scope, t);
  }

  lemma SignedText(text: string, sign: string)
    ensures Signed(text, sign) == text + (if EndsInSign(text) then "" else " ") + sign
    ensures sign == "*" ==> Signed(text, sign) == text + if EndsInSign(text) then "*" else " *"
  {
    assert text + "" + sign == text + sign;
    assert sign == "*" ==> text + " " + sign == text + " *";
  }

  /** A pointer to a spellable type, as a cast writes it. */
  lemma PointerIsNamed(scope: Scope, t: CType)
    requires IsSpellable(t) && Declares(scope, t) && !IsRef(Canonical(t))
    ensures NamesTarget(scope, PtrTo(t))
  {
    hide Spell, Canonical, Declares, IsSpellable, IdOf;
    SpellingNames(scope, t);
    var id := PtrId(IdOf(t), false, false);
    assert Spell(t) + "*" + "" == Spell(t) + "*";
    assert IdText(id) == Spell(t) + "*" && Meaning(scope, id) == Some(TargetType(PtrTo(t)));
  }

  lemma SpelledIsNamed(scope: Scope, t: CType)
    requires IsSpellable(t) && Declares(scope, t)
    ensures NamesTarget(scope, Spelled(t))
  {
    hide Spell, Canonical, Declares, IsSpellable, IdOf;
    SpellingNames(scope, t);
  }

  lemma ConstPointerIsNamed(scope: Scope, t: CType)
    requires IsNamed(t) && Declares(scope, t) && !t.isConst && !IsRef(Canonical(t))
    ensures NamesTarget(scope, ConstPtrTo(t))
  {
    hide Spell, Canonical, GoodName, Declares;
    NameIsDeclared(scope, t);
    SpellIsBase(t);
    assert "" + BaseName(t) == BaseName(t);
    var id := PtrId(BaseId(true, BaseName(t)), false, false);
    assert "const " + Spell(t) + "*" + "" == "const " + Spell(t) + "*";
    assert IdText(id) == "const " + Spell(t) + "*" && Meaning(scope, id) == Some(TargetType(ConstPtrTo(t)));
  }

  /** The types of CppUMock's values are written by their names. */
  lemma BaseIsNamed(scope: Scope, k: MockedType)
    requires IsReturnType(k) && Declares(scope, BaseType(k))
    ensures NamesTarget(scope, Base(k))
  {
    hide GoodName, BasicName, BaseTypeText, BaseType;
    var t := BaseType(k);
    BaseShape(k);
    if t.shape.PointerType? {
      var b := t.shape.to;
      assert Declares(scope, b) && b.shape == BasicType(b.shape.basic);
      BasicMeaning(scope, b.shape.basic, b.isConst);
      var id := PtrId(BaseId(b.isConst, BasicName(b.shape.basic)), false, false);
      BasePointerText(k);
      PointerMeaning(scope, id.of, b);
      assert IdText(id) == BaseTypeText(k) && Meaning(scope, id) == Some(t);
    } else {
      BasicMeaning(scope, t.shape.basic, false);
      BaseText(k);
      var id := BaseId(false, BasicName(t.shape.basic));
      assert IdText(id) == BaseTypeText(k) && Meaning(scope, id) == Some(t);
    }
  }

  lemma PointerMeaning(scope: Scope, of: TypeId, m: CType)
    requires Meaning(scope, of) == Some(m) && !IsRef(m)
    ensures Meaning(scope, PtrId(of, false, false)) == Some(CType(false, PointerType(m)))
  {
  }

  lemma BaseShape(k: MockedType)
    ensures var t := BaseType(k);
            if t.shape.PointerType?
            then t.shape.to.shape.BasicType? && t == PointerTo(t.shape.to.shape.basic, t.shape.to.isConst)
            else t.shape.BasicType? && t == Plain(t.shape.basic)
  {
  }

  lemma BasicMeaning(scope: Scope, b: Basic, isConst: bool)
    requires Denotes(scope, BasicName(b), Plain(b))
    ensures Meaning(scope, BaseId(isConst, BasicName(b))) == Some(CType(isConst, BasicType(b)))
  {
  }

  lemma BaseText(k: MockedType)
    requires IsReturnType(k) && !BaseType(k).shape.PointerType?
    ensures BaseTypeText(k) == "" + BasicName(BaseType(k).shape.basic)
  {
  }

  lemma BasePointerText(k: MockedType)
    requires IsReturnType(k) && BaseType(k).shape.PointerType?
    ensures var b := BaseType(k).shape.to;
            BaseTypeText(k) == ((ConstPrefix(b.isConst) + BasicName(b.shape.basic)) + "*") + ""
  {
  }

  // ----- Spellings that are not

  lemma NameHolds(scope: Scope, t: CType)
    requires IsNamed(t) && Declares(scope, t)
    ensures exists o :: Holds(ConstPrefix(t.isConst) + BaseName(t), o) && SignFree(o)
  {
    NameIsDeclared(scope, t);
    ConstHolds(t.isConst);
    var n := BaseName(t);
    HoldsConcat(ConstPrefix(t.isConst), ConstPrefix(t.isConst), n, Outside(n, 0));
    assert Holds(ConstPrefix(t.isConst) + n, ConstPrefix(t.isConst) + Outside(n, 0));
  }

  lemma ConstHolds(isConst: bool)
    ensures Holds(ConstPrefix(isConst), ConstPrefix(isConst)) && SignFree(ConstPrefix(isConst))
  {
    NoAngles(ConstPrefix(isConst));
  }

  /** What a declarator sign may look like. */
  lemma SignsHold(spaced: bool, isConst: bool, rvalue: bool)
    ensures var p, r := (if spaced then " *" else "*") + (if isConst then "const" else ""),
                        (if spaced then " " else "") + (if rvalue then "&&" else "&");
            && Holds(p, p) && '[' !in p && !SignFree(p) && Holds(r, r) && '[' !in r && !SignFree(r)
    ensures Holds(" []", " []")
  {
    var p := (if spaced then " *" else "*") + if isConst then "const" else "";
    var r := (if spaced then " " else "") + if rvalue then "&&" else "&";
    assert p[if spaced then 1 else 0] == '*' && r[if spaced then 1 else 0] == '&';
    NoAngles(p);
    NoAngles(r);
    NoAngles(" []");
  }

  /** Outside template arguments a type-id has no bracket, and no sign but those of pointers and
      references. */
  lemma {:induction false} TypeIdHolds(scope: Scope, id: TypeId) returns (o: string)
    requires Meaning(scope, id).Some?
    ensures Holds(IdText(id), o) && '[' !in o && (SignFree(o) <==> id.BaseId?)
  {
    hide Holds, GoodName;
    match id
    case BaseId(isConst, name) => o := BaseHolds(isConst, name);
    case PtrId(of, spaced, isConst) =>
      var x := TypeIdHolds(scope, of);
      var sign := (if spaced then " *" else "*") + if isConst then "const" else "";
      SignsHold(spaced, isConst, false);
      HoldsConcat(IdText(of), x, sign, sign);
      Regroup(IdText(of), if spaced then " *" else "*", if isConst then "const" else "");
      o := x + sign;
      SignIsThere(x, sign);
    case RefId(of, spaced, rvalue) =>
      var x := TypeIdHolds(scope, of);
      var sign := (if spaced then " " else "") + if rvalue then "&&" else "&";
      SignsHold(spaced, false, rvalue);
      HoldsConcat(IdText(of), x, sign, sign);
      Regroup(IdText(of), if spaced then " " else "", if rvalue then "&&" else "&");
      o := x + sign;
      SignIsThere(x, sign);
  }

  lemma SignIsThere(x: string, sign: string)
    requires !SignFree(sign)
    ensures !SignFree(x + sign)
  {
    var i :| 0 <= i < |sign| && IsSign(sign[i]);
    assert (x + sign)[|x| + i] == sign[i];
  }

  lemma BaseHolds(isConst: bool, n: string) returns (o: string)
    requires GoodName(n)
    ensures Holds(ConstPrefix(isConst) + n, o) && '[' !in o && SignFree(o)
  {
    ConstHolds(isConst);
    HoldsConcat(ConstPrefix(isConst), ConstPrefix(isConst), n, Outside(n, 0));
    o := ConstPrefix(isConst) + Outside(n, 0);
  }

  /** What is named ends neither in a space nor, unless it is a reference, in an ampersand. */
  lemma LastOfTypeId(scope: Scope, id: TypeId)
    requires Meaning(scope, id).Some?
    ensures var text := IdText(id);
            && text != "" && text[|text| - 1] != ' '
            && (text[|text| - 1] == '&' <==> id.RefId?)
            && (id.PtrId? ==> (text[|text| - 1] == '*' <==> !id.isConst))
  {
    hide GoodName;
    match id
    case BaseId(_, name) => LastOfName(name); assert IdText(id)[|IdText(id)| - 1] == name[|name| - 1];
    case PtrId(of, spaced, isConst) => LastSign(IdText(of), spaced, isConst);
    case RefId(_, _, _) => LastAmpersand(id);
  }

  lemma LastOfName(n: string)
    requires GoodName(n)
    ensures n != "" && n[|n| - 1] != ' ' && n[|n| - 1] != '&' && n[|n| - 1] != '*'
  {
    var front, last := n[..|n| - 1], [n[|n| - 1]];
    assert n == front + last;
    OutsideConcat(front, last, 0);
    LastOutside(last[0], Angles(front, 0));
    if IsSign(last[0]) { SignIsThere(Outside(front, 0), last); }
  }

  lemma LastOutside(c: char, d: nat)
    ensures Angles([c], d) == 0 && IsSign(c) ==> d == 0 && Outside([c], d) == [c]
  {
    var s := [c];
    assert s[1..] == "" && s + "" == s && Angles("", d) == d && Outside("", d) == "";
    if IsSign(c) {
      assert Angles(s, d) == Angles(s[1..], d);
      assert Outside(s, d) == (if d == 0 then [c] else []) + Outside(s[1..], d);
    }
  }

  /** In a scope a text names one type at most: there is one way to read it. */
  lemma {:induction false} OneReading(scope: Scope, x: TypeId, y: TypeId)
    requires Meaning(scope, x).Some? && Meaning(scope, y).Some? && IdText(x) == IdText(y)
    ensures x == y
  {
    hide GoodName, IdText;
    SameForm(scope, x, y);
    if x.BaseId? {
      OneName(x, y);
    } else {
      InnerMeaning(scope, x);
      InnerMeaning(scope, y);
      LastOfTypeId(scope, x.of);
      LastOfTypeId(scope, y.of);
      if x.PtrId? { OnePointer(x, y); } else { OneReference(x, y); }
      SameStem(IdText(x.of), x.spaced, IdText(y.of), y.spaced);
      OneReading(scope, x.of, y.of);
    }
  }

  lemma InnerMeaning(scope: Scope, x: TypeId)
    requires Meaning(scope, x).Some? && !x.BaseId?
    ensures Meaning(scope, x.of).Some? && (x.RefId? ==> !x.of.RefId?)
  {
  }

  lemma SameForm(scope: Scope, x: TypeId, y: TypeId)
    requires Meaning(scope, x).Some? && Meaning(scope, y).Some? && IdText(x) == IdText(y)
    ensures x.BaseId? == y.BaseId? && x.PtrId? == y.PtrId? && (x.PtrId? ==> x.isConst == y.isConst)
    ensures x.BaseId? ==> GoodName(x.name) && GoodName(y.name)
  {
    hide GoodName, Holds, IdText;
    var o := TypeIdHolds(scope, x);
    var q := TypeIdHolds(scope, y);
    SameOutside(IdText(x), o, q);
    LastOfTypeId(scope, x);
    LastOfTypeId(scope, y);
  }

  lemma OneName(x: TypeId, y: TypeId)
    requires x.BaseId? && y.BaseId? && GoodName(x.name) && GoodName(y.name) && IdText(x) == IdText(y)
    ensures x == y
  {
    hide GoodName, StartsWithConst;
    NotConst(x.name);
    NotConst(y.name);
    ConstStarts(x.name);
    ConstStarts(y.name);
  }

  lemma NotConst(n: string)
    requires GoodName(n)
    ensures !StartsWithConst(n)
  {
  }

  lemma ConstStarts(n: string)
    ensures StartsWithConst("const " + n) && ("const " + n)[6..] == n && "" + n == n
  {
  }

  lemma OnePointer(x: TypeId, y: TypeId)
    requires x.PtrId? && y.PtrId? && IdText(x) == IdText(y) && x.isConst == y.isConst
    ensures IdText(x.of) + (if x.spaced then " " else "") == IdText(y.of) + (if y.spaced then " " else "")
  {
    BeforePointer(x);
    BeforePointer(y);
  }

  lemma BeforePointer(x: TypeId)
    requires x.PtrId?
    ensures var n := if x.isConst then 6 else 1;
            n <= |IdText(x)| && IdText(x)[..|IdText(x)| - n] == IdText(x.of) + if x.spaced then " " else ""
  {
  }

  lemma OneReference(x: TypeId, y: TypeId)
    requires x.RefId? && y.RefId? && IdText(x) == IdText(y)
    requires IdText(x.of) != "" && IdText(y.of) != "" && !EndsInAmpersand(x.of) && !EndsInAmpersand(y.of)
    ensures x.rvalue == y.rvalue
    ensures IdText(x.of) + (if x.spaced then " " else "") == IdText(y.of) + (if y.spaced then " " else "")
  {
    BeforeReference(x);
    BeforeReference(y);
  }

  predicate EndsInAmpersand(id: TypeId) {
    IdText(id) != "" && IdText(id)[|IdText(id)| - 1] == '&'
  }

  lemma BeforeReference(x: TypeId)
    requires x.RefId? && IdText(x.of) != "" && !EndsInAmpersand(x.of)
    ensures var text, n := IdText(x), if x.rvalue then 2 else 1;
            && 2 <= |text| && (x.rvalue <==> text[|text| - 2] == '&')
            && text[..|text| - n] == IdText(x.of) + if x.spaced then " " else ""
  {
  }

  lemma SameStem(a: string, x: bool, b: string, y: bool)
    requires a != "" && b != "" && a[|a| - 1] != ' ' && b[|b| - 1] != ' '
    requires a + (if x then " " else "") == b + (if y then " " else "")
    ensures a == b && x == y
  {
    var s, t := a + (if x then " " else ""), b + (if y then " " else "");
    assert s[|s| - 1] == if x then ' ' else a[|a| - 1];
    assert t[|t| - 1] == if y then ' ' else b[|b| - 1];
    assert s[..|a|] == a && t[..|b|] == b;
  }

  lemma NamesOneType(scope: Scope, text: string, c: CType, d: CType)
    requires Names(scope, text, c) && Names(scope, text, d)
    ensures c == d
  {
    hide IdText;
    var x :| IdText(x) == text && Meaning(scope, x) == Some(c);
    var y :| IdText(y) == text && Meaning(scope, y) == Some(d);
    OneReading(scope, x, y);
  }

  lemma BracketIsNoTypeId(scope: Scope, text: string, o: string, c: CType)
    requires Holds(text, o) && '[' in o
    ensures !Names(scope, text, c)
  {
    if id :| IdText(id) == text && Meaning(scope, id) == Some(c) {
      var x := TypeIdHolds(scope, id);
      assert false;
    }
  }

  /** An array, or a pointer to one, however many times over. */
  predicate HasArray(c: CType) {
    c.shape.IncompleteArray? || (c.shape.PointerType? && HasArray(c.shape.to))
  }

  lemma {:induction false} ArrayHolds(scope: Scope, c: CType) returns (o: string)
    requires Declares(scope, c) && HasArray(c)
    ensures Holds(Spell(c), o) && '[' in o
  {
    if c.shape.PointerType? {
      var x := ArrayHolds(scope, c.shape.to);
      SignedText(Spell(c.shape.to), "*");
      var spaced := !EndsInSign(Spell(c.shape.to));
      var sign := (if spaced then " *" else "*") + if c.isConst then "const" else "";
      SignsHold(spaced, c.isConst, false);
      HoldsConcat(Spell(c.shape.to), x, sign, sign);
      Regroup(Spell(c.shape.to), if spaced then " *" else "*", if c.isConst then "const" else "");
      o := x + sign;
    } else {
      var x := SpellingHolds(scope, c.shape.of);
      SignsHold(false, false, false);
      HoldsConcat(Spell(c.shape.of), x, " []", " []");
      o := x + " []";
      assert o[|x| + 1] == '[';
    }
  }

  lemma {:induction false} SpellingHolds(scope: Scope, c: CType) returns (o: string)
    requires Declares(scope, c)
    ensures Holds(Spell(c), o)
    decreases c, 0
  {
    hide GoodName, Holds;
    match c.shape
    case PointerType(p) =>
      var x := SpellingHolds(scope, p);
      SignedText(Spell(p), "*");
      var spaced := !EndsInSign(Spell(p));
      var sign := (if spaced then " *" else "*") + if c.isConst then "const" else "";
      SignsHold(spaced, c.isConst, false);
      HoldsConcat(Spell(p), x, sign, sign);
      Regroup(Spell(p), if spaced then " *" else "*", if c.isConst then "const" else "");
      o := x + sign;
    case LValueRef(p) => o := ReferenceHolds(scope, p, false);
    case RValueRef(p) => o := ReferenceHolds(scope, p, true);
    case IncompleteArray(e) =>
      var x := SpellingHolds(scope, e);
      SignsHold(false, false, false);
      HoldsConcat(Spell(e), x, " []", " []");
      o := x + " []";
    case _ =>
      NameHolds(scope, c);
      SpellIsBase(c);
      o :| Holds(ConstPrefix(c.isConst) + BaseName(c), o);
  }

  lemma {:induction false} ReferenceHolds(scope: Scope, p: CType, rvalue: bool) returns (o: string)
    requires Declares(scope, p)
    ensures Holds(Signed(Spell(p), if rvalue then "&&" else "&"), o)
    decreases p, 1
  {
    hide GoodName, Holds;
    var x := SpellingHolds(scope, p);
    var spaced := !EndsInSign(Spell(p));
    var sign := (if spaced then " " else "") + if rvalue then "&&" else "&";
    SignedText(Spell(p), if rvalue then "&&" else "&");
    SignsHold(spaced, false, rvalue);
    HoldsConcat(Spell(p), x, sign, sign);
    Regroup(Spell(p), if spaced then " " else "", if rvalue then "&&" else "&");
    o := x + sign;
  }

  /** A pointer to an array, as a cast writes it, is no type-id. */
  lemma ArrayPointerIsNotNamed(scope: Scope, c: CType)
    requires Declares(scope, c) && HasArray(c)
    ensures !NamesTarget(scope, PtrTo(c))
  {
    hide Holds, Spell;
    var x := ArrayHolds(scope, c);
    SignsHold(false, false, false);
    assert "*" + "" == "*";
    HoldsConcat(Spell(c), x, "*", "*");
    BracketIsNoTypeId(scope, Spell(c) + "*", x + "*", TargetType(PtrTo(c)));
  }

  lemma LastSign(of: string, spaced: bool, isConst: bool)
    ensures var text := (of + if spaced then " *" else "*") + if isConst then "const" else "";
            text[|text| - 1] == '*' <==> !isConst
    ensures !isConst ==> var text := (of + if spaced then " *" else "*") + "";
                         text[..|text| - 1] == of + if spaced then " " else ""
  {
  }

  lemma TwiceConst(n: string, of: string, spaced: bool)
    requires n != "" && of + (if spaced then " " else "") == "const " + ("const " + n)
    ensures |of| >= 12 && of[..6] == "const " && StartsWithConst(of[6..])
  {
    var text := "const " + ("const " + n);
    assert text[..6] == "const " && text[6..][..6] == "const " && |text| >= 13;
    assert of == text[..|of|] && |of| >= 12;
    assert of[..6] == text[..6] && of[6..][..6] == text[6..][..6];
  }

  /** Const does not combine with itself. */
  lemma DoubledConstIsNotNamed(scope: Scope, n: string, c: CType)
    requires GoodName(n)
    ensures !Names(scope, "const " + ("const " + n) + "*", c)
  {
    var text := "const " + ("const " + n) + "*";
    if id :| IdText(id) == text && Meaning(scope, id) == Some(c) {
      NotConstTwice(scope, id, n);
    }
  }

  lemma StemHolds(n: string) returns (o: string)
    requires GoodName(n)
    ensures Holds("const " + ("const " + n), o) && SignFree(o)
  {
    ConstHolds(true);
    HoldsConcat("const ", "const ", n, Outside(n, 0));
    HoldsConcat("const ", "const ", "const " + n, "const " + Outside(n, 0));
    o := "const " + ("const " + Outside(n, 0));
  }

  lemma NotConstTwice(scope: Scope, id: TypeId, n: string)
    requires Meaning(scope, id).Some? && GoodName(n)
    ensures IdText(id) != "const " + ("const " + n) + "*"
  {
    hide Holds, GoodName;
    var stem := "const " + ("const " + n);
    if IdText(id) == stem + "*" {
      var x := TypeIdHolds(scope, id);
      var o := StemHolds(n);
      SignsHold(false, false, false);
      assert "*" + "" == "*";
      HoldsConcat(stem, o, "*", "*");
      SignIsThere(o, "*");
      SameOutside(stem + "*", x, o + "*");
      assert (stem + "*")[|stem|] == '*' && (stem + "*")[..|stem|] == stem;
      if id.RefId? {
        LastAmpersand(id);
      } else {
        LastSign(IdText(id.of), id.spaced, id.isConst);
        InnerNotConstTwice(scope, id.of, id.spaced, n);
      }
    }
  }

  lemma SameOutside(text: string, x: string, y: string)
    requires Holds(text, x) && Holds(text, y)
    ensures x == y
  {
  }

  lemma LastAmpersand(id: TypeId)
    requires id.RefId?
    ensures IdText(id) != "" && IdText(id)[|IdText(id)| - 1] == '&'
  {
  }

  lemma InnerNotConstTwice(scope: Scope, of: TypeId, spaced: bool, n: string)
    requires Meaning(scope, of).Some? && GoodName(n)
    ensures IdText(of) + (if spaced then " " else "") != "const " + ("const " + n)
  {
    var stem, space := "const " + ("const " + n), if spaced then " " else "";
    if IdText(of) + space == stem {
      hide Holds;
      var x := TypeIdHolds(scope, of);
      var o := StemHolds(n);
      SpaceHolds(spaced);
      HoldsConcat(IdText(of), x, space, space);
      SameOutside(stem, x + space, o);
      SignStays(x, space);
      TwiceConst(n, IdText(of), spaced);
    }
  }

  lemma SpaceHolds(spaced: bool)
    ensures var space := if spaced then " " else ""; Holds(space, space)
  {
    NoAngles(" ");
  }

  lemma SignStays(x: string, y: string)
    ensures SignFree(x + y) ==> SignFree(x)
  {
    if SignFree(x + y) {
      forall i | 0 <= i < |x| ensures !IsSign(x[i]) { assert (x + y)[i] == x[i]; }
    }
  }

  // ----- The casts of a mock

  /** Every cast of the expression names the type it is meant to cast to. */
  ghost predicate CastsName(scope: Scope, e: Expr) {
    match e
    case Hole(_, _) => true
    case StaticCast(target, x) => NamesTarget(scope, target) && CastsName(scope, x)
    case Deref(x) => CastsName(scope, x)
    case AddressOf(x) => CastsName(scope, x)
    case Move(x) => CastsName(scope, x)
  }

  lemma WrappedNames(scope: Scope, target: CastTarget, e: Expr)
    ensures CastsName(scope, Deref(e)) == CastsName(scope, e) && CastsName(scope, Move(Deref(e))) == CastsName(scope, e)
    ensures CastsName(scope, StaticCast(target, e)) == (NamesTarget(scope, target) && CastsName(scope, e))
    ensures CastsName(scope, Deref(StaticCast(target, e))) == CastsName(scope, Move(Deref(StaticCast(target, e)))) ==
            (NamesTarget(scope, target) && CastsName(scope, e))
  {
    hide NamesTarget;
    assert CastsName(scope, Deref(e)) == CastsName(scope, e);
    assert CastsName(scope, Deref(StaticCast(target, e))) == CastsName(scope, StaticCast(target, e));
  }

  lemma HoleNames(scope: Scope, kind: MockedType)
    ensures CastsName(scope, NewSpec(kind).mock)
  {
  }

  lemma PointeeCastsName(scope: Scope, t: CType)
    requires t.shape.PointerType? || IsRef(t)
    ensures IsVoid(Pointee(t)) || NamesTarget(scope, PtrTo(Pointee(t))) ==> CastsName(scope, PointerSpec(t, true).mock)
    ensures IsRef(t) && !IsVoid(Pointee(t)) && CastsName(scope, PointerSpec(t, true).mock) ==>
              NamesTarget(scope, PtrTo(Pointee(t)))
  {
    hide Spell, NamesTarget;
    var s := PointeeSpec(t, true);
    HoleNames(scope, String);
    HoleNames(scope, s.kind);
    WrappedNames(scope, PtrTo(Pointee(t)), NewSpec(s.kind).mock);
    WrappedNames(scope, PtrTo(Pointee(t)), s.mock);
  }

  /** The type is a reference by another name, and what it refers to is or points to an array. */
  predicate NamesArrayRef(t: CType) {
    match t.shape
    case ElaboratedType(_, u) => NamesArrayRef(u)
    case TypedefType(_, _) => IsRef(Canonical(t)) && HasArray(Canonical(t).shape.to)
    case _ => false
  }

  /** A class declared const under its own name or a typedef's. */
  predicate IsConstClass(t: CType) {
    t.isConst && IsClass(Canonical(t)) && !t.shape.ElaboratedType?
  }

  /** What remains of a type without sugar is spelled with names and signs, but for arrays. */
  lemma {:induction false} CanonicalIsSpellable(scope: Scope, t: CType)
    requires WellFormed(t) && Declares(scope, t)
    ensures Declares(scope, Canonical(t))
    ensures var c := if IsRef(Canonical(t)) then Canonical(t).shape.to else Canonical(t);
            IsSpellable(c) || HasArray(c)
  {
    hide GoodName;
    match t.shape
    case TypedefType(_, u) => CanonicalIsSpellable(scope, u); ConstIsSpellable(scope, Canonical(u));
    case ElaboratedType(_, u) => CanonicalIsSpellable(scope, u); ConstIsSpellable(scope, Canonical(u));
    case PointerType(p) => CanonicalIsSpellable(scope, p); CanonicalIsIdempotent(p);
    case LValueRef(p) => CanonicalIsSpellable(scope, p); CanonicalIsIdempotent(p);
    case RValueRef(p) => CanonicalIsSpellable(scope, p); CanonicalIsIdempotent(p);
    case IncompleteArray(e) => CanonicalIsSpellable(scope, e);
    case _ =>
  }

  lemma ConstIsSpellable(scope: Scope, c: CType)
    ensures Declares(scope, AddConst(c, true)) == Declares(scope, c) && HasArray(AddConst(c, true)) == HasArray(c)
    ensures IsSpellable(AddConst(c, true)) == IsSpellable(c)
  {
  }

  /** A type as written is spelled with names and signs once references to references are peeled. */
  lemma {:induction false} RefereeIsSpellable(scope: Scope, t: CType)
    requires WellFormed(t) && Declares(scope, t)
    ensures Declares(scope, Referee(t)) && (Referee(t).shape.IncompleteArray? || IsSpellable(Referee(t)))
    ensures !IsRef(t) && !t.shape.IncompleteArray? ==> IsSpellable(t)
  {
    hide GoodName;
    match t.shape
    case LValueRef(p) => RefereeIsSpellable(scope, p);
    case RValueRef(p) => RefereeIsSpellable(scope, p);
    case TypedefType(_, u) => RefereeIsSpellable(scope, u);
    case ElaboratedType(_, u) => RefereeIsSpellable(scope, u);
    case PointerType(p) => RefereeIsSpellable(scope, p); CanonicalIsIdempotent(p);
    case _ =>
  }

  lemma PointerCastsName(scope: Scope, t: CType)
    requires (t.shape.PointerType? || IsRef(t)) && WellFormed(t) && Declares(scope, t)
    ensures CastsName(scope, PointerSpec(t, true).mock)
  {
    hide Spell, Declares, IsSpellable, GoodName, NamesTarget;
    NamesBelow(scope, t);
    RefereeIsSpellable(scope, t.shape.to);
    WellFormedPointee(t);
    PointerIsNamed(scope, Pointee(t));
    PointeeCastsName(scope, t);
  }

  lemma NamesBelow(scope: Scope, t: CType)
    requires (t.shape.PointerType? || IsRef(t)) && WellFormed(t) && Declares(scope, t)
    ensures Declares(scope, t.shape.to) && WellFormed(t.shape.to) && !Pointee(t).shape.IncompleteArray?
    ensures t.shape.PointerType? ==> !IsRef(t.shape.to)
  {
    if t.shape.PointerType? && IsRef(t.shape.to) { CanonicalOfRef(t.shape.to); }
  }

  lemma CanonicalOfRef(t: CType)
    requires IsRef(t)
    ensures IsRef(Canonical(t))
  {
  }

  lemma ClassCastNames(scope: Scope, t: CType)
    requires IsNamed(t) && IsClass(Canonical(t)) && Declares(scope, t)
    ensures NamesTarget(scope, ConstPtrTo(t)) <==> !t.isConst
  {
    hide Spell, Declares, GoodName, Names, NamesTarget;
    if t.isConst {
      NameIsDeclared(scope, t);
      SpellIsBase(t);
      DoubledConstIsNotNamed(scope, BaseName(t), TargetType(ConstPtrTo(t)));
      ConstPointerText(scope, t);
    } else {
      ConstPointerIsNamed(scope, t);
    }
  }

  lemma ConstPointerText(scope: Scope, t: CType)
    ensures NamesTarget(scope, ConstPtrTo(t)) == Names(scope, "const " + Spell(t) + "*", TargetType(ConstPtrTo(t)))
  {
  }

  lemma ClassCastsName(scope: Scope, t: CType)
    requires IsClass(t) && Declares(scope, t)
    ensures CastsName(scope, ClassSpec(t, true).mock) <==> !t.isConst
  {
    hide Spell, NamesTarget, Declares;
    ClassCastNames(scope, t);
    HoleNames(scope, ConstPointer);
    WrappedNames(scope, ConstPtrTo(t), NewSpec(ConstPointer).mock);
  }

  lemma TypedefCastsName(scope: Scope, t: CType)
    requires t.shape.TypedefType? && WellFormed(t) && Declares(scope, t) && TypedefSpec(t).Some?
    ensures CastsName(scope, TypedefSpec(t).value.mock) <==> !IsConstClass(t) && !NamesArrayRef(t)
  {
    hide Spell, Declares, IsSpellable, GoodName, NamesTarget, Canonical;
    CanonicalLowersRank(t);
    CanonicalIsIdempotent(t);
    CanonicalIsSpellable(scope, t);
    var c := Canonical(t);
    TypedefIsSpellable(t);
    if IsClass(c) {
      ClassCastNames(scope, t);
      HoleNames(scope, ConstPointer);
      WrappedNames(scope, ConstPtrTo(t), NewSpec(ConstPointer).mock);
    } else {
      SpelledIsNamed(scope, t);
      if IsRef(c) {
        RefereeOfCanonical(c);
        NamesOfReferee(scope, c);
        PointeeCastsName(scope, c);
        WrappedNames(scope, Spelled(t), PointerSpec(c, true).mock);
        if HasArray(c.shape.to) {
          ArrayPointerIsNotNamed(scope, c.shape.to);
        } else {
          PointerIsNamed(scope, c.shape.to);
        }
        RefNeverToVoid(t);
      }
    }
  }

  lemma TypedefIsSpellable(t: CType)
    requires t.shape.TypedefType?
    ensures IsSpellable(t)
  {
  }

  lemma NamesOfReferee(scope: Scope, c: CType)
    requires IsRef(c) && Declares(scope, c)
    ensures Declares(scope, c.shape.to)
  {
  }

  /** For every supported return type, each cast in the mock's expression names the type it is meant
      to cast to, exactly if const is not repeated and no reference to an array, or to a pointer
      to one, is hidden by a name. */
  lemma {:induction false} ReturnCastsNameExactly(scope: Scope, t: CType)
    requires WellFormed(t) && Declares(scope, t) && ReturnSpec(t, true).Some?
    ensures CastsName(scope, ReturnSpec(t, true).value.mock) <==> !IsConstClass(t) && !NamesArrayRef(t)
  {
    hide Spell, GoodName, NamesTarget, Canonical, TypedefSpec, PointerSpec, IsSpellable;
    match t.shape
    case ElaboratedType(_, u) => ReturnCastsNameExactly(scope, u);
    case PointerType(_) => PointerCastsName(scope, t); ClassHead(t);
    case LValueRef(_) => PointerCastsName(scope, t); ClassHead(t);
    case RValueRef(_) => PointerCastsName(scope, t); ClassHead(t);
    case TypedefType(_, _) => TypedefCastsName(scope, t);
    case RecordType(_) => ClassHead(t); ClassCastsName(scope, t);
    case UnexposedType(_) => ClassHead(t); ClassCastsName(scope, t);
    case IncompleteArray(_) =>
    case _ => ClassHead(t); RefereeIsSpellable(scope, t); SpelledIsNamed(scope, t);
  }

  /** For instance `R`, where R names a reference to A and A names int[]: its cast is to `int []*`. */
  lemma HiddenArrayExample()
    ensures var ints := CType(false, IncompleteArray(Plain(IntType)));
            var a := CType(false, TypedefType("A", ints));
            var t := CType(false, TypedefType("R", CType(false, LValueRef(a))));
            var scope := map["int" := Plain(IntType), "A" := ints, "R" := CType(false, LValueRef(ints))];
            && WellFormed(t) && ReturnSpec(t, true).Some? && TypeOf(ReturnSpec(t, true).value.mock).Some?
            && Declares(scope, t) && !CastsName(scope, ReturnSpec(t, true).value.mock)
            && TargetText(PtrTo(Canonical(t).shape.to)) == "int []*"
  {
    hide Spell, NamesTarget, GoodName;
    var ints := CType(false, IncompleteArray(Plain(IntType)));
    var a := CType(false, TypedefType("A", ints));
    var t := CType(false, TypedefType("R", CType(false, LValueRef(a))));
    var scope := map["int" := Plain(IntType), "A" := ints, "R" := CType(false, LValueRef(ints))];
    var r := CType(false, LValueRef(a));
    assert Canonical(ints) == ints && Canonical(r) == CType(false, LValueRef(ints));
    ReturnIsWellTyped(t);
    WordIsGood("A");
    WordIsGood("R");
    WordIsGood("int");
    ThreeNames(Plain(IntType), ints, CType(false, LValueRef(ints)));
    assert Declares(scope, ints) by { assert BasicName(IntType) == "int"; }
    assert Denotes(scope, "A", Canonical(ints)) && Declares(scope, a) && Declares(scope, r);
    assert Declares(scope, t) by { assert Denotes(scope, "R", Canonical(r)); }
    ReturnCastsNameExactly(scope, t);
    IntArraySpelling();
  }

  lemma ThreeNames(x: CType, y: CType, z: CType)
    ensures var scope := map["int" := x, "A" := y, "R" := z];
            scope["int"] == x && scope["A"] == y && scope["R"] == z
  {
    assert |"int"| == 3 && "A"[0] != "R"[0];
  }

  lemma WordIsGood(n: string)
    requires n in {"A", "R", "int"}
    ensures GoodName(n)
  {
    NoAngles(n);
  }

  lemma IntArraySpelling()
    ensures Spell(CType(false, IncompleteArray(Plain(IntType)))) + "*" == "int []*"
  {
    assert Spell(Plain(IntType)) == "" + "int";
  }

  /** For every supported return type the mock's return statement compiles: its casts name types and
      the expression converts to the declared type, exactly under these conditions. */
  lemma ReturnCompilesExactly(scope: Scope, t: CType)
    requires WellFormed(t) && Declares(scope, t) && ReturnSpec(t, true).Some?
    ensures var e := ReturnSpec(t, true).value.mock;
            CastsName(scope, e) && TypeOf(e).Some? && Converts(TypeOf(e).value, Canonical(t)) <==>
            !IsConstClass(t) && !NamesArrayRef(t)
  {
    hide ReturnSpec, CastsName, TypeOf, Converts, Canonical;
    ReturnCastsNameExactly(scope, t);
    ReturnIsWellTyped(t);
  }

  // ----- The expectation's declarations and casts

  /** Signs of references are not written one after another. */
  predicate IsWritten(t: CType) {
    IsRef(t) ==> !IsRef(t.shape.to)
  }

  lemma WrittenIsSpellable(scope: Scope, t: CType)
    requires WellFormed(t) && Declares(scope, t) && IsWritten(t) && !t.shape.IncompleteArray?
    ensures IsSpellable(t)
  {
    hide GoodName;
    if IsRef(t) {
      RefereeIsSpellable(scope, t.shape.to);
      RefereeIsSelf(t.shape.to);
    } else {
      RefereeIsSpellable(scope, t);
    }
  }

  lemma RefereeIsSelf(p: CType)
    ensures Referee(p).shape.IncompleteArray? && !IsRef(p) && !IsSugar(p) ==> Referee(p) == p
    ensures p.shape.IncompleteArray? ==> Referee(p) == p
  {
  }

  /** A reference to what a text names. */
  lemma ReferenceIsNamed(scope: Scope, t: CType, spaced: bool)
    requires IsSpellable(t) && Declares(scope, t) && !IsRef(t)
    ensures Names(scope, Spell(t) + (if spaced then " &" else "&"), Canonical(CType(false, LValueRef(t))))
  {
    hide Spell, GoodName, Declares, IsSpellable, IdOf;
    SpellingNames(scope, t);
    IdOfName(t);
    var id := RefId(IdOf(t), spaced, false);
    Regroup(Spell(t), if spaced then " " else "", "&");
    assert spaced ==> " " + "&" == " &";
    assert !spaced ==> "" + "&" == "&";
    assert IdText(id) == Spell(t) + (if spaced then " &" else "&");
    assert Meaning(scope, id) == Some(Canonical(CType(false, LValueRef(t))));
  }

  lemma IdOfName(t: CType)
    requires !IsRef(t)
    ensures !IdOf(t).RefId?
  {
  }

  /** The declaration of `__return__` in the expectation names the type of the parameter. */
  lemma ReturnDeclarationNames(scope: Scope, r: ReturnStandard, t: CType)
    requires WellFormed(t) && Declares(scope, t) && IsWritten(t)
    requires ReturnSpec(t, true).Some? && r.Holds(ReturnSpec(t, true).value) && r.originalType == Spell(t)
    ensures r.isRValueRef ==> r.originalType != ""
    ensures exists text :: Names(scope, text, Canonical(ParamType(ReturnSpec(t, true).value, t))) &&
                           (r.ParamDeclaration() == text || r.ParamDeclaration() == text + " ")
  {
    hide ReturnSpec, Spell, Canonical, GoodName, Declares, Names;
    var s := ReturnSpec(t, true).value;
    SignatureTypeText(r, t);
    OnlyRValueRefIsMarked(t);
    ReturnProfile(t);
    ArraysAreNotReturned(t);
    WrittenIsSpellable(scope, t);
    if IsClass(Canonical(t)) {
      RefsAreNoClasses(t);
      ReferenceIsNamed(scope, t, true);
      assert ParamType(s, t) == CType(false, LValueRef(t));
      assert Names(scope, Spell(t) + " &", Canonical(ParamType(s, t)));
    } else if t.shape.RValueRef? {
      LessOneSign(scope, t);
      SpellingNamesIt(scope, CType(false, LValueRef(t.shape.to)));
    } else {
      SpellingNamesIt(scope, t);
    }
  }

  lemma LessOneSign(scope: Scope, t: CType)
    requires t.shape.RValueRef? && IsSpellable(t) && Declares(scope, t)
    ensures IsSpellable(CType(false, LValueRef(t.shape.to))) && Declares(scope, CType(false, LValueRef(t.shape.to)))
  {
  }

  lemma SpellingNamesIt(scope: Scope, t: CType)
    requires IsSpellable(t) && Declares(scope, t)
    ensures Names(scope, Spell(t), Canonical(t))
  {
    hide Spell, Canonical, Declares, IsSpellable, IdOf;
    SpellingNames(scope, t);
  }

  lemma ArraysAreNotReturned(t: CType)
    requires ReturnSpec(t, true).Some?
    ensures !t.shape.IncompleteArray?
  {
  }

  lemma RefsAreNoClasses(t: CType)
    requires IsClass(Canonical(t))
    ensures !IsRef(t)
  {
  }

  /** The expectation casts to the types of CppUMock's values alone. */
  lemma ExpectationCastsName(scope: Scope, t: CType)
    requires WellFormed(t) && ReturnSpec(t, true).Some? && HasBasics(scope) && Declares(scope, t)
    ensures CastsName(scope, ExpectExpr(ReturnSpec(t, true).value, t))
  {
    hide ReturnSpec, Canonical, NamesTarget, Spell, BasicName;
    var s := ReturnSpec(t, true).value;
    ReturnProfile(t);
    KindIsBase(s, t);
    CanonicalIsSpellable(scope, t);
    BaseIsDeclared(scope, s, t);
    BaseIsNamed(scope, s.kind);
    var x := Hole(ParamType(s, t), true);
    var y := if s.addressed then AddressOf(x) else x;
    assert CastsName(scope, y);
    WrappedNames(scope, Base(s.kind), y);
  }

  lemma BaseIsDeclared(scope: Scope, s: RetSpec, t: CType)
    requires Profile(s, Canonical(t)) && HasBasics(scope) && Declares(scope, Canonical(t))
    ensures Declares(scope, BaseType(s.kind))
  {
    hide Canonical, BasicName, GoodName;
    if s.kind != String {
      var c := BaseType(s.kind);
      var b := if c.shape.PointerType? then c.shape.to.shape.basic else c.shape.basic;
      assert Denotes(scope, BasicName(b), Plain(b));
    }
  }

  lemma KindIsBase(s: RetSpec, t: CType)
    requires Profile(s, Canonical(t))
    ensures IsReturnType(s.kind)
  {
    hide Canonical;
  }
}
