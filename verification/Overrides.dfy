/** Type override options: their grammar and the map built from them (app/sources/Config.cpp). */
module Overrides {
  import opened StringHelper

  datatype MockedType =
    | Bool | Int | UnsignedInt | Long | UnsignedLong | Double | String | Pointer | ConstPointer
    | MemoryBuffer | Output | InputPOD | OutputPOD | InputOfType | OutputOfType | Skip

  datatype OptionError =
    | EmptySpecification | EmptyType | EmptyExpression | NoPlaceholder | InvalidReturnType | EmptySizeExpression
    | EmptyExpectationType | EmptyTypeName | InvalidParameterType
    | EmptyKey | InvalidKey | RepeatedKey | NoSeparator

  /** `hasSizeExprPlaceholder` is None where the program leaves the field unset. */
  datatype OverrideSpec = OverrideSpec(
    ty: MockedType,
    exposedTypeName: string,
    expectationArgTypeName: string,
    exprModFront: string,
    exprModBack: string,
    hasSizeExprPlaceholder: Option<bool>,
    sizeExprFront: string,
    sizeExprBack: string)

  // ----- The type tables

  /** The types a return override may have: the first nine of the table. */
  predicate IsReturnType(t: MockedType) {
    t.Bool? || t.Int? || t.UnsignedInt? || t.Long? || t.UnsignedLong? || t.Double? || t.String? || t.Pointer? ||
      t.ConstPointer?
  }

  predicate IsNamedType(t: MockedType) {
    !t.InputOfType? && !t.OutputOfType? && !t.MemoryBuffer?
  }

  function TypeNamed(name: string): Option<MockedType> {
    if name == "Bool" then Some(Bool)
    else if name == "Int" then Some(Int)
    else if name == "UnsignedInt" then Some(UnsignedInt)
    else if name == "LongInt" then Some(Long)
    else if name == "UnsignedLongInt" then Some(UnsignedLong)
    else if name == "Double" then Some(Double)
    else if name == "String" then Some(String)
    else if name == "Pointer" then Some(Pointer)
    else if name == "ConstPointer" then Some(ConstPointer)
    else if name == "Output" then Some(Output)
    else if name == "InputPOD" then Some(InputPOD)
    else if name == "OutputPOD" then Some(OutputPOD)
    else if name == "Skip" then Some(Skip)
    else None
  }

  /** The table read the other way: the name of a type, or the prefix of an extended one. */
  function NameOf(t: MockedType): string {
    match t
    case Bool => "Bool"
    case Int => "Int"
    case UnsignedInt => "UnsignedInt"
    case Long => "LongInt"
    case UnsignedLong => "UnsignedLongInt"
    case Double => "Double"
    case String => "String"
    case Pointer => "Pointer"
    case ConstPointer => "ConstPointer"
    case Output => "Output"
    case InputPOD => "InputPOD"
    case OutputPOD => "OutputPOD"
    case Skip => "Skip"
    case InputOfType => "InputOfType:"
    case OutputOfType => "OutputOfType:"
    case MemoryBuffer => "MemoryBuffer:"
  }

  const EXTENDED_TYPES: seq<MockedType> := [InputOfType, OutputOfType, MemoryBuffer]

  predicate HasPrefix(s: string, prefix: string) {
    |prefix| <= |s| && s[..|prefix|] == prefix
  }

  function ExtendedType(name: string): (t: Option<MockedType>)
    ensures t.Some? ==> !IsNamedType(t.value) && HasPrefix(name, NameOf(t.value))
  {
    if HasPrefix(name, "InputOfType:") then Some(InputOfType)
    else if HasPrefix(name, "OutputOfType:") then Some(OutputOfType)
    else if HasPrefix(name, "MemoryBuffer:") then Some(MemoryBuffer)
    else None
  }

  lemma NamesAreInverse(t: MockedType)
    requires IsNamedType(t)
    ensures TypeNamed(NameOf(t)) == Some(t)
    ensures '~' !in NameOf(t) && NameOf(t) != "" && Trimmed(NameOf(t))
  {
    match t
    case Bool => case Int => case UnsignedInt => case Long => case UnsignedLong => case Double => case String =>
    case Pointer => case ConstPointer => case Output => case InputPOD => case OutputPOD => case Skip =>
  }

  lemma NamedTypes(name: string)
    requires TypeNamed(name).Some?
    ensures IsNamedType(TypeNamed(name).value) && name == NameOf(TypeNamed(name).value)
  {
  }

  /** A text that starts with an extended prefix is not in the table. */
  lemma ExtendedAreNotNamed(t: MockedType, rest: string)
    requires !IsNamedType(t)
    ensures TypeNamed(NameOf(t) + rest) == None && ExtendedType(NameOf(t) + rest) == Some(t)
  {
    var s := NameOf(t) + rest;
    assert s[..|NameOf(t)|] == NameOf(t) && s[0] == NameOf(t)[0];
    match t
    case InputOfType => assert s[5] == 'O' && s[7] == 'T';
    case OutputOfType => assert s[6] == 'O' && s[7] == 'f';
    case MemoryBuffer => assert s[0] == 'M';
  }

  // ----- The grammar of a specification

  datatype Split = Split(front: string, back: string, found: bool)

  /** Cuts a text at the first `c`. */
  function SplitAt(s: string, c: char): (r: Split)
    ensures r.found ==> c !in r.front && s == r.front + [c] + r.back
    ensures !r.found ==> c !in s && r.front == s && r.back == ""
  {
    var p := Find(s, c, 0);
    if p == |s| then Split(s, "", false)
    else
      assert s == s[..p] + [c] + s[p + 1..];
      Split(s[..p], s[p + 1..], true)
  }

  lemma SplitIs(front: string, c: char, back: string)
    requires c !in front
    ensures SplitAt(front + [c] + back, c) == Split(front, back, true)
  {
    var s := front + [c] + back;
    assert s[|front|] == c && forall i :: 0 <= i < |front| ==> s[i] == front[i];
    assert Find(s, c, 0) == |front|;
  }

  method ParseExpression(expression: string) returns (front: string, back: string, found: bool)
    ensures Split(front, back, found) == SplitAt(expression, '$')
  {
    var placeholderPos := Find(expression, '$', 0);
    if placeholderPos == |expression| {
      front, back, found := expression, "", false;
    } else {
      front, back, found := expression[..placeholderPos], expression[placeholderPos + 1..], true;
    }
  }

  datatype TypeAndMod = TypeAndMod(text: string, front: string, back: string)

  /** The part before `~` and the two halves of the argument expression after it. */
  function TypePart(value: string): Result<TypeAndMod, OptionError> {
    var mod := SplitAt(value, '~');
    if value == "" then Err(EmptySpecification)
    else if !mod.found then Ok(TypeAndMod(value, "", ""))
    else if TrimString(mod.front) == "" then Err(EmptyType)
    else if TrimString(mod.back) == "" then Err(EmptyExpression)
    else
      var e := SplitAt(TrimString(mod.back), '$');
      if !e.found then Err(NoPlaceholder) else Ok(TypeAndMod(TrimString(mod.front), e.front, e.back))
  }

  const NAMED := OverrideSpec(Skip, "", "", "", "", None, "", "")

  /** What follows the prefix of an extended type. */
  function ExtendedPart(t: MockedType, rest: string): Result<OverrideSpec, OptionError> {
    var text := TrimString(rest);
    if t.MemoryBuffer? then
      if text == "" then Err(EmptySizeExpression)
      else
        var size := SplitAt(text, '$');
        Ok(NAMED.(ty := t, hasSizeExprPlaceholder := Some(size.found), sizeExprFront := size.front,
          sizeExprBack := size.back))
    else
      var names := SplitAt(text, '<');
      if names.found && TrimString(names.back) == "" then Err(EmptyExpectationType)
      else
        var exposed := if names.found then TrimString(names.front) else text;
        var expected := if names.found then TrimString(names.back) else text;
        if exposed == "" then Err(EmptyTypeName)
        else Ok(NAMED.(ty := t, exposedTypeName := exposed, expectationArgTypeName := expected))
  }

  function SpecOf(value: string, isReturn: bool): Result<OverrideSpec, OptionError> {
    match TypePart(value)
    case Err(e) => Err(e)
    case Ok(typed) =>
      match TypeSpec(typed.text, isReturn)
      case Err(e) => Err(e)
      case Ok(spec) => Ok(spec.(exprModFront := typed.front, exprModBack := typed.back))
  }

  function TypeSpec(text: string, isReturn: bool): Result<OverrideSpec, OptionError> {
    var named := TypeNamed(text);
    if isReturn then
      if named.Some? && IsReturnType(named.value) then Ok(NAMED.(ty := named.value)) else Err(InvalidReturnType)
    else if named.Some? then Ok(NAMED.(ty := named.value))
    else
      var t := ExtendedType(text);
      if t.None? then Err(InvalidParameterType) else ExtendedPart(t.value, text[|NameOf(t.value)|..])
  }

  /** The first step of the constructor: the type text and the argument expression. */
  method ParseTypePart(value: string) returns (r: Result<TypeAndMod, OptionError>)
    ensures r == TypePart(value)
  {
    if value == "" {
      return Err(EmptySpecification);
    }
    var exprModSepPos := Find(value, '~', 0);
    if exprModSepPos < |value| {
      var text := TrimString(value[..exprModSepPos]);
      if text == "" {
        return Err(EmptyType);
      }
      var argExprMod := TrimString(value[exprModSepPos + 1..]);
      if argExprMod == "" {
        return Err(EmptyExpression);
      }
      var front, back, found := ParseExpression(argExprMod);
      if !found {
        return Err(NoPlaceholder);
      }
      r := Ok(TypeAndMod(text, front, back));
    } else {
      r := Ok(TypeAndMod(value, "", ""));
    }
  }

  /** The body of the loop over the extended types, for the one that matches. */
  method ParseExtendedPart(t: MockedType, rest: string) returns (r: Result<OverrideSpec, OptionError>)
    ensures r == ExtendedPart(t, rest)
  {
    var spec := NAMED.(ty := t);
    if t.MemoryBuffer? {
      var sizeExpr := TrimString(rest);
      if sizeExpr == "" {
        return Err(EmptySizeExpression);
      }
      var front, back, found := ParseExpression(sizeExpr);
      spec := spec.(hasSizeExprPlaceholder := Some(found), sizeExprFront := front, sizeExprBack := back);
    } else {
      var text := TrimString(rest);
      spec := spec.(exposedTypeName := text);
      var sep := Find(text, '<', 0);
      if sep < |text| {
        spec := spec.(expectationArgTypeName := TrimString(text[sep + 1..]),
          exposedTypeName := TrimString(text[..sep]));
        if spec.expectationArgTypeName == "" {
          return Err(EmptyExpectationType);
        }
      } else {
        spec := spec.(expectationArgTypeName := spec.exposedTypeName);
      }
      if spec.exposedTypeName == "" {
        return Err(EmptyTypeName);
      }
    }
    r := Ok(spec);
  }

  /** The search for an extended type: every entry whose prefix matches is applied in turn. */
  method ParseExtendedType(text: string) returns (r: Result<OverrideSpec, OptionError>)
    requires TypeNamed(text).None?
    ensures r == TypeSpec(text, false)
  {
    hide TypeNamed, ExtendedPart;
    PrefixesExclude(text);
    var overrideTypeFound := false;
    var spec := NAMED;
    for i := 0 to |EXTENDED_TYPES|
      invariant overrideTypeFound <==> exists j :: 0 <= j < i && ExtendedType(text) == Some(EXTENDED_TYPES[j])
      invariant overrideTypeFound ==> Ok(spec) == TypeSpec(text, false)
    {
      var t := EXTENDED_TYPES[i];
      if HasPrefix(text, NameOf(t)) {
        var part := ParseExtendedPart(t, text[|NameOf(t)|..]);
        match part {
          case Err(e) => return Err(e);
          case Ok(found) => spec := found;
        }
        overrideTypeFound := true;
      }
    }
    r := if overrideTypeFound then Ok(spec) else Err(InvalidParameterType);
    assert ExtendedType(text) == None || ExtendedType(text).value in EXTENDED_TYPES by {
      assert EXTENDED_TYPES[0] == InputOfType && EXTENDED_TYPES[1] == OutputOfType && EXTENDED_TYPES[2] == MemoryBuffer;
    }
  }

  /** The constructor of a specification. */
  method ConstructOverrideSpec(value: string, isReturn: bool) returns (r: Result<OverrideSpec, OptionError>)
    ensures r == SpecOf(value, isReturn)
  {
    hide TypeNamed, TypePart, ExtendedType, ExtendedPart;
    var part := ParseTypePart(value);
    match part {
      case Err(e) => return Err(e);
      case Ok(typed) =>
        var named := TypeNamed(typed.text);
        var spec := NAMED;
        if isReturn {
          if named.Some? && IsReturnType(named.value) {
            spec := spec.(ty := named.value);
          } else {
            return Err(InvalidReturnType);
          }
        } else if named.Some? {
          spec := spec.(ty := named.value);
        } else {
          var extended := ParseExtendedType(typed.text);
          match extended {
            case Err(e) => return Err(e);
            case Ok(found) => spec := found;
          }
        }
        r := Ok(spec.(exprModFront := typed.front, exprModBack := typed.back));
    }
  }

  lemma PrefixesExclude(text: string)
    ensures forall i :: 0 <= i < |EXTENDED_TYPES| ==>
              (HasPrefix(text, NameOf(EXTENDED_TYPES[i])) <==> ExtendedType(text) == Some(EXTENDED_TYPES[i]))
  {
    if HasPrefix(text, "InputOfType:") { assert text[0] == text[..12][0] == 'I'; }
    if HasPrefix(text, "OutputOfType:") { assert text[0] == text[..13][0] == 'O'; }
    if HasPrefix(text, "MemoryBuffer:") { assert text[0] == text[..13][0] == 'M'; }
  }

  // ----- Writing a specification down

  function ModText(front: string, back: string): string {
    if front == "" && back == "" then "" else ['~'] + (front + ['$'] + back)
  }

  function SizeText(s: OverrideSpec): string
    requires s.hasSizeExprPlaceholder.Some?
  {
    if s.hasSizeExprPlaceholder.value then s.sizeExprFront + ['$'] + s.sizeExprBack else s.sizeExprFront
  }

  /** What follows the name or prefix of the type. */
  function RestText(s: OverrideSpec): string
    requires s.ty.MemoryBuffer? ==> s.hasSizeExprPlaceholder.Some?
  {
    if IsNamedType(s.ty) then ""
    else if s.ty.MemoryBuffer? then SizeText(s)
    else if s.expectationArgTypeName == s.exposedTypeName then s.exposedTypeName
    else s.exposedTypeName + ['<'] + s.expectationArgTypeName
  }

  function Print(s: OverrideSpec): string
    requires s.ty.MemoryBuffer? ==> s.hasSizeExprPlaceholder.Some?
  {
    (NameOf(s.ty) + RestText(s)) + ModText(s.exprModFront, s.exprModBack)
  }

  predicate Bare(s: OverrideSpec) {
    s.exprModFront == "" && s.exprModBack == ""
  }

  /** Text that stands for itself: not empty, without `~`, and trimmed; where nothing follows
      it may also consist of spaces, which trimming leaves alone. */
  predicate StandsAlone(text: string, last: bool) {
    text != "" && '~' !in text && (Trimmed(text) || (last && AllSpaces(text)))
  }

  /** The specifications that can be written down. */
  predicate Expressible(s: OverrideSpec, isReturn: bool) {
    && (isReturn ==> IsReturnType(s.ty))
    && '$' !in s.exprModFront
    && (!Bare(s) ==> Trimmed(s.exprModFront + ['$'] + s.exprModBack))
    && if IsNamedType(s.ty) then
         s.exposedTypeName == s.expectationArgTypeName == s.sizeExprFront == s.sizeExprBack == "" &&
           s.hasSizeExprPlaceholder.None?
       else if s.ty.MemoryBuffer? then
         && s.exposedTypeName == s.expectationArgTypeName == "" && s.hasSizeExprPlaceholder.Some?
         && '$' !in s.sizeExprFront && (!s.hasSizeExprPlaceholder.value ==> s.sizeExprBack == "")
         && StandsAlone(SizeText(s), Bare(s))
       else
         && s.sizeExprFront == s.sizeExprBack == "" && s.hasSizeExprPlaceholder.None?
         && '<' !in s.exposedTypeName
         && StandsAlone(s.exposedTypeName, Bare(s) && s.expectationArgTypeName == s.exposedTypeName)
         && (s.expectationArgTypeName != s.exposedTypeName ==> StandsAlone(s.expectationArgTypeName, false))
  }

  lemma SplitNothing(s: string, c: char)
    requires c !in s
    ensures SplitAt(s, c) == Split(s, "", false)
  {
  }

  lemma TypePartOfPrinted(text: string, front: string, back: string)
    requires text != "" && '~' !in text && '$' !in front
    requires front != "" || back != "" ==> Trimmed(text) && Trimmed(front + ['$'] + back)
    ensures TypePart(text + ModText(front, back)) == Ok(TypeAndMod(text, front, back))
  {
    if front == "" && back == "" {
      assert text + "" == text;
      SplitNothing(text, '~');
    } else {
      var e := front + ['$'] + back;
      assert text + (['~'] + e) == text + ['~'] + e;
      SplitIs(text, '~', e);
      assert e != "" by { assert e[|front|] == '$'; }
      TrimIsIdentity(text);
      TrimIsIdentity(e);
      SplitIs(front, '$', back);
    }
  }

  lemma TrimStandsAlone(text: string, last: bool)
    requires StandsAlone(text, last)
    ensures TrimString(text) == text
  {
    if Trimmed(text) { TrimIsIdentity(text); }
  }

  lemma ExtendedPartOfPrinted(s: OverrideSpec)
    requires Expressible(s, false) && !IsNamedType(s.ty)
    ensures ExtendedPart(s.ty, RestText(s)) == Ok(s.(exprModFront := "", exprModBack := ""))
  {
    if s.ty.MemoryBuffer? {
      TrimStandsAlone(SizeText(s), Bare(s));
      if s.hasSizeExprPlaceholder.value {
        SplitIs(s.sizeExprFront, '$', s.sizeExprBack);
      } else {
        SplitNothing(s.sizeExprFront, '$');
      }
    } else if s.expectationArgTypeName == s.exposedTypeName {
      TrimStandsAlone(s.exposedTypeName, Bare(s));
      SplitNothing(s.exposedTypeName, '<');
    } else {
      TrimIsIdentity(RestText(s));
      SplitIs(s.exposedTypeName, '<', s.expectationArgTypeName);
      TrimIsIdentity(s.exposedTypeName);
      TrimIsIdentity(s.expectationArgTypeName);
    }
  }

  lemma PrefixText(t: MockedType)
    requires !IsNamedType(t)
    ensures NameOf(t) != "" && Trimmed(NameOf(t)) && '~' !in NameOf(t)
  {
  }

  lemma TypeTextStands(s: OverrideSpec, isReturn: bool)
    requires Expressible(s, isReturn)
    ensures var text := NameOf(s.ty) + RestText(s);
            text != "" && '~' !in text && (!Bare(s) ==> Trimmed(text))
  {
    var name, rest := NameOf(s.ty), RestText(s);
    if IsNamedType(s.ty) {
      NamesAreInverse(s.ty);
      assert name + rest == name;
    } else {
      PrefixText(s.ty);
      if s.ty.MemoryBuffer? || s.expectationArgTypeName == s.exposedTypeName {
        assert StandsAlone(rest, Bare(s));
      } else {
        assert '~' !in rest && Trimmed(rest) && rest != "";
      }
      assert (name + rest)[0] == name[0] && (name + rest)[|name + rest| - 1] == rest[|rest| - 1];
    }
  }

  /** Parsing undoes printing, for every specification that can be written down. */
  lemma PrintedIsParsed(s: OverrideSpec, isReturn: bool)
    requires Expressible(s, isReturn)
    ensures SpecOf(Print(s), isReturn) == Ok(s)
  {
    hide TypePart, TypeNamed, ExtendedType, ExtendedPart;
    var text := NameOf(s.ty) + RestText(s);
    TypeTextStands(s, isReturn);
    TypePartOfPrinted(text, s.exprModFront, s.exprModBack);
    if IsNamedType(s.ty) {
      assert text == NameOf(s.ty);
      NamesAreInverse(s.ty);
    } else {
      ExtendedAreNotNamed(s.ty, RestText(s));
      assert text[|NameOf(s.ty)|..] == RestText(s);
      ExtendedPartOfPrinted(s);
    }
  }

  // ----- What parsing can produce

  lemma TrimKeepsOut(s: string, c: char)
    requires c !in s
    ensures c !in TrimString(s)
  {
    var a, b :| 0 <= a <= b <= |s| && TrimString(s) == s[a..b] && AllSpaces(s[..a]) && AllSpaces(s[b..]);
  }

  lemma TypePartIsPlain(value: string)
    requires TypePart(value).Ok?
    ensures var t := TypePart(value).value;
            && t.text != "" && '~' !in t.text && '$' !in t.front
            && (t.front != "" || t.back != "" ==>
                  Trimmed(t.front + ['$'] + t.back) && (Trimmed(t.text) || AllSpaces(t.text)))
  {
    var mod := SplitAt(value, '~');
    if mod.found {
      TrimKeepsOut(mod.front, '~');
      var e := TrimString(mod.back);
      var cut := SplitAt(e, '$');
      assert e[|cut.front|] == '$';
      assert !AllSpaces(mod.back);
    }
  }

  lemma TypeNamesArePlain(text: string, last: bool)
    requires '~' !in text && (Trimmed(text) || (last && AllSpaces(text)))
    ensures var names := SplitAt(text, '<');
            if names.found then
              && '~' !in TrimString(names.front) && '<' !in TrimString(names.front) && Trimmed(TrimString(names.front))
              && '~' !in TrimString(names.back) && Trimmed(TrimString(names.back))
            else '<' !in text
  {
    var names := SplitAt(text, '<');
    if names.found {
      assert text[|names.front|] == '<' && Trimmed(text);
      TrimKeepsOut(names.front, '~');
      TrimKeepsOut(names.back, '~');
      TrimKeepsOut(names.front, '<');
      assert names.front != "" ==> names.front[0] == text[0];
      assert names.back != "" ==> names.back[|names.back| - 1] == text[|text| - 1];
    }
  }

  lemma ExtendedPartIsPlain(t: MockedType, rest: string, front: string, back: string)
    requires !IsNamedType(t) && '~' !in rest && ExtendedPart(t, rest).Ok?
    requires '$' !in front
    requires front != "" || back != "" ==>
               Trimmed(front + ['$'] + back) && (rest == "" || rest[|rest| - 1] != ' ')
    ensures Expressible(ExtendedPart(t, rest).value.(exprModFront := front, exprModBack := back), false)
  {
    var text := TrimString(rest);
    var last := front == "" && back == "";
    TrimKeepsOut(rest, '~');
    assert Trimmed(text) || (last && AllSpaces(text));
    if !t.MemoryBuffer? {
      TypeNamesArePlain(text, last);
    }
  }

  /** Every specification that parsing yields can be written down (and so is recovered from
      what is written). */
  lemma ParsedIsExpressible(value: string, isReturn: bool)
    requires SpecOf(value, isReturn).Ok?
    ensures Expressible(SpecOf(value, isReturn).value, isReturn)
  {
    hide TypePart, TypeNamed, ExtendedType, ExtendedPart;
    var typed := TypePart(value).value;
    var s := SpecOf(value, isReturn).value;
    TypePartIsPlain(value);
    if TypeNamed(typed.text).Some? {
      NamedTypes(typed.text);
    } else {
      var t := ExtendedType(typed.text).value;
      var n := |NameOf(t)|;
      var rest := typed.text[n..];
      PrefixText(t);
      assert typed.text[0] == typed.text[..n][0] == NameOf(t)[0];
      assert !AllSpaces(typed.text);
      assert rest != "" ==> rest[|rest| - 1] == typed.text[|typed.text| - 1];
      ExtendedPartIsPlain(t, rest, typed.front, typed.back);
    }
  }

  // ----- The map of overrides

  predicate IsParameterKey(key: string) {
    multiset(key)['#'] == 1
  }

  predicate IsReturnKey(key: string) {
    multiset(key)['@'] == 1 && multiset(key)['#'] == 0 && (key[0] == '@' || key[|key| - 1] == '@')
  }

  datatype Entry = Entry(key: string, spec: OverrideSpec)

  /** One option: a key and a specification around the first `=`. */
  function ParseOption(option: string): Result<Entry, OptionError> {
    var cut := SplitAt(option, '=');
    var key := TrimString(cut.front);
    if !cut.found then Err(NoSeparator)
    else if key == "" then Err(EmptyKey)
    else if !IsParameterKey(key) && !IsReturnKey(key) then Err(InvalidKey)
    else
      match SpecOf(cut.back, !IsParameterKey(key))
      case Err(e) => Err(e)
      case Ok(spec) => Ok(Entry(key, spec))
  }

  /** All options are grammatical and no two have the same key. */
  ghost predicate Acceptable(options: seq<string>) {
    && (forall i :: 0 <= i < |options| ==> ParseOption(options[i]).Ok?)
    && forall i, j :: 0 <= i < j < |options| ==> KeyOf(options[i]) != KeyOf(options[j])
  }

  function KeyOf(option: string): string {
    match ParseOption(option)
    case Ok(e) => e.key
    case Err(_) => ""
  }

  /** The map holds the specification of each option under its key, and nothing else. */
  ghost predicate Holds(m: map<string, OverrideSpec>, options: seq<string>) {
    && (forall i :: 0 <= i < |options| ==>
          ParseOption(options[i]).Ok? && KeyOf(options[i]) in m &&
            m[KeyOf(options[i])] == ParseOption(options[i]).value.spec)
    && forall k :: k in m ==> exists i :: 0 <= i < |options| && KeyOf(options[i]) == k
  }

  method ParseOverrideOption(option: string) returns (r: Result<Entry, OptionError>)
    ensures r == ParseOption(option)
  {
    hide SpecOf;
    var sepPos := Find(option, '=', 0);
    if sepPos == |option| {
      return Err(NoSeparator);
    }
    var key := TrimString(option[..sepPos]);
    if key == "" {
      return Err(EmptyKey);
    }
    var isReturn := false;
    var hashes := StringCount(key, '#');
    var ats := StringCount(key, '@');
    if hashes == 1 {
      isReturn := false;
    } else if ats == 1 && hashes == 0 && (key[0] == '@' || key[|key| - 1] == '@') {
      isReturn := true;
    } else {
      return Err(InvalidKey);
    }
    var spec := ConstructOverrideSpec(option[sepPos + 1..], isReturn);
    match spec {
      case Err(e) => r := Err(e);
      case Ok(s) => r := Ok(Entry(key, s));
    }
  }

  method OverrideMap(options: seq<string>) returns (r: Result<map<string, OverrideSpec>, OptionError>)
    ensures r.Ok? <==> Acceptable(options)
    ensures r.Ok? ==> Holds(r.value, options)
  {
    hide ParseOption, Acceptable, Holds;
    var m: map<string, OverrideSpec> := map[];
    NoOptions();
    assert options[..0] == [];
    for i := 0 to |options|
      invariant Acceptable(options[..i]) && Holds(m, options[..i])
    {
      assert options[..i + 1] == options[..i] + [options[i]];
      var parsed := ParseOverrideOption(options[i]);
      match parsed {
        case Err(e) =>
          NotAcceptable(options, i);
          return Err(e);
        case Ok(entry) =>
          if entry.key in m {
            Repeated(options, m, i);
            return Err(RepeatedKey);
          }
          HoldsOneMore(m, options[..i], options[i]);
          m := m[entry.key := entry.spec];
      }
    }
    assert options[..|options|] == options;
    r := Ok(m);
  }

  lemma NoOptions()
    ensures Acceptable([]) && Holds(map[], [])
  {
  }

  lemma NotAcceptable(options: seq<string>, i: nat)
    requires i < |options| && ParseOption(options[i]).Err?
    ensures !Acceptable(options)
  {
  }

  lemma Repeated(options: seq<string>, m: map<string, OverrideSpec>, i: nat)
    requires i < |options| && Holds(m, options[..i]) && KeyOf(options[i]) in m
    ensures !Acceptable(options)
  {
    var j :| 0 <= j < i && KeyOf(options[..i][j]) == KeyOf(options[i]);
    assert options[..i][j] == options[j];
  }

  lemma HoldsOneMore(m: map<string, OverrideSpec>, before: seq<string>, option: string)
    requires Acceptable(before) && Holds(m, before)
    requires ParseOption(option).Ok? && KeyOf(option) !in m
    ensures Acceptable(before + [option])
    ensures Holds(m[KeyOf(option) := ParseOption(option).value.spec], before + [option])
  {
    hide ParseOption;
    var all := before + [option];
    var more := m[KeyOf(option) := ParseOption(option).value.spec];
    assert forall i :: 0 <= i < |before| ==> all[i] == before[i] && KeyOf(before[i]) in m;
    assert all[|before|] == option;
    forall k | k in more ensures exists i :: 0 <= i < |all| && KeyOf(all[i]) == k {
      if k != KeyOf(option) {
        var i :| 0 <= i < |before| && KeyOf(before[i]) == k;
        assert KeyOf(all[i]) == k;
      }
    }
  }

  /** `m` is what some accepted list of options builds. */
  ghost predicate Accepted(m: map<string, OverrideSpec>) {
    exists options :: Acceptable(options) && Holds(m, options)
  }

  function GetOverride(m: map<string, OverrideSpec>, key: string): Option<OverrideSpec> {
    if key in m then Some(m[key]) else None
  }

  /** In the map that accepted options build, a lookup finds the specification of the one option
      with that key, and nothing if there is no such option. */
  lemma LookupFindsOption(options: seq<string>, m: map<string, OverrideSpec>, key: string, spec: OverrideSpec)
    requires Acceptable(options) && Holds(m, options)
    ensures GetOverride(m, key) == Some(spec) <==>
            exists i :: 0 <= i < |options| && ParseOption(options[i]) == Ok(Entry(key, spec))
    ensures GetOverride(m, key) == None <==> forall i :: 0 <= i < |options| ==> KeyOf(options[i]) != key
    ensures forall i, j :: 0 <= i < |options| && 0 <= j < |options| &&
                             KeyOf(options[i]) == key == KeyOf(options[j]) ==>
                             i == j
  {
    hide ParseOption;
    if key in m {
      var i :| 0 <= i < |options| && KeyOf(options[i]) == key;
      assert ParseOption(options[i]) == Ok(Entry(key, m[key]));
    }
    if i :| 0 <= i < |options| && ParseOption(options[i]) == Ok(Entry(key, spec)) {
      assert KeyOf(options[i]) == key;
    }
  }

  // ----- Which specifications a lookup can find

  lemma OptionBehind(m: map<string, OverrideSpec>, key: string) returns (option: string)
    requires Accepted(m) && key in m
    ensures ParseOption(option) == Ok(Entry(key, m[key]))
  {
    hide ParseOption;
    var options :| Acceptable(options) && Holds(m, options);
    var i :| 0 <= i < |options| && KeyOf(options[i]) == key;
    option := options[i];
  }

  lemma EntryIsExpressible(option: string)
    requires ParseOption(option).Ok?
    ensures var e := ParseOption(option).value; Expressible(e.spec, !IsParameterKey(e.key))
  {
    hide SpecOf, Expressible;
    var cut := SplitAt(option, '=');
    ParsedIsExpressible(cut.back, !IsParameterKey(TrimString(cut.front)));
  }

  /** An override found under a key without exactly one `#` has a type that a return may have;
      the size expression field is set exactly for memory buffers. */
  lemma LookupFindsExpressible(m: map<string, OverrideSpec>, key: string)
    requires Accepted(m) && key in m
    ensures Expressible(m[key], !IsParameterKey(key))
    ensures !IsParameterKey(key) ==> IsReturnType(m[key].ty)
    ensures m[key].hasSizeExprPlaceholder.Some? <==> m[key].ty.MemoryBuffer?
  {
    hide ParseOption, Accepted;
    var option := OptionBehind(m, key);
    EntryIsExpressible(option);
  }

  /** A key that a parameter option can have. */
  predicate CanBeParameterKey(key: string) {
    IsParameterKey(key) && '=' !in key && Trimmed(key)
  }

  lemma EntryKeyIsPlain(option: string)
    requires ParseOption(option).Ok? && IsParameterKey(ParseOption(option).value.key)
    ensures CanBeParameterKey(ParseOption(option).value.key)
  {
    hide SpecOf;
    var cut := SplitAt(option, '=');
    TrimKeepsOut(cut.front, '=');
    assert '#' in TrimString(cut.front);
  }

  /** A lookup can find a type that no return may have exactly under the keys of parameter options. */
  lemma UnfitOverrideCanBeFound(key: string)
    ensures (exists m: map<string, OverrideSpec> :: Accepted(m) && key in m && !IsReturnType(m[key].ty)) <==>
            CanBeParameterKey(key)
  {
    hide ParseOption, Accepted, CanBeParameterKey, Expressible;
    if m: map<string, OverrideSpec> :| Accepted(m) && key in m && !IsReturnType(m[key].ty) {
      LookupFindsExpressible(m, key);
      var option := OptionBehind(m, key);
      EntryKeyIsPlain(option);
    }
    if CanBeParameterKey(key) {
      var m := SkipOption(key);
    }
  }

  lemma SkipOptionParses(key: string)
    requires CanBeParameterKey(key)
    ensures ParseOption(key + ['='] + "Skip") == Ok(Entry(key, NAMED))
  {
    hide TypeNamed;
    SplitIs(key, '=', "Skip");
    assert '#' in key;
    TrimIsIdentity(key);
    NamesAreInverse(Skip);
    SplitNothing("Skip", '~');
  }

  lemma SkipOption(key: string) returns (m: map<string, OverrideSpec>)
    requires CanBeParameterKey(key)
    ensures Accepted(m) && key in m && m[key].ty == Skip
  {
    hide ParseOption, CanBeParameterKey;
    var option := key + ['='] + "Skip";
    SkipOptionParses(key);
    m := map[key := NAMED];
    assert Acceptable([option]) && KeyOf([option][0]) == key && Holds(m, [option]);
  }
}
