/** Which override options are accepted and which override applies, in terms of the options as the
    manual writes them (MANUAL.md, "Overriding Mocked Parameter and Return Types";
    app/sources/Config.cpp, app/sources/Function.cpp). */
module OverrideOptions {
  import opened StringHelper
  import opened Options
  import opened Overrides
  import opened CppTypes
  import ArgumentParser
  import ReturnParser

  // ----- The options of the manual

  /** What an override is for: the return or a parameter of a function, or any of a type. */
  datatype Subject =
    | ReturnOf(name: string)
    | ReturnOfType(spelling: string)
    | ParameterOf(name: string, parameter: string)
    | ParameterOfType(spelling: string)

  /** The part of the option before the `=`. */
  function Key(t: Subject): string {
    match t
    case ReturnOf(f) => f + "@"
    case ReturnOfType(ty) => "@" + ty
    case ParameterOf(f, p) => f + "#" + p
    case ParameterOfType(ty) => "#" + ty
  }

  predicate IsForReturn(t: Subject) {
    t.ReturnOf? || t.ReturnOfType?
  }

  /** A name that the signs of an option do not occur in. */
  predicate HoldsNoSign(n: string) {
    n != "" && '@' !in n && '#' !in n
  }

  /** A name as it can be written in an option. */
  predicate IsWritable(n: string) {
    HoldsNoSign(n) && '=' !in n && Trimmed(n)
  }

  predicate Reads(t: Subject) {
    match t
    case ReturnOf(f) => HoldsNoSign(f)
    case ReturnOfType(ty) => HoldsNoSign(ty)
    case ParameterOf(f, p) => HoldsNoSign(f) && HoldsNoSign(p)
    case ParameterOfType(ty) => HoldsNoSign(ty)
  }

  predicate Writes(t: Subject) {
    match t
    case ReturnOf(f) => IsWritable(f)
    case ReturnOfType(ty) => IsWritable(ty)
    case ParameterOf(f, p) => IsWritable(f) && IsWritable(p)
    case ParameterOfType(ty) => IsWritable(ty)
  }

  // ----- The form of keys

  /** Text with a sign in it once. */
  ghost predicate HoldsOnce(s: string, c: char) {
    exists a, b :: s == a + [c] + b && c !in a && c !in b
  }

  /** One `#`, or none and one `@`, at an end; no `=`, and no spaces around it. */
  ghost predicate IsKey(key: string) {
    && key != "" && Trimmed(key) && '=' !in key
    && (HoldsOnce(key, '#') ||
        ('#' !in key && exists n :: '@' !in n && (key == n + "@" || key == "@" + n)))
  }

  lemma OnceIsCounted(s: string, c: char)
    ensures HoldsOnce(s, c) <==> multiset(s)[c] == 1
  {
    if a, b :| s == a + [c] + b && c !in a && c !in b {
      assert multiset(a)[c] == 0 && multiset(b)[c] == 0;
    }
    if multiset(s)[c] == 1 {
      assert c in multiset(s);
      var i :| 0 <= i < |s| && s[i] == c;
      OnceAt(s, c, i);
    }
  }

  lemma OnceAt(s: string, c: char, i: nat)
    requires i < |s| && s[i] == c && multiset(s)[c] == 1
    ensures HoldsOnce(s, c)
  {
    var a, b := s[..i], s[i + 1..];
    assert s == a + [c] + b;
    assert multiset(s)[c] == multiset(a)[c] + 1 + multiset(b)[c];
    assert multiset(a)[c] == 0 && multiset(b)[c] == 0;
    assert c !in a && c !in b;
  }

  lemma AtEndIsCounted(key: string)
    requires key != ""
    ensures (exists n :: '@' !in n && (key == n + "@" || key == "@" + n)) <==>
            multiset(key)['@'] == 1 && (key[0] == '@' || key[|key| - 1] == '@')
  {
    if n :| '@' !in n && (key == n + "@" || key == "@" + n) {
      assert multiset(n)['@'] == 0;
    }
    if multiset(key)['@'] == 1 && key[0] == '@' {
      var n := key[1..];
      assert key == "@" + n;
      assert multiset(key)['@'] == 1 + multiset(n)['@'];
      assert '@' !in multiset(n);
    } else if multiset(key)['@'] == 1 && key[|key| - 1] == '@' {
      var n := key[..|key| - 1];
      assert key == n + "@";
      assert multiset(key)['@'] == multiset(n)['@'] + 1;
      assert '@' !in multiset(n);
    }
  }

  lemma KeyIsOfOneKind(key: string)
    requires key != ""
    ensures IsParameterKey(key) <==> HoldsOnce(key, '#')
    ensures IsReturnKey(key) <==> '#' !in key && exists n :: '@' !in n && (key == n + "@" || key == "@" + n)
  {
    OnceIsCounted(key, '#');
    AtEndIsCounted(key);
    assert multiset(key)['#'] == 0 <==> '#' !in key;
  }

  /** An option with such a key, whatever spaces are around it, is read as it is meant. */
  lemma WrittenOptionIsRead(left: string, key: string, right: string, s: OverrideSpec)
    requires IsKey(key) && AllSpaces(left) && AllSpaces(right) && Expressible(s, '#' !in key)
    ensures ParseOption((left + key + right) + ['='] + Print(s)) == Ok(Entry(key, s))
  {
    assert s.ty.MemoryBuffer? ==> s.hasSizeExprPlaceholder.Some?;
    hide SpecOf, Expressible, Print, TrimString;
    SplitIs(left + key + right, '=', Print(s));
    TrimStripsPadding(left, key, right);
    KeyIsOfOneKind(key);
    assert HoldsOnce(key, '#') <==> '#' in key;
    PrintedIsParsed(s, '#' !in key);
  }

  lemma HashedIsKey(a: string, b: string)
    requires (a == "" || IsWritable(a)) && IsWritable(b)
    ensures IsKey(a + ['#'] + b) && '#' in a + ['#'] + b
  {
    var key := a + ['#'] + b;
    assert HoldsOnce(key, '#');
    assert key[|a|] == '#';
    assert key[0] == if a == "" then '#' else a[0];
    assert key[|key| - 1] == b[|b| - 1];
  }

  lemma AtIsKey(n: string)
    requires IsWritable(n)
    ensures IsKey(n + "@") && IsKey("@" + n) && '#' !in n + "@" && '#' !in "@" + n
  {
    assert (n + "@")[0] == n[0] && ("@" + n)[|n|] == n[|n| - 1];
  }

  lemma WrittenKeyIsKey(t: Subject)
    requires Writes(t)
    ensures IsKey(Key(t)) && ('#' !in Key(t) <==> IsForReturn(t))
  {
    hide IsKey, IsWritable;
    match t
    case ReturnOf(f) => AtIsKey(f);
    case ReturnOfType(ty) => AtIsKey(ty);
    case ParameterOf(f, p) => HashedIsKey(f, p);
    case ParameterOfType(ty) => HashedIsKey("", ty); assert "" + ['#'] + ty == "#" + ty;
  }

  /** The keys of all accepted options are those of this form. */
  lemma AcceptedKeysExactly(key: string)
    ensures (exists m: map<string, OverrideSpec> :: Accepted(m) && key in m) <==> IsKey(key)
  {
    hide ParseOption, Accepted, IsKey, Expressible;
    if m: map<string, OverrideSpec> :| Accepted(m) && key in m {
      var option := OptionBehind(m, key);
      ParsedKeyIsKey(option);
    }
    if IsKey(key) { var m := SomeOption(key); }
  }

  lemma ParsedKeyIsKey(option: string)
    requires ParseOption(option).Ok?
    ensures IsKey(ParseOption(option).value.key)
  {
    hide SpecOf;
    var cut := SplitAt(option, '=');
    var key := TrimString(cut.front);
    TrimKeepsOut(cut.front, '=');
    KeyIsOfOneKind(key);
    SignedIsTrimmed(cut.front);
  }

  lemma SignedIsTrimmed(s: string)
    requires TrimString(s) != "" && (IsParameterKey(TrimString(s)) || IsReturnKey(TrimString(s)))
    ensures Trimmed(TrimString(s))
  {
    hide TrimString, Trimmed;
    SpacesAreNoKey(s);
  }

  lemma SpacesAreNoKey(s: string)
    ensures AllSpaces(s) ==> multiset(s)['#'] == 0 && multiset(s)['@'] == 0
  {
  }

  lemma SomeOption(key: string) returns (m: map<string, OverrideSpec>)
    requires IsKey(key)
    ensures Accepted(m) && key in m
  {
    hide ParseOption, IsKey;
    var s := NAMED.(ty := Int);
    var option := ("" + key + "") + ['='] + Print(s);
    WrittenOptionIsRead("", key, "", s);
    m := map[key := s];
    assert Acceptable([option]) && KeyOf([option][0]) == key && Holds(m, [option]);
  }

  // ----- Looking an option up

  /** No two subjects have the same key. */
  lemma KeysDiffer(a: Subject, b: Subject)
    requires Reads(a) && Reads(b) && Key(a) == Key(b)
    ensures a == b
  {
    SignOfKey(a);
    SignOfKey(b);
    if a.ParameterOf? && b.ParameterOf? {
      SplitIs(a.name, '#', a.parameter);
      SplitIs(b.name, '#', b.parameter);
    } else if a.ReturnOf? && b.ReturnOf? {
      assert Key(a)[..|Key(a)| - 1] == a.name && Key(b)[..|Key(b)| - 1] == b.name;
    } else {
      assert Key(a)[1..] == Key(b)[1..];
    }
  }

  lemma SignOfKey(t: Subject)
    requires Reads(t)
    ensures Key(t)[0] == '#' <==> t.ParameterOfType?
    ensures Key(t)[0] == '@' <==> t.ReturnOfType?
    ensures '#' in Key(t) <==> !IsForReturn(t)
    ensures t.ParameterOf? ==> Key(t) == t.name + ['#'] + t.parameter
  {
    if t.ParameterOf? { assert Key(t)[|t.name|] == '#'; }
  }

  /** An override as it is given on the command line or in a file. */
  datatype Override = Override(subject: Subject, spec: OverrideSpec)

  ghost predicate IsGiven(o: Override) {
    Writes(o.subject) && Expressible(o.spec, IsForReturn(o.subject))
  }

  function Written(o: Override): string
    requires o.spec.ty.MemoryBuffer? ==> o.spec.hasSizeExprPlaceholder.Some?
  {
    Key(o.subject) + "=" + Print(o.spec)
  }

  lemma WrittenIsRead(o: Override)
    requires IsGiven(o)
    ensures ParseOption(Written(o)) == Ok(Entry(Key(o.subject), o.spec))
  {
    hide ParseOption, IsKey, Print;
    var key := Key(o.subject);
    WrittenKeyIsKey(o.subject);
    WrittenOptionIsRead("", key, "", o.spec);
    assert "" + key + "" == key;
  }

  /** The options say these overrides, in order, each for a subject of its own. */
  ghost predicate Say(options: seq<string>, overrides: seq<Override>) {
    && |options| == |overrides|
    && (forall i :: 0 <= i < |overrides| ==> IsGiven(overrides[i]) && options[i] == Written(overrides[i]))
    && forall i, j :: 0 <= i < j < |overrides| ==> overrides[i].subject != overrides[j].subject
  }

  ghost predicate IsOverridden(overrides: seq<Override>, t: Subject, spec: OverrideSpec) {
    exists i :: 0 <= i < |overrides| && overrides[i] == Override(t, spec)
  }

  lemma GivenReads(o: Override)
    requires IsGiven(o)
    ensures Reads(o.subject)
  {
  }

  lemma SaidAreRead(options: seq<string>, overrides: seq<Override>)
    requires Say(options, overrides)
    ensures forall i :: 0 <= i < |options| ==>
                          ParseOption(options[i]) == Ok(Entry(Key(overrides[i].subject), overrides[i].spec))
    ensures Acceptable(options)
  {
    hide ParseOption, IsGiven, Print;
    forall i | 0 <= i < |options|
      ensures ParseOption(options[i]) == Ok(Entry(Key(overrides[i].subject), overrides[i].spec))
      ensures Reads(overrides[i].subject)
    {
      assert IsGiven(overrides[i]);
      WrittenIsRead(overrides[i]);
      GivenReads(overrides[i]);
    }
    forall i, j | 0 <= i < j < |options| ensures KeyOf(options[i]) != KeyOf(options[j]) {
      if KeyOf(options[i]) == KeyOf(options[j]) { KeysDiffer(overrides[i].subject, overrides[j].subject); }
    }
  }

  /** Options for different subjects, each as the manual writes it, are accepted; looking a subject up
      finds the specification written for it, and none if there is no option for it. */
  lemma SaidIsFound(options: seq<string>, overrides: seq<Override>, m: map<string, OverrideSpec>, t: Subject,
      spec: OverrideSpec)
    requires Say(options, overrides)
    ensures Acceptable(options)
    ensures Holds(m, options) && Reads(t) ==>
              && (GetOverride(m, Key(t)) == Some(spec) <==> IsOverridden(overrides, t, spec))
              && (GetOverride(m, Key(t)) == None <==> forall s :: !IsOverridden(overrides, t, s))
  {
    SaidAreRead(options, overrides);
    if Holds(m, options) && Reads(t) {
      FoundIsSaid(options, overrides, m, t, spec);
      if GetOverride(m, Key(t)).Some? { FoundIsSaid(options, overrides, m, t, GetOverride(m, Key(t)).value); }
      if s :| IsOverridden(overrides, t, s) { FoundIsSaid(options, overrides, m, t, s); }
    }
  }

  lemma FoundIsSaid(options: seq<string>, overrides: seq<Override>, m: map<string, OverrideSpec>, t: Subject,
      spec: OverrideSpec)
    requires Say(options, overrides) && Holds(m, options) && Reads(t)
    ensures GetOverride(m, Key(t)) == Some(spec) <==> IsOverridden(overrides, t, spec)
  {
    SaidAreRead(options, overrides);
    LookupFindsOption(options, m, Key(t), spec);
    hide ParseOption, IsGiven, Print, Acceptable, Holds, Key;
    if i :| 0 <= i < |options| && ParseOption(options[i]) == Ok(Entry(Key(t), spec)) {
      assert IsGiven(overrides[i]);
      GivenReads(overrides[i]);
      KeysDiffer(overrides[i].subject, t);
      assert overrides[i] == Override(t, spec);
    }
    if i :| 0 <= i < |overrides| && overrides[i] == Override(t, spec) {
      assert ParseOption(options[i]) == Ok(Entry(Key(t), spec));
    }
  }

  // ----- Which override applies

  /** For a parameter, the override for it in its function, or else the one for its type. */
  lemma ArgumentOverrideIs(p: ArgumentParser.Parser, options: seq<string>, overrides: seq<Override>, f: string,
      a: string, t: CType, spec: OverrideSpec)
    requires Say(options, overrides) && Holds(p.config, options)
    requires Reads(ParameterOf(f, a)) && Reads(ParameterOfType(Spell(t)))
    ensures p.OverrideFor(f, a, t) == Some(spec) <==>
            || IsOverridden(overrides, ParameterOf(f, a), spec)
            || (IsOverridden(overrides, ParameterOfType(Spell(t)), spec) &&
                forall s :: !IsOverridden(overrides, ParameterOf(f, a), s))
    ensures p.OverrideFor(f, a, t) == None <==>
            forall s :: !IsOverridden(overrides, ParameterOf(f, a), s) &&
                        !IsOverridden(overrides, ParameterOfType(Spell(t)), s)
  {
    hide Spell, IsOverridden, Say, Holds;
    var own, ty := ParameterOf(f, a), ParameterOfType(Spell(t));
    forall s ensures (GetOverride(p.config, Key(own)) == Some(s) <==> IsOverridden(overrides, own, s)) &&
                     (GetOverride(p.config, Key(ty)) == Some(s) <==> IsOverridden(overrides, ty, s)) {
      SaidIsFound(options, overrides, p.config, own, s);
      SaidIsFound(options, overrides, p.config, ty, s);
    }
    SaidIsFound(options, overrides, p.config, own, spec);
    SaidIsFound(options, overrides, p.config, ty, spec);
  }

  /** For a return, the override for it in its function, or else the one for its type. */
  lemma ReturnOverrideIs(p: ReturnParser.Parser, options: seq<string>, overrides: seq<Override>, f: string, t: CType,
      spec: OverrideSpec)
    requires Say(options, overrides) && Holds(p.config, options)
    requires Reads(ReturnOf(f)) && Reads(ReturnOfType(Spell(t)))
    ensures p.OverrideFor(f, t) == Some(spec) <==>
            || IsOverridden(overrides, ReturnOf(f), spec)
            || (IsOverridden(overrides, ReturnOfType(Spell(t)), spec) &&
                forall s :: !IsOverridden(overrides, ReturnOf(f), s))
    ensures p.OverrideFor(f, t) == None <==>
            forall s :: !IsOverridden(overrides, ReturnOf(f), s) && !IsOverridden(overrides, ReturnOfType(Spell(t)), s)
  {
    hide Spell, IsOverridden, Say, Holds;
    var own, ty := ReturnOf(f), ReturnOfType(Spell(t));
    forall s ensures (GetOverride(p.config, Key(own)) == Some(s) <==> IsOverridden(overrides, own, s)) &&
                     (GetOverride(p.config, Key(ty)) == Some(s) <==> IsOverridden(overrides, ty, s)) {
      SaidIsFound(options, overrides, p.config, own, s);
      SaidIsFound(options, overrides, p.config, ty, s);
    }
    SaidIsFound(options, overrides, p.config, own, spec);
    SaidIsFound(options, overrides, p.config, ty, spec);
  }

  // ----- Writing the options down

  /** Every accepted override is written in quotes, since it has a separator. */
  lemma OverridesAreQuoted(option: string)
    requires ParseOption(option).Ok?
    ensures QuotifyOption(option) == "\"" + option + "\""
  {
    hide SpecOf;
    var cut := SplitAt(option, '=');
    assert option[|cut.front|] == '=' && IsSpecial(option[|cut.front|]);
  }

  /** And so is every option with a space or a tab. */
  lemma SpacesAreQuoted(option: string)
    requires ' ' in option || '\t' in option
    ensures QuotifyOption(option) == "\"" + option + "\""
  {
    var i :| 0 <= i < |option| && (option[i] == ' ' || option[i] == '\t');
    assert IsSpecial(option[i]);
  }
}
