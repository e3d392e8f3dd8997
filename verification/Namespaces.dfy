/** Qualified names and their parts (app/sources/Function.cpp, GetNamespaceDecomposition, and
    app/sources/ClangHelper.cpp, getQualifiedName). */
module Namespaces {
  import opened StringHelper

  const SEPARATOR := "::"

  function Decomposition(s: string): (parts: seq<string>)
    ensures parts != []
    decreases |s|
  {
    match FindWord(s, SEPARATOR, 0)
    case None => [s]
    case Some(p) => [s[..p]] + Decomposition(s[p + 2..])
  }

  /** Where a word is found, so many characters later. */
  function Shifted(found: Option<nat>, offset: nat): Option<nat> {
    match found
    case None => None
    case Some(p) => Some(offset + p)
  }

  lemma MatchesShift(s: string, word: string, from: nat, k: nat)
    requires from + k <= |s|
    ensures MatchesAt(s, word, from + k) == MatchesAt(s[from..], word, k)
  {
    if k + |word| <= |s| - from {
      assert s[from + k..from + k + |word|] == s[from..][k..k + |word|];
    }
  }

  lemma {:induction false} FindWordShift(s: string, word: string, from: nat, k: nat)
    requires from + k <= |s|
    ensures FindWord(s, word, from + k) == Shifted(FindWord(s[from..], word, k), from)
    decreases |s| - from - k
  {
    MatchesShift(s, word, from, k);
    hide MatchesAt;
    if !MatchesAt(s, word, from + k) && from + k < |s| {
      FindWordShift(s, word, from, k + 1);
    }
  }

  lemma FirstPart(s: string)
    ensures var found := FindWord(s, SEPARATOR, 0);
            && (found.None? ==> Decomposition(s) == [s])
            && (found.Some? ==>
                  found.value + 2 <= |s| &&
                  Decomposition(s) == [s[..found.value]] + Decomposition(s[found.value + 2..]))
  {
  }

  lemma Slices(s: string, from: nat, k: nat)
    requires from + k <= |s|
    ensures s[from..][..k] == s[from..from + k] && s[from..][k..] == s[from + k..]
  {
  }

  lemma DecompositionFrom(s: string, from: nat)
    requires from <= |s|
    ensures var found := FindWord(s, SEPARATOR, from);
            && (found.None? ==> Decomposition(s[from..]) == [s[from..]])
            && (found.Some? ==> found.value + 2 <= |s| && from <= found.value)
            && (found.Some? ==>
                  Decomposition(s[from..]) == [s[from..found.value]] + Decomposition(s[found.value + 2..]))
  {
    hide FindWord, Decomposition, MatchesAt;
    FindWordShift(s, SEPARATOR, from, 0);
    FirstPart(s[from..]);
    var found := FindWord(s[from..], SEPARATOR, 0);
    if found.Some? {
      Slices(s, from, found.value);
      Slices(s, from, found.value + 2);
    }
  }

  method GetNamespaceDecomposition(qualifiedName: string) returns (ret: seq<string>)
    ensures ret == Decomposition(qualifiedName)
  {
    hide Decomposition, FindWord, MatchesAt;
    ret := [];
    var initPos := 0;
    var done := false;
    assert qualifiedName[0..] == qualifiedName;
    while !done
      invariant initPos <= |qualifiedName|
      invariant !done ==> Decomposition(qualifiedName) == ret + Decomposition(qualifiedName[initPos..])
      invariant done ==> ret == Decomposition(qualifiedName)
      decreases !done, |qualifiedName| - initPos
    {
      DecompositionFrom(qualifiedName, initPos);
      var endPos := FindWord(qualifiedName, SEPARATOR, initPos);
      if endPos.Some? {
        Regroup(ret, [qualifiedName[initPos..endPos.value]], Decomposition(qualifiedName[endPos.value + 2..]));
        ret := ret + [qualifiedName[initPos..endPos.value]];
        initPos := endPos.value + 2;
      } else {
        ret := ret + [qualifiedName[initPos..]];
        done := true;
      }
    }
  }

  ghost predicate Contains(s: string, word: string) {
    exists i :: 0 <= i <= |s| && MatchesAt(s, word, i)
  }

  /** For any string the parts hold no separator and rejoin to it. */
  lemma {:induction false} PartsRejoin(s: string)
    ensures Join(Decomposition(s), SEPARATOR) == s
    ensures forall k :: 0 <= k < |Decomposition(s)| ==> !Contains(Decomposition(s)[k], SEPARATOR)
    decreases |s|
  {
    var found := FindWord(s, SEPARATOR, 0);
    if found.Some? {
      var p := found.value;
      PartsRejoin(s[p + 2..]);
      assert s == s[..p] + SEPARATOR + s[p + 2..] by { assert s[p..p + 2] == SEPARATOR; }
      FirstPartIsFree(s, p);
    }
  }

  lemma FirstPartIsFree(s: string, p: nat)
    requires p <= |s| && forall i :: 0 <= i < p ==> !MatchesAt(s, SEPARATOR, i)
    ensures !Contains(s[..p], SEPARATOR)
  {
    forall i | 0 <= i <= p ensures !MatchesAt(s[..p], SEPARATOR, i) {
      if i + 2 <= p { assert s[..p][i..i + 2] == s[i..i + 2] && !MatchesAt(s, SEPARATOR, i); }
    }
  }

  /** No name holds a separator, and none but the last ends where one could begin. */
  ghost predicate Separable(path: seq<string>) {
    && (forall k :: 0 <= k < |path| ==> !Contains(path[k], SEPARATOR))
    && forall k :: 0 <= k < |path| - 1 ==> path[k] == "" || path[k][|path[k]| - 1] != ':'
  }

  lemma FirstSeparator(name: string, rest: string)
    requires !Contains(name, SEPARATOR) && (name == "" || name[|name| - 1] != ':')
    ensures Decomposition(name + SEPARATOR + rest) == [name] + Decomposition(rest)
  {
    var s := name + SEPARATOR + rest;
    assert s[|name|..|name| + 2] == SEPARATOR;
    forall i | 0 <= i < |name| ensures !MatchesAt(s, SEPARATOR, i) {
      if i + 2 <= |name| {
        assert s[i..i + 2] == name[i..i + 2] && !MatchesAt(name, SEPARATOR, i);
      } else {
        assert s[i..i + 2][0] == s[i] == name[i];
      }
    }
    assert MatchesAt(s, SEPARATOR, |name|);
    assert FindWord(s, SEPARATOR, 0) == Some(|name|);
    assert s[..|name|] == name && s[|name| + 2..] == rest;
  }

  /** A name that ends with a colon loses it to the separator. */
  lemma ColonIsTaken(name: string, rest: string)
    requires name != "" && name[|name| - 1] == ':'
    ensures Decomposition(name + SEPARATOR + rest)[0] != name
  {
    var s := name + SEPARATOR + rest;
    assert s[|name| - 1] == ':' && s[|name|] == ':';
    assert s[|name| - 1..|name| + 1] == SEPARATOR;
    assert MatchesAt(s, SEPARATOR, |name| - 1);
  }

  /** Decomposing a joined path gives the path back exactly when it is separable. */
  lemma {:induction false} JoinIsDecomposed(path: seq<string>)
    requires path != []
    ensures Decomposition(Join(path, SEPARATOR)) == path <==> Separable(path)
  {
    var s := Join(path, SEPARATOR);
    PartsRejoin(s);
    if |path| == 1 {
      if !Contains(s, SEPARATOR) { assert FindWord(s, SEPARATOR, 0) == None; }
    } else {
      var name, rest := path[0], path[1..];
      JoinIsDecomposed(rest);
      if !Contains(name, SEPARATOR) {
        if name != "" && name[|name| - 1] == ':' {
          ColonIsTaken(name, Join(rest, SEPARATOR));
        } else {
          FirstSeparator(name, Join(rest, SEPARATOR));
          SeparableTail(path);
          assert path == [name] + rest;
        }
      }
    }
  }

  lemma SeparableTail(path: seq<string>)
    requires |path| > 1 && !Contains(path[0], SEPARATOR) && (path[0] == "" || path[0][|path[0]| - 1] != ':')
    ensures Separable(path) <==> Separable(path[1..])
  {
    var rest := path[1..];
    if Separable(rest) {
      forall k | 0 <= k < |path| ensures !Contains(path[k], SEPARATOR) {
        if k > 0 { assert path[k] == rest[k - 1]; }
      }
      forall k | 0 <= k < |path| - 1 ensures path[k] == "" || path[k][|path[k]| - 1] != ':' {
        if k > 0 { assert path[k] == rest[k - 1]; }
      }
    }
  }

  // ----- Qualified names

  /** A declaration and what encloses it, out to the translation unit; a parent may be missing. */
  datatype Cursor = TranslationUnit | Declaration(spelling: string, parent: Option<Cursor>)

  function Path(c: Cursor): seq<string> {
    match c
    case TranslationUnit => []
    case Declaration(name, None) => [name]
    case Declaration(name, Some(p)) => Path(p) + [name]
  }

  function QualifiedName(c: Cursor): string {
    match c
    case TranslationUnit => ""
    case Declaration(name, parent) =>
      var outer := match parent { case None => "" case Some(p) => QualifiedName(p) };
      if outer == "" then name else outer + SEPARATOR + name
  }

  method GetQualifiedName(c: Cursor) returns (ret: string)
    ensures ret == QualifiedName(c)
    decreases c
  {
    ret := "";
    if c.Declaration? {
      if c.parent.Some? {
        ret := GetQualifiedName(c.parent.value);
      }
      if ret != "" {
        ret := ret + SEPARATOR;
      }
      ret := ret + c.spelling;
    }
  }

  /** The qualified name is the joined path, unless the outermost of several names is empty. */
  lemma {:induction false} QualifiedNameIsPath(c: Cursor)
    ensures QualifiedName(c) == Join(Path(c), SEPARATOR) <==> |Path(c)| <= 1 || Path(c)[0] != ""
    ensures |QualifiedName(c)| <= |Join(Path(c), SEPARATOR)|
    ensures QualifiedName(c) == "" && |Path(c)| > 1 ==> Path(c)[0] == ""
  {
    match c
    case TranslationUnit =>
    case Declaration(name, None) =>
    case Declaration(name, Some(p)) =>
      QualifiedNameIsPath(p);
      JoinConcat(Path(p), [name], SEPARATOR);
      if Path(p) == [] {
        assert [] + [name] == [name];
      } else if QualifiedName(p) == "" {
        assert |Path(p)| == 1 ==> Path(p) == [Path(p)[0]];
        assert Path(c)[0] == Path(p)[0] == "";
      } else {
        var long, short := Join(Path(c), SEPARATOR), QualifiedName(c);
        assert long[..|Join(Path(p), SEPARATOR)|] == Join(Path(p), SEPARATOR);
        assert short[..|QualifiedName(p)|] == QualifiedName(p);
        assert Path(c)[0] == Path(p)[0];
      }
  }

  /** Decomposing a declaration's qualified name gives back the path to it exactly when the path
      is separable and the outermost name is not an empty one of several. In particular for
      every path of non-empty names without colons. */
  lemma QualifiedNameIsDecomposed(c: Cursor)
    requires Path(c) != []
    ensures Decomposition(QualifiedName(c)) == Path(c) <==> Separable(Path(c)) && (|Path(c)| == 1 || Path(c)[0] != "")
    ensures (forall k :: 0 <= k < |Path(c)| ==> Path(c)[k] != "" && ':' !in Path(c)[k]) ==>
            Decomposition(QualifiedName(c)) == Path(c)
  {
    QualifiedNameIsPath(c);
    PartsRejoin(QualifiedName(c));
    JoinIsDecomposed(Path(c));
    if forall k :: 0 <= k < |Path(c)| ==> Path(c)[k] != "" && ':' !in Path(c)[k] {
      ColonFreeIsSeparable(Path(c));
    }
  }

  /** For instance a method of a class in a namespace. */
  lemma QualifiedNameExample()
    ensures var space := Declaration("namespace1", Some(TranslationUnit));
            QualifiedName(Declaration("method1", Some(Declaration("class1", Some(space))))) ==
            "namespace1::class1::method1"
  {
    var space := Declaration("namespace1", Some(TranslationUnit));
    var inner := Declaration("class1", Some(space));
    assert QualifiedName(space) == "namespace1";
    assert QualifiedName(inner) == "namespace1" + "::" + "class1";
    assert "namespace1::class1::method1" == "namespace1" + "::" + "class1" + "::" + "method1";
  }

  lemma ColonFreeIsSeparable(path: seq<string>)
    requires forall k :: 0 <= k < |path| ==> ':' !in path[k]
    ensures Separable(path)
  {
    forall k, i | 0 <= k < |path| && 0 <= i <= |path[k]| ensures !MatchesAt(path[k], SEPARATOR, i) {
      if i + 2 <= |path[k]| { assert path[k][i..i + 2][0] == path[k][i] != ':'; }
    }
  }
}
