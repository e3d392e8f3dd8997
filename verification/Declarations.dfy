/** Whether an expectation function declares any name twice (app/sources/Function.cpp,
    ArgumentParser::Process and GenerateExpectation). */
module Declarations {
  import opened StringHelper
  import opened Overrides
  import opened Arguments
  import opened ArgumentParser
  import opened FunctionGenerator
  import StatementNames

  // ----- Lists of names

  predicate Distinct(names: seq<string>) {
    forall i, j :: 0 <= i < j < |names| ==> names[i] != names[j]
  }

  predicate Apart(a: seq<string>, b: seq<string>) {
    forall x :: x in a ==> x !in b
  }

  lemma DistinctConcat(a: seq<string>, b: seq<string>)
    ensures Distinct(a + b) <==> Distinct(a) && Distinct(b) && Apart(a, b)
  {
    var c := a + b;
    if Distinct(c) {
      forall i, j | 0 <= i < j < |a| ensures a[i] != a[j] { assert c[i] == a[i] && c[j] == a[j]; }
      forall i, j | 0 <= i < j < |b| ensures b[i] != b[j] { assert c[|a| + i] == b[i] && c[|a| + j] == b[j]; }
      forall i, j | 0 <= i < |a| && 0 <= j < |b| ensures a[i] != b[j] { assert c[i] == a[i] && c[|a| + j] == b[j]; }
    } else {
      var i, j :| 0 <= i < j < |c| && c[i] == c[j];
      if j < |a| {
        assert a[i] == a[j];
      } else if i < |a| {
        assert a[i] in a && a[i] == b[j - |a|] && b[j - |a|] in b;
      } else {
        assert b[i - |a|] == b[j - |a|];
      }
    }
  }

  lemma ApartConcat(a: seq<string>, b: seq<string>, c: seq<string>)
    ensures Apart(a + b, c) <==> Apart(a, c) && Apart(b, c)
    ensures Apart(c, a + b) <==> Apart(c, a) && Apart(c, b)
  {
  }

  // ----- The names of the arguments

  /** The names that the arguments bring into the expectation. */
  function ArgumentNames(args: seq<Argument>): seq<string> {
    if args == [] then []
    else ArgumentNames(args[..|args| - 1]) + OwnNames(args[|args| - 1])
  }

  function OwnNames(a: Argument): seq<string> {
    if a.Skipped? then [] else [a.name] + if TakesSize(a) then [SizeName(a)] else []
  }

  /** No two arguments have the same name, and none is named like the size of another. */
  predicate ArgumentsDiffer(args: seq<Argument>) {
    && (forall i, j :: 0 <= i < j < |args| && args[i].Standard? && args[j].Standard? ==> args[i].name != args[j].name)
    && (forall i, j :: 0 <= i < |args| && 0 <= j < |args| && args[i].Standard? && TakesSize(args[j]) ==>
                         args[i].name != SizeName(args[j]))
  }

  lemma SizeNamesDiffer(a: Argument, b: Argument)
    ensures SizeName(a) == SizeName(b) <==> a.name == b.name
    ensures SizeName(a) != a.name
  {
    if SizeName(a) == SizeName(b) { assert SizeName(a)[9..] == a.name && SizeName(b)[9..] == b.name; }
  }

  lemma {:induction false} InArgumentNames(args: seq<Argument>, n: string)
    ensures n in ArgumentNames(args) <==> exists i :: 0 <= i < |args| && n in OwnNames(args[i])
  {
    hide OwnNames;
    if args != [] {
      var front, last := args[..|args| - 1], args[|args| - 1];
      InArgumentNames(front, n);
      if n in OwnNames(last) { assert args[|args| - 1] == last; }
      if i :| 0 <= i < |front| && n in OwnNames(front[i]) { assert args[i] == front[i]; }
    }
  }

  lemma {:induction false} ArgumentsAreDistinct(args: seq<Argument>)
    ensures Distinct(ArgumentNames(args)) <==> ArgumentsDiffer(args)
  {
    if args != [] {
      var front, last := args[..|args| - 1], args[|args| - 1];
      ArgumentsAreDistinct(front);
      DistinctConcat(ArgumentNames(front), OwnNames(last));
      OwnAreDistinct(last);
      OneMoreDiffers(args);
      OwnAreApart(front, last);
    }
  }

  lemma OwnAreDistinct(a: Argument)
    ensures Distinct(OwnNames(a))
  {
    SizeNamesDiffer(a, a);
  }

  /** One argument beside another. */
  predicate PairDiffers(a: Argument, b: Argument) {
    a.Standard? && b.Standard? ==>
      && a.name != b.name && (TakesSize(b) ==> a.name != SizeName(b)) && (TakesSize(a) ==> b.name != SizeName(a))
  }

  lemma OneMoreDiffers(args: seq<Argument>)
    requires args != []
    ensures var front, last := args[..|args| - 1], args[|args| - 1];
            ArgumentsDiffer(args) <==>
            ArgumentsDiffer(front) && forall i :: 0 <= i < |front| ==> PairDiffers(front[i], last)
  {
    var front, last := args[..|args| - 1], args[|args| - 1];
    if ArgumentsDiffer(front) && forall i :: 0 <= i < |front| ==> PairDiffers(front[i], last) {
      forall i, j | 0 <= i < j < |args| && args[i].Standard? && args[j].Standard? ensures args[i].name != args[j].name {
        assert args[i] == front[i];
        if j < |front| { assert args[j] == front[j]; }
      }
      forall i, j | 0 <= i < |args| && 0 <= j < |args| && args[i].Standard? && TakesSize(args[j])
        ensures args[i].name != SizeName(args[j])
      {
        if i == j { SizeNamesDiffer(args[i], args[i]); }
        if i < |front| { assert args[i] == front[i]; }
        if j < |front| { assert args[j] == front[j]; }
      }
    }
    if ArgumentsDiffer(args) {
      forall i | 0 <= i < |front| ensures PairDiffers(front[i], last) { assert front[i] == args[i]; }
      assert ArgumentsDiffer(front);
    }
  }

  lemma OwnAreApart(front: seq<Argument>, last: Argument)
    ensures Apart(ArgumentNames(front), OwnNames(last)) <==>
            forall i :: 0 <= i < |front| ==> PairDiffers(front[i], last)
  {
    forall i | 0 <= i < |front| ensures PairDiffers(front[i], last) <==> Apart(OwnNames(front[i]), OwnNames(last)) {
      PairIsApart(front[i], last);
    }
    hide OwnNames, PairDiffers;
    forall n ensures n in ArgumentNames(front) <==> exists i :: 0 <= i < |front| && n in OwnNames(front[i]) {
      InArgumentNames(front, n);
    }
    if Apart(ArgumentNames(front), OwnNames(last)) {
      forall i | 0 <= i < |front| ensures Apart(OwnNames(front[i]), OwnNames(last)) { }
    }
  }

  lemma PairIsApart(a: Argument, b: Argument)
    ensures PairDiffers(a, b) <==> Apart(OwnNames(a), OwnNames(b))
  {
    SizeNamesDiffer(a, b);
    if a.Standard? && b.Standard? {
      assert a.name in OwnNames(a) && b.name in OwnNames(b);
      if TakesSize(a) { assert SizeName(a) in OwnNames(a); }
      if TakesSize(b) { assert SizeName(b) in OwnNames(b); }
    }
  }

  // ----- All the names of an overload

  /** The variables of the N-call overload. */
  function LocalNames(f: Function): seq<string> {
    (if !f.Skips() && f.Ignores() then [FLAG] else []) + [CALL]
  }

  lemma {:induction false} DeclaredConcat(a: seq<Stmt>, b: seq<Stmt>)
    ensures StatementNames.Declared(a + b) == StatementNames.Declared(a) + StatementNames.Declared(b)
  {
    hide StatementNames.Declares;
    if a == [] {
      assert a + b == b;
    } else {
      assert (a + b)[1..] == a[1..] + b;
      DeclaredConcat(a[1..], b);
    }
  }

  lemma {:induction false} ArgumentsDeclareNothing(args: seq<Argument>, skips: bool)
    ensures StatementNames.Declared(AllArgStmts(args, skips)) == {}
  {
    if args != [] {
      var last := args[|args| - 1];
      ArgumentsDeclareNothing(args[..|args| - 1], skips);
      DeclaredConcat(AllArgStmts(args[..|args| - 1], skips), ArgStmts(last, skips));
    }
  }

  /** These are what the statements of the body declare. */
  lemma LocalsAreDeclared(f: Function)
    ensures StatementNames.Declared(NCallBody(f)) == set n | n in LocalNames(f)
  {
    hide f.Skips, f.Ignores, AllArgStmts;
    var a, b, c, d := StartStmts(f), AllArgStmts(f.args, f.Skips()), ReturnStmts(f), EndStmts(f);
    DeclaredConcat(a + b + c, d);
    DeclaredConcat(a + b, c);
    DeclaredConcat(a, b);
    ArgumentsDeclareNothing(f.args, f.Skips());
    StartDeclares(f);
    EndDeclares(f);
  }

  lemma EndDeclares(f: Function)
    ensures StatementNames.Declared(EndStmts(f)) == {} && StatementNames.Declared(ReturnStmts(f)) == {}
  {
    hide f.Skips, f.Ignores;
    var e := EndStmts(f);
    DeclaredConcat(e[..|e| - 1], [ReturnCall]);
    assert e == e[..|e| - 1] + [ReturnCall];
  }

  lemma StartDeclares(f: Function)
    ensures StatementNames.Declared(StartStmts(f)) == set n | n in LocalNames(f)
  {
    hide f.Skips, f.Ignores;
    var flag := if !f.Skips() && f.Ignores() then [DeclareFlag] else [];
    var onObject := if f.isNonStatic then [OnObject(f.className)] else [];
    DeclaredConcat(flag + [DeclareCall(f.name)], onObject);
    DeclaredConcat(flag, [DeclareCall(f.name)]);
  }

  /** Everything that is declared in the N-call overload. */
  function DeclaredNames(f: Function): seq<string>
    requires f.ValidArgs()
  {
    Names(Params(f, false, false)) + LocalNames(f)
  }

  function NamesBefore(f: Function): seq<string> {
    ["__numCalls__"] + if f.isNonStatic then ["__object__"] else []
  }

  function NamesAfter(f: Function): seq<string> {
    (if f.ret.ReturnsValue? then ["__return__"] else []) + LocalNames(f)
  }

  lemma FixedAreDistinct(f: Function)
    ensures Distinct(NamesBefore(f)) && Distinct(NamesAfter(f)) && Apart(NamesBefore(f), NamesAfter(f))
  {
    hide f.Skips, f.Ignores;
    FixedWords();
  }

  lemma FixedWords()
    ensures "__numCalls__"[2] == 'n' && "__object__"[2] == 'o' && "__return__"[2] == 'r'
    ensures FLAG[2] == 'i' && CALL[2] == 'e'
  {
  }

  lemma SizesAreNotFixed(f: Function, a: Argument)
    ensures SizeName(a) !in NamesBefore(f) + NamesAfter(f)
  {
    hide f.Skips, f.Ignores;
    FixedWords();
    assert SizeName(a)[2] == 's';
  }

  lemma {:induction false} ParamNamesAreArguments(args: seq<Argument>)
    requires forall i :: 0 <= i < |args| ==> Valid(args[i])
    ensures Names(AllArgParams(args)) == ArgumentNames(args)
  {
    if args != [] {
      var front, last := args[..|args| - 1], args[|args| - 1];
      ParamNamesAreArguments(front);
      NamesConcat(AllArgParams(front), ArgParams(last));
      assert Names(ArgParams(last)) == OwnNames(last);
    }
  }

  lemma DeclaredParts(f: Function)
    requires f.ValidArgs()
    ensures DeclaredNames(f) == NamesBefore(f) + ArgumentNames(f.args) + NamesAfter(f)
  {
    hide f.Skips, f.Ignores, AllArgParams, ArgumentNames, LocalNames;
    var c, o, a, r := CountParams(false), ObjectParams(f, false), AllArgParams(f.args), ReturnParams(f);
    NamesConcat(c + o + a, r);
    NamesConcat(c + o, a);
    NamesConcat(c, o);
    ParamNamesAreArguments(f.args);
    assert Names(c) == ["__numCalls__"];
    assert Names(o) == if f.isNonStatic then ["__object__"] else [];
    assert Names(r) == if f.ret.ReturnsValue? then ["__return__"] else [];
    Regroup(NamesBefore(f) + ArgumentNames(f.args), Names(r), LocalNames(f));
  }

  /** No name is declared twice in the N-call overload, exactly if the arguments' names differ, none
      is that of another's size, and none is one that the generator uses. */
  lemma DeclaredOnceExactly(f: Function)
    requires f.ValidArgs()
    ensures Distinct(DeclaredNames(f)) <==>
            ArgumentsDiffer(f.args) &&
            forall i :: 0 <= i < |f.args| && f.args[i].Standard? ==>
                          f.args[i].name !in NamesBefore(f) + NamesAfter(f)
  {
    var x, a, y := NamesBefore(f), ArgumentNames(f.args), NamesAfter(f);
    DeclaredParts(f);
    FixedAreDistinct(f);
    ArgumentsAreDistinct(f.args);
    hide Distinct, NamesBefore, NamesAfter, DeclaredNames, ArgumentNames, ArgumentsDiffer;
    DistinctConcat(x + a, y);
    DistinctConcat(x, a);
    ApartConcat(x, a, y);
    NotFixed(f, x, y);
  }

  lemma NotFixed(f: Function, x: seq<string>, y: seq<string>)
    requires x == NamesBefore(f) && y == NamesAfter(f)
    ensures Apart(x, ArgumentNames(f.args)) && Apart(ArgumentNames(f.args), y) <==>
            forall i :: 0 <= i < |f.args| && f.args[i].Standard? ==> f.args[i].name !in x + y
  {
    hide NamesBefore, NamesAfter, ArgumentNames;
    forall n ensures n in ArgumentNames(f.args) <==> exists i :: 0 <= i < |f.args| && n in OwnNames(f.args[i]) {
      InArgumentNames(f.args, n);
    }
    forall i | 0 <= i < |f.args| ensures SizeName(f.args[i]) !in x + y { SizesAreNotFixed(f, f.args[i]); }
    if Apart(x, ArgumentNames(f.args)) && Apart(ArgumentNames(f.args), y) {
      forall i | 0 <= i < |f.args| && f.args[i].Standard? ensures f.args[i].name !in x + y {
        assert f.args[i].name in OwnNames(f.args[i]);
      }
    }
  }

  // ----- Arguments without a name

  lemma {:induction false} DigitsDiffer(m: nat, n: nat)
    requires Digits(m) == Digits(n)
    ensures m == n
  {
    var a, b := Digits(m), Digits(n);
    assert |a| == 1 <==> m < 10 by { SomeDigits(m / 10); }
    assert |b| == 1 <==> n < 10 by { SomeDigits(n / 10); }
    assert a[|a| - 1] == b[|b| - 1];
    if m >= 10 {
      assert a[..|a| - 1] == Digits(m / 10) && b[..|b| - 1] == Digits(n / 10);
      DigitsDiffer(m / 10, n / 10);
    }
  }

  /** The number that digits stand for. */
  function NumberOf(s: string): int {
    if s == "" then 0 else 10 * NumberOf(s[..|s| - 1]) + (s[|s| - 1] as int - '0' as int)
  }

  lemma {:induction false} DigitsAreDecimal(n: nat)
    ensures NumberOf(Digits(n)) == n && forall i :: 0 <= i < |Digits(n)| ==> '0' <= Digits(n)[i] <= '9'
  {
    var s := Digits(n);
    if n < 10 {
      assert s[..0] == "";
    } else {
      DigitsAreDecimal(n / 10);
      assert s[..|s| - 1] == Digits(n / 10);
    }
  }

  lemma SomeDigits(n: nat)
    ensures Digits(n) != ""
  {
  }

  /** The names under which a function's arguments go, from those in its declaration. */
  function FinalNames(names: seq<string>): seq<string> {
    seq(|names|, i requires 0 <= i < |names| => ArgumentName(names[i], i))
  }

  /** A declaration that names no two arguments alike still ends up with two that are, exactly if
      one is given the name that another without a name is given for its position. */
  lemma FinalNamesDifferExactly(names: seq<string>)
    requires forall i, j :: 0 <= i < j < |names| && names[i] == names[j] ==> names[i] == ""
    ensures Distinct(FinalNames(names)) <==>
            forall i, j :: 0 <= i < |names| && 0 <= j < |names| && names[i] == "" && names[j] != "" ==>
                             names[j] != ArgumentName("", i)
  {
    var given := FinalNames(names);
    forall i | 0 <= i < |names| ensures names[i] != "" ==> given[i] == names[i] { }
    hide ArgumentName;
    if Distinct(given) {
      forall i, j | 0 <= i < |names| && 0 <= j < |names| && names[i] == "" && names[j] != ""
        ensures names[j] != ArgumentName("", i)
      {
        assert given[i] == ArgumentName("", i) && given[j] == names[j];
      }
    } else {
      var i, j :| 0 <= i < j < |given| && given[i] == given[j];
      assert given[i] == ArgumentName(names[i], i) && given[j] == ArgumentName(names[j], j);
      if names[i] == names[j] == "" { UnnamedDiffer(i, j); }
    }
  }

  lemma UnnamedDiffer(i: nat, j: nat)
    requires ArgumentName("", i) == ArgumentName("", j)
    ensures i == j
  {
    hide Digits;
    assert ("_unnamedArg" + Digits(i))[11..] == Digits(i) && ("_unnamedArg" + Digits(j))[11..] == Digits(j);
    DigitsDiffer(i, j);
  }

  /** For instance `int, int _unnamedArg0`. */
  lemma UnnamedExample()
    ensures !Distinct(FinalNames(["", "_unnamedArg0"]))
  {
    var names := ["", "_unnamedArg0"];
    assert "_unnamedArg" + Digits(0) == "_unnamedArg0";
    assert FinalNames(names)[0] == FinalNames(names)[1];
  }
}
