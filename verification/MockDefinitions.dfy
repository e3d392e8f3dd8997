/** That a mock defines the function it is for: its return type, name, parameters and qualifiers
    (app/sources/Function.cpp, GenerateMock). */
module MockDefinitions {
  import opened StringHelper
  import opened CppTypes
  import opened Arguments
  import opened ArgumentParser
  import opened FunctionGenerator
  import opened Signatures
  import Overrides
  import ArgumentProperties
  import TypeIds
  import ExpectationTypes

  // ----- The definition

  /** The argument was made for a parameter of type t. */
  ghost predicate IsFor(a: Argument, scope: TypeIds.Scope, t: CType) {
    && WellFormed(t) && TypeIds.Declares(scope, t) && TypeIds.IsWritten(t)
    && AreCutFrom(a.typePre, a.typePost, Spell(t)) && (a.Standard? ==> TypeTexts(a, Spell(t)) && IsPlainName(a.name))
  }

  /** How a parameter is declared: its type and its name, unless the argument is skipped. */
  function DeclarationOf(a: Argument, t: CType): string {
    if a.Skipped? then Spell(t) else Spell(Before(t)) + " " + a.name + AfterName(t)
  }

  function Declarations(args: seq<Argument>, ts: seq<CType>): (ds: seq<string>)
    requires |ts| == |args|
    ensures |ds| == |args|
  {
    seq(|args|, i requires 0 <= i < |args| => DeclarationOf(args[i], ts[i]))
  }

  /** The mock of a function begins with the function's own declaration, if no type is cut, and all that
      is between its braces is one statement. */
  lemma MockDefinesFunction(f: Function, scope: TypeIds.Scope, ts: seq<CType>) returns (body: string)
    requires |ts| == |f.args| && forall i :: 0 <= i < |ts| ==> IsFor(f.args[i], scope, ts[i]) && !IsCut(ts[i])
    ensures MockText(f) ==
            ((if f.ret.NoReturn? then "" else f.ret.originalType + " ") + f.name + "(" +
             Join(Declarations(f.args, ts), ", ") +
             (")" + (if f.isConst then " const" else "") + f.exceptionSpec)) +
            "\n{\n    " + body + ";\n}\n"
  {
    hide Spell, TypeIds.Declares, IsCut, AreCutFrom, TypeTexts, Canonical, MockSignature, Join, Flatten, MockBodies;
    forall i | 0 <= i < |ts| ensures MockSignatures(f.args)[i] == Declarations(f.args, ts)[i] {
      assert IsFor(f.args[i], scope, ts[i]);
      if f.args[i].Skipped? {
        SkippedDeclares(scope, ts[i], f.args[i]);
      } else {
        MockDeclares(scope, ts[i], f.args[i]);
      }
    }
    assert MockSignatures(f.args) == Declarations(f.args, ts);
    body := MockCall(f) + Flatten(MockBodies(f.args)) + (if f.ret.ReturnsValue? then f.ret.bodyBack else "");
  }

  // ----- Which parameters can be ignored

  /** A parameter can be ignored in an expectation exactly if it is an input, as the call in the mock
      records it, and not an rvalue reference. */
  lemma IgnorableExactly(underlying: bool, t: CType, a: Argument)
    requires WellFormed(t) && ArgTypeSpec(underlying, t, t, false).Some? && a.Standard?
    requires BuiltFromType(a, t, ArgTypeSpec(underlying, t, t, false).value)
    ensures CanBeIgnored(a) <==>
            ParameterOf(a).kind != Overrides.Output && ParameterOf(a).kind != Overrides.OutputOfType &&
            !Canonical(t).shape.RValueRef?
    ensures CanBeIgnored(a) <==> ExpectationTypes.Ignorable(ArgTypeSpec(underlying, t, t, false).value)
  {
    hide ArgTypeSpec, Spell, TypeTexts, Canonical;
    ArgumentProperties.ArgumentFlags(underlying, t, t, false);
  }
}
