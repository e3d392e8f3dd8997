# A verified model of CppUMockGen

CppUMockGen turns C and C++ declarations into mock code and expectation code for CppUMock, and later reads the
mock files it wrote in order to generate them again. This project models the parts of it in which one piece of
text has to agree with another, and proves that they do:

- **The code generator.** A return or argument type is taken apart by recursion and an expression is built
  around a getter or an argument name by prepending to one string and appending to another. `CppTypes` models
  types, `Expressions` the generated expressions with a printer, a typing judgement and an evaluation;
  `ReturnParser` and `ArgumentParser` are the two parsers and `ReturnProperties` and `ArgumentProperties` what
  holds of every type they are given. `Manual` is the manual's table of types, read without regard to the
  code. `ExpectationTypes` and `ArgumentValues` carry typing and values over to the expectation functions,
  whose parameters have other types than the mock's. `TypeIds` is the grammar of C++ type-ids with a scope
  that says what each name stands for; a text names at most one type in it (`NamesOneType`). It tells which of
  the texts that are printed name the types they are meant for, and `Signatures` does so for declarations.
- **Mock against expectation.** `Arguments` and `FunctionGenerator` produce both texts from the same argument
  list. The body of the N-call expectation is given a meaning (`Exec`); the call that the mock reports fulfils
  the call it describes, whatever the test ignores. `MockCalls`, `EmittedText` and `EmittedBody` read the
  texts themselves back with tables of CppUMock's method names: a call, the whole mock with the value it asks
  for, and the whole body line by line, which is then run. `StatementNames` ties the names a statement is said
  to use to its text, `Declarations` says when no name is declared twice, and `Braces` counts braces.
  `BuiltFunctions` shows that the texts of every function made from types can be read in this way and that
  their braces balance. `MockDefinitions` and `ExpectationNames` are about what the texts declare: the mocked
  function itself, and expectations in the namespaces and under the names of the manual; `ExposedNames` is
  about the names under which classes are compared.
- **The option language.** `Options` is the hand-written tokenizer with its quoting rules and the printer
  meant to be its inverse; `ConfigFiles` is the traversal of configuration files that include each other.
- **The regeneration loop.** `MockFile` writes a mock file, `OutputFile` reads user code and options back, any
  number of times over; `MockContents` says what else the file holds, and `MockLines` which mocks hold no line
  that is mistaken for a marker or a label.
- **Overrides.** `Overrides` is the grammar of override options and the map they build. `OverrideOptions` and
  `OverriddenCalls` follow an option from the text the manual gives for it, by way of the map and the order of
  preference, to the calls that are generated and the table of overrides. `Namespaces` takes qualified names
  apart and builds them. `StringHelper` holds the string functions used throughout.

The source's classes are classes here, with the fields its methods update, and its loops are loops. Each such
method is proved equal to a function of its inputs, and the properties are proved of that function. Source
functions that do many things in one body are split into methods that call each other.

## Where the code and its promises part

Each of these is stated with the exact condition under which the promise holds.

- **Options survive regeneration exactly when `Options.Survives` holds of each.** An option that is empty,
  starts with a quote while it needs no quoting, or is quoted and has an unescaped quote or ends in a
  backslash is lost (`PrintedIsReadBack`, `CasualtyIsLost`).
- **Escaping is not undone.** MANUAL.md:285 says that a quote inside an argument can be escaped with a
  backslash. The tokenizer keeps the backslash. Text with its quotes escaped is read as one parameter exactly
  if the text does not end in a backslash, and as the text itself exactly if in addition there was no quote to
  escape (`EscapedIsRead`). The manual's own example is not read as it is meant, and would not survive
  regeneration (`ManualExampleFails`).
- **Only spaces separate options.** MANUAL.md:285 speaks of white space. Two words on a line are read as two
  exactly if the character between them is a space (`OnlySpacesSeparate`).
- **Const on the elaborated name of an array type is lost.** For `namespace ns { typedef int Array[]; }` and a
  parameter of type `const ns::Array` the code passes a `const` array to `withOutputParameter`. The argument
  is well typed exactly when `LosesConst` does not hold (`ArgumentIsWellTypedExactly`, `LostConstExample`).
- **Casts that name no type.** Values convert for every supported return type (`ReturnIsWellTyped`), but a
  cast is text. In every scope that declares the names a type is made of, it names the type it is meant for
  exactly if neither of two things happens (`ReturnCastsNameExactly`, `ReturnCompilesExactly`). A class
  declared const under its own or a typedef's name gets `const const`, which section 10.1.7 of ISO/IEC
  14882:2017 does not allow (`ConstIsDoubledExactly`). And where a name hides a reference to an array, or to a
  pointer to one, the sign is put after the brackets, as in `int []*` (`HiddenArrayExample`).
- **Brackets in template arguments.** A type's spelling is cut at its first `[` and the rest is put behind the
  name, so that an argument of type `F<int[2]>` is declared as `F<int x[2]>` (`CutExample`). Mock and
  expectation declare an argument's own type exactly if no bracket but that of an array itself is spelled
  (`MockDeclares`, `ParameterTypeIsNamed`).
- **Spaces in template arguments.** The name under which a class is compared or copied is the last word of a
  spelling, so that `F<int, char>` goes by `char>` (`CutNameExample`). It is the name that is written, or with
  `-u` that of the class, exactly if that is a single word and no sign stands by itself, as in `S *const &&`
  (`ExposedNameExactly`).
- **The size of an incomplete array.** For a parameter `A &` with `A` a name for `int[]` the expectation
  prints `sizeof` of an array without bound. Value and size type-check exactly if no const is lost and the
  type is not written as a reference to such an array (`ExpectationArgumentIsWellTypedExactly`,
  `ArrayReferenceExample`).
- **The manual's table of kinds (MANUAL.md:293-311).** An argument gets the documented kind exactly if the
  type is not one of `Differs` (`KindIsDocumentedExactly`). Those are: types whose const is lost as above;
  `char` and `const char *` where plain characters are unsigned, which are taken as `unsigned char` is
  (`UnsignedCharExamples`); arrays of classes, of const characters and of pointers that are not const, which
  are not taken as the pointers they are (`ArrayExamples`); an rvalue reference to a class that is not const,
  named by a typedef, taken by value; a pointer to const char behind a typedef of the character, a const
  pointer and no string; and a typedef of a pointer or reference, looked into only as far as const, which
  agrees with the table exactly for the targets of `HiddenAgrees` (`DifferingExamples`). A return gets the
  documented getter exactly if neither such a typedef of the character nor an unsigned plain character is in
  the way (`ReturnKindIsDocumentedExactly`, `UnsignedCharReturns`). Where the table has no row the model reads
  it so: `signed char` as `char`, other basic types behind a pointer or reference and arrays behind a
  reference as primitive ones.
- **The one-call overload does not type-check for rvalue references behind a typedef.** It forwards its
  parameters by name. For a parameter declared as an rvalue reference that name is an lvalue, which does not
  bind. The code strips a sign from types spelled `T &&`, but adds one again when `T` is a typedef of a class,
  and does not see rvalue references inside a typedef. `ForwardingTypeChecksExactly` and
  `ReturnForwardingTypeChecksExactly` give the condition, `ForwardingFailsExample` an instance.
- **A return lookup can find an override that no return may have** exactly for lookup keys with one `#`,
  without `=` and without surrounding spaces (`UnfitOverrideCanBeFound`). For names and spellings free of `#`
  the "internal error" cannot be reached.
- **Text that looks like the tool's own.** User code is read back from a mock file exactly if it is made of
  whole lines none of which looks like a label or a marker (`UserCodeIsReadExactly`); a `Generation options:`
  line is lost (`LabelLineIsLost`). What has been extracted once is stable (`UserCodeIsStable`). A mock can be
  such a line itself: the signature of `Generation options::f()` reads as a label, with the options `:f()`
  (`LookalikeExample`). For functions made from types this cannot happen if `options` is no word of any name
  and no name holds a slash (`BuiltMockIsSafe`, `SafeMocksFit`).
- **Names declared twice.** The N-call overload declares no name twice exactly if the arguments' names differ,
  none is that of another's size and none is one of the generator's own (`DeclaredOnceExactly`). For an
  argument without a name the code makes up `_unnamedArg` and its position. The names of a valid declaration
  stay different exactly if no argument has a name made up for another (`FinalNamesDifferExactly`,
  `UnnamedExample`).
- `TrimString` leaves a string made of spaces as it is, so ` ` can be a type name in an override
  (`StandsAlone`).

## What the model assumes

- Clang types are a datatype with a const flag on every node. Canonical array types carry the const of their
  elements, references to references collapse, and the canonical form of an unexposed (template) class is
  itself. `Spell` is one concrete spelling of a type.
- Names of types hold signs, brackets of arrays and a leading `const` only inside template arguments and no
  space at their ends (`TypeIds.GoodName`); a scope maps them to canonical types, the basic names among them
  (`Declares`, `HasBasics`, `BasicScope`). A reference to a reference is not written as such (`IsWritten`).
  All this is asked for only where text is read as a type.
- A function is "built" (`BuiltFunctions.FunctionIsBuilt`) if its arguments and return come from types, its
  argument names are identifiers, its names hold no line feed, the names exposed to CppUMock no quote and the
  casts of its return no dot. Arguments that come from overrides hold arbitrary text; for them legibility is a
  hypothesis.
- Numeric ranges are those of LP64; an enumeration is held as an `int`; floating values are not rounded.
- `cxxopts` is a function from parameter lists to the configuration files and other parameters they name; path
  resolution, the parent of a path and the contents of files are functions and a map. The three regular
  expressions are explicit predicates on a line.
- The include text, the exception specification and the program version are given as text. The empty function
  name gives empty text, as in the source.
- A constructor that throws is a result value or null. Argument objects are frozen into `Argument` values when
  parsing ends.
- Of CppUMock: which parameter each method records (`MockCalls.MeaningOf`), that a call fulfils an expectation
  if it reports each expected parameter and no other unless others are ignored, and which getter yields which
  type.

## Model

| member | source | states |
|---|---|---|
| StringHelper.TrimString | app/sources/StringHelper.cpp:14-23 | the result is a slice with only spaces cut off at both ends; a string of spaces comes back unchanged |
| StringHelper.TrimStripsPadding | app/sources/StringHelper.cpp:14-23 | padding a trimmed text with spaces and trimming it gives it back |
| StringHelper.StringCount | app/sources/StringHelper.cpp:25-40 | the search loop returns the multiplicity of the character |
| Options.ScanTokenizes | app/sources/Options.cpp:41-105 | on every line the tokenizer either gives ordered disjoint slices whose complement is spaces and delimiting quotes only, or fails at a quote that is never closed |
| Options.FindClosingQuote | app/sources/Options.cpp:60-78 | the inner loop finds the first quote not preceded by a backslash, staying inside the line |
| Options.ProcessConfigLine | app/sources/Options.cpp:41-105 | the loop appends exactly the tokens of the line to the parameters, or fails where the specification does |
| Options.OptionValues.GetGenerationOptions | app/sources/Options.cpp:306-338 | the loop's output, without its last space, is the space-joined list of quoted options |
| Options.TokensNeverStartWithQuote | app/sources/Options.cpp:55-100 | no parameter ever starts with a quote |
| Options.CasualtyIsLost | app/sources/Options.cpp:294-304 | an empty option leaves only what follows it, and any other that does not survive is not read back first, whatever follows it |
| Options.PrintedIsReadBack | app/sources/Options.cpp:294-304 | tokenizing a printed option list gives back that list if and only if every option survives |
| Options.SpecialsAreThese | app/sources/Options.cpp:294-304 | the characters that make an option be quoted are those of the list |
| Options.GenerationOptionsAreReadBack | app/sources/Options.cpp:200-217 | the generation options of any flags, standard and overrides are read back as those parameters if and only if the standard and overrides survive |
| Options.EscapedIsRead | app/sources/Options.cpp:60-78 | text escaped and quoted by hand is read as one parameter if and only if it does not end in a backslash, and as the text itself if and only if it moreover holds no quote |
| Options.ManualExampleFails | MANUAL.md:285 | the example of escaping in the manual is not read as the text it stands for, and that text does not survive being printed |
| Options.OnlySpacesSeparate | MANUAL.md:285 | two words are read as two parameters if and only if a space is between them |
| ConfigFiles.ConfigReader.ProcessConfigFile | app/sources/Options.cpp:124-159 | one file contributes its configuration files and other parameters in order, or fails if it is missing, cannot be tokenized or is rejected |
| ConfigFiles.ConfigReader.ProcessConfigFiles | app/sources/Options.cpp:161-190 | terminates on cyclic graphs; succeeds exactly when the depth-first visit does, leaves nothing pending, and applies each visited file's parameters in visiting order |
| ConfigFiles.ExploreVisitsReachable | app/sources/Options.cpp:161-198 | the traversal succeeds if and only if every reachable file is good, and then visits exactly the reachable files, each once |
| ConfigFiles.IncluderComesFirst | app/sources/Options.cpp:179-188 | a file not named directly is visited after a file that includes it |
| ConfigFiles.ExploreFailsAt | app/sources/Options.cpp:143-156 | a failed traversal has reached a file that is missing, unreadable or rejected |
| ConfigFiles.PrintedFileIsRead | app/sources/Options.cpp:124-159 | options that survive printing, on any division into lines, are all handed to the option parser in order, and nothing is handed to it exactly if there are none |
| ConfigFiles.AllLinesAreRead | app/sources/Options.cpp:137-141 | every line contributes its parameters, in order, and one that cannot be tokenized spoils the file |
| ConfigFiles.UnreadableLineSpoils | app/sources/Options.cpp:143-156 | a file with a line that cannot be tokenized is not good |
| ConfigFiles.IncludedIsVisited | app/sources/Options.cpp:161-190 | what a visited file names is visited, found from the directory of that file |
| ConfigFiles.ExploreInTurn | app/sources/Options.cpp:161-190 | all that comes of the first files is visited before any of the others |
| ConfigFiles.OthersInOrder | app/sources/Options.cpp:158-159 | the parameters of a visited file are applied between those of the files visited before and after it |
| OutputFile.OutputFileParser.ParseLine | app/sources/OutputFileParser.cpp:55-75 | one line changes capture flag, user code and options as the line's kind says |
| OutputFile.OutputFileParser.Parse | app/sources/OutputFileParser.cpp:33-53 | parsing leaves the extracted user code and options of the file, empty for an unreadable one |
| OutputFile.RunCaptures | app/sources/OutputFileParser.cpp:55-75 | the state machine captures exactly the plain lines that lie in a user code section |
| OutputFile.RunTakesLastLabel | app/sources/OutputFileParser.cpp:67-70 | the options kept are those on the last label line |
| OutputFile.ExtractRecovers | app/sources/OutputFileParser.cpp:33-75 | from any text, the user code is the section's plain lines and the options those of the last label |
| OutputFile.LinesUnlines | app/sources/OutputFileParser.cpp:40-44 | reading line by line undoes writing lines |
| MockFile.Parser.GenerateFileHeading | app/sources/Parser.cpp:338-358 | what is written to the stream is exactly the heading's lines |
| MockFile.Parser.GenerateMock | app/sources/Parser.cpp:264-294 | the stream receives heading, includes, user code between its markers and the mocks, in that order |
| MockFile.MockFileIsRead | app/sources/Parser.cpp:264-294 | the lines put into a generated file are read back as the user code if and only if none looks like a label or marker, and then with the options of the heading |
| MockFile.UserCodeIsReadExactly | app/sources/Parser.cpp:264-294 | any user code is read back from a generated file if and only if it is made of whole plain lines |
| MockFile.LabelLineIsLost | app/sources/OutputFileParser.cpp:67-70 | a concrete line that is not kept as user code |
| MockContents.FileHolds | app/sources/Parser.cpp:264-294 | the lines of a mock file are comments, the inclusion of the header, as C unless it is C++, and of the mocking library, the section of user code, and every mock |
| MockContents.IncludesAreThese | app/sources/Parser.cpp:271-283 | which files are included, and with which linkage |
| MockContents.MarkersExactly | app/sources/OutputFileParser.cpp:55-66 | the lines taken for a marker are those with a comment of either kind in which after white space at most comes the word |
| MockFile.UserCodeIsStable | app/sources/OutputFileParser.cpp:33-75 | for any input file, extracting, generating and extracting again gives the same user code |
| MockFile.RegenerationsKeepUserCode | app/sources/Parser.cpp:264-294 | any number of regenerations keeps the user code |
| MockFile.RegenerationRecoversOptions | app/sources/Parser.cpp:338-358 | printing the options, writing the heading, reading the file and tokenizing gives back the options if and only if they survive |
| MockFile.RerunsKeepOptions | app/sources/App.cpp:147-234 | any number of runs that take their options from the file keep options and user code at every step if and only if the options survive being printed |
| MockFile.SettingsAreRead | app/sources/Options.cpp:306-338 | the parameters written for any settings are read as those settings |
| MockLines.BuiltMockIsSafe | app/sources/Function.cpp:1919-1972 | the mock of a function made from types holds no slash and no word `options` if its names do not |
| MockLines.SafeMocksFit | app/sources/OutputFileParser.cpp:55-75 | such mocks write no line that is read as a marker or a label |
| MockLines.LookalikeExample | app/sources/OutputFileParser.cpp:67-70 | a concrete function whose signature is read as a label, and the options read from it |
| Overrides.ParseExpression | app/sources/Config.cpp:76-97 | cuts an expression at its first placeholder |
| Overrides.ConstructOverrideSpec | app/sources/Config.cpp:99-209 | the constructor fails or fills in each field as the grammar says |
| Overrides.PrintedIsParsed | app/sources/Config.cpp:99-209 | parsing undoes printing for every expressible specification: type, names, expression and size halves |
| Overrides.ParsedIsExpressible | app/sources/Config.cpp:99-209 | everything the constructor accepts is expressible, so the side conditions are the exact ones |
| Overrides.OverrideMap | app/sources/Config.cpp:211-264 | building the map succeeds if and only if every option is grammatical and all trimmed keys differ, and it then holds each option's specification under its key and nothing else; which options these are is said by the next rows |
| OverrideOptions.SaidIsFound | app/sources/Config.cpp:211-270 | options for different subjects, each written as the manual says with any specification, are accepted, and looking a subject up finds the specification written for it and none if there is none |
| OverrideOptions.AcceptedKeysExactly | app/sources/Config.cpp:218-241 | the keys of accepted options are those with one `#`, or with none and one `@` at an end, without `=` or spaces around them |
| OverrideOptions.ArgumentOverrideIs | app/sources/Function.cpp:1380-1391 | for a parameter the override for it in its function applies, or else the one for its type |
| OverrideOptions.ReturnOverrideIs | app/sources/Function.cpp:396-408 | for a return the override for it in its function applies, or else the one for its type |
| OverrideOptions.OverridesAreQuoted | app/sources/Options.cpp:294-304 | every accepted override option is written in quotes |
| OverrideOptions.SpacesAreQuoted | MANUAL.md:285 | every option with a space or a tab is written in quotes |
| OverriddenCalls.OptionText | MANUAL.md:349-376 | the options given are written as a subject, a separator, and the mocked type and expression of the manual's grammar |
| OverriddenCalls.SpecIsRead | app/sources/Config.cpp:99-209 | the text of an override is read as the type, names, size and expression it is made of |
| Overrides.LookupFindsOption | app/sources/Config.cpp:266-270 | in the map built from accepted options a lookup finds a specification if and only if one option has that key and specification, nothing if and only if no option has the key, and no two options have it |
| Overrides.LookupFindsExpressible | app/sources/Config.cpp:49-67 | under a key without exactly one `#` only the nine return types are found; a size expression is set exactly for memory buffers |
| Overrides.UnfitOverrideCanBeFound | app/sources/Function.cpp:396-408 | some accepted configuration has a non-return type under a key if and only if the key can be a parameter option's |
| CppTypes.CanonicalIsIdempotent | app/sources/Function.cpp:649-685 | resolving a type fully and again changes nothing, and leaves no typedef or elaborated name |
| CppTypes.CanonicalLowersRank | app/sources/Function.cpp:649-685 | the measure of the recursion: a canonical type ranks below the typedef or name it came from |
| CppTypes.PointeeOfCanonical | app/sources/Function.cpp:591-647 | pointee of the canonical type is the canonical type of the pointee |
| CppTypes.RValueRefSpelling | app/sources/Function.cpp:933-950 | dropping the last character of an rvalue reference's spelling gives that of the lvalue reference |
| Expressions.HalvesMakeText | app/sources/Function.cpp:155-198 | front half, hole and back half are the text of the expression |
| Expressions.FormsAreWritten | app/sources/Function.cpp:479-685 | how each form of expression is written |
| ReturnParser.Parser.ProcessPointee | app/sources/Function.cpp:591-647 | what is chosen and prepended for what a pointer or reference points to is the specified expression's halves |
| ReturnParser.Parser.ProcessTypePointer | app/sources/Function.cpp:591-647 | the same for pointers and references, with the dereference in front |
| ReturnParser.Parser.ProcessTypeTypedef | app/sources/Function.cpp:649-685 | the same through a typedef, which is null exactly for unsupported types |
| ReturnParser.Parser.ProcessType | app/sources/Function.cpp:479-589 | the strings and flags built are the two halves of the specified expressions for every type |
| ReturnParser.Parser.ProcessOverride | app/sources/Function.cpp:423-477 | the nine return types are handled, with the override's expression around the getter; any other is the internal error |
| ReturnParser.Parser.Process | app/sources/Function.cpp:385-421 | no internal error for an accepted configuration and a function name and spelling without `#`; the override for the function is preferred to the one for the type |
| ReturnProperties.SupportedExactly | app/sources/Function.cpp:479-589 | a return type is supported if and only if its canonical form is |
| ReturnProperties.ReturnIsWellTyped | app/sources/Function.cpp:479-685 | for every supported type the expression the mock returns, its casts taken as the types they are meant for, is well typed and converts to the declared type |
| ReturnProperties.MockReturnText | app/sources/Function.cpp:123-131 | the text around the mock call is that expression with the call and getter in its hole |
| ReturnProperties.ReturnProfile | app/sources/Function.cpp:479-685 | getter kind, casts and flags chosen, as a function of the canonical type |
| ReturnProperties.ReturnKindIsDocumentedExactly | MANUAL.md:293-311 | the getter is the one of the manual's table if and only if no const char is hidden behind a name in a pointer and the type is neither a plain character nor a pointer to a const one that is unsigned |
| ReturnProperties.UnsignedCharReturns | app/sources/Function.cpp:505-515 | `char` and `const char *` where plain characters are unsigned get another getter than documented |
| ReturnProperties.ExpectationRegistersWhatMockReads | app/sources/Function.cpp:138-173 | the value the expectation registers is well typed and converts to the type of the getter the mock calls |
| ReturnProperties.ExpectationBodyText | app/sources/Function.cpp:150-173 | the text of the return statement is the printed expression |
| ReturnProperties.ReturnValueComesThrough | app/sources/Function.cpp:97-212 | a value given to the expectation comes out of the mock: the same scalar, or the same address for pointers, references and classes |
| ReturnProperties.SignatureTypeText | app/sources/Function.cpp:138-148 | the parameter of the expectation is declared with the return type, one sign more for a class taken by reference, and the lvalue reference for an rvalue reference |
| ReturnProperties.OnlyRValueRefIsMarked | app/sources/Function.cpp:546-552 | a sign is stripped exactly from types spelled as rvalue references |
| ReturnProperties.ConstIsDoubledExactly | app/sources/Function.cpp:554-572 | the mock's cast spells const twice exactly for classes declared const under their own or a typedef's name |
| ReturnProperties.DoubledConstExample | app/sources/Function.cpp:554-562 | a concrete type for which it does |
| TypeIds.NamesOneType | app/sources/Function.cpp:138-148 | in one scope a text names at most one type |
| TypeIds.BasicScope | app/sources/Function.cpp:150-173 | a scope with the basic names exists, so that what is said of every such scope is not said of none |
| TypeIds.SpellingNames | app/sources/Function.cpp:138-148 | in every scope that declares it, the spelling of a type made of names and signs is read as a type-id whose meaning is the canonical type |
| TypeIds.ReturnCastsNameExactly | app/sources/Function.cpp:554-685 | in every scope that declares the return type, each cast printed in the mock's return expression names the type it is meant for if and only if const is not doubled and no name hides a reference to an array or to a pointer to one |
| TypeIds.ReturnCompilesExactly | app/sources/Function.cpp:479-685 | in every such scope the mock's return statement is well typed with casts that name their types exactly under these conditions |
| TypeIds.HiddenArrayExample | app/sources/Function.cpp:619-626 | a concrete supported type, with a scope that declares it, whose cast is to the text `int []*`, which names no type there |
| TypeIds.ReturnDeclarationNames | app/sources/Function.cpp:138-148 | the declaration of the return parameter in the expectation names its type in every scope that declares the return type |
| TypeIds.ExpectationCastsName | app/sources/Function.cpp:150-173 | every cast in the expectation's return value names its type in every scope with the basic names that declares the return type |
| ArgumentParser.Parser.ProcessTypeRecord | app/sources/Function.cpp:1741-1757 | input or output of the exposed type, as const and indirection say |
| ArgumentParser.Parser.ProcessTypePointer | app/sources/Function.cpp:1572-1632 | kind and expression halves for pointers and references are the specified ones |
| ArgumentParser.Parser.ProcessTypeArray | app/sources/Function.cpp:1634-1651 | arrays are const pointers or outputs of unknown size |
| ArgumentParser.Parser.ProcessTypeRVReference | app/sources/Function.cpp:1653-1679 | rvalue references are handled as what they refer to, marked and never ignorable |
| ArgumentParser.Parser.ProcessTypeTypedef | app/sources/Function.cpp:1681-1739 | typedefs are resolved, pointers and references among them only as far as const |
| ArgumentParser.Parser.ProcessType | app/sources/Function.cpp:1487-1570 | the object built is the specified one for every type, null exactly for unsupported types |
| ArgumentParser.Parser.ProcessOverride | app/sources/Function.cpp:1405-1485 | every override type is handled; null exactly for Skip |
| ArgumentParser.Parser.Process | app/sources/Function.cpp:1362-1403 | an unsupported type without an override is the failure; otherwise the argument has its name, is skipped exactly if the override says so, keeping its type's texts, and is built from the override or else from its type; no internal error |
| OverriddenCalls.OverrideApplies | app/sources/Function.cpp:1362-1403 | a parameter that an option names, or whose type one names and none the parameter, is skipped or made by what the option says |
| OverriddenCalls.OverriddenCallsAreRead | app/sources/Function.cpp:1405-1485 | the calls for an overridden parameter record what the manual's table says, under its declared type and name |
| OverriddenCalls.OverriddenCallsPass | app/sources/Function.cpp:1405-1485 | they pass the parameter, converted as the override says, and the size from where the table takes it |
| OverriddenCalls.OverriddenParameters | MANUAL.md:363-387 | the expectation declares the table's type, a size parameter exactly where the table has one, and lets inputs be ignored |
| OverriddenCalls.OverriddenReturn | MANUAL.md:389-412 | an overridden return asks for the kind the table names, converts it as the override says, and declares and registers a value of that kind's type |
| ExposedNames.ExposedNameExactly | MANUAL.md:323-327 | a class is compared under the name it is written with, or with `-u` its own, if and only if that is a single word and no sign stands by itself |
| ExposedNames.CutNameExample | app/sources/ClangHelper.cpp:75-102 | a concrete class whose name is cut |
| ArgumentProperties.ArgumentIsWellTypedExactly | app/sources/Function.cpp:1487-1757 | the value passed by the mock is well typed, converts to what the method takes, and a writable kind reaches a non-const object, if and only if no const is lost on an array's elaborated name |
| ArgumentProperties.WritableReachesMutable | app/sources/Function.cpp:1487-1757 | where Output, OutputOfType or Pointer is chosen the value passed reaches an object that is not const, through any typedef chain, if and only if no const is lost |
| ArgumentProperties.LostConstExample | app/sources/Function.cpp:1555-1560 | a concrete well-formed, supported type on which const is lost and the argument ill typed |
| ArgumentProperties.ArgumentKindIsAsExpected | app/sources/Function.cpp:1487-1757 | unless const is lost, which types are supported and which kind each gets: a function of the canonical type but for three ways of hiding a type behind a typedef |
| ArgumentProperties.KindIsDocumentedExactly | MANUAL.md:293-311 | every supported argument type gets the kind of the manual's table if and only if it is not one of those that differ |
| ArgumentProperties.DifferingExamples | MANUAL.md:293-311 | a concrete type for each way of hiding that differs, and one that hides a class and does not differ |
| ArgumentProperties.UnsignedCharExamples | app/sources/Function.cpp:1510-1516 | `char` and `const char *` where plain characters are unsigned get another kind than documented |
| ArgumentProperties.ArrayExamples | app/sources/Function.cpp:1634-1651 | arrays of a class, of const characters and of pointers get another kind than documented, and an array of int does not |
| ArgumentProperties.ArgumentFlags | app/sources/Function.cpp:1487-1757 | when an address is passed, a sign is stripped, a reference is taken or ignoring is forbidden, and which size an output has |
| ArgumentProperties.ParsedArgumentIsValid | app/sources/Function.cpp:933-950 | every argument built from a type has a sign to strip where one is stripped, and a kind of CppUMock's |
| ArgumentProperties.LostConstIsOutput | app/sources/Function.cpp:1681-1739 | wherever const is lost the array is passed as an output although its elements are const |
| Signatures.MockDeclares | app/sources/Function.cpp:714-729 | the mock declares an argument as its type and name, the brackets of an array behind the name, if and only if the spelling is not cut elsewhere |
| Signatures.CutExample | app/sources/Function.cpp:714-729 | a concrete argument that is cut inside its template arguments |
| Signatures.SkippedDeclares | app/sources/Function.cpp:714-729 | a skipped argument is declared in the mock as its type alone |
| MockDefinitions.MockDefinesFunction | app/sources/Function.cpp:1919-1972 | a mock begins with the declaration of the function itself: return type, name, parameters and qualifiers, and its body is one statement |
| MockDefinitions.IgnorableExactly | MANUAL.md:329-334 | a parameter can be ignored if and only if the mock records it as an input and it is not an rvalue reference |
| Signatures.ParameterTypeText | app/sources/Function.cpp:933-950 | the text written for an argument in the expectation is its own type's, one sign less for an rvalue reference, one more for what is taken by reference, a pointer to its element for an array, if and only if the spelling is not cut elsewhere |
| Signatures.ParameterTypeIsNamed | app/sources/Function.cpp:933-950 | that text names the type of the expectation's parameter in every scope that declares the argument's type, if and only if the spelling is not cut |
| ExpectationTypes.SizeOperandText | app/sources/Function.cpp:1169-1183 | the size printed for an output is `sizeof` of the modelled operand |
| ExpectationTypes.ExpectationArgumentIsWellTypedExactly | app/sources/Function.cpp:926-1183 | for every supported type the value the expectation passes on converts to what the call takes and the operand of the size has one, if and only if const is not lost and the type is not written as a reference to a mutable array without bound |
| ExpectationTypes.ArrayReferenceExample | app/sources/Function.cpp:1169-1178 | a concrete type whose size is taken of an array without bound |
| ExpectationTypes.ForwardingTypeChecksExactly | app/sources/Function.cpp:2119-2130 | passing an argument on from the one-call overload type-checks if and only if no rvalue reference, and no class behind one, hides behind a typedef |
| ExpectationTypes.ForwardingFailsExample | app/sources/Function.cpp:1653-1679 | a concrete type for which it does not |
| ExpectationTypes.ReturnForwardingTypeChecksExactly | app/sources/Function.cpp:2156-2166 | passing the return value on type-checks if and only if no rvalue reference hides behind a typedef |
| ArgumentValues.ArgumentIsReceived | app/sources/Function.cpp:921-925 | the mock's call receives the argument's own value, unchanged by conversion, or its address where one is passed |
| ArgumentValues.ValuesMatchExactly | app/sources/Function.cpp:921-931 | mock and expectation pass equal values exactly when the objects they are given have equal values or, by address, are the same |
| MockCalls.CallsNameTheParameter | app/sources/Function.cpp:921-931 | the call printed for the mock and the one printed for the expectation read as the same parameter: kind, exposed type and name |
| FunctionGenerator.GenerateMock | app/sources/Function.cpp:1919-1972 | the loop over accumulators produces the joined signature and the chain of calls |
| FunctionGenerator.HasIgnorableArguments | app/sources/Function.cpp:2206-2217 | true if and only if some argument can be ignored |
| FunctionGenerator.HasSkippedArguments | app/sources/Function.cpp:2219-2230 | true if and only if some argument is skipped |
| FunctionGenerator.ExpectationRuns | app/sources/Function.cpp:846-864 | for every function and set of ignored parameters the N-call body uses declared names only, expects the function by its name, on an object of its class unless that is ignored, registers exactly the reported parameters not ignored, ignores others exactly if something is skipped or ignored, and sets the return value |
| FunctionGenerator.ExpectedIsSublist | app/sources/Function.cpp:846-864 | what is registered is an in-order sublist of what is reported, and all of it exactly if nothing is ignored |
| FunctionGenerator.MockFulfilsExpectation | app/sources/Function.cpp:1919-2204 | the mock's call fulfils the call described, to the same function and on an object if one is expected, whichever parameters are ignored; whenever one is missing others are ignored |
| EmittedText.MockReturnsExpression | app/sources/Function.cpp:1919-1972 | the body of a mock whose return comes from a type is `return` and the printed expression over the chain of calls and the getter |
| EmittedText.CallsPassExpression | app/sources/Function.cpp:921-931 | the calls of mock and expectation for an argument that comes from a type hold its printed expression |
| EmittedText.StatementsPass | app/sources/Function.cpp:846-864 | the statement for an argument made from a type takes the value out of its wrapper exactly if it can be ignored, and notes that it is ignored unless arguments are skipped |
| EmittedText.GettersMean | app/sources/Function.cpp:214-370 | each getter that is printed gives back a value of the kind it is printed for |
| EmittedText.MockIsRead | app/sources/Function.cpp:1919-1972 | from the whole text of a mock one reads back the function, whether it is called on an object, the reported parameters, and the kind of value asked for |
| EmittedText.BuiltEndsItself | app/sources/Function.cpp:921-931 | the calls of arguments that come from types close their parentheses and can be told apart |
| EmittedBody.TextsAgree | app/sources/Function.cpp:2069-2203 | reading the whole text of an N-call body line by line and running what is read expects the function by its name and the object by its class, registers exactly the parameters not ignored, ignores others exactly if something is skipped or ignored, and sets the return value |
| EmittedBody.MockTextFulfilsExpectation | app/sources/Function.cpp:1919-2204 | the call read from the text of the mock fulfils the one that running the text of the expectation describes: the same function, and whichever parameters are ignored |
| BuiltFunctions.BuiltTextsFulfil | app/sources/Function.cpp:1919-2204 | the same for every function made from types, its texts being legible by construction; and the value the expectation registers has the type of the one the mock asks for |
| BuiltFunctions.BuiltReturnIsRead | app/sources/Function.cpp:123-173 | the getter read from the mock and the value read from the expectation are those of the return type, and fit |
| StatementNames.StatementMentions | app/sources/Function.cpp:846-864 | of the reserved words the text of a statement mentions exactly those that the statement uses or declares |
| StatementNames.ReturnTextMentions | app/sources/Function.cpp:150-173 | the statement for the return value mentions the call and `__return__` and no other reserved word |
| StatementNames.MentionedIsDeclared | app/sources/Function.cpp:2041-2173 | every reserved word in the text of an N-call body is a parameter or has been declared |
| BuiltFunctions.BuiltBodyIsDeclared | app/sources/Function.cpp:2041-2173 | the same for every function made from types whose own names keep off the word |
| FunctionGenerator.GenerateSignatureStart | app/sources/Function.cpp:2041-2067 | count and object parameters, joined, and whether a separator is due |
| FunctionGenerator.GenerateBodyStart | app/sources/Function.cpp:2069-2098 | the start of a forwarding call or of the N-call statements |
| FunctionGenerator.GenerateArguments | app/sources/Function.cpp:2100-2136 | the separator flag yields the comma-joined list of the non-empty declarations, and the matching forwarded names or statements |
| FunctionGenerator.GenerateEnd | app/sources/Function.cpp:2138-2203 | the finished text is the whole overload's |
| FunctionGenerator.GenerateExpectationFunction | app/sources/Function.cpp:2035-2204 | each overload and prototype is the joined parameter list with its body |
| FunctionGenerator.ArgTexts | app/sources/Function.cpp:823-844 | an argument's texts join its parameters' declarations and names, and are empty exactly if it is skipped |
| FunctionGenerator.OneCallForwardsAll | app/sources/Function.cpp:2074-2187 | the one-call overload has the N-call overload's parameters but the first, and forwards 1 and then exactly their names, in order |
| FunctionGenerator.PrototypeMatches | app/sources/Function.cpp:2051-2067 | prototype and implementation declare the same parameters but for the default of a destructor's object |
| FunctionGenerator.GenerateExpectation | app/sources/Function.cpp:2000-2033 | both overloads inside the namespaces that mirror the function's |
| ExpectationNames.ExpectationIsNamed | MANUAL.md:53-65 | expectations are found in namespace `expect` and namespaces that mirror the function's own, under its name or that of its class with a sign |
| ExpectationNames.ParametersAreDeclared | app/sources/Function.cpp:2041-2187 | the parameters of an expectation, as declared and in order |
| ExpectationNames.OverloadText | app/sources/Function.cpp:2035-2204 | each overload has the body for its number of calls |
| Braces.NamespacesBalance | app/sources/Function.cpp:2009-2030 | the braces of the namespaces balance around any overloads that do |
| Braces.OverloadBalances | app/sources/Function.cpp:2035-2204 | every overload and prototype closes the braces it opens, if names, types and values bring none along |
| Braces.ExpectationsBalance | app/sources/Function.cpp:2000-2033 | and so does the whole text generated for a function |
| BuiltFunctions.BuiltExpectationsBalance | app/sources/Function.cpp:2000-2033 | the same for every function made from types whose names hold no brace |
| FunctionGenerator.ParamsInScope | app/sources/Function.cpp:2041-2173 | count, object and return parameters are declared where the body refers to them |
| FunctionGenerator.ArgNamesAreParams | app/sources/Function.cpp:1131-1183 | the argument and size names used in the body are parameters of the signature |
| Declarations.DeclaredOnceExactly | app/sources/Function.cpp:2041-2173 | parameters and variables of the N-call overload are pairwise different if and only if the arguments' names differ from each other, from the sizes' and from the generator's own |
| Declarations.LocalsAreDeclared | app/sources/Function.cpp:2086-2098 | the variables counted there are those that the statements declare |
| Declarations.FinalNamesDifferExactly | app/sources/Function.cpp:1371-1377 | arguments that differ where they are named stay different if and only if none has the name made up for another |
| Declarations.DigitsAreDecimal | app/sources/Function.cpp:1371-1377 | the position in a made-up name is written in decimal digits |
| Declarations.UnnamedExample | app/sources/Function.cpp:1371-1377 | a concrete declaration that ends up with two arguments of one name |
| Namespaces.GetNamespaceDecomposition | app/sources/Function.cpp:1974-1998 | the loop gives the parts between separators |
| Namespaces.PartsRejoin | app/sources/Function.cpp:1976-1998 | for any string the parts hold no `::` and rejoin to it |
| Namespaces.JoinIsDecomposed | app/sources/Function.cpp:1976-1998 | a joined path is decomposed into that path if and only if no name holds a separator and none but the last ends in a colon |
| Namespaces.GetQualifiedName | app/sources/ClangHelper.cpp:50-73 | the qualified name of a cursor |
| Namespaces.QualifiedNameIsPath | app/sources/ClangHelper.cpp:50-73 | it is the joined path of enclosing scopes exactly unless the outermost of several names is empty |
| Namespaces.QualifiedNameExample | MANUAL.md:360 | a method of a class in a namespace is named as in the manual |
| Namespaces.QualifiedNameIsDecomposed | app/sources/ClangHelper.cpp:50-73 | decomposing the qualified name gives the path back if and only if the path is separable and its outermost name is not an empty one of several; so for all paths of non-empty colon-free names |

## Left out

- Traversing the translation unit, diagnostics, and building the type trees: calls into libclang.
- `IsMockable` and the access checks: boolean facts about one declaration.
- `App::Execute`, output paths, opening files and colours; in particular nothing is said about options read from an expectation header.
- `cxxopts` and path normalisation: parameters of the model.
- General regular expressions: only the three fixed patterns, as predicates.
- `GenerateExpectationHeader` and `GenerateExpectationImpl`: a heading, includes and the concatenated texts, without a reader.
- Volatile types, function pointers and arrays of fixed size.
- Texts of error messages and the order in which two errors on one option are reported beyond the order modelled.
- Include paths and exception specifications: given as text.
- Object slicing, overload resolution and user-defined conversions in the typing judgement; classes convert only to themselves.
- ArgumentValues.ValuesMatchExactly: leaves out whether CppUMock's comparators and copiers treat equal contents as equal; objects passed by address are compared by address here.
- FunctionGenerator.GenerateExpectation: a destructor name without its tilde is an empty string in the model; the source would throw for an empty last name.
- MockFile.UserCodeIsStable: the text generated outside the section is assumed free of the markers.
- EmittedText.MockIsRead: that the mock is legible is its hypothesis, as values of overrides are arbitrary text and may hold quotes or parentheses; for functions made from types it is proved (`BuiltFunctions.BuiltTextsFulfil`).
- EmittedBody.TextsAgree: likewise for the body of the expectation.
- EmittedBody.MockTextFulfilsExpectation: likewise for both texts.
- Braces.ExpectationsBalance: likewise for braces; for functions made from types it is proved (`BuiltFunctions.BuiltExpectationsBalance`).
- MockFile.RerunsKeepOptions: `cxxopts` is a function that gives the file's options back from their own parameters; options given besides `--regen` are not modelled.
