# AttributeSourceGenerator — a verified model of the symbol-extraction core

AttributeSourceGenerator is a base class for Roslyn incremental source generators driven by a
marker attribute. For every declaration carrying the marker attribute, the generator does three things:

- it filters the syntax node by kind;
- it transforms the compiler's view of the target into an immutable, structurally comparable `Symbol`;
- it hands that `Symbol` to a user callback, whose text is emitted under a name derived from the
  symbol's fully qualified name.

This project models that core in Dafny and proves its properties:

- **Classification** of types and methods into the closed kind sets (`GetDeclarationType`, `GetSymbolType`).
- **The hierarchy walk** that lists the namespaces and types containing a symbol, outermost first
  (`GetContainingDeclarations`). It is written as a loop over a seq-backed stack and proved equal to
  a recursive specification.
- **Name rendering**:
  - `ToNamespace` and `ToFullyQualifiedName` are `StringBuilder` loops, proved equal to pure joins;
  - `Symbol.FullyQualifiedName` and `Symbol.Namespace` are built on them;
  - `Declaration.ToString` renders one declaration.
- **Attribute argument extraction**: the index loops that pair the marker attribute's formal type
  parameters, constructor parameters and named arguments with the supplied values, and
  `GetMarkerAttribute`, which composes them.
- **The orchestrator's pure parts**:
  - the `FilterType` flags and the syntax `Filter`;
  - the `IsTrue` option parser;
  - `Transform`;
  - the names of the emitted artifacts.

The compiler's symbols are stated as plain facts (`Roslyn.TypeFact`, `Roslyn.NamespaceFact`,
`Roslyn.MethodFact`, `Roslyn.AttributeFact`, …). Display strings and the `ToString()` of
attribute constants are opaque strings inside those facts.

Errors the source throws are `Failure` results of one `Wrappers.Error` datatype:

- an `InvalidOperationException`;
- `First()` on an empty list;
- an index past the end of a supplied list;
- `TypedConstant.Value` read on an array-valued attribute argument.

Every loop in the source is a `method` with loop invariants. Each is proved against a pure function
of the same inputs, and the pure members (`Symbol` getters, `Transform`'s specification) use that
function.

The repository has drifted between shapes. The model follows the code that `Transform` and the
extractors actually call:

- `Symbol` has the seven fields `Transform` passes. `Deconstruct` returns the four that `Symbol.cs` names.
- `MarkerAttributeData` has the three-list shape of `Models/MarkerAttributeData.cs`.
- The merged, kind-tagged `Arguments` list of `src/AttributeSourceGenerator/MarkerAttributeData.cs`
  (a list of `AttributeArgument`) is transcribed as a datatype only, because no code builds it.

## Model

| member | source | states |
|---|---|---|
| DeclarationExtensions.ToNamespace | src/AttributeSourceGenerator/Common/DeclarationExtensions.cs:9-26 | the loop's result equals `NamespaceOf`: the names of the Namespace entries, in list order, each appended after a '.' only when the builder is not empty |
| DeclarationExtensions.ToFullyQualifiedName | src/AttributeSourceGenerator/Common/DeclarationExtensions.cs:28-49 | the loop's result equals `FullyQualifiedNameOf`: every entry's segment, in list order, with the same length-gated '.' |
| DeclarationExtensions.SegmentShape | src/AttributeSourceGenerator/Common/DeclarationExtensions.cs:39-45 | an entry without generic parameters contributes its bare name; with n > 0 it contributes the name, a backtick, and digits that read back as n |
| DeclarationExtensions.GatedJoinIsJoin | src/AttributeSourceGenerator/Common/DeclarationExtensions.cs:20-22 | the length-gated separator gives `string.Join(".", …)` of the parts from the first non-empty one on: leading empty names swallow their dot, later empty names keep theirs |
| DeclarationExtensions.GatedJoinOfNonEmpty | src/AttributeSourceGenerator/Common/DeclarationExtensions.cs:37-39 | with non-empty parts, the gated builder is exactly the dot-join |
| DeclarationExtensions.DropLeadingEmpty | src/AttributeSourceGenerator/Common/DeclarationExtensions.cs:20 | what the gate skips: after dropping leading empty names, the first remaining name is non-empty |
| DeclarationExtensions.DropLeadingEmptyAppend | src/AttributeSourceGenerator/Common/DeclarationExtensions.cs:20-22 | appending a name after a non-empty builder always keeps its dot; after an empty builder the name starts the result |
| DeclarationExtensions.GatedJoinStep | src/AttributeSourceGenerator/Common/DeclarationExtensions.cs:20-22 | one loop iteration appends one part with the gated separator |
| DeclarationExtensions.NamespaceNames | src/AttributeSourceGenerator/Common/DeclarationExtensions.cs:14-23 | the kept names are never more than the entries |
| DeclarationExtensions.NamespaceNamesStep | src/AttributeSourceGenerator/Common/DeclarationExtensions.cs:16-22 | one iteration keeps the entry's name exactly when it is a Namespace entry (the `continue` skip) |
| DeclarationExtensions.NamespaceNamesOfConcat | src/AttributeSourceGenerator/Common/DeclarationExtensions.cs:14-23 | the kept names of a concatenation are the kept names of each part, in order |
| DeclarationExtensions.NamespaceNamesOfOne | src/AttributeSourceGenerator/Common/DeclarationExtensions.cs:17-22 | a single entry contributes its name if and only if it is a Namespace |
| DeclarationExtensions.NamespaceOfWithoutNamespaces | src/AttributeSourceGenerator/Common/DeclarationExtensions.cs:9-25 | a list with no Namespace entries (the empty list included) gives "" |
| DeclarationExtensions.NamespaceOfIsJoin | src/AttributeSourceGenerator/Common/DeclarationExtensions.cs:14-23 | with non-empty names, `ToNamespace` is the dot-join of the Namespace names in list order |
| DeclarationExtensions.NamespaceNamesNonEmpty | src/AttributeSourceGenerator/Common/DeclarationExtensions.cs:17-22 | every kept name is one of the entries' names, so non-empty names stay non-empty |
| DeclarationExtensions.Segments | src/AttributeSourceGenerator/Common/DeclarationExtensions.cs:33-46 | one segment per entry |
| DeclarationExtensions.SegmentsStep | src/AttributeSourceGenerator/Common/DeclarationExtensions.cs:35-45 | one iteration appends the entry's name and, when it has generic parameters, its arity suffix |
| DeclarationExtensions.SegmentsAt | src/AttributeSourceGenerator/Common/DeclarationExtensions.cs:33-46 | segment i belongs to entry i, in list order |
| DeclarationExtensions.FullyQualifiedNameOfIsJoin | src/AttributeSourceGenerator/Common/DeclarationExtensions.cs:33-46 | with non-empty names, `ToFullyQualifiedName` is the dot-join of every entry's segment in list order |
| DeclarationExtensions.SegmentOfSimpleName | src/AttributeSourceGenerator/Common/DeclarationExtensions.cs:39-45 | a name without dots keeps no dots once its arity suffix is added |
| DeclarationExtensions.NamespaceOfIsDottedPath | src/AttributeSourceGenerator/Common/DeclarationExtensions.cs:20-22 | with non-empty dot-free names, `ToNamespace` neither starts nor ends with '.' and has no two dots in a row |
| DeclarationExtensions.NamespaceNamesSimple | src/AttributeSourceGenerator/Common/DeclarationExtensions.cs:17-22 | kept names are entries' names, so dot-free names stay dot-free |
| DeclarationExtensions.FullyQualifiedNameOfIsDottedPath | src/AttributeSourceGenerator/Common/DeclarationExtensions.cs:37-39 | with non-empty dot-free names, `ToFullyQualifiedName` neither starts nor ends with '.' and has no two dots in a row |
| DeclarationExtensions.FullyQualifiedNameOfDependsOnNamesAndArities | src/AttributeSourceGenerator/Common/DeclarationExtensions.cs:33-46 | two lists with equal names and generic-parameter counts give the same fully qualified name, whatever their kinds or parameter names |
| DeclarationExtensions.NamespaceOfEqualsFullyQualifiedName | src/AttributeSourceGenerator/Common/DeclarationExtensions.cs:9-49 | when every entry is a Namespace without generic parameters, both loops give the same string |
| DeclarationExtensions.NamespaceOfPrefixesFullyQualifiedName | src/AttributeSourceGenerator/Common/DeclarationExtensions.cs:9-49 | for a list with namespaces before types, the namespace string is empty, the whole fully qualified name, or its leading part followed by '.' |
| DeclarationExtensions.EmptyLeadingNameSwallowsDot | src/AttributeSourceGenerator/Common/DeclarationExtensions.cs:20-21 | namespaces "" then "B" give "B": the gate drops the dot after an empty leading name |
| DeclarationExtensions.EmptyInnerNameKeepsDot | src/AttributeSourceGenerator/Common/DeclarationExtensions.cs:20-21 | namespaces "A", "", "B" give "A..B": an empty inner name keeps both dots |
| Text.JoinStartsWithFirst | src/AttributeSourceGenerator/Declaration.cs:42 | `string.Join` begins with its first part |
| Text.Decimal | src/AttributeSourceGenerator/Common/DeclarationExtensions.cs:45 | `Append(int)` of a count writes a non-empty string of digits with no leading zero |
| Text.DigitChar | src/AttributeSourceGenerator/Common/DeclarationExtensions.cs:45 | each digit character has the digit's value |
| Text.DecimalRoundTrip | src/AttributeSourceGenerator/Common/DeclarationExtensions.cs:45 | the written digits read back as the same count |
| Text.JoinSimpleNamesIsDottedPath | src/AttributeSourceGenerator/Common/DeclarationExtensions.cs:37-39 | dot-joining dot-free non-empty names gives a well-formed dotted path, empty exactly when there are no names |
| Symbols.Symbol.Deconstruct | src/AttributeSourceGenerator/Symbol.cs:57-76 | the four values returned, put back with the other fields, rebuild the same symbol |
| Symbols.NamespaceIsNamespaceOf | src/AttributeSourceGenerator/Symbol.cs:40-50 | `Namespace` is "" without containing declarations and otherwise `ToNamespace` of them; the guard never changes the result |
| Symbols.FullyQualifiedNameIsJoin | src/AttributeSourceGenerator/Symbol.cs:25-37 | with non-empty containing names, the fully qualified name is the dot-join of every containing segment then the own segment (Name`n for n > 0 generic parameters, else Name); with no containing declarations it is the own segment alone |
| Symbols.FullyQualifiedNameIsDottedPath | src/AttributeSourceGenerator/Symbol.cs:25-37 | with dot-free non-empty names the fully qualified name is a well-formed dotted path |
| Symbols.FullyQualifiedNameIgnoresParameterNames | src/AttributeSourceGenerator/Symbol.cs:29-35 | symbols that differ only in generic parameter names (same counts) or in containing kinds have the same fully qualified name |
| Symbols.NamespacePrefixesFullyQualifiedName | src/AttributeSourceGenerator/Symbol.cs:25-50 | when namespaces come before types, `Namespace` is empty or is the start of `FullyQualifiedName` followed by '.' |
| Symbols.ExampleHierarchyParts | src/AttributeSourceGenerator/Common/DeclarationExtensions.cs:9-49 | for [ns N1, ns N2, class Outer<T>, record InnerRecord] the segments are N1, N2, Outer`1, InnerRecord and the namespace names N1, N2 |
| Symbols.FullyQualifiedNameExample | src/AttributeSourceGenerator/Symbol.cs:25-50 | a method `Method` inside that hierarchy has fully qualified name "N1.N2.Outer`1.InnerRecord.Method" and namespace "N1.N2" |
| Declarations.Declaration.Deconstruct | src/AttributeSourceGenerator/Declaration.cs:21-58 | the kind, name and generic list that `Deconstruct` (lines 53-58) returns are those the constructor (lines 21-26) stored, and rebuild the same declaration |
| Declarations.NamespaceRendering | src/AttributeSourceGenerator/Declaration.cs:34-35 | a Namespace renders as "namespace " + name whatever generic list it carries |
| Declarations.TypeRendering | src/AttributeSourceGenerator/Declaration.cs:36-43 | a type renders as "partial " + name, followed by "<" + parameters joined by ", " + ">" exactly when it has generic parameters |
| Declarations.TypeRenderingIgnoresKind | src/AttributeSourceGenerator/Declaration.cs:36-43 | every type kind renders alike: no kind keyword, only "partial" |
| Declarations.DeclarationEquality | src/AttributeSourceGenerator/Declaration.cs:6-15 | declarations are equal exactly when kind, name and generic list are equal |
| TypeSymbolExtensions.GetDeclarationType | src/AttributeSourceGenerator/Common/TypeSymbolExtensions.cs:12-25 | each result, if and only if its flag condition holds: Interface for an interface reference type, Record for a record reference type, Class for any other reference type, RecordStruct and Struct for value types, none otherwise; never Namespace |
| TypeSymbolExtensions.GetDeclarationTypeReadsOnlyFlags | src/AttributeSourceGenerator/Common/TypeSymbolExtensions.cs:16-24 | the result depends on the four flags only |
| SymbolExtensions.GetSymbolTypeAgreesWithGetDeclarationType | src/AttributeSourceGenerator/Common/SymbolExtensions.cs:13-31 | on a named type the kind follows `GetDeclarationType`'s precedence and fails exactly where that has no result; a method is Method; any other symbol fails |
| SymbolExtensions.GetContainingDeclarations | src/AttributeSourceGenerator/Common/SymbolExtensions.cs:37-103 | the stack walk, read back last-pushed first, equals the recursive outermost-first hierarchy of the symbol's container |
| SymbolExtensions.TypeStep | src/AttributeSourceGenerator/Common/SymbolExtensions.cs:89-103 | pushing a classified type and continuing from its container keeps the walk's invariant |
| SymbolExtensions.NamespaceStep | src/AttributeSourceGenerator/Common/SymbolExtensions.cs:71-83 | pushing a non-global namespace and continuing to a non-global parent keeps the walk's invariant |
| SymbolExtensions.NamespaceDeclarationsAreBare | src/AttributeSourceGenerator/Common/SymbolExtensions.cs:75-82 | every namespace entry is a Namespace with an empty generic list |
| SymbolExtensions.ContainingDeclarationsAreNamespacesThenTypes | src/AttributeSourceGenerator/Common/SymbolExtensions.cs:52-103 | once the walk reaches a namespace it adds no type: namespaces (with empty generic lists) come first, then types |
| SymbolExtensions.GlobalNamespaceIsNeverListed | src/AttributeSourceGenerator/Common/SymbolExtensions.cs:75-82 | a symbol directly in the global namespace has an empty hierarchy |
| SymbolExtensions.OtherContainerHasNoDeclarations | src/AttributeSourceGenerator/Common/SymbolExtensions.cs:56-64 | a container that is neither a namespace nor a named type gives an empty hierarchy |
| SymbolExtensions.UnclassifiedTypeCutsTheWalk | src/AttributeSourceGenerator/Common/SymbolExtensions.cs:93-95 | a containing type without a declaration type is dropped along with everything outside it |
| NamedSymbolExtensions.GetGenericTypeParameters | src/AttributeSourceGenerator/Common/NamedSymbolExtensions.cs:13-30 | a non-generic type gives []; a generic one gives its type-parameter names, same length, same order |
| MethodSymbolExtensions.GetGenericTypeParameters | src/AttributeSourceGenerator/Common/MethodSymbolExtensions.cs:13-31 | a non-generic method gives []; a generic one gives its type-parameter names, same length, same order |
| MethodSymbolExtensions.GetMethodParameters | src/AttributeSourceGenerator/Common/MethodSymbolExtensions.cs:37-59 | one entry per parameter in declared order, pairing the parameter's type text with its name |
| EquatableLists.ToEquatableReadOnlyList | src/AttributeSourceGenerator/Common/EquatableReadOnlyList.cs:11-22 | both overloads keep length and items in enumeration order |
| EquatableLists.EnumerateAt | src/AttributeSourceGenerator/Common/EquatableReadOnlyList.cs:19-22 | enumerating a stack lists each pushed item once, last pushed first |
| EquatableLists.EnumeratePush | src/AttributeSourceGenerator/Common/EquatableReadOnlyList.cs:19-22 | after a push the pushed item is enumerated first, then the earlier items |
| EquatableLists.StackToEquatableReadOnlyList | src/AttributeSourceGenerator/Common/EquatableReadOnlyList.cs:19-22 | a stack goes through the enumerable overload, so item i of the list is the i-th most recently pushed |
| AttributeExtensions.GetGenericTypeArguments | src/AttributeSourceGenerator/Common/GeneratorAttributeSyntaxContextExtensions.cs:34-59 | a null class fails; a non-generic class gives []; otherwise entry i pairs type parameter i's name with type argument i's text, failing exactly when there are fewer type arguments |
| AttributeExtensions.GetConstructorArguments | src/AttributeSourceGenerator/Common/GeneratorAttributeSyntaxContextExtensions.cs:64-91 | a null constructor fails, before the zero-parameter shortcut; otherwise entry i pairs formal parameter i's type and name with argument i's value (absent for null); it fails exactly when fewer arguments were supplied or an argument the loop reaches is an array (whose `Value` throws), and the array failure comes first |
| AttributeExtensions.GetNamedArguments | src/AttributeSourceGenerator/Common/GeneratorAttributeSyntaxContextExtensions.cs:96-117 | fails, with the array error, exactly when some named argument is an array (whose `Value` throws); otherwise one entry per supplied pair in order: its name, its value (absent for null), and its type text or "" when the type is missing |
| AttributeExtensions.GetMarkerAttribute | src/AttributeSourceGenerator/Common/GeneratorAttributeSyntaxContextExtensions.cs:12-28 | the composition equals `MarkerAttributeOf`: first attribute, null-class check, then the three extractors |
| AttributeExtensions.MarkerAttributeFromFirstAttribute | src/AttributeSourceGenerator/Common/GeneratorAttributeSyntaxContextExtensions.cs:14-25 | a successful result comes from the first attribute: its class's name, and the generic, constructor and named lists unchanged, in that order |
| AttributeExtensions.MarkerAttributeIgnoresLaterAttributes | src/AttributeSourceGenerator/Common/GeneratorAttributeSyntaxContextExtensions.cs:14 | attributes after the first never affect the result |
| AttributeExtensions.MarkerAttributeErrors | src/AttributeSourceGenerator/Common/GeneratorAttributeSyntaxContextExtensions.cs:14-117 | the failures in checking order: no attribute, null class, too few type arguments, null constructor, an array-valued constructor argument the loop reaches, too few constructor arguments, and last an array-valued named argument, which is then the only way to fail |
| AttributeExtensions.ArrayArgumentFailsBeforeShortList | src/AttributeSourceGenerator/Common/GeneratorAttributeSyntaxContextExtensions.cs:80-84 | an array-valued first argument under a two-parameter constructor, with the second argument missing, fails on the array's `Value` before the index runs out |
| AttributeExtensions.MarkerAttributeExample | src/AttributeSourceGenerator/Common/GeneratorAttributeSyntaxContextExtensions.cs:12-117 | an attribute with one type parameter, two constructor parameters and one named argument gives lists of one, two and one paired entries |
| Models.MarkerAttributeData.Deconstruct | src/AttributeSourceGenerator/Models/MarkerAttributeData.cs:25-44 | the four stored values rebuild the same record |
| FilterTypes.KindsAreDistinctSingleBits | src/AttributeSourceGenerator/FilterType.cs:11-26 | the six kinds are the single bits 1, 2, 4, 8, 16, 32 and do not overlap |
| FilterTypes.AllIsExactlyTheKinds | src/AttributeSourceGenerator/FilterType.cs:29 | `All` is 63, holds every kind, and holds a value exactly when that value has no other bits |
| FilterTypes.NoneHoldsNoKind | src/AttributeSourceGenerator/FilterType.cs:8 | `None` is 0 and holds no kind |
| Generator.IsTrueExamples | src/AttributeSourceGenerator/AttributeIncrementalGeneratorBase.cs:82-85 | null, empty and blank values and every letter case of "true" are true; "false", "1", "yes" and " true" are not |
| Generator.IsTrueOfNonBlankValue | src/AttributeSourceGenerator/AttributeIncrementalGeneratorBase.cs:82-85 | a value with a non-blank character is true exactly when it is "true" up to letter case |
| Generator.IsTrueIgnoresCase | src/AttributeSourceGenerator/AttributeIncrementalGeneratorBase.cs:84 | changing letter case never changes the answer |
| Generator.FilterAcceptsExactlyTheSelectedKinds | src/AttributeSourceGenerator/AttributeIncrementalGeneratorBase.cs:91-111 | (corrected filter) a node is accepted if and only if it has a kind flag (a record class needs Record, a record struct RecordStruct) and the effective filter holds that flag; any other node is rejected |
| Generator.NoneFilterAcceptsEveryKind | src/AttributeSourceGenerator/AttributeIncrementalGeneratorBase.cs:95 | a filter of `None` behaves as `All`, both as written and corrected; (corrected filter) `All` accepts exactly the nodes with a kind flag |
| Generator.FilterAsWrittenAgreesOffRecords | src/AttributeSourceGenerator/AttributeIncrementalGeneratorBase.cs:97-110 | the filter as written and the corrected one agree on every node that is not a record declaration |
| Generator.FilterAsWrittenRejectsEveryRecord | src/AttributeSourceGenerator/AttributeIncrementalGeneratorBase.cs:101-106 | as written, no record declaration the compiler produces is accepted, whatever the filter |
| Generator.RecordDeclarationCounterexample | src/AttributeSourceGenerator/AttributeIncrementalGeneratorBase.cs:101-106 | a `record` node under `All`, and a `record struct` node under `RecordStruct`: rejected as written, accepted by the corrected filter |
| Generator.Transform | src/AttributeSourceGenerator/AttributeIncrementalGeneratorBase.cs:117-166 | the composition equals `SymbolOf`, the specification the lemmas below describe |
| Generator.TransformErrors | src/AttributeSourceGenerator/AttributeIncrementalGeneratorBase.cs:122-127 | a target that is neither a named type nor a method fails first; then the marker attribute's failure; then an unsupported shape, which a method never has and a named type has exactly when it has no declaration type |
| Generator.TransformFields | src/AttributeSourceGenerator/AttributeIncrementalGeneratorBase.cs:121-163 | a produced symbol has the target's name, marker attribute, container walk and kind; a named type gets its generic parameters, no method parameters and return type ""; a method gets its generic parameters, parameters and return type |
| Generator.TransformedNamespacePrefixesName | src/AttributeSourceGenerator/AttributeIncrementalGeneratorBase.cs:121-165 | every produced symbol lists namespaces before types, and its namespace is empty or the start of its fully qualified name |
| Generator.EveryKindIsReachable | src/AttributeSourceGenerator/AttributeIncrementalGeneratorBase.cs:117-166 | each of the six kinds comes out of a suitably shaped target; a type that is neither a reference nor a value type fails |
| Generator.TransformExample | src/AttributeSourceGenerator/AttributeIncrementalGeneratorBase.cs:117-166 | a method in record InnerRecord in Outer<T> in N1.N2 gets hierarchy [ns N1, ns N2, class Outer [T], record InnerRecord] and name "N1.N2.Outer`1.InnerRecord.Method" |
| Generator.HintNameIsInjective | src/AttributeSourceGenerator/AttributeIncrementalGeneratorBase.cs:171-175 | the ".g.cs" naming is reversible: two derived names give the same artifact name only if they are equal |
| Generator.MarkerAttributeSource | src/AttributeSourceGenerator/AttributeIncrementalGeneratorBase.cs:48-52 | the marker source is emitted if and only if it is non-null and non-empty, verbatim, under "{MarkerAttributeName}.g.cs" |
| Generator.ArtifactNamesCollideExactlyOnEqualNames | src/AttributeSourceGenerator/AttributeIncrementalGeneratorBase.cs:171-175 | two symbols' artifacts share a name exactly when the symbols share a fully qualified name |
| Generator.OverloadsShareArtifactName | src/AttributeSourceGenerator/AttributeIncrementalGeneratorBase.cs:171-175 | two overloads of one method (differing only in parameters) are given the same artifact name |

## Left out

- Host plumbing is not modelled: `Initialize`, `RegisterPostInitializationOutput`,
  `ForAttributeWithMetadataName`, `RegisterSourceOutput` and `AddSource` push output into compiler
  contexts. The model gives the `Source` values they would register (`Generator.MarkerAttributeSource`,
  `Generator.GenerateSourceForSymbol`) and nothing about when the host calls them.
- Options loading is not modelled. `GetGeneratorOptions` and the second `AddMarkerAttributeSource`
  overload read analyzer configuration, which is I/O, and their registration is commented out. Only the
  pure `IsTrue` is modelled.
- Cancellation is dropped. Every `ThrowIfCancellationRequested` is cooperative cancellation, a
  concurrency concern.
- Compiler library calls are not modelled. `ToDisplayString`, the `ToString()` of constant values,
  `SourceText.From` and `Encoding.UTF8` are outputs taken as opaque strings in the input facts.
- `EquatableReadOnlyList<T>.Equals` (lines 33-36 of `` Common/EquatableReadOnlyList`1.cs ``) is
  modelled as `seq` equality, which is `SequenceEqual`; `EquatableLists.EqualsIsSequenceEqual` states
  it. `GetHashCode` and `Empty` are not modelled, and no hash property is stated.
- The generator's constructors are not modelled. Their null checks on the configuration and the
  initializer cannot fail for a Dafny value, and the user callback is an opaque total function in
  `Generator.Configuration`.
- DeclarationType.cs is not part of this model. The model's `DeclarationType` holds the six values
  the code uses, so the `default` branch of `Declaration.ToString` cannot be reached and is left out.
- `SymbolType.Unknown` is left out, because nothing produces it.
- The unused `AttributeValue`, `AttributeValueSource` and `ConstructorParameter` records are left out.
  `AttributeArgument` and `AttributeArgumentType` are transcribed as datatypes only.
- The `Arguments` list of `src/AttributeSourceGenerator/MarkerAttributeData.cs` is not built,
  because the code builds the three separate lists.
- Detection of artifact-name collisions is not modelled, because nothing in the code detects them.
  `Generator.OverloadsShareArtifactName` shows a collision the code lets through.
- `Generator.IsTrue` folds case for ASCII letters only. Culture-aware comparison details (ignorable
  zero-width characters) are not modelled.
- The recursion of the hierarchy walk is a loop over a seq-backed stack, so stack depth is not modelled.
- Integer widths play no role. The only counts rendered are list lengths, which are non-negative and
  written as plain decimal digits.

## Findings

| source | as written | input that shows it | evidently intended | confidence | as-written member | corrected member |
|---|---|---|---|---|---|---|
| src/AttributeSourceGenerator/AttributeIncrementalGeneratorBase.cs:101-106 | a `RecordDeclarationSyntax` node is accepted only if `Kind()` is `SyntaxKind.ClassDeclaration` (Record flag) or `SyntaxKind.StructDeclaration` (RecordStruct flag); a record node reports `RecordDeclaration` or `RecordStructDeclaration`, so no record is ever matched | `record R;` (a `RecordDeclarationSyntax` of kind `RecordDeclaration`) with the filter `All` | accept a record class when the filter holds Record and a record struct when it holds RecordStruct (kinds `RecordDeclaration` / `RecordStructDeclaration`) | high; not executed | Generator.FilterAsWritten (Generator.FilterAsWrittenRejectsEveryRecord, Generator.RecordDeclarationCounterexample) | Generator.Filter (Generator.FilterAcceptsExactlyTheSelectedKinds) |
