/**
 * The pure parts of `AttributeIncrementalGeneratorBase`: the syntax `Filter`, the `IsTrue`
 * option parser, `Transform` from a matched attribute context to a `Symbol`, and the names of
 * the artifacts handed to the host.
 */
module Generator {
  import opened Wrappers
  import opened Roslyn
  import opened Models
  import opened Declarations
  import opened DeclarationExtensions
  import opened Symbols
  import opened SymbolExtensions
  import opened AttributeExtensions
  import FilterTypes
  import TypeSymbolExtensions
  import NamedSymbolExtensions
  import MethodSymbolExtensions

  /**
   * The generator's configuration: the marker attribute's name, its optional source text,
   * the kinds to match, and the user's callback from a symbol to generated text.
   */
  datatype Configuration = Configuration(
    markerAttributeName: string,
    markerAttributeSource: Option<string>,
    symbolFilter: FilterTypes.FilterType,
    sourceGenerator: Symbol -> string)

  // ---------------------------------------------------------------------------------------------
  // IsTrue

  /** `char.IsWhiteSpace`: the characters of the Unicode white-space classes that .NET recognises. */
  predicate IsWhiteSpace(c: char)
  {
    || '\U{0009}' <= c <= '\U{000D}'
    || c == ' ' || c == '\U{0085}' || c == '\U{00A0}' || c == '\U{1680}'
    || '\U{2000}' <= c <= '\U{200A}'
    || c == '\U{2028}' || c == '\U{2029}' || c == '\U{202F}' || c == '\U{205F}' || c == '\U{3000}'
  }

  /** `string.IsNullOrWhiteSpace`. */
  predicate IsNullOrWhiteSpace(value: Option<string>)
  {
    value.None? || forall i :: 0 <= i < |value.value| ==> IsWhiteSpace(value.value[i])
  }

  /** Folds an ASCII capital to its small letter; every other character is unchanged. */
  function ToLowerAscii(c: char): char
  {
    if 'A' <= c <= 'Z' then (c as int + 32) as char else c
  }

  /** Equality up to letter case, as the invariant culture compares the letters of "true". */
  predicate EqualsIgnoreCase(a: string, b: string)
  {
    |a| == |b| && forall i :: 0 <= i < |a| ==> ToLowerAscii(a[i]) == ToLowerAscii(b[i])
  }

  /** `IsTrue`: a missing, empty or all-white-space value, or "true" in any letter case. */
  predicate IsTrue(propertyValue: Option<string>)
  {
    IsNullOrWhiteSpace(propertyValue) || (propertyValue.Some? && EqualsIgnoreCase("true", propertyValue.value))
  }

  /**
   * `IsTrue` on concrete values: absent, blank and every spelling of "true" are true; other words,
   * and "true" with surrounding blanks (nothing is trimmed), are false.
   */
  lemma IsTrueExamples()
    ensures IsTrue(None) && IsTrue(Some("")) && IsTrue(Some(" \t\r\n"))
    ensures IsTrue(Some("true")) && IsTrue(Some("True")) && IsTrue(Some("TRUE")) && IsTrue(Some("tRuE"))
    ensures !IsTrue(Some("false")) && !IsTrue(Some("1")) && !IsTrue(Some("yes")) && !IsTrue(Some(" true"))
  {
    assert "false"[0] == 'f' && !IsWhiteSpace('f');
    assert "1"[0] == '1' && !IsWhiteSpace('1');
    assert "yes"[0] == 'y' && !IsWhiteSpace('y');
    assert " true"[1] == 't' && !IsWhiteSpace('t');
  }

  /** A value that is not blank is true only if it has exactly the four letters of "true". */
  lemma IsTrueOfNonBlankValue(value: string, i: nat)
    requires i < |value| && !IsWhiteSpace(value[i])
    ensures IsTrue(Some(value)) <==> |value| == 4 && EqualsIgnoreCase("true", value)
  {
  }

  /** Changing the letter case of a value never changes whether it is true. */
  lemma IsTrueIgnoresCase(a: string, b: string)
    requires EqualsIgnoreCase(a, b)
    ensures IsTrue(Some(a)) == IsTrue(Some(b))
  {
    forall i | 0 <= i < |a|
      ensures IsWhiteSpace(a[i]) <==> IsWhiteSpace(b[i])
    {
      if IsWhiteSpace(a[i]) {
        assert ToLowerAscii(a[i]) == a[i];
      }
      if IsWhiteSpace(b[i]) {
        assert ToLowerAscii(b[i]) == b[i];
      }
    }
  }

  // ---------------------------------------------------------------------------------------------
  // Filter

  /** The filter in force: `None` means `All`. */
  function EffectiveFilter(symbolFilter: FilterTypes.FilterType): FilterTypes.FilterType
  {
    if symbolFilter == FilterTypes.None then FilterTypes.All else symbolFilter
  }

  /**
   * The kind flag a declaration node needs, by its syntax class and, for record declarations,
   * by whether it declares a record class or a record struct; no flag for any other node.
   */
  function KindFlag(node: SyntaxNode): Option<FilterTypes.FilterType>
  {
    match node.syntaxClass
    case InterfaceDeclarationSyntax => Some(FilterTypes.Interface)
    case ClassDeclarationSyntax => Some(FilterTypes.Class)
    case RecordDeclarationSyntax =>
      if node.kind == RecordDeclaration then Some(FilterTypes.Record)
      else if node.kind == RecordStructDeclaration then Some(FilterTypes.RecordStruct)
      else None
    case StructDeclarationSyntax => Some(FilterTypes.Struct)
    case MethodDeclarationSyntax => Some(FilterTypes.Method)
    case OtherSyntax => None
  }

  /**
   * `Filter` as written: a record declaration is tested against the kinds `ClassDeclaration`
   * and `StructDeclaration`, which a record declaration node never reports.
   */
  function FilterAsWritten(symbolFilter: FilterTypes.FilterType, node: SyntaxNode): bool
  {
    var filter := EffectiveFilter(symbolFilter);
    if FilterTypes.HasFlag(filter, FilterTypes.Interface) && node.syntaxClass == InterfaceDeclarationSyntax then true
    else if FilterTypes.HasFlag(filter, FilterTypes.Class) && node.syntaxClass == ClassDeclarationSyntax then true
    else if FilterTypes.HasFlag(filter, FilterTypes.Record) && node.syntaxClass == RecordDeclarationSyntax && node.kind == ClassDeclaration then true
    else if FilterTypes.HasFlag(filter, FilterTypes.Struct) && node.syntaxClass == StructDeclarationSyntax then true
    else if FilterTypes.HasFlag(filter, FilterTypes.RecordStruct) && node.syntaxClass == RecordDeclarationSyntax && node.kind == StructDeclaration then true
    else if FilterTypes.HasFlag(filter, FilterTypes.Method) && node.syntaxClass == MethodDeclarationSyntax then true
    else false
  }

  /** `Filter`, with record declarations tested against the kinds a record node does report. */
  function Filter(symbolFilter: FilterTypes.FilterType, node: SyntaxNode): bool
  {
    var filter := EffectiveFilter(symbolFilter);
    if FilterTypes.HasFlag(filter, FilterTypes.Interface) && node.syntaxClass == InterfaceDeclarationSyntax then true
    else if FilterTypes.HasFlag(filter, FilterTypes.Class) && node.syntaxClass == ClassDeclarationSyntax then true
    else if FilterTypes.HasFlag(filter, FilterTypes.Record) && node.syntaxClass == RecordDeclarationSyntax && node.kind == RecordDeclaration then true
    else if FilterTypes.HasFlag(filter, FilterTypes.Struct) && node.syntaxClass == StructDeclarationSyntax then true
    else if FilterTypes.HasFlag(filter, FilterTypes.RecordStruct) && node.syntaxClass == RecordDeclarationSyntax && node.kind == RecordStructDeclaration then true
    else if FilterTypes.HasFlag(filter, FilterTypes.Method) && node.syntaxClass == MethodDeclarationSyntax then true
    else false
  }

  /** A node is accepted exactly when it needs a kind flag and that flag is in the effective filter. */
  lemma FilterAcceptsExactlyTheSelectedKinds(symbolFilter: FilterTypes.FilterType, node: SyntaxNode)
    ensures Filter(symbolFilter, node) <==>
      KindFlag(node).Some? && FilterTypes.HasFlag(EffectiveFilter(symbolFilter), KindFlag(node).value)
  {
  }

  /**
   * A filter of `None` behaves as `All`, in the filter as written and in the corrected one; under
   * the corrected filter `All` accepts every declaration node with a kind flag.
   */
  lemma NoneFilterAcceptsEveryKind(node: SyntaxNode)
    ensures Filter(FilterTypes.None, node) == Filter(FilterTypes.All, node)
    ensures FilterAsWritten(FilterTypes.None, node) == FilterAsWritten(FilterTypes.All, node)
    ensures Filter(FilterTypes.All, node) <==> KindFlag(node).Some?
  {
    FilterAcceptsExactlyTheSelectedKinds(FilterTypes.All, node);
  }

  /** Outside record declarations the written filter and the corrected one agree. */
  lemma FilterAsWrittenAgreesOffRecords(symbolFilter: FilterTypes.FilterType, node: SyntaxNode)
    requires node.syntaxClass != RecordDeclarationSyntax
    ensures FilterAsWritten(symbolFilter, node) == Filter(symbolFilter, node)
  {
  }

  /** As written, no record declaration the compiler produces is ever accepted, whatever the filter. */
  lemma FilterAsWrittenRejectsEveryRecord(symbolFilter: FilterTypes.FilterType, node: SyntaxNode)
    requires IsCompilerNode(node) && node.syntaxClass == RecordDeclarationSyntax
    ensures !FilterAsWritten(symbolFilter, node)
  {
  }

  /** A `record` declaration under the filter `All`: rejected as written, accepted once corrected. */
  lemma RecordDeclarationCounterexample()
    ensures IsCompilerNode(SyntaxNode(RecordDeclarationSyntax, RecordDeclaration))
    ensures !FilterAsWritten(FilterTypes.All, SyntaxNode(RecordDeclarationSyntax, RecordDeclaration))
    ensures Filter(FilterTypes.All, SyntaxNode(RecordDeclarationSyntax, RecordDeclaration))
    ensures !FilterAsWritten(FilterTypes.RecordStruct, SyntaxNode(RecordDeclarationSyntax, RecordStructDeclaration))
    ensures Filter(FilterTypes.RecordStruct, SyntaxNode(RecordDeclarationSyntax, RecordStructDeclaration))
  {
  }

  // ---------------------------------------------------------------------------------------------
  // Transform

  /** The specification of `Transform`. */
  function SymbolOf(context: GeneratorAttributeSyntaxContext): Result<Symbol>
  {
    var targetSymbol := context.targetSymbol;
    if targetSymbol.OtherTarget? then Failure(UnsupportedTarget)
    else
      var markerAttribute :- MarkerAttributeOf(context);
      var containingDeclarations := ContainingDeclarationsOf(targetSymbol.ContainingSymbol());
      var symbolType :- GetSymbolType(targetSymbol);
      match targetSymbol
      case NamedTypeTarget(t) =>
        Success(Symbol(markerAttribute, containingDeclarations, symbolType, t.name,
          NamedSymbolExtensions.GenericTypeParametersOf(t), [], ""))
      case MethodTarget(m) =>
        Success(Symbol(markerAttribute, containingDeclarations, symbolType, m.name,
          MethodSymbolExtensions.GenericTypeParametersOf(m), MethodSymbolExtensions.MethodParametersOf(m), m.returnTypeDisplay))
  }

  /**
   * `Transform`: rejects a target that is neither a named type nor a method, then reads the
   * marker attribute, the containing declarations, the kind and the kind-specific parts.
   */
  method Transform(context: GeneratorAttributeSyntaxContext) returns (r: Result<Symbol>)
    ensures r == SymbolOf(context)
  {
    var targetSymbol := context.targetSymbol;
    if targetSymbol.OtherTarget? {
      return Failure(UnsupportedTarget);
    }
    var markerAttribute :- GetMarkerAttribute(context);
    var containingDeclarations := GetContainingDeclarations(targetSymbol);
    var symbolType :- GetSymbolType(targetSymbol);
    var symbolName := targetSymbol.Name();
    var genericTypeParameters: seq<string>;
    var methodParameters: seq<MethodParameter>;
    var returnType: string;
    match targetSymbol {
      case NamedTypeTarget(namedTypeSymbol) =>
        genericTypeParameters := NamedSymbolExtensions.GetGenericTypeParameters(namedTypeSymbol);
        methodParameters := [];
        returnType := "";
      case MethodTarget(methodSymbol) =>
        genericTypeParameters := MethodSymbolExtensions.GetGenericTypeParameters(methodSymbol);
        methodParameters := MethodSymbolExtensions.GetMethodParameters(methodSymbol);
        returnType := methodSymbol.returnTypeDisplay;
    }
    r := Success(Symbol(markerAttribute, containingDeclarations, symbolType, symbolName, genericTypeParameters, methodParameters, returnType));
  }

  /**
   * The failures of `Transform`, in the order they arise: an unsupported target, then whatever
   * reading the marker attribute fails with, then an unsupported symbol shape. A method never
   * has an unsupported shape, and a named type has one exactly when it has no declaration type.
   */
  lemma TransformErrors(context: GeneratorAttributeSyntaxContext)
    ensures context.targetSymbol.OtherTarget? ==> SymbolOf(context) == Failure(UnsupportedTarget)
    ensures !context.targetSymbol.OtherTarget? && MarkerAttributeOf(context).Failure? ==>
      SymbolOf(context) == Failure(MarkerAttributeOf(context).error)
    ensures !context.targetSymbol.OtherTarget? && MarkerAttributeOf(context).Success? ==>
      && (context.targetSymbol.MethodTarget? ==> SymbolOf(context).Success?)
      && (context.targetSymbol.NamedTypeTarget? ==>
            (SymbolOf(context).Failure? <==> TypeSymbolExtensions.GetDeclarationType(context.targetSymbol.namedType).None?))
      && (SymbolOf(context).Failure? ==> SymbolOf(context).error == UnsupportedSymbol)
  {
    GetSymbolTypeAgreesWithGetDeclarationType(context.targetSymbol);
  }

  /**
   * What a successful `Transform` holds: the target's name, the marker attribute, the walk from
   * the target's container, and for a named type its generic parameters with no method
   * parameters and an empty return type, for a method its own three parts.
   */
  lemma TransformFields(context: GeneratorAttributeSyntaxContext)
    requires SymbolOf(context).Success?
    ensures var symbol := SymbolOf(context).value;
      && symbol.name == context.targetSymbol.Name()
      && MarkerAttributeOf(context) == Success(symbol.markerAttribute)
      && symbol.containingDeclarations == ContainingDeclarationsOf(context.targetSymbol.ContainingSymbol())
      && GetSymbolType(context.targetSymbol) == Success(symbol.symbolType)
      && (context.targetSymbol.NamedTypeTarget? ==>
            && symbol.symbolType != Method
            && symbol.genericParameters == NamedSymbolExtensions.GenericTypeParametersOf(context.targetSymbol.namedType)
            && symbol.methodParameters == [] && symbol.returnType == "")
      && (context.targetSymbol.MethodTarget? ==>
            && symbol.symbolType == Method
            && symbol.genericParameters == MethodSymbolExtensions.GenericTypeParametersOf(context.targetSymbol.methodSymbol)
            && symbol.methodParameters == MethodSymbolExtensions.MethodParametersOf(context.targetSymbol.methodSymbol)
            && symbol.returnType == context.targetSymbol.methodSymbol.returnTypeDisplay)
  {
    GetSymbolTypeAgreesWithGetDeclarationType(context.targetSymbol);
  }

  /**
   * Every symbol `Transform` produces has its namespaces before its types, and its namespace is
   * empty or the leading part of its fully qualified name.
   */
  lemma TransformedNamespacePrefixesName(context: GeneratorAttributeSyntaxContext)
    requires SymbolOf(context).Success?
    ensures var symbol := SymbolOf(context).value;
      && IsNamespacesThenTypes(symbol.containingDeclarations)
      && (symbol.Namespace() == "" || symbol.Namespace() + "." <= symbol.FullyQualifiedName())
  {
    var symbol := SymbolOf(context).value;
    ContainingDeclarationsAreNamespacesThenTypes(context.targetSymbol.ContainingSymbol());
    NamespacePrefixesFullyQualifiedName(symbol);
  }

  /** An attribute with a class and a parameterless constructor and no arguments, which always reads. */
  function PlainAttribute(): AttributeFact
  {
    AttributeFact(Some(AttributeClassFact("MarkerAttribute", false, [], [])), Some([]), [], [])
  }

  /** A type in the global namespace with the given flags. */
  function TopLevelType(isReferenceType: bool, isValueType: bool, isInterface: bool, isRecord: bool): TypeFact
  {
    TypeFact(isReferenceType, isValueType, isInterface, isRecord, false, "T", [], NamespaceSymbol(NamespaceFact(true, "", None)))
  }

  /** Each of the six symbol kinds comes out of `Transform` for a suitably shaped target. */
  lemma EveryKindIsReachable()
    ensures SymbolOf(GeneratorAttributeSyntaxContext(NamedTypeTarget(TopLevelType(true, false, true, false)), [PlainAttribute()]))
      .value.symbolType == SymbolType.Interface
    ensures SymbolOf(GeneratorAttributeSyntaxContext(NamedTypeTarget(TopLevelType(true, false, false, false)), [PlainAttribute()]))
      .value.symbolType == SymbolType.Class
    ensures SymbolOf(GeneratorAttributeSyntaxContext(NamedTypeTarget(TopLevelType(true, false, false, true)), [PlainAttribute()]))
      .value.symbolType == SymbolType.Record
    ensures SymbolOf(GeneratorAttributeSyntaxContext(NamedTypeTarget(TopLevelType(false, true, false, false)), [PlainAttribute()]))
      .value.symbolType == SymbolType.Struct
    ensures SymbolOf(GeneratorAttributeSyntaxContext(NamedTypeTarget(TopLevelType(false, true, false, true)), [PlainAttribute()]))
      .value.symbolType == SymbolType.RecordStruct
    ensures SymbolOf(GeneratorAttributeSyntaxContext(
        MethodTarget(MethodFact("M", false, [], [], "void", OtherSymbol)), [PlainAttribute()])).value.symbolType == SymbolType.Method
    ensures SymbolOf(GeneratorAttributeSyntaxContext(NamedTypeTarget(TopLevelType(false, false, false, false)), [PlainAttribute()]))
      == Failure(UnsupportedSymbol)
  {
  }

  /**
   * A method `Method` in the record `InnerRecord`, nested in `Outer<T>`, in namespace `N1.N2`:
   * its hierarchy lists the two namespaces, then `Outer` with `T`, then `InnerRecord`.
   */
  lemma TransformExample()
    ensures var n1 := NamespaceFact(false, "N1", Some(NamespaceFact(true, "", None)));
      var n2 := NamespaceFact(false, "N2", Some(n1));
      var outer := TypeFact(true, false, false, false, true, "Outer", ["T"], NamespaceSymbol(n2));
      var inner := TypeFact(true, false, false, true, false, "InnerRecord", [], NamedTypeSymbol(outer));
      var target := MethodFact("Method", false, [], [], "void", NamedTypeSymbol(inner));
      var r := SymbolOf(GeneratorAttributeSyntaxContext(MethodTarget(target), [PlainAttribute()]));
      && r.Success?
      && r.value.symbolType == SymbolType.Method
      && r.value.containingDeclarations == [
           Declaration(DeclarationType.Namespace, "N1", []), Declaration(DeclarationType.Namespace, "N2", []),
           Declaration(DeclarationType.Class, "Outer", ["T"]), Declaration(DeclarationType.Record, "InnerRecord", [])]
      && r.value.FullyQualifiedName() == "N1.N2.Outer`1.InnerRecord.Method"
      && r.value.Namespace() == "N1.N2"
  {
    var n1 := NamespaceFact(false, "N1", Some(NamespaceFact(true, "", None)));
    var n2 := NamespaceFact(false, "N2", Some(n1));
    var outer := TypeFact(true, false, false, false, true, "Outer", ["T"], NamespaceSymbol(n2));
    var inner := TypeFact(true, false, false, true, false, "InnerRecord", [], NamedTypeSymbol(outer));
    var hierarchy := [
      Declaration(DeclarationType.Namespace, "N1", []), Declaration(DeclarationType.Namespace, "N2", []),
      Declaration(DeclarationType.Class, "Outer", ["T"]), Declaration(DeclarationType.Record, "InnerRecord", [])];
    assert NamespaceDeclarationsOf(n2) == hierarchy[..2];
    assert TypeDeclarationsOf(outer) == hierarchy[..3];
    assert ContainingDeclarationsOf(NamedTypeSymbol(inner)) == hierarchy;
    var symbol := SymbolOf(GeneratorAttributeSyntaxContext(MethodTarget(MethodFact("Method", false, [], [], "void", NamedTypeSymbol(inner))), [PlainAttribute()])).value;
    FullyQualifiedNameExample(symbol);
  }

  // ---------------------------------------------------------------------------------------------
  // Artifacts

  /** The suffix of every artifact name. */
  const GeneratedSuffix := ".g.cs"

  /** The hint name of an artifact derived from `derivedName`. */
  function HintName(derivedName: string): string
  {
    derivedName + GeneratedSuffix
  }

  /** Distinct derived names give distinct hint names, and the derived name can be read back. */
  lemma HintNameIsInjective(a: string, b: string)
    ensures HintName(a) == HintName(b) <==> a == b
    ensures HintName(a)[..|a|] == a && HintName(a)[|a|..] == GeneratedSuffix
  {
    if HintName(a) == HintName(b) {
      assert |a| == |b|;
      assert a == HintName(a)[..|a|];
      assert b == HintName(b)[..|b|];
    }
  }

  /**
   * `AddMarkerAttributeSource`: the marker attribute's own source, verbatim, under the
   * attribute's name, when that source is present and not empty; otherwise nothing.
   */
  function MarkerAttributeSource(configuration: Configuration): (r: Option<Source>)
    ensures r.Some? <==> configuration.markerAttributeSource.Some? && |configuration.markerAttributeSource.value| > 0
    ensures r.Some? ==> r.value.text == configuration.markerAttributeSource.value
    ensures r.Some? ==> r.value.name == HintName(configuration.markerAttributeName)
  {
    var markerAttributeSource := configuration.markerAttributeSource;
    if markerAttributeSource.Some? && |markerAttributeSource.value| > 0 then
      Some(Source(HintName(configuration.markerAttributeName), markerAttributeSource.value))
    else None
  }

  /** `GenerateSourceForSymbol`: the callback's text for the symbol, named after its fully qualified name. */
  function GenerateSourceForSymbol(configuration: Configuration, symbol: Symbol): Source
  {
    Source(HintName(symbol.FullyQualifiedName()), configuration.sourceGenerator(symbol))
  }

  /** Two symbols' artifacts share a name exactly when the symbols share a fully qualified name. */
  lemma ArtifactNamesCollideExactlyOnEqualNames(configuration: Configuration, a: Symbol, b: Symbol)
    ensures GenerateSourceForSymbol(configuration, a).name == GenerateSourceForSymbol(configuration, b).name
      <==> a.FullyQualifiedName() == b.FullyQualifiedName()
  {
    HintNameIsInjective(a.FullyQualifiedName(), b.FullyQualifiedName());
  }

  /**
   * Two overloads of one method (same container and name, different parameters) are given the
   * same artifact name; nothing tells their artifacts apart.
   */
  lemma OverloadsShareArtifactName(configuration: Configuration, context: GeneratorAttributeSyntaxContext, parameters: seq<ParameterFact>)
    requires context.targetSymbol.MethodTarget? && SymbolOf(context).Success?
    ensures var m := context.targetSymbol.methodSymbol;
      var overload := GeneratorAttributeSyntaxContext(MethodTarget(m.(parameters := parameters)), context.attributes);
      && SymbolOf(overload).Success?
      && GenerateSourceForSymbol(configuration, SymbolOf(overload).value).name
         == GenerateSourceForSymbol(configuration, SymbolOf(context).value).name
  {
  }
}
