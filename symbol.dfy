/** The symbol description handed to the generation callback, with its derived names. */
module Symbols {
  import opened Text
  import opened EquatableLists
  import opened Models
  import opened Declarations
  import opened DeclarationExtensions

  /** The kinds a target symbol can have. */
  datatype SymbolType = Interface | Class | Record | Struct | RecordStruct | Method

  /** A matched symbol; a record struct, so equality is field by field. */
  datatype Symbol = Symbol(
    markerAttribute: MarkerAttributeData,
    containingDeclarations: EquatableReadOnlyList<Declaration>,
    symbolType: SymbolType,
    name: string,
    genericParameters: EquatableReadOnlyList<string>,
    methodParameters: EquatableReadOnlyList<MethodParameter>,
    returnType: string)
  {
    /** The symbol's own name, with "`n" when it has n > 0 generic parameters. */
    function OwnSegment(): string
    {
      Segment(name, |genericParameters|)
    }

    /** `FullyQualifiedName`: the own segment alone, or the containing path, a dot and the own segment. */
    function FullyQualifiedName(): string
    {
      if |containingDeclarations| <= 0 then OwnSegment()
      else FullyQualifiedNameOf(containingDeclarations) + "." + OwnSegment()
    }

    /** `Namespace`: "" without containing declarations, else the namespace join of them. */
    function Namespace(): string
    {
      if |containingDeclarations| <= 0 then "" else NamespaceOf(containingDeclarations)
    }

    /** `Deconstruct`: marker attribute, containing declarations, name and generic parameters. */
    function Deconstruct(): (r: (MarkerAttributeData, seq<Declaration>, string, seq<string>))
      ensures Symbol(r.0, r.1, symbolType, r.2, r.3, methodParameters, returnType) == this
    {
      (markerAttribute, containingDeclarations, name, genericParameters)
    }
  }

  /** `Namespace` is always the namespace join of the containing declarations; its empty-list guard changes nothing. */
  lemma NamespaceIsNamespaceOf(symbol: Symbol)
    ensures symbol.Namespace() == NamespaceOf(symbol.containingDeclarations)
  {
  }

  /**
   * With non-empty names, the fully qualified name is the dot-join of every containing segment
   * followed by the symbol's own segment.
   */
  lemma FullyQualifiedNameIsJoin(symbol: Symbol)
    requires forall i :: 0 <= i < |symbol.containingDeclarations| ==> |symbol.containingDeclarations[i].name| > 0
    ensures symbol.FullyQualifiedName() == Join(Segments(symbol.containingDeclarations) + [symbol.OwnSegment()], ".")
  {
    var c := symbol.containingDeclarations;
    var parts := Segments(c) + [symbol.OwnSegment()];
    assert parts[..|parts| - 1] == Segments(c);
    if |c| > 0 {
      FullyQualifiedNameOfIsJoin(c);
    }
  }

  /** When every name is simple, the fully qualified name is a well-formed dotted path. */
  lemma FullyQualifiedNameIsDottedPath(symbol: Symbol)
    requires IsSimpleName(symbol.name)
    requires forall i :: 0 <= i < |symbol.containingDeclarations| ==> IsSimpleName(symbol.containingDeclarations[i].name)
    ensures IsDottedPath(symbol.FullyQualifiedName())
  {
    var c := symbol.containingDeclarations;
    FullyQualifiedNameIsJoin(symbol);
    SegmentOfSimpleName(symbol.name, |symbol.genericParameters|);
    var parts := Segments(c) + [symbol.OwnSegment()];
    forall i | 0 <= i < |parts|
      ensures IsSimpleName(parts[i])
    {
      if i < |c| {
        SegmentsAt(c);
        SegmentOfSimpleName(c[i].name, |c[i].genericParameters|);
      }
    }
    JoinSimpleNamesIsDottedPath(parts);
  }

  /**
   * The fully qualified name depends on names and generic-parameter counts only: renaming
   * generic parameters, or changing kinds, leaves it unchanged.
   */
  lemma FullyQualifiedNameIgnoresParameterNames(a: Symbol, b: Symbol)
    requires SameNamesAndArities(a.containingDeclarations, b.containingDeclarations)
    requires a.name == b.name && |a.genericParameters| == |b.genericParameters|
    ensures a.FullyQualifiedName() == b.FullyQualifiedName()
  {
    FullyQualifiedNameOfDependsOnNamesAndArities(a.containingDeclarations, b.containingDeclarations);
  }

  /**
   * When the containing list has its namespaces before its types, the namespace is empty or
   * is the leading part of the fully qualified name, followed there by a dot.
   */
  lemma NamespacePrefixesFullyQualifiedName(symbol: Symbol)
    requires IsNamespacesThenTypes(symbol.containingDeclarations)
    ensures symbol.Namespace() == "" || symbol.Namespace() + "." <= symbol.FullyQualifiedName()
  {
    if |symbol.containingDeclarations| > 0 {
      NamespaceOfPrefixesFullyQualifiedName(symbol.containingDeclarations);
    }
  }

  /** The segments and namespace names of namespaces `N1`, `N2`, class `Outer<T>` and record `InnerRecord`. */
  lemma ExampleHierarchyParts(c: seq<Declaration>)
    requires c == [
      Declaration(DeclarationType.Namespace, "N1", []), Declaration(DeclarationType.Namespace, "N2", []),
      Declaration(DeclarationType.Class, "Outer", ["T"]), Declaration(DeclarationType.Record, "InnerRecord", [])]
    ensures Segments(c) == ["N1", "N2", "Outer`1", "InnerRecord"]
    ensures NamespaceNames(c) == ["N1", "N2"]
  {
    assert Decimal(1) == "1";
    assert Segment("Outer", 1) == "Outer`1";
    assert c[..3][..2] == c[..2];
    assert c[..2][..1] == c[..1];
    assert Segments(c[..1]) == ["N1"];
    assert Segments(c[..2]) == ["N1", "N2"];
    assert Segments(c[..3]) == ["N1", "N2", "Outer`1"];
    assert NamespaceNames(c[..1]) == ["N1"];
    assert NamespaceNames(c[..2]) == ["N1", "N2"];
    assert NamespaceNames(c[..3]) == ["N1", "N2"];
  }

  /**
   * A method `Method` whose containing declarations are namespaces `N1` and `N2`, the generic
   * class `Outer<T>` and the record `InnerRecord`.
   */
  lemma FullyQualifiedNameExample(symbol: Symbol)
    requires symbol.containingDeclarations == [
      Declaration(DeclarationType.Namespace, "N1", []), Declaration(DeclarationType.Namespace, "N2", []),
      Declaration(DeclarationType.Class, "Outer", ["T"]), Declaration(DeclarationType.Record, "InnerRecord", [])]
    requires symbol.name == "Method" && symbol.genericParameters == []
    ensures symbol.FullyQualifiedName() == "N1.N2.Outer`1.InnerRecord.Method"
    ensures symbol.Namespace() == "N1.N2"
  {
    var c := symbol.containingDeclarations;
    ExampleHierarchyParts(c);
    var s := ["N1", "N2", "Outer`1", "InnerRecord"];
    assert s[..3][..2] == s[..2] && s[..2][..1] == s[..1];
    assert GatedJoin(s[..1]) == "N1";
    assert GatedJoin(s[..2]) == "N1.N2";
    assert GatedJoin(s[..3]) == "N1.N2.Outer`1";
    assert GatedJoin(s) == "N1.N2.Outer`1.InnerRecord";
    assert GatedJoin(["N1", "N2"][..1]) == "N1";
  }
}
