/**
 * The compiler facts the core reads, stated as plain values. Display strings and the
 * `ToString()` of attribute constants are taken as they come, as opaque text.
 */
module Roslyn {
  import opened Wrappers

  /** A namespace symbol: whether it is the global namespace, its name and its containing namespace. */
  datatype NamespaceFact = NamespaceFact(isGlobal: bool, name: string, containingNamespace: Option<NamespaceFact>)

  /**
   * A named type symbol. `isInterface` stands for `TypeKind == TypeKind.Interface`;
   * `typeParameters` lists the names of the type's own type parameters.
   */
  datatype TypeFact = TypeFact(
    isReferenceType: bool,
    isValueType: bool,
    isInterface: bool,
    isRecord: bool,
    isGenericType: bool,
    name: string,
    typeParameters: seq<string>,
    containingSymbol: ContainingSymbol)

  /** What a symbol's `ContainingSymbol` can be: a namespace, a named type, or anything else (or null). */
  datatype ContainingSymbol =
    | NamespaceSymbol(ns: NamespaceFact)
    | NamedTypeSymbol(namedType: TypeFact)
    | OtherSymbol

  /** A parameter: the display text of its type and its name. */
  datatype ParameterFact = ParameterFact(typeDisplay: string, name: string)

  /** A method symbol with its type parameters, parameters and the display text of its return type. */
  datatype MethodFact = MethodFact(
    name: string,
    isGenericMethod: bool,
    typeParameters: seq<string>,
    parameters: seq<ParameterFact>,
    returnTypeDisplay: string,
    containingSymbol: ContainingSymbol)

  /** The symbol a marker attribute is attached to. */
  datatype TargetSymbol =
    | NamedTypeTarget(namedType: TypeFact)
    | MethodTarget(methodSymbol: MethodFact)
    | OtherTarget(name: string, containingSymbol: ContainingSymbol)
  {
    function Name(): string
    {
      match this
      case NamedTypeTarget(t) => t.name
      case MethodTarget(m) => m.name
      case OtherTarget(n, _) => n
    }

    function ContainingSymbol(): ContainingSymbol
    {
      match this
      case NamedTypeTarget(t) => t.containingSymbol
      case MethodTarget(m) => m.containingSymbol
      case OtherTarget(_, c) => c
    }
  }

  /**
   * A typed constant: the display text of its type (null when unknown), whether it is an array
   * (whose `Value` throws instead of answering), and the `ToString()` of its value (null for a
   * null value).
   */
  datatype TypedConstantFact = TypedConstantFact(typeDisplay: Option<string>, isArray: bool, valueText: Option<string>)

  /** An attribute's class: its name, its type parameters and the display texts of its type arguments. */
  datatype AttributeClassFact = AttributeClassFact(
    name: string,
    isGenericType: bool,
    typeParameters: seq<string>,
    typeArguments: seq<string>)

  /** One applied attribute, with its class and constructor (either may be null) and the supplied arguments. */
  datatype AttributeFact = AttributeFact(
    attributeClass: Option<AttributeClassFact>,
    attributeConstructor: Option<seq<ParameterFact>>,
    constructorArguments: seq<TypedConstantFact>,
    namedArguments: seq<(string, TypedConstantFact)>)

  /** What the host hands to Transform: the target symbol and the matching attributes on it. */
  datatype GeneratorAttributeSyntaxContext = GeneratorAttributeSyntaxContext(
    targetSymbol: TargetSymbol,
    attributes: seq<AttributeFact>)

  /** The syntax class of a declaration node. */
  datatype SyntaxClass =
    | InterfaceDeclarationSyntax
    | ClassDeclarationSyntax
    | RecordDeclarationSyntax
    | StructDeclarationSyntax
    | MethodDeclarationSyntax
    | OtherSyntax

  /** The `SyntaxKind` a node reports through `Kind()`. */
  datatype SyntaxKind =
    | InterfaceDeclaration
    | ClassDeclaration
    | RecordDeclaration
    | StructDeclaration
    | RecordStructDeclaration
    | MethodDeclaration
    | OtherKind

  datatype SyntaxNode = SyntaxNode(syntaxClass: SyntaxClass, kind: SyntaxKind)

  /**
   * The pairing of syntax class and kind the compiler produces: a record declaration node
   * reports `RecordDeclaration` (for `record` and `record class`) or `RecordStructDeclaration`
   * (for `record struct`); every other declaration class has its one matching kind.
   */
  predicate IsCompilerNode(node: SyntaxNode)
  {
    match node.syntaxClass
    case InterfaceDeclarationSyntax => node.kind == InterfaceDeclaration
    case ClassDeclarationSyntax => node.kind == ClassDeclaration
    case RecordDeclarationSyntax => node.kind == RecordDeclaration || node.kind == RecordStructDeclaration
    case StructDeclarationSyntax => node.kind == StructDeclaration
    case MethodDeclarationSyntax => node.kind == MethodDeclaration
    case OtherSyntax => true
  }
}
