/**
 * `GetSymbolType` and `GetContainingDeclarations`: the kind of the target symbol, and the walk
 * from its container outwards through containing types and namespaces.
 */
module SymbolExtensions {
  import opened Wrappers
  import opened Roslyn
  import opened EquatableLists
  import opened Declarations
  import opened Symbols
  import TypeSymbolExtensions
  import NamedSymbolExtensions
  import DeclarationExtensions

  /** `GetSymbolType`: the flag precedence for types, Method for methods, and an error for anything else. */
  function GetSymbolType(symbol: TargetSymbol): Result<SymbolType>
  {
    match symbol
    case NamedTypeTarget(t) =>
      if t.isReferenceType && t.isInterface then Success(SymbolType.Interface)
      else if t.isReferenceType && t.isRecord then Success(SymbolType.Record)
      else if t.isReferenceType then Success(SymbolType.Class)
      else if t.isValueType && t.isRecord then Success(SymbolType.RecordStruct)
      else if t.isValueType then Success(SymbolType.Struct)
      else Failure(UnsupportedSymbol)
    case MethodTarget(_) => Success(SymbolType.Method)
    case OtherTarget(_, _) => Failure(UnsupportedSymbol)
  }

  /** The symbol kind that corresponds to a containing declaration's kind. */
  function SymbolTypeOf(declarationType: DeclarationType): Option<SymbolType>
  {
    match declarationType
    case Namespace => None
    case Interface => Some(SymbolType.Interface)
    case Class => Some(SymbolType.Class)
    case Record => Some(SymbolType.Record)
    case Struct => Some(SymbolType.Struct)
    case RecordStruct => Some(SymbolType.RecordStruct)
  }

  /**
   * On a named type, `GetSymbolType` follows the same five-way precedence as `GetDeclarationType`
   * and fails exactly where that one has no result; a method is a Method; anything else fails.
   */
  lemma GetSymbolTypeAgreesWithGetDeclarationType(symbol: TargetSymbol)
    ensures symbol.NamedTypeTarget? ==>
      match TypeSymbolExtensions.GetDeclarationType(symbol.namedType)
      case None => GetSymbolType(symbol) == Failure(UnsupportedSymbol)
      case Some(k) => SymbolTypeOf(k).Some? && GetSymbolType(symbol) == Success(SymbolTypeOf(k).value)
    ensures symbol.MethodTarget? ==> GetSymbolType(symbol) == Success(SymbolType.Method)
    ensures symbol.OtherTarget? ==> GetSymbolType(symbol) == Failure(UnsupportedSymbol)
  {
  }

  /** The declarations containing a symbol whose `ContainingSymbol` is `container`, outermost first. */
  function ContainingDeclarationsOf(container: ContainingSymbol): seq<Declaration>
    decreases container
  {
    match container
    case NamespaceSymbol(ns) => NamespaceDeclarationsOf(ns)
    case NamedTypeSymbol(t) => TypeDeclarationsOf(t)
    case OtherSymbol => []
  }

  /** A namespace and its non-global parents, outermost first; the global namespace is never listed. */
  function NamespaceDeclarationsOf(ns: NamespaceFact): seq<Declaration>
    decreases ns
  {
    var outer :=
      match ns.containingNamespace
      case Some(parent) => if parent.isGlobal then [] else NamespaceDeclarationsOf(parent)
      case None => [];
    outer + (if ns.isGlobal then [] else [Declaration(Namespace, ns.name, [])])
  }

  /** A containing type and what contains it, outermost first; nothing at all if the type has no declaration type. */
  function TypeDeclarationsOf(t: TypeFact): seq<Declaration>
    decreases t
  {
    match TypeSymbolExtensions.GetDeclarationType(t)
    case None => []
    case Some(k) =>
      ContainingDeclarationsOf(t.containingSymbol) + [Declaration(k, t.name, NamedSymbolExtensions.GenericTypeParametersOf(t))]
  }

  /** Where the walk stands: about to look at a containing symbol, inside a namespace, or done. */
  datatype Cursor = AtContainer(container: ContainingSymbol) | AtNamespace(ns: NamespaceFact) | Finished

  /** What the walk still has to push, outermost first. */
  function Pending(cursor: Cursor): seq<Declaration>
  {
    match cursor
    case AtContainer(c) => ContainingDeclarationsOf(c)
    case AtNamespace(ns) => NamespaceDeclarationsOf(ns)
    case Finished => []
  }

  function NamespaceDepth(ns: NamespaceFact): nat
    decreases ns
  {
    match ns.containingNamespace
    case None => 1
    case Some(parent) => NamespaceDepth(parent) + 1
  }

  function ContainerDepth(c: ContainingSymbol): nat
    decreases c
  {
    match c
    case NamespaceSymbol(ns) => NamespaceDepth(ns) + 1
    case NamedTypeSymbol(t) => ContainerDepth(t.containingSymbol) + 1
    case OtherSymbol => 0
  }

  function CursorDepth(cursor: Cursor): nat
  {
    match cursor
    case AtContainer(c) => ContainerDepth(c) + 1
    case AtNamespace(ns) => NamespaceDepth(ns)
    case Finished => 0
  }

  /**
   * `GetContainingDeclarations`: walks outwards from the symbol's container, pushing each
   * declaration innermost first onto a stack, and returns the stack's enumeration, which is
   * therefore outermost first.
   */
  method GetContainingDeclarations(symbol: TargetSymbol) returns (r: EquatableReadOnlyList<Declaration>)
    ensures r == ContainingDeclarationsOf(symbol.ContainingSymbol())
  {
    var declarations: Stack<Declaration> := Stack([]);
    var cursor := AtContainer(symbol.ContainingSymbol());
    while !cursor.Finished?
      invariant Pending(cursor) + declarations.Enumerate() == ContainingDeclarationsOf(symbol.ContainingSymbol())
      decreases CursorDepth(cursor)
    {
      match cursor
      case AtContainer(container) =>
        match container {
        case NamespaceSymbol(ns) =>
          assert Pending(cursor) == Pending(AtNamespace(ns));
          cursor := AtNamespace(ns);
        case NamedTypeSymbol(t) =>
          var declarationType := TypeSymbolExtensions.GetDeclarationType(t);
          if declarationType.None? {
            assert TypeDeclarationsOf(t) == [];
            assert Pending(cursor) == ContainingDeclarationsOf(container) == TypeDeclarationsOf(t);
            cursor := Finished;
          } else {
            var genericTypeParameters := NamedSymbolExtensions.GetGenericTypeParameters(t);
            var typeDeclaration := Declaration(declarationType.value, t.name, genericTypeParameters);
            TypeStep(t, declarations, typeDeclaration);
            declarations := declarations.Push(typeDeclaration);
            cursor := AtContainer(t.containingSymbol);
          }
        case OtherSymbol =>
          assert Pending(cursor) == [];
          cursor := Finished;
        }
      case AtNamespace(ns) =>
        NamespaceStep(ns, declarations);
        ghost var next := NextAfterNamespace(ns);
        if !ns.isGlobal {
          var namespaceDeclaration := Declaration(Namespace, ns.name, []);
          declarations := declarations.Push(namespaceDeclaration);
        }
        if ns.containingNamespace.Some? && !ns.containingNamespace.value.isGlobal {
          cursor := AtNamespace(ns.containingNamespace.value);
        } else {
          cursor := Finished;
        }
        assert cursor == next;
        assert Pending(cursor) + declarations.Enumerate() == ContainingDeclarationsOf(symbol.ContainingSymbol());
    }
    r := StackToEquatableReadOnlyList(declarations);
  }

  /** Pushing a classified type and moving to its container keeps what is pending plus what is pushed unchanged. */
  lemma TypeStep(t: TypeFact, declarations: Stack<Declaration>, typeDeclaration: Declaration)
    requires TypeSymbolExtensions.GetDeclarationType(t).Some?
    requires typeDeclaration
      == Declaration(TypeSymbolExtensions.GetDeclarationType(t).value, t.name, NamedSymbolExtensions.GenericTypeParametersOf(t))
    ensures Pending(AtContainer(NamedTypeSymbol(t))) + declarations.Enumerate()
      == Pending(AtContainer(t.containingSymbol)) + declarations.Push(typeDeclaration).Enumerate()
  {
    EnumeratePush(declarations, typeDeclaration);
    assert TypeDeclarationsOf(t) == ContainingDeclarationsOf(t.containingSymbol) + [typeDeclaration];
    assert Pending(AtContainer(NamedTypeSymbol(t))) == TypeDeclarationsOf(t);
  }

  /** The cursor after a namespace: its non-global parent, or the end of the walk. */
  function NextAfterNamespace(ns: NamespaceFact): Cursor
  {
    if ns.containingNamespace.Some? && !ns.containingNamespace.value.isGlobal
    then AtNamespace(ns.containingNamespace.value) else Finished
  }

  /** Pushing a non-global namespace and moving to its parent keeps what is pending plus what is pushed unchanged. */
  lemma NamespaceStep(ns: NamespaceFact, declarations: Stack<Declaration>)
    ensures Pending(AtNamespace(ns)) + declarations.Enumerate()
      == Pending(NextAfterNamespace(ns))
        + (if ns.isGlobal then declarations else declarations.Push(Declaration(Namespace, ns.name, []))).Enumerate()
  {
    EnumeratePush(declarations, Declaration(Namespace, ns.name, []));
  }

  /** Every entry of a namespace chain is a Namespace with an empty generic list. */
  lemma {:induction false} NamespaceDeclarationsAreBare(ns: NamespaceFact)
    ensures forall i :: 0 <= i < |NamespaceDeclarationsOf(ns)| ==>
      NamespaceDeclarationsOf(ns)[i].declarationType == Namespace && NamespaceDeclarationsOf(ns)[i].genericParameters == []
    decreases ns
  {
    if ns.containingNamespace.Some? && !ns.containingNamespace.value.isGlobal {
      NamespaceDeclarationsAreBare(ns.containingNamespace.value);
    }
  }

  /**
   * Once the walk reaches a namespace it only follows namespace parents, so the hierarchy is
   * namespaces (each with an empty generic list) followed by types.
   */
  lemma {:induction false} ContainingDeclarationsAreNamespacesThenTypes(container: ContainingSymbol)
    ensures DeclarationExtensions.IsNamespacesThenTypes(ContainingDeclarationsOf(container))
    decreases container
  {
    match container
    case NamespaceSymbol(ns) =>
      NamespaceDeclarationsAreBare(ns);
    case NamedTypeSymbol(t) =>
      var k := TypeSymbolExtensions.GetDeclarationType(t);
      if k.Some? {
        ContainingDeclarationsAreNamespacesThenTypes(t.containingSymbol);
        var outer := ContainingDeclarationsOf(t.containingSymbol);
        var h := TypeDeclarationsOf(t);
        assert h == outer + [Declaration(k.value, t.name, NamedSymbolExtensions.GenericTypeParametersOf(t))];
        assert h[|h| - 1].declarationType != Namespace;
        assert forall i :: 0 <= i < |outer| ==> h[i] == outer[i];
      }
    case OtherSymbol =>
  }

  /** A symbol directly in the global namespace has an empty hierarchy: the global namespace is never listed. */
  lemma GlobalNamespaceIsNeverListed(ns: NamespaceFact)
    requires ns.isGlobal && ns.containingNamespace.None?
    ensures ContainingDeclarationsOf(NamespaceSymbol(ns)) == []
  {
  }

  /** A container that is neither a namespace nor a named type yields an empty hierarchy. */
  lemma OtherContainerHasNoDeclarations()
    ensures ContainingDeclarationsOf(OtherSymbol) == []
  {
  }

  /** A containing type without a declaration type is dropped, and everything outside it with it. */
  lemma UnclassifiedTypeCutsTheWalk(inner: TypeFact, outer: TypeFact)
    requires TypeSymbolExtensions.GetDeclarationType(outer).None?
    requires TypeSymbolExtensions.GetDeclarationType(inner).Some?
    requires inner.containingSymbol == NamedTypeSymbol(outer)
    ensures ContainingDeclarationsOf(NamedTypeSymbol(outer)) == []
    ensures ContainingDeclarationsOf(NamedTypeSymbol(inner))
      == [Declaration(TypeSymbolExtensions.GetDeclarationType(inner).value, inner.name, NamedSymbolExtensions.GenericTypeParametersOf(inner))]
  {
    assert TypeDeclarationsOf(outer) == [];
  }
}
