/** `GetGenericTypeParameters` for named types. */
module NamedSymbolExtensions {
  import opened Roslyn
  import opened EquatableLists

  /** The generic parameter names of a named type: its type parameters' names if it is generic, else none. */
  function GenericTypeParametersOf(symbol: TypeFact): seq<string>
  {
    if symbol.isGenericType then symbol.typeParameters else []
  }

  /** Copies the name of every type parameter, in order, into a fresh list; a non-generic type yields the empty list. */
  method GetGenericTypeParameters(symbol: TypeFact) returns (r: EquatableReadOnlyList<string>)
    ensures r == GenericTypeParametersOf(symbol)
    ensures !symbol.isGenericType ==> r == []
    ensures symbol.isGenericType ==>
      |r| == |symbol.typeParameters| && forall i :: 0 <= i < |r| ==> r[i] == symbol.typeParameters[i]
  {
    if !symbol.isGenericType {
      return [];
    }
    var typeParameters: seq<string> := [];
    for index := 0 to |symbol.typeParameters|
      invariant |typeParameters| == index
      invariant forall i :: 0 <= i < index ==> typeParameters[i] == symbol.typeParameters[i]
    {
      var typeParameter := symbol.typeParameters[index];
      typeParameters := typeParameters + [typeParameter];
    }
    r := ToEquatableReadOnlyList(typeParameters);
  }
}
