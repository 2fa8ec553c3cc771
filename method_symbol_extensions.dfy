/** `GetGenericTypeParameters` and `GetMethodParameters` for methods. */
module MethodSymbolExtensions {
  import opened Roslyn
  import opened EquatableLists
  import opened Models

  /** The generic parameter names of a method: its type parameters' names if it is generic, else none. */
  function GenericTypeParametersOf(symbol: MethodFact): seq<string>
  {
    if symbol.isGenericMethod then symbol.typeParameters else []
  }

  /** One `MethodParameter` per parameter: the display text of its type and its name. */
  function MethodParametersOf(symbol: MethodFact): seq<MethodParameter>
  {
    seq(|symbol.parameters|, i requires 0 <= i < |symbol.parameters| =>
      MethodParameter(symbol.parameters[i].typeDisplay, symbol.parameters[i].name))
  }

  /** Copies the name of every type parameter, in order; a non-generic method yields the empty list. */
  method GetGenericTypeParameters(symbol: MethodFact) returns (r: EquatableReadOnlyList<string>)
    ensures r == GenericTypeParametersOf(symbol)
    ensures !symbol.isGenericMethod ==> r == []
    ensures symbol.isGenericMethod ==>
      |r| == |symbol.typeParameters| && forall i :: 0 <= i < |r| ==> r[i] == symbol.typeParameters[i]
  {
    if !symbol.isGenericMethod {
      return [];
    }
    var genericTypeParameters: seq<string> := [];
    for index := 0 to |symbol.typeParameters|
      invariant |genericTypeParameters| == index
      invariant forall i :: 0 <= i < index ==> genericTypeParameters[i] == symbol.typeParameters[i]
    {
      var typeParameter := symbol.typeParameters[index];
      genericTypeParameters := genericTypeParameters + [typeParameter];
    }
    r := ToEquatableReadOnlyList(genericTypeParameters);
  }

  /** One entry per parameter, in declared order, pairing its type's display text with its name. */
  method GetMethodParameters(symbol: MethodFact) returns (r: EquatableReadOnlyList<MethodParameter>)
    ensures r == MethodParametersOf(symbol)
    ensures |r| == |symbol.parameters|
    ensures forall i :: 0 <= i < |r| ==>
      r[i].typeName == symbol.parameters[i].typeDisplay && r[i].name == symbol.parameters[i].name
  {
    if |symbol.parameters| <= 0 {
      return [];
    }
    var methodParameters: seq<MethodParameter> := [];
    for index := 0 to |symbol.parameters|
      invariant |methodParameters| == index
      invariant forall i :: 0 <= i < index ==>
        methodParameters[i] == MethodParameter(symbol.parameters[i].typeDisplay, symbol.parameters[i].name)
    {
      var methodParameterSymbol := symbol.parameters[index];
      var typeName := methodParameterSymbol.typeDisplay;
      var name := methodParameterSymbol.name;
      var methodParameter := MethodParameter(typeName, name);
      methodParameters := methodParameters + [methodParameter];
    }
    r := ToEquatableReadOnlyList(methodParameters);
  }
}
