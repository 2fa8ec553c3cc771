/**
 * `GetMarkerAttribute` and its three argument extractors: index loops that pair the attribute's
 * formal type parameters, constructor parameters and named arguments with the supplied values.
 */
module AttributeExtensions {
  import opened Wrappers
  import opened Roslyn
  import opened EquatableLists
  import opened Models

  /** Entry i pairs type parameter i's name with type argument i's display text. */
  function PairTypeArguments(typeParameters: seq<string>, typeArguments: seq<string>): seq<GenericTypeArgument>
    requires |typeParameters| <= |typeArguments|
  {
    seq(|typeParameters|, i requires 0 <= i < |typeParameters| => GenericTypeArgument(typeParameters[i], Some(typeArguments[i])))
  }

  /** Entry i pairs formal parameter i's type and name with the text of supplied argument i. */
  function PairConstructorArguments(parameters: seq<ParameterFact>, arguments: seq<TypedConstantFact>): seq<ConstructorArgument>
    requires |parameters| <= |arguments|
  {
    seq(|parameters|, i requires 0 <= i < |parameters| =>
      ConstructorArgument(parameters[i].typeDisplay, parameters[i].name, arguments[i].valueText))
  }

  /** The `NamedArgument` for one supplied (name, value) pair: a missing type becomes "". */
  function NamedArgumentOf(pair: (string, TypedConstantFact)): NamedArgument
  {
    NamedArgument(if pair.1.typeDisplay.Some? then pair.1.typeDisplay.value else "", pair.0, pair.1.valueText)
  }

  /** The specification of `GetGenericTypeArguments`. */
  function GenericTypeArgumentsOf(attribute: AttributeFact): Result<seq<GenericTypeArgument>>
  {
    match attribute.attributeClass
    case None => Failure(NullAttributeClass)
    case Some(attributeClass) =>
      if !attributeClass.isGenericType then Success([])
      else if |attributeClass.typeArguments| < |attributeClass.typeParameters| then Failure(IndexOutOfRange)
      else Success(PairTypeArguments(attributeClass.typeParameters, attributeClass.typeArguments))
  }

  /** Some constant among the first `count` of `arguments` is an array, so reading its `Value` throws. */
  predicate HasArrayBefore(arguments: seq<TypedConstantFact>, count: nat)
  {
    exists i :: 0 <= i < count && i < |arguments| && arguments[i].isArray
  }

  /**
   * The specification of `GetConstructorArguments`. The loop reads argument i before its value,
   * so an array among the arguments it reaches fails before the index runs past a short list.
   */
  function ConstructorArgumentsOf(attribute: AttributeFact): Result<seq<ConstructorArgument>>
  {
    match attribute.attributeConstructor
    case None => Failure(NullAttributeConstructor)
    case Some(parameters) =>
      if |parameters| <= 0 then Success([])
      else if HasArrayBefore(attribute.constructorArguments, |parameters|) then Failure(ArrayConstantValue)
      else if |attribute.constructorArguments| < |parameters| then Failure(IndexOutOfRange)
      else Success(PairConstructorArguments(parameters, attribute.constructorArguments))
  }

  /** Entry i is the `NamedArgument` of supplied pair i. */
  function PairNamedArguments(namedArguments: seq<(string, TypedConstantFact)>): seq<NamedArgument>
  {
    seq(|namedArguments|, i requires 0 <= i < |namedArguments| => NamedArgumentOf(namedArguments[i]))
  }

  /** The values of the supplied named arguments. */
  function NamedValues(namedArguments: seq<(string, TypedConstantFact)>): seq<TypedConstantFact>
  {
    seq(|namedArguments|, i requires 0 <= i < |namedArguments| => namedArguments[i].1)
  }

  /** The specification of `GetNamedArguments`: an array-valued named argument fails. */
  function NamedArgumentsOf(attribute: AttributeFact): Result<seq<NamedArgument>>
  {
    var namedArguments := attribute.namedArguments;
    if HasArrayBefore(NamedValues(namedArguments), |namedArguments|) then Failure(ArrayConstantValue)
    else Success(PairNamedArguments(namedArguments))
  }

  /** The specification of `GetMarkerAttribute`: the first attribute's class name and its three lists. */
  function MarkerAttributeOf(context: GeneratorAttributeSyntaxContext): Result<MarkerAttributeData>
  {
    if |context.attributes| == 0 then Failure(NoAttributes)
    else
      var attribute := context.attributes[0];
      if attribute.attributeClass.None? then Failure(NullAttributeClass)
      else
        var genericTypeArguments :- GenericTypeArgumentsOf(attribute);
        var constructorArguments :- ConstructorArgumentsOf(attribute);
        var namedArguments :- NamedArgumentsOf(attribute);
        Success(MarkerAttributeData(attribute.attributeClass.value.name, genericTypeArguments, constructorArguments,
          namedArguments))
  }

  /**
   * `GetGenericTypeArguments`: a null class is an error and a non-generic class yields no entries;
   * otherwise one entry per type parameter, failing if there are fewer type arguments to read.
   */
  method GetGenericTypeArguments(attribute: AttributeFact) returns (r: Result<EquatableReadOnlyList<GenericTypeArgument>>)
    ensures r == GenericTypeArgumentsOf(attribute)
    ensures r.Failure? <==>
      || attribute.attributeClass.None?
      || (attribute.attributeClass.value.isGenericType
          && |attribute.attributeClass.value.typeArguments| < |attribute.attributeClass.value.typeParameters|)
    ensures r.Success? ==>
      var attributeClass := attribute.attributeClass.value;
      && |r.value| == (if attributeClass.isGenericType then |attributeClass.typeParameters| else 0)
      && forall i :: 0 <= i < |r.value| ==>
           r.value[i].name == attributeClass.typeParameters[i] && r.value[i].value == Some(attributeClass.typeArguments[i])
  {
    if attribute.attributeClass.None? {
      return Failure(NullAttributeClass);
    }
    var attributeClass := attribute.attributeClass.value;
    if !attributeClass.isGenericType {
      return Success([]);
    }
    var genericTypeArguments: seq<GenericTypeArgument> := [];
    for index := 0 to |attributeClass.typeParameters|
      invariant |genericTypeArguments| == index <= |attributeClass.typeArguments|
      invariant forall i :: 0 <= i < index ==>
        genericTypeArguments[i] == GenericTypeArgument(attributeClass.typeParameters[i], Some(attributeClass.typeArguments[i]))
    {
      var name := attributeClass.typeParameters[index];
      if index >= |attributeClass.typeArguments| {
        return Failure(IndexOutOfRange);
      }
      var value := attributeClass.typeArguments[index];
      genericTypeArguments := genericTypeArguments + [GenericTypeArgument(name, Some(value))];
    }
    assert genericTypeArguments == PairTypeArguments(attributeClass.typeParameters, attributeClass.typeArguments);
    r := Success(ToEquatableReadOnlyList(genericTypeArguments));
  }

  /**
   * `GetConstructorArguments`: a null constructor is an error even when it would take no
   * parameters; otherwise one entry per formal parameter, failing at the first index whose
   * argument is missing or holds an array.
   */
  method GetConstructorArguments(attribute: AttributeFact) returns (r: Result<EquatableReadOnlyList<ConstructorArgument>>)
    ensures r == ConstructorArgumentsOf(attribute)
    ensures r.Failure? <==>
      || attribute.attributeConstructor.None?
      || |attribute.constructorArguments| < |attribute.attributeConstructor.value|
      || exists i :: 0 <= i < |attribute.attributeConstructor.value| && i < |attribute.constructorArguments|
                     && attribute.constructorArguments[i].isArray
    ensures r == Failure(ArrayConstantValue) <==>
      && attribute.attributeConstructor.Some?
      && exists i :: 0 <= i < |attribute.attributeConstructor.value| && i < |attribute.constructorArguments|
                     && attribute.constructorArguments[i].isArray
    ensures r.Success? ==>
      var parameters := attribute.attributeConstructor.value;
      && |r.value| == |parameters|
      && forall i :: 0 <= i < |r.value| ==>
           && r.value[i].typeName == parameters[i].typeDisplay
           && r.value[i].name == parameters[i].name
           && r.value[i].value == attribute.constructorArguments[i].valueText
  {
    if attribute.attributeConstructor.None? {
      return Failure(NullAttributeConstructor);
    }
    var parameters := attribute.attributeConstructor.value;
    if |parameters| <= 0 {
      return Success([]);
    }
    var constructorArguments: seq<ConstructorArgument> := [];
    for index := 0 to |parameters|
      invariant |constructorArguments| == index <= |attribute.constructorArguments|
      invariant forall i :: 0 <= i < index ==> !attribute.constructorArguments[i].isArray
      invariant forall i :: 0 <= i < index ==>
        constructorArguments[i] == ConstructorArgument(parameters[i].typeDisplay, parameters[i].name, attribute.constructorArguments[i].valueText)
    {
      var constructorParameter := parameters[index];
      if index >= |attribute.constructorArguments| {
        return Failure(IndexOutOfRange);
      }
      var constructorArgument := attribute.constructorArguments[index];
      var typeName := constructorParameter.typeDisplay;
      var name := constructorParameter.name;
      if constructorArgument.isArray {
        return Failure(ArrayConstantValue);
      }
      var value := constructorArgument.valueText;
      constructorArguments := constructorArguments + [ConstructorArgument(typeName, name, value)];
    }
    assert constructorArguments == PairConstructorArguments(parameters, attribute.constructorArguments);
    r := Success(ToEquatableReadOnlyList(constructorArguments));
  }

  /**
   * `GetNamedArguments`: one entry per supplied pair, in supplied order, with a missing type
   * becoming ""; an array-valued argument fails.
   */
  method GetNamedArguments(attribute: AttributeFact) returns (r: Result<EquatableReadOnlyList<NamedArgument>>)
    ensures r == NamedArgumentsOf(attribute)
    ensures r.Failure? <==> exists i :: 0 <= i < |attribute.namedArguments| && attribute.namedArguments[i].1.isArray
    ensures r.Failure? ==> r.error == ArrayConstantValue
    ensures r.Success? ==>
      && |r.value| == |attribute.namedArguments|
      && forall i :: 0 <= i < |r.value| ==>
        && r.value[i].name == attribute.namedArguments[i].0
        && r.value[i].value == attribute.namedArguments[i].1.valueText
        && (attribute.namedArguments[i].1.typeDisplay.None? ==> r.value[i].typeName == "")
        && (attribute.namedArguments[i].1.typeDisplay.Some? ==> r.value[i].typeName == attribute.namedArguments[i].1.typeDisplay.value)
  {
    ghost var values := NamedValues(attribute.namedArguments);
    if |attribute.namedArguments| <= 0 {
      assert !HasArrayBefore(values, |attribute.namedArguments|);
      return Success([]);
    }
    var namedArguments: seq<NamedArgument> := [];
    for index := 0 to |attribute.namedArguments|
      invariant |namedArguments| == index
      invariant forall i :: 0 <= i < index ==> !attribute.namedArguments[i].1.isArray
      invariant forall i :: 0 <= i < index ==> namedArguments[i] == NamedArgumentOf(attribute.namedArguments[i])
    {
      var namedArgument := attribute.namedArguments[index].1;
      var typeName := if namedArgument.typeDisplay.Some? then namedArgument.typeDisplay.value else "";
      var name := attribute.namedArguments[index].0;
      if namedArgument.isArray {
        assert values[index].isArray;
        assert HasArrayBefore(values, |attribute.namedArguments|);
        return Failure(ArrayConstantValue);
      }
      var value := namedArgument.valueText;
      namedArguments := namedArguments + [NamedArgument(typeName, name, value)];
    }
    assert !HasArrayBefore(values, |attribute.namedArguments|);
    assert namedArguments == PairNamedArguments(attribute.namedArguments);
    r := Success(ToEquatableReadOnlyList(namedArguments));
  }

  /** `GetMarkerAttribute`: takes the first attribute, rejects a null class, and composes the three extractors. */
  method GetMarkerAttribute(context: GeneratorAttributeSyntaxContext) returns (r: Result<MarkerAttributeData>)
    ensures r == MarkerAttributeOf(context)
  {
    if |context.attributes| == 0 {
      return Failure(NoAttributes);
    }
    var attribute := context.attributes[0];
    if attribute.attributeClass.None? {
      return Failure(NullAttributeClass);
    }
    var attributeName := attribute.attributeClass.value.name;
    var genericTypeArguments :- GetGenericTypeArguments(attribute);
    var constructorArguments :- GetConstructorArguments(attribute);
    var namedArguments :- GetNamedArguments(attribute);
    r := Success(MarkerAttributeData(attributeName, genericTypeArguments, constructorArguments, namedArguments));
  }

  /**
   * When the marker attribute can be read, it is built from the first attribute alone: its
   * class name, and the three lists in the order generic, constructor, named.
   */
  lemma MarkerAttributeFromFirstAttribute(context: GeneratorAttributeSyntaxContext)
    requires MarkerAttributeOf(context).Success?
    ensures |context.attributes| > 0 && context.attributes[0].attributeClass.Some?
    ensures var attribute := context.attributes[0];
      var data := MarkerAttributeOf(context).value;
      && data.name == attribute.attributeClass.value.name
      && GenericTypeArgumentsOf(attribute) == Success(data.genericTypeArguments)
      && ConstructorArgumentsOf(attribute) == Success(data.constructorArguments)
      && NamedArgumentsOf(attribute) == Success(data.namedArguments)
  {
  }

  /** Attributes after the first never affect the result. */
  lemma MarkerAttributeIgnoresLaterAttributes(context: GeneratorAttributeSyntaxContext, later: seq<AttributeFact>)
    requires |context.attributes| > 0
    ensures MarkerAttributeOf(GeneratorAttributeSyntaxContext(context.targetSymbol, context.attributes[..1] + later))
      == MarkerAttributeOf(context)
  {
    assert (context.attributes[..1] + later)[0] == context.attributes[0];
  }

  /**
   * The failure conditions of `GetMarkerAttribute`, in the order they are checked: no attribute,
   * a null class, too few type arguments, a null constructor, then the constructor loop (an
   * array-valued argument it reaches, or too few arguments), then an array-valued named argument.
   */
  lemma MarkerAttributeErrors(context: GeneratorAttributeSyntaxContext)
    ensures |context.attributes| == 0 ==> MarkerAttributeOf(context) == Failure(NoAttributes)
    ensures |context.attributes| > 0 ==>
      var attribute := context.attributes[0];
      var r := MarkerAttributeOf(context);
      && (attribute.attributeClass.None? ==> r == Failure(NullAttributeClass))
      && (attribute.attributeClass.Some? ==>
            var attributeClass := attribute.attributeClass.value;
            var typeArgumentsShort := attributeClass.isGenericType && |attributeClass.typeArguments| < |attributeClass.typeParameters|;
            && (typeArgumentsShort ==> r == Failure(IndexOutOfRange))
            && (!typeArgumentsShort && attribute.attributeConstructor.None? ==> r == Failure(NullAttributeConstructor))
            && (!typeArgumentsShort && attribute.attributeConstructor.Some? ==>
                  var parameters := attribute.attributeConstructor.value;
                  var arguments := attribute.constructorArguments;
                  var constructorArray := |parameters| > 0 && HasArrayBefore(arguments, |parameters|);
                  var constructorShort := |parameters| > 0 && |arguments| < |parameters|;
                  && (constructorArray ==> r == Failure(ArrayConstantValue))
                  && (!constructorArray && constructorShort ==> r == Failure(IndexOutOfRange))
                  && (!constructorArray && !constructorShort ==>
                        && (r.Failure? <==> exists i :: 0 <= i < |attribute.namedArguments| && attribute.namedArguments[i].1.isArray)
                        && (r.Failure? ==> r == Failure(ArrayConstantValue)))))
  {
    if |context.attributes| > 0 {
      var attribute := context.attributes[0];
      var values := NamedValues(attribute.namedArguments);
      if exists i :: 0 <= i < |attribute.namedArguments| && attribute.namedArguments[i].1.isArray {
        var i :| 0 <= i < |attribute.namedArguments| && attribute.namedArguments[i].1.isArray;
        assert values[i].isArray;
      }
    }
  }

  /** An array-valued constructor argument fails even when a later index would run past a short list. */
  lemma ArrayArgumentFailsBeforeShortList()
    ensures var attribute := AttributeFact(
        Some(AttributeClassFact("MarkerAttribute", false, [], [])),
        Some([ParameterFact("string[]", "values"), ParameterFact("int", "count")]),
        [TypedConstantFact(Some("string[]"), true, None)],
        []);
      && ConstructorArgumentsOf(attribute) == Failure(ArrayConstantValue)
      && MarkerAttributeOf(GeneratorAttributeSyntaxContext(OtherTarget("x", OtherSymbol), [attribute])) == Failure(ArrayConstantValue)
  {
    var arguments := [TypedConstantFact(Some("string[]"), true, None)];
    assert arguments[0].isArray;
    assert HasArrayBefore(arguments, 2);
  }

  /**
   * An attribute with one generic type parameter, two constructor parameters and one named
   * argument yields one, two and one entries, each pairing the formal with the supplied value.
   */
  lemma MarkerAttributeExample()
    ensures var attribute := AttributeFact(
        Some(AttributeClassFact("GenerateAttribute", true, ["T"], ["int"])),
        Some([ParameterFact("string", "prefix"), ParameterFact("int", "count")]),
        [TypedConstantFact(Some("string"), false, Some("Item")), TypedConstantFact(Some("int"), false, Some("3"))],
        [("Enabled", TypedConstantFact(None, false, Some("True")))]);
      MarkerAttributeOf(GeneratorAttributeSyntaxContext(OtherTarget("x", OtherSymbol), [attribute]))
      == Success(MarkerAttributeData(
        "GenerateAttribute",
        [GenericTypeArgument("T", Some("int"))],
        [ConstructorArgument("string", "prefix", Some("Item")), ConstructorArgument("int", "count", Some("3"))],
        [NamedArgument("", "Enabled", Some("True"))]))
  {
    var attribute := AttributeFact(
        Some(AttributeClassFact("GenerateAttribute", true, ["T"], ["int"])),
        Some([ParameterFact("string", "prefix"), ParameterFact("int", "count")]),
        [TypedConstantFact(Some("string"), false, Some("Item")), TypedConstantFact(Some("int"), false, Some("3"))],
        [("Enabled", TypedConstantFact(None, false, Some("True")))]);
    var pairs := PairTypeArguments(["T"], ["int"]);
    assert pairs[0] == GenericTypeArgument("T", Some("int"));
    assert pairs == [GenericTypeArgument("T", Some("int"))];
    assert GenericTypeArgumentsOf(attribute) == Success([GenericTypeArgument("T", Some("int"))]);
    var arguments := PairConstructorArguments(attribute.attributeConstructor.value, attribute.constructorArguments);
    assert arguments[0] == ConstructorArgument("string", "prefix", Some("Item"));
    assert arguments[1] == ConstructorArgument("int", "count", Some("3"));
    assert arguments == [ConstructorArgument("string", "prefix", Some("Item")), ConstructorArgument("int", "count", Some("3"))];
    assert ConstructorArgumentsOf(attribute)
      == Success([ConstructorArgument("string", "prefix", Some("Item")), ConstructorArgument("int", "count", Some("3"))]);
    assert NamedValues(attribute.namedArguments) == [TypedConstantFact(None, false, Some("True"))];
    assert !HasArrayBefore(NamedValues(attribute.namedArguments), 1);
    var named := PairNamedArguments(attribute.namedArguments);
    assert named[0] == NamedArgument("", "Enabled", Some("True"));
    assert named == [NamedArgument("", "Enabled", Some("True"))];
    assert NamedArgumentsOf(attribute) == Success([NamedArgument("", "Enabled", Some("True"))]);
  }
}
