/** The records that make up a symbol's description; all compare field by field. */
module Models {
  import opened Wrappers
  import opened EquatableLists

  /** A method parameter: its type's display text and its name. */
  datatype MethodParameter = MethodParameter(typeName: string, name: string)

  /** A generic type argument of the marker attribute: the type parameter's name and the bound type's display text. */
  datatype GenericTypeArgument = GenericTypeArgument(name: string, value: Option<string>)

  /** A constructor argument: the formal parameter's type and name and the supplied value's text (absent for null). */
  datatype ConstructorArgument = ConstructorArgument(typeName: string, name: string, value: Option<string>)

  /** A named argument: the value's type text, the property or field name, and the value's text (absent for null). */
  datatype NamedArgument = NamedArgument(typeName: string, name: string, value: Option<string>)

  /** The marker attribute on a symbol: its class name and its three argument lists. */
  datatype MarkerAttributeData = MarkerAttributeData(
    name: string,
    genericTypeArguments: EquatableReadOnlyList<GenericTypeArgument>,
    constructorArguments: EquatableReadOnlyList<ConstructorArgument>,
    namedArguments: EquatableReadOnlyList<NamedArgument>)
  {
    /** `Deconstruct`: the four stored values, which rebuild the same record. */
    function Deconstruct(): (r: (string, seq<GenericTypeArgument>, seq<ConstructorArgument>, seq<NamedArgument>))
      ensures MarkerAttributeData(r.0, r.1, r.2, r.3) == this
    {
      (name, genericTypeArguments, constructorArguments, namedArguments)
    }
  }

  /** Where an attribute argument came from. */
  datatype AttributeArgumentType = GenericType | Constructor | Named

  /** One kind-tagged attribute argument. */
  datatype AttributeArgument = AttributeArgument(argumentType: AttributeArgumentType, name: string, value: Option<string>)

  /** A generated artifact: its hint name and its text. */
  datatype Source = Source(name: string, text: string)
}
