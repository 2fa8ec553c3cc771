/** One link of a containment chain and its rendering as the head of a partial declaration. */
module Declarations {
  import opened Text
  import opened EquatableLists

  /** The kinds a containing declaration can have. */
  datatype DeclarationType = Namespace | Interface | Class | Record | Struct | RecordStruct

  /** A namespace or type containing a symbol; a record struct, so equality is field by field. */
  datatype Declaration = Declaration(
    declarationType: DeclarationType,
    name: string,
    genericParameters: EquatableReadOnlyList<string>)
  {
    /** `ToString`: "namespace Name" for a namespace, "partial Name" or "partial Name<A, B>" for a type. */
    function ToString(): string
    {
      match declarationType
      case Namespace => "namespace " + name
      case _ =>
        if |genericParameters| > 0 then "partial " + name + "<" + Join(genericParameters, ", ") + ">"
        else "partial " + name
    }

    /** `Deconstruct`: the kind, name and generic list, which rebuild the same declaration. */
    function Deconstruct(): (r: (DeclarationType, string, seq<string>))
      ensures Declaration(r.0, r.1, r.2) == this
    {
      (declarationType, name, genericParameters)
    }
  }

  /** A namespace renders as "namespace " and its name, whatever generic list it carries. */
  lemma NamespaceRendering(name: string, genericParameters: seq<string>)
    ensures Declaration(Namespace, name, genericParameters).ToString() == "namespace " + name
  {
  }

  /** A type renders as "partial " and its name, then its generic list in angle brackets if it has one. */
  lemma {:induction false} TypeRendering(d: Declaration)
    requires d.declarationType != Namespace
    ensures |d.ToString()| >= 8 + |d.name|
    ensures d.ToString()[..8 + |d.name|] == "partial " + d.name
    ensures |d.genericParameters| == 0 <==> |d.ToString()| == 8 + |d.name|
    ensures |d.genericParameters| > 0 ==>
      d.ToString()[8 + |d.name|..] == "<" + Join(d.genericParameters, ", ") + ">"
  {
  }

  /** The rendering of a type never depends on which type kind it is: every kind renders as "partial". */
  lemma TypeRenderingIgnoresKind(d: Declaration, other: DeclarationType)
    requires d.declarationType != Namespace && other != Namespace
    ensures Declaration(other, d.name, d.genericParameters).ToString() == d.ToString()
  {
  }

  /** Declarations are equal exactly when kind, name and generic list are equal. */
  lemma DeclarationEquality(a: Declaration, b: Declaration)
    ensures a == b <==>
      a.declarationType == b.declarationType && a.name == b.name && a.genericParameters == b.genericParameters
  {
  }
}
