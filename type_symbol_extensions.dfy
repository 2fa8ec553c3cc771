/** `GetDeclarationType`: the kind a containing type classifies to, from its four flags. */
module TypeSymbolExtensions {
  import opened Wrappers
  import opened Roslyn
  import opened Declarations

  /**
   * Reference types come first (interface, then record, then class), value types next
   * (record struct, then struct); a type that is neither has no declaration type.
   */
  function GetDeclarationType(symbol: TypeFact): (r: Option<DeclarationType>)
    ensures r != Some(Namespace)
    ensures r == None <==> !symbol.isReferenceType && !symbol.isValueType
    ensures r == Some(Interface) <==> symbol.isReferenceType && symbol.isInterface
    ensures r == Some(Record) <==> symbol.isReferenceType && !symbol.isInterface && symbol.isRecord
    ensures r == Some(Class) <==> symbol.isReferenceType && !symbol.isInterface && !symbol.isRecord
    ensures r == Some(RecordStruct) <==> !symbol.isReferenceType && symbol.isValueType && symbol.isRecord
    ensures r == Some(Struct) <==> !symbol.isReferenceType && symbol.isValueType && !symbol.isRecord
  {
    if symbol.isReferenceType && symbol.isInterface then Some(Interface)
    else if symbol.isReferenceType && symbol.isRecord then Some(Record)
    else if symbol.isReferenceType then Some(Class)
    else if symbol.isValueType && symbol.isRecord then Some(RecordStruct)
    else if symbol.isValueType then Some(Struct)
    else None
  }

  /** The classification reads nothing but the reference, value, interface and record flags. */
  lemma GetDeclarationTypeReadsOnlyFlags(a: TypeFact, b: TypeFact)
    requires a.isReferenceType == b.isReferenceType && a.isValueType == b.isValueType
    requires a.isInterface == b.isInterface && a.isRecord == b.isRecord
    ensures GetDeclarationType(a) == GetDeclarationType(b)
  {
  }
}
