/** `FilterType`: the `[Flags]` enumeration, backed by a 32-bit integer, that selects eligible kinds. */
module FilterTypes {

  type FilterType = bv32

  const None: FilterType := 0
  const Interface: FilterType := 1
  const Class: FilterType := 2
  const Record: FilterType := 4
  const Struct: FilterType := 8
  const RecordStruct: FilterType := 16
  const Method: FilterType := 32

  /** The union of the six kind flags. */
  const All: FilterType := Interface | Class | Record | Struct | RecordStruct | Method

  /** The six kind flags, in declaration order. */
  const Kinds: seq<FilterType> := [Interface, Class, Record, Struct, RecordStruct, Method]

  /** `Enum.HasFlag`: every bit of `flag` is also set in `value`. */
  predicate HasFlag(value: FilterType, flag: FilterType)
  {
    value & flag == flag
  }

  /** Kind i is the single bit 1 << i, so the six kinds are pairwise distinct and do not overlap. */
  lemma KindsAreDistinctSingleBits()
    ensures |Kinds| == 6
    ensures forall i :: 0 <= i < |Kinds| ==> Kinds[i] == (1 as bv32) << i
    ensures forall i, j :: 0 <= i < j < |Kinds| ==> Kinds[i] & Kinds[j] == 0
  {
  }

  /** `All` is 63, it holds every kind, and a flag value lies within `All` exactly when it is a union of kinds. */
  lemma AllIsExactlyTheKinds()
    ensures All == 63
    ensures forall i :: 0 <= i < |Kinds| ==> HasFlag(All, Kinds[i])
    ensures forall v: FilterType :: HasFlag(All, v) <==> v & !All == 0
  {
  }

  /** `None` holds no kind; every value holds `None`. */
  lemma NoneHoldsNoKind()
    ensures forall i :: 0 <= i < |Kinds| ==> !HasFlag(None, Kinds[i])
    ensures forall v: FilterType :: HasFlag(v, None)
  {
  }
}
