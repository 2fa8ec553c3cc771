/** Optional values and results with the failure conventions used throughout the model. */
module Wrappers {

  /** A nullable value: `None` stands for C#'s `null`. */
  datatype Option<+T> = None | Some(value: T)

  /** Either a value, or the exception the source would have thrown instead. */
  datatype Result<+R> = Success(value: R) | Failure(error: Error) {

    predicate IsFailure() {
      Failure?
    }

    function PropagateFailure<U>(): Result<U>
      requires Failure?
    {
      Failure(error)
    }

    function Extract(): R
      requires Success?
    {
      value
    }
  }

  /** The exceptions the core can raise while transforming one matched symbol. */
  datatype Error =
    | UnsupportedTarget          // Transform: the target is neither a named type nor a method
    | UnsupportedSymbol          // GetSymbolType: no kind matches the symbol's shape
    | NoAttributes               // `Attributes.First()` on an empty list
    | NullAttributeClass         // `AttributeClass` is null
    | NullAttributeConstructor   // `AttributeConstructor` is null
    | IndexOutOfRange            // an index loop reads past the end of a supplied list
    | ArrayConstantValue         // `TypedConstant.Value` read on an array-valued constant
}
