/**
 * The value-equality list every model record is built from, the stack the hierarchy walk
 * pushes into, and the conversions that turn either into such a list.
 */
module EquatableLists {

  /**
   * An immutable list whose equality is element-wise in order. A Dafny `seq` has exactly
   * that equality, and the shared empty instance is the empty sequence `[]`.
   */
  type EquatableReadOnlyList<T> = seq<T>

  /** Two lists are equal exactly when they have the same length and equal items in the same order. */
  lemma EqualsIsSequenceEqual<T>(a: EquatableReadOnlyList<T>, b: EquatableReadOnlyList<T>)
    ensures a == b <==> (|a| == |b| && forall i :: 0 <= i < |a| ==> a[i] == b[i])
  {
  }

  /**
   * Both `ToEquatableReadOnlyList` overloads: the list overload wraps the list and the
   * enumerable overload snapshots it with `ToArray`; either way the result holds the same
   * items in enumeration order.
   */
  function ToEquatableReadOnlyList<T>(items: seq<T>): (r: EquatableReadOnlyList<T>)
    ensures |r| == |items|
    ensures forall i :: 0 <= i < |r| ==> r[i] == items[i]
  {
    items
  }

  /** A last-in-first-out stack; `pushed` lists the items oldest first, so the top is its last item. */
  datatype Stack<T> = Stack(pushed: seq<T>) {

    function Push(item: T): Stack<T>
    {
      Stack(pushed + [item])
    }

    /** The order in which a stack enumerates its items: top first, down to the oldest. */
    function Enumerate(): seq<T>
      decreases |pushed|
    {
      if |pushed| == 0 then [] else [pushed[|pushed| - 1]] + Stack(pushed[..|pushed| - 1]).Enumerate()
    }
  }

  /** Enumeration lists every pushed item exactly once, the last pushed first. */
  lemma {:induction false} EnumerateAt<T>(stack: Stack<T>)
    ensures |stack.Enumerate()| == |stack.pushed|
    ensures forall i :: 0 <= i < |stack.pushed| ==> stack.Enumerate()[i] == stack.pushed[|stack.pushed| - 1 - i]
    decreases |stack.pushed|
  {
    if |stack.pushed| > 0 {
      var rest := Stack(stack.pushed[..|stack.pushed| - 1]);
      EnumerateAt(rest);
    }
  }

  /** Enumerating after a push yields the pushed item first, then the earlier enumeration. */
  lemma EnumeratePush<T>(stack: Stack<T>, item: T)
    ensures stack.Push(item).Enumerate() == [item] + stack.Enumerate()
  {
    var e := stack.Push(item).Enumerate();
    EnumerateAt(stack);
    EnumerateAt(stack.Push(item));
    assert |e| == |[item] + stack.Enumerate()|;
    forall i | 0 <= i < |e|
      ensures e[i] == ([item] + stack.Enumerate())[i]
    {
    }
  }

  /**
   * A `Stack<T>` is not an `IReadOnlyList<T>`, so `ToEquatableReadOnlyList` takes the
   * enumerable overload and the list comes out last-pushed first.
   */
  function StackToEquatableReadOnlyList<T>(stack: Stack<T>): (r: EquatableReadOnlyList<T>)
    ensures |r| == |stack.pushed|
    ensures forall i :: 0 <= i < |r| ==> r[i] == stack.pushed[|stack.pushed| - 1 - i]
  {
    EnumerateAt(stack);
    ToEquatableReadOnlyList(stack.Enumerate())
  }
}
