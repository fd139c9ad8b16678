/** The private `areEqual` helper: two tuples of the same element types are
    compared position by position, left to right, each position with its own
    element type's `==`. The element equality is a parameter here. */
module ElementWise {

  /** What `areEqual` decides: every position holds equal elements. */
  predicate AllEqual<T>(eq: (T, T) -> bool, lhs: seq<T>, rhs: seq<T>)
    requires |lhs| == |rhs|
  {
    forall i :: 0 <= i < |lhs| ==> eq(lhs[i], rhs[i])
  }

  /** The element comparison is defined at every position the scan of
      `areEqual` can reach: a position whose predecessors all compared equal.
      Beyond the first mismatch it need not be defined at all. */
  ghost predicate DefinedWhereReached<T>(eq: (T, T) --> bool, lhs: seq<T>, rhs: seq<T>)
    requires |lhs| == |rhs|
  {
    forall i :: 0 <= i < |lhs| && (forall j :: 0 <= j < i ==> eq.requires(lhs[j], rhs[j]) && eq(lhs[j], rhs[j]))
      ==> eq.requires(lhs[i], rhs[i])
  }

  /** The loop of `areEqual`, guard and early return included. The element
      comparison is a partial function, defined only where the scan can
      reach, so the method cannot evaluate `==` at a position after the first
      mismatch: the short circuit is part of what verifies. `examined` is
      how many positions had their `==` evaluated: on a mismatch the scan
      stops right after the first differing position; with no mismatch (an
      empty tuple included) it has looked at every position and answers
      true. Swift returns only the `Bool`; `examined` is ghost bookkeeping. */
  method AreEqual<T>(eq: (T, T) --> bool, lhs: seq<T>, rhs: seq<T>) returns (equal: bool, ghost examined: nat)
    requires |lhs| == |rhs|
    requires DefinedWhereReached(eq, lhs, rhs)
    ensures equal <==> forall i :: 0 <= i < |lhs| ==> eq.requires(lhs[i], rhs[i]) && eq(lhs[i], rhs[i])
    ensures equal ==> examined == |lhs|
    ensures !equal ==> 0 < examined <= |lhs| && eq.requires(lhs[examined - 1], rhs[examined - 1])
                       && !eq(lhs[examined - 1], rhs[examined - 1])
    ensures forall i :: 0 <= i < examined && (equal || i < examined - 1) ==>
                          eq.requires(lhs[i], rhs[i]) && eq(lhs[i], rhs[i])
  {
    var i := 0;
    while i < |lhs|
      invariant 0 <= i <= |lhs|
      invariant forall j :: 0 <= j < i ==> eq.requires(lhs[j], rhs[j]) && eq(lhs[j], rhs[j])
    {
      if !eq(lhs[i], rhs[i]) {
        return false, i + 1;
      }
      i := i + 1;
    }
    return true, |lhs|;
  }

  /** Tuples of arity 0 are always equal. */
  lemma EmptyAllEqual<T>(eq: (T, T) -> bool, lhs: seq<T>, rhs: seq<T>)
    requires |lhs| == |rhs| == 0
    ensures AllEqual(eq, lhs, rhs)
  {
  }

  /** Reflexivity of every element equality lifts to the tuple comparison. */
  lemma AllEqualReflexive<T>(eq: (T, T) -> bool, s: seq<T>)
    requires forall x :: eq(x, x)
    ensures AllEqual(eq, s, s)
  {
  }

  /** Symmetry lifts as well. */
  lemma AllEqualSymmetric<T>(eq: (T, T) -> bool, lhs: seq<T>, rhs: seq<T>)
    requires |lhs| == |rhs|
    requires forall x, y :: eq(x, y) ==> eq(y, x)
    ensures AllEqual(eq, lhs, rhs) <==> AllEqual(eq, rhs, lhs)
  {
  }

  /** So does transitivity. */
  lemma AllEqualTransitive<T>(eq: (T, T) -> bool, a: seq<T>, b: seq<T>, c: seq<T>)
    requires |a| == |b| == |c|
    requires forall x, y, z :: eq(x, y) && eq(y, z) ==> eq(x, z)
    requires AllEqual(eq, a, b) && AllEqual(eq, b, c)
    ensures AllEqual(eq, a, c)
  {
  }
}
