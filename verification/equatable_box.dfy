/** `EquatableBox<T>`: an immutable wrapper around a tuple of `Equatable`
    values whose `==` compares the tuples slot by slot. */
module EquatableBoxes {
  import opened Values
  import ElementWise

  /** A box. `value` is the stored tuple. `captured` is the tuple the
      comparison closure closed over when the box was built; `==` reads the
      closure, not `value`, so the two are kept apart here. */
  datatype Box = Box(value: seq<Value>, captured: seq<Value>)

  /** The tuple type `T`: the kind of every slot, in order. */
  function Shape(values: seq<Value>): (sh: seq<Kind>)
    ensures |sh| == |values|
  {
    seq(|values|, i requires 0 <= i < |values| => KindOf(values[i]))
  }

  /** What both initialisers establish: the closure captured exactly the
      tuple that is stored in `value`. */
  predicate Valid(b: Box)
  {
    b.captured == b.value
  }

  /** `EquatableBox(v1, v2, ...)`, the parameter-pack initialiser. */
  function FromValues(values: seq<Value>): (b: Box)
    ensures b.value == values
    ensures Valid(b)
  {
    Box(values, values)
  }

  /** `EquatableBox((v1, v2, ...))`, the initialiser taking a built tuple. */
  function FromTuple(tuple: seq<Value>): (b: Box)
    ensures b.value == tuple
    ensures Valid(b)
  {
    Box(tuple, tuple)
  }

  /** `lhs == rhs`: the closure stored in `lhs` runs `areEqual` on the tuple
      it captured and on `rhs.value`. Both sides have the static type `T`,
      so the two tuples have the same shape. */
  predicate Eq(lhs: Box, rhs: Box)
    requires Shape(lhs.captured) == Shape(rhs.value)
  {
    ElementWise.AllEqual(SlotEq, lhs.captured, rhs.value)
  }

  /** The operator as executed: the closure calls the scanning `areEqual`. */
  method Equals(lhs: Box, rhs: Box) returns (r: bool)
    requires Shape(lhs.captured) == Shape(rhs.value)
    ensures r <==> Eq(lhs, rhs)
  {
    ghost var examined;
    r, examined := ElementWise.AreEqual(SlotEq, lhs.captured, rhs.value);
  }

  /** `==` depends on the stored values of both boxes only, and two boxes are
      equal exactly when they store identical tuples. */
  lemma EqIffSameValue(a: Box, b: Box)
    requires Valid(a)
    requires Shape(a.value) == Shape(b.value)
    ensures Eq(a, b) <==> a.value == b.value
  {
    forall i | 0 <= i < |a.value|
      ensures SlotEq(a.value[i], b.value[i]) <==> a.value[i] == b.value[i]
    {
      SlotEqIsIdentity(a.value[i], b.value[i]);
    }
    if Eq(a, b) {
      assert a.value == b.value;
    }
  }

  /** Between boxes built by the initialisers, `==` is the same relation as
      identity of the box values. */
  lemma EqIsBoxIdentity(a: Box, b: Box)
    requires Valid(a) && Valid(b)
    requires Shape(a.value) == Shape(b.value)
    ensures Eq(a, b) <==> a == b
  {
    EqIffSameValue(a, b);
  }

  /** The two initialisers build the same box from the same values, and the
      boxes compare equal in both directions. */
  lemma InitializersAgree(values: seq<Value>)
    ensures FromValues(values) == FromTuple(values)
    ensures Eq(FromValues(values), FromTuple(values))
    ensures Eq(FromTuple(values), FromValues(values))
  {
    EqIffSameValue(FromValues(values), FromTuple(values));
  }

  /** Two boxes of arity 0 compare equal. */
  lemma EmptyBoxesEqual(a: Box, b: Box)
    requires |a.captured| == |b.value| == 0
    ensures Eq(a, b)
  {
  }

  lemma EqReflexive(a: Box)
    requires Valid(a)
    ensures Eq(a, a)
  {
    SlotEqIsEquivalence();
    ElementWise.AllEqualReflexive(SlotEq, a.value);
  }

  lemma EqSymmetric(a: Box, b: Box)
    requires Valid(a) && Valid(b)
    requires Shape(a.value) == Shape(b.value)
    ensures Eq(a, b) <==> Eq(b, a)
  {
    SlotEqIsEquivalence();
    ElementWise.AllEqualSymmetric(SlotEq, a.value, b.value);
  }

  lemma EqTransitive(a: Box, b: Box, c: Box)
    requires Valid(a) && Valid(b) && Valid(c)
    requires Shape(a.value) == Shape(b.value) == Shape(c.value)
    requires Eq(a, b) && Eq(b, c)
    ensures Eq(a, c)
  {
    SlotEqIsEquivalence();
    ElementWise.AllEqualTransitive(SlotEq, a.value, b.value, c.value);
  }

  /** Replacing slot `k` of a box that equals `a` by a different value of the
      same type yields a box of the same type that is unequal to `a`, on
      whichever side of `==` it stands. */
  lemma SlotSensitivity(a: Box, b: Box, k: nat, v: Value)
    requires Valid(a) && Valid(b)
    requires Shape(a.value) == Shape(b.value)
    requires Eq(a, b)
    requires k < |b.value|
    requires KindOf(v) == KindOf(b.value[k])
    requires v != b.value[k]
    ensures Shape(FromValues(b.value[k := v]).value) == Shape(a.value)
    ensures !Eq(a, FromValues(b.value[k := v]))
    ensures !Eq(FromValues(b.value[k := v]), a)
  {
    var b' := FromValues(b.value[k := v]);
    assert Shape(b'.value) == Shape(b.value);
    EqIffSameValue(a, b);
    assert b'.value[k] != a.value[k];
    EqIffSameValue(a, b');
    EqIffSameValue(b', a);
  }
}
