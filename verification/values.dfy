/** The slot values an EquatableBox can hold, and the equality each slot type
    brings with it. A box is generic over any `Equatable` element types; this
    model fixes the element types the package's tests put in boxes: `Int`,
    `String`, `Bool`, `Int?`, and plain structs with synthesized `Equatable`
    conformance (Person, Address, User). */
module Values {

  datatype Option<T> = None | Some(value: T)

  /** One slot. A struct is a `RecordV`: its type name and its stored
      properties in declaration order. */
  datatype Value =
    | IntV(i: int)
    | StrV(s: string)
    | BoolV(b: bool)
    | OptIntV(o: Option<int>)
    | RecordV(typeName: string, fields: seq<Value>)

  /** The static type of a slot. Two slots can only be compared when their
      kinds agree; Swift rejects anything else at compile time. */
  datatype Kind =
    | IntK
    | StrK
    | BoolK
    | OptIntK
    | RecordK(typeName: string, fields: seq<Kind>)

  function KindOf(v: Value): (k: Kind)
    decreases v
  {
    match v
    case IntV(_) => IntK
    case StrV(_) => StrK
    case BoolV(_) => BoolK
    case OptIntV(_) => OptIntK
    case RecordV(n, fs) => RecordK(n, seq(|fs|, i requires 0 <= i < |fs| => KindOf(fs[i])))
  }

  /** `==` on `Int?`: two `nil`s are equal, two wrapped values are equal when
      the wrapped integers are, and `nil` never equals a wrapped value. */
  predicate OptEq(x: Option<int>, y: Option<int>)
  {
    match (x, y)
    case (None, None) => true
    case (Some(p), Some(q)) => p == q
    case _ => false
  }

  /** `==` of a slot's own type. Synthesized struct equality compares the
      stored properties pairwise. Slots of different kinds never meet in the
      source; here they are simply unequal. */
  predicate SlotEq(a: Value, b: Value)
    decreases a
  {
    match (a, b)
    case (IntV(x), IntV(y)) => x == y
    case (StrV(x), StrV(y)) => x == y
    case (BoolV(x), BoolV(y)) => x == y
    case (OptIntV(x), OptIntV(y)) => OptEq(x, y)
    case (RecordV(n, fs), RecordV(m, gs)) =>
      n == m && |fs| == |gs| && forall i :: 0 <= i < |fs| ==> SlotEq(fs[i], gs[i])
    case _ => false
  }

  /** Every slot type's `==` is structural: it holds exactly of identical
      values. */
  lemma {:induction false} SlotEqIsIdentity(a: Value, b: Value)
    ensures SlotEq(a, b) <==> a == b
    decreases a
  {
    match a
    case RecordV(n, fs) =>
      if b.RecordV? && n == b.typeName && |fs| == |b.fields| {
        var gs := b.fields;
        forall i | 0 <= i < |fs|
          ensures SlotEq(fs[i], gs[i]) <==> fs[i] == gs[i]
        {
          SlotEqIsIdentity(fs[i], gs[i]);
        }
        if forall i :: 0 <= i < |fs| ==> SlotEq(fs[i], gs[i]) {
          assert fs == gs;
        }
      }
    case OptIntV(x) =>
    case _ =>
  }

  /** Slot equality is an equivalence relation, which is what Swift's
      `Equatable` asks of every conforming type. */
  lemma SlotEqIsEquivalence()
    ensures forall x :: SlotEq(x, x)
    ensures forall x, y :: SlotEq(x, y) ==> SlotEq(y, x)
    ensures forall x, y, z :: SlotEq(x, y) && SlotEq(y, z) ==> SlotEq(x, z)
  {
    forall x, y
      ensures SlotEq(x, y) <==> x == y
    {
      SlotEqIsIdentity(x, y);
    }
  }
}
