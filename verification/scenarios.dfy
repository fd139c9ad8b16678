/** The concrete cases of the package's test suite, stated about the model. */
module Scenarios {
  import opened Values
  import opened EquatableBoxes
  import opened BoxCollections

  /** `EquatableBox(1, "hello")` against boxes differing in the first and
      in the last slot. */
  lemma BasicTuples()
    ensures Eq(FromValues([IntV(1), StrV("hello")]), FromValues([IntV(1), StrV("hello")]))
    ensures !Eq(FromValues([IntV(1), StrV("hello")]), FromValues([IntV(2), StrV("hello")]))
    ensures !Eq(FromValues([IntV(1), StrV("hello")]), FromValues([IntV(1), StrV("world")]))
  {
    var b1 := FromValues([IntV(1), StrV("hello")]);
    EqIffSameValue(b1, FromValues([IntV(1), StrV("hello")]));
    EqIffSameValue(b1, FromValues([IntV(2), StrV("hello")]));
    EqIffSameValue(b1, FromValues([IntV(1), StrV("world")]));
  }

  /** Four slots of mixed types (the `Double` slot of the test is not
      modelled): a changed `Bool` slot makes the boxes unequal. */
  lemma MixedSlots()
    ensures Eq(FromValues([IntV(1), StrV("test"), BoolV(true)]), FromValues([IntV(1), StrV("test"), BoolV(true)]))
    ensures !Eq(FromValues([IntV(1), StrV("test"), BoolV(true)]), FromValues([IntV(1), StrV("test"), BoolV(false)]))
  {
    var b1 := FromValues([IntV(1), StrV("test"), BoolV(true)]);
    EqIffSameValue(b1, FromValues([IntV(1), StrV("test"), BoolV(true)]));
    EqIffSameValue(b1, FromValues([IntV(1), StrV("test"), BoolV(false)]));
  }

  /** A box with an `Int?` slot: `nil` equals `nil` but not `42`. */
  lemma OptionalSlot()
    ensures Eq(FromValues([IntV(1), StrV("hello"), OptIntV(None)]),
               FromValues([IntV(1), StrV("hello"), OptIntV(None)]))
    ensures !Eq(FromValues([IntV(1), StrV("hello"), OptIntV(None)]),
                FromValues([IntV(1), StrV("hello"), OptIntV(Some(42))]))
  {
    var b1 := FromValues([IntV(1), StrV("hello"), OptIntV(None)]);
    EqIffSameValue(b1, FromValues([IntV(1), StrV("hello"), OptIntV(None)]));
    EqIffSameValue(b1, FromValues([IntV(1), StrV("hello"), OptIntV(Some(42))]));
  }

  function Person(name: string, age: int): (v: Value)
    ensures KindOf(v) == RecordK("Person", [StrK, IntK])
  {
    var v := RecordV("Person", [StrV(name), IntV(age)]);
    assert KindOf(v).fields[0] == StrK && KindOf(v).fields[1] == IntK;
    v
  }

  /** Struct slots compare by their stored properties. */
  lemma CustomTypes()
    ensures Eq(FromValues([Person("田中", 30), IntV(42)]), FromValues([Person("田中", 30), IntV(42)]))
    ensures !Eq(FromValues([Person("田中", 30), IntV(42)]), FromValues([Person("佐藤", 25), IntV(42)]))
  {
    var b1 := FromValues([Person("田中", 30), IntV(42)]);
    EqIffSameValue(b1, FromValues([Person("田中", 30), IntV(42)]));
    EqIffSameValue(b1, FromValues([Person("佐藤", 25), IntV(42)]));
  }

  function Address(street: string, city: string, zip: string): (v: Value)
    ensures KindOf(v) == RecordK("Address", [StrK, StrK, StrK])
  {
    var v := RecordV("Address", [StrV(street), StrV(city), StrV(zip)]);
    assert KindOf(v).fields[0] == KindOf(v).fields[1] == KindOf(v).fields[2] == StrK;
    v
  }

  function User(id: string, name: string, address: Value): (v: Value)
    ensures KindOf(v) == RecordK("User", [StrK, StrK, KindOf(address)])
  {
    var v := RecordV("User", [StrV(id), StrV(name), address]);
    assert KindOf(v).fields[0] == KindOf(v).fields[1] == StrK;
    assert KindOf(v).fields[2] == KindOf(address);
    v
  }

  /** Nested structs: a difference deep inside the first slot, or in any
      other slot, makes the boxes unequal. */
  lemma NestedCustomTypes()
    ensures
      var home := Address("桜通り", "東京", "100-0001");
      var away := Address("梅通り", "大阪", "530-0001");
      var box1 := FromValues([User("user-123", "山田", home), IntV(100), StrV("テスト")]);
      && Eq(box1, FromValues([User("user-123", "山田", home), IntV(100), StrV("テスト")]))
      && !Eq(box1, FromValues([User("user-456", "山田", home), IntV(100), StrV("テスト")]))
      && !Eq(box1, FromValues([User("user-123", "山田", away), IntV(100), StrV("テスト")]))
      && !Eq(box1, FromValues([User("user-123", "山田", home), IntV(200), StrV("テスト")]))
      && !Eq(box1, FromValues([User("user-123", "山田", home), IntV(100), StrV("別のテスト")]))
  {
    var home := Address("桜通り", "東京", "100-0001");
    var away := Address("梅通り", "大阪", "530-0001");
    var box1 := FromValues([User("user-123", "山田", home), IntV(100), StrV("テスト")]);
    EqIffSameValue(box1, FromValues([User("user-123", "山田", home), IntV(100), StrV("テスト")]));
    EqIffSameValue(box1, FromValues([User("user-456", "山田", home), IntV(100), StrV("テスト")]));
    EqIffSameValue(box1, FromValues([User("user-123", "山田", away), IntV(100), StrV("テスト")]));
    EqIffSameValue(box1, FromValues([User("user-123", "山田", home), IntV(200), StrV("テスト")]));
    EqIffSameValue(box1, FromValues([User("user-123", "山田", home), IntV(100), StrV("別のテスト")]));
  }

  function Pair(n: int, s: string): (b: Box)
    ensures Valid(b) && Shape(b.value) == [IntK, StrK]
  {
    FromValues([IntV(n), StrV(s)])
  }

  function Boxes(): (xs: seq<Box>)
  {
    [Pair(1, "one"), Pair(2, "two"), Pair(3, "three"), Pair(1, "one")]
  }

  /** Every box of the array has type `(Int, String)`. */
  lemma BoxesAreOfType()
    ensures OfType(Boxes(), [IntK, StrK])
  {
  }

  /** `boxes.contains` finds `(2, "two")` and not `(4, "four")`. */
  lemma ArrayContains()
    ensures OfType(Boxes(), [IntK, StrK])
    ensures Contains(Boxes(), Pair(2, "two"))
    ensures !Contains(Boxes(), Pair(4, "four"))
  {
    BoxesAreOfType();
    ContainsIsMembership(Boxes(), Pair(2, "two"));
    ContainsIsMembership(Boxes(), Pair(4, "four"));
    assert Boxes()[1] == Pair(2, "two");
  }

  /** Filtering by `(1, "one")` keeps its two occurrences. */
  lemma ArrayFilter()
    ensures OfType(Boxes(), [IntK, StrK])
    ensures |Filter(Boxes(), Pair(1, "one"))| == 2
  {
    BoxesAreOfType();
    var xs := Boxes();
    FilterCountsOccurrences(xs, Pair(1, "one"));
    assert xs == [Pair(1, "one")] + [Pair(2, "two")] + [Pair(3, "three")] + [Pair(1, "one")];
    assert multiset(xs) == multiset([Pair(1, "one")]) + multiset([Pair(2, "two")]) + multiset([Pair(3, "three")]) + multiset([Pair(1, "one")]);
  }

  /** The first three boxes of the array are pairwise different, so the
      loop keeps all of them. */
  lemma UniqueOfFirstThree()
    ensures Unique([Pair(1, "one"), Pair(2, "two"), Pair(3, "three")], [IntK, StrK])
            == [Pair(1, "one"), Pair(2, "two"), Pair(3, "three")]
  {
    var sh := [IntK, StrK];
    var one, two, three := Pair(1, "one"), Pair(2, "two"), Pair(3, "three");
    assert [one][..0] == [];
    UniqueStep([one], sh);
    assert [one, two][..1] == [one];
    UniqueStep([one, two], sh);
    assert [one, two, three][..2] == [one, two];
    UniqueStep([one, two, three], sh);
  }

  /** The de-duplicating loop keeps three of the four boxes. */
  lemma ArrayRemoveDuplicates()
    ensures OfType(Boxes(), [IntK, StrK])
    ensures |Unique(Boxes(), [IntK, StrK])| == 3
  {
    BoxesAreOfType();
    var xs := Boxes();
    UniqueOfFirstThree();
    assert xs[..3] == [Pair(1, "one"), Pair(2, "two"), Pair(3, "three")];
    UniqueStep(xs, [IntK, StrK]);
  }

  /** `CompositeKey.isEqual(to:)` boxes `(userId, itemId)` on both sides:
      two keys are equal exactly when both fields are. */
  lemma CompositeKeyIsEqual(userId: string, itemId: int, otherUserId: string, otherItemId: int)
    ensures Eq(FromValues([StrV(userId), IntV(itemId)]), FromValues([StrV(otherUserId), IntV(otherItemId)]))
            <==> userId == otherUserId && itemId == otherItemId
  {
    EqIffSameValue(FromValues([StrV(userId), IntV(itemId)]), FromValues([StrV(otherUserId), IntV(otherItemId)]));
  }

  /** A data point whose `values` box holds `(Int, String, Bool)`; the
      timestamp is kept outside the box. */
  datatype DataPoint = DataPoint(timestamp: int, values: Box)

  function MakeDataPoint(timestamp: int, value1: int, value2: string, value3: bool): (p: DataPoint)
    ensures Valid(p.values) && Shape(p.values.value) == [IntK, StrK, BoolK]
  {
    DataPoint(timestamp, FromValues([IntV(value1), StrV(value2), BoolV(value3)]))
  }

  /** `hasSameValues(as:)` compares the boxed values and ignores the
      timestamps. */
  lemma DataPointsIgnoreTimestamp(t1: int, t2: int, v1: int, v2: string, v3: bool, w1: int, w2: string, w3: bool)
    ensures Eq(MakeDataPoint(t1, v1, v2, v3).values, MakeDataPoint(t2, w1, w2, w3).values)
            <==> v1 == w1 && v2 == w2 && v3 == w3
  {
    EqIffSameValue(MakeDataPoint(t1, v1, v2, v3).values, MakeDataPoint(t2, w1, w2, w3).values);
  }
}
