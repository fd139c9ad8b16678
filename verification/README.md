# EquatableBox in Dafny

A model of `EquatableBox<T>` from the Swift package swift-equatable-box. The
box is an immutable wrapper around a tuple of `Equatable` values. Its `==`
compares two boxes of the same tuple type slot by slot, from left to right,
and stops at the first slot that differs.

Files:

- `values.dfy` (module `Values`): the slot values that boxes hold in the
  package's tests. These are `Int`, `String`, `Bool`, `Int?`, and structs with
  synthesized `Equatable` conformance. The module also gives each slot's
  static type (`Kind`) and each slot type's own `==` (`SlotEq`).
- `elementwise.dfy` (module `ElementWise`): the private `areEqual` helper. It
  is generic over the element equality. It contains a specification predicate
  (`AllEqual`), the early-return loop (`AreEqual`), and lemmas showing that
  reflexivity, symmetry and transitivity carry over from the elements to the
  tuples.
- `equatable_box.dfy` (module `EquatableBoxes`): the box. It holds the
  stored `value` and the tuple captured by the comparison closure
  (`captured`). It also has the two initialisers and the `==` operator.
- `collections.dfy` (module `BoxCollections`): how the tests use `==` on
  arrays of boxes. These are `contains`, `filter`, and the loop that removes
  duplicates.
- `scenarios.dfy` (module `Scenarios`): the concrete cases of the test suite.

How the Swift code is represented:

- A tuple of type `(repeat each V)` is a `seq<Value>`.
- Its type is a `Shape`, the sequence of slot kinds.
- Swift's compile-time rule that both operands of `==` share the type `Self`
  becomes the precondition `Shape(lhs.captured) == Shape(rhs.value)`.
- The closure built by each initialiser is represented by the tuple it
  captured. Running the closure on `other` means comparing that tuple with
  `other.value`.
- The predicate `EquatableBoxes.Eq` is the meaning of `==`, and every lemma
  about boxes is stated with it. `EquatableBoxes.Equals` is its executable
  form: it runs the scanning loop of `areEqual`.
- `Valid(b)` (captured tuple equals stored tuple) holds for every box that
  an initialiser builds. This is why `==` depends only on the two stored
  values.

## Model

| member | source | states |
|---|---|---|
| ElementWise.AreEqual | Sources/EquatableBox/EquatableBox.swift:28-35 | the scan answers true iff every position holds equal elements; it short-circuits: the element `==` is required to be defined only at positions whose predecessors all compared equal, so the scan never evaluates a position after the first mismatch; on false it has evaluated exactly the positions up to and including the first mismatch, all earlier ones equal; on true it has evaluated every position |
| ElementWise.EmptyAllEqual | Sources/EquatableBox/EquatableBox.swift:30-33 | two tuples of arity 0 compare equal |
| ElementWise.AllEqualReflexive | Sources/EquatableBox/EquatableBox.swift:28-35 | if every element equality is reflexive, so is the tuple comparison |
| ElementWise.AllEqualSymmetric | Sources/EquatableBox/EquatableBox.swift:28-35 | if every element equality is symmetric, so is the tuple comparison |
| ElementWise.AllEqualTransitive | Sources/EquatableBox/EquatableBox.swift:28-35 | if every element equality is transitive, so is the tuple comparison |
| Values.SlotEqIsIdentity | Tests/EquatableBoxTests/EquatableBoxTests.swift:45-55 | each slot type's `==` holds exactly of identical values, including nested structs compared property by property |
| Values.SlotEqIsEquivalence | Tests/EquatableBoxTests/EquatableBoxTests.swift:26-29 | each slot type's `==` is reflexive, symmetric and transitive |
| EquatableBoxes.FromValues | Sources/EquatableBox/EquatableBox.swift:12-17 | the parameter-pack initialiser stores the given values, in order, as `value`, and its closure captures exactly that tuple |
| EquatableBoxes.FromTuple | Sources/EquatableBox/EquatableBox.swift:19-24 | the tuple initialiser stores the given tuple as `value`, and its closure captures exactly that tuple |
| EquatableBoxes.Equals | Sources/EquatableBox/EquatableBox.swift:4-22 | `lhs == rhs` runs the closure built by lhs's initialiser on `rhs.value` and answers exactly `Eq(lhs, rhs)`: every slot of the tuple that closure captured equals the same slot of `rhs.value` |
| EquatableBoxes.EqIffSameValue | Sources/EquatableBox/EquatableBox.swift:12-22 | for a box built by an initialiser, `==` depends only on the two stored values and holds iff they are identical tuples |
| EquatableBoxes.EqIsBoxIdentity | Sources/EquatableBox/EquatableBox.swift:4-24 | between boxes built by the initialisers, `==` coincides with identity of the boxes |
| EquatableBoxes.InitializersAgree | Sources/EquatableBox/EquatableBox.swift:12-24 | the parameter-pack and tuple initialisers build the same box from the same values, and those boxes compare equal both ways |
| EquatableBoxes.EmptyBoxesEqual | Sources/EquatableBox/EquatableBox.swift:30-33 | two boxes of arity 0 compare equal |
| EquatableBoxes.EqReflexive | Sources/EquatableBox/EquatableBox.swift:4-5 | every box equals itself |
| EquatableBoxes.EqSymmetric | Sources/EquatableBox/EquatableBox.swift:4-5 | `a == b` iff `b == a` for boxes of one type |
| EquatableBoxes.EqTransitive | Sources/EquatableBox/EquatableBox.swift:4-5 | `a == b` and `b == c` give `a == c` |
| EquatableBoxes.SlotSensitivity | Tests/EquatableBoxTests/EquatableBoxTests.swift:70-89 | replacing any one slot of a box equal to `a` by a different value of the same type keeps the type and makes it unequal to `a`, on either side of `==` |
| BoxCollections.Contains | Tests/EquatableBoxTests/EquatableBoxTests.swift:112-113 | `contains(x)` is true iff some element compares `==` to x |
| BoxCollections.ContainsIsMembership | Tests/EquatableBoxTests/EquatableBoxTests.swift:112-113 | for boxes, `contains` is plain membership in the array |
| BoxCollections.Filter | Tests/EquatableBoxTests/EquatableBoxTests.swift:116-117 | filtering by `== key` keeps only elements equal to key, keeps every such element, and adds nothing |
| BoxCollections.FilterCountsOccurrences | Tests/EquatableBoxTests/EquatableBoxTests.swift:116-117 | the filtered array is key repeated exactly as often as key occurs in the input |
| BoxCollections.Unique | Tests/EquatableBoxTests/EquatableBoxTests.swift:120-125 | de-duplication keeps boxes of the array's type, all taken from the input |
| BoxCollections.UniqueStep | Tests/EquatableBoxTests/EquatableBoxTests.swift:121-124 | one loop step: the next box is appended exactly when no equal box has been kept yet, and otherwise the kept array is unchanged |
| BoxCollections.UniqueIsDuplicateFree | Tests/EquatableBoxTests/EquatableBoxTests.swift:120-126 | the de-duplicated array has no two equal boxes |
| BoxCollections.UniqueKeepsEveryBox | Tests/EquatableBoxTests/EquatableBoxTests.swift:120-126 | every input box occurs in the de-duplicated array |
| BoxCollections.UniqueKeepsFirstOccurrencesInOrder | Tests/EquatableBoxTests/EquatableBoxTests.swift:120-125 | every kept box is the first occurrence of that box in the input, and the kept boxes appear in input order (a strictly increasing position for each) |
| BoxCollections.RemoveDuplicates | Tests/EquatableBoxTests/EquatableBoxTests.swift:120-125 | the imperative append-unless-contained loop computes exactly the de-duplication |
| Scenarios.BasicTuples | Tests/EquatableBoxTests/EquatableBoxTests.swift:7-14 | `(1, "hello")` equals itself and differs from `(2, "hello")` and `(1, "world")` |
| Scenarios.MixedSlots | Tests/EquatableBoxTests/EquatableBoxTests.swift:17-22 | a changed `Bool` slot makes otherwise equal boxes unequal |
| Scenarios.OptionalSlot | Tests/EquatableBoxTests/EquatableBoxTests.swift:94-99 | an `Int?` slot: `nil` matches `nil` but not `42` |
| Scenarios.CustomTypes | Tests/EquatableBoxTests/EquatableBoxTests.swift:25-40 | boxes holding equal Person structs are equal, different persons are not |
| Scenarios.NestedCustomTypes | Tests/EquatableBoxTests/EquatableBoxTests.swift:43-89 | nested User/Address structs: equal when identical; unequal on a different id, address, number or string |
| Scenarios.ArrayContains | Tests/EquatableBoxTests/EquatableBoxTests.swift:104-113 | the four-box array contains `(2, "two")` and not `(4, "four")` |
| Scenarios.ArrayFilter | Tests/EquatableBoxTests/EquatableBoxTests.swift:116-117 | filtering the array by `(1, "one")` keeps two boxes |
| Scenarios.UniqueOfFirstThree | Tests/EquatableBoxTests/EquatableBoxTests.swift:120-125 | the loop keeps each of `(1, "one")`, `(2, "two")`, `(3, "three")`, which are pairwise different, in order |
| Scenarios.ArrayRemoveDuplicates | Tests/EquatableBoxTests/EquatableBoxTests.swift:120-126 | de-duplicating the array keeps three boxes |
| Scenarios.CompositeKeyIsEqual | Tests/EquatableBoxTests/EquatableBoxTests.swift:132-149 | two composite keys boxed as `(userId, itemId)` are equal iff both fields are equal |
| Scenarios.DataPointsIgnoreTimestamp | Tests/EquatableBoxTests/EquatableBoxTests.swift:152-171 | two data points have the same values iff their three boxed values agree, whatever their timestamps |

## Left out

- Swift parameter packs (`repeat each`) are not modelled as such. The model uses one closed `Value` type for all slots plus a `Kind` shape, so a tuple is a sequence whose per-slot types are fixed by its shape.
- The closure is not modelled as a stored function object. It is represented by the tuple it captured, which is all it reads.
- `Double` slots and `TimeInterval` are not modelled: floating point, where NaN breaks reflexivity. The test with `3.14` is modelled without that slot. A data point's timestamp is an `int`, and no comparison reads it.
- Swift `String` equality uses Unicode canonical equivalence. Here strings are compared as sequences of characters, which is the same for the strings in the tests.
- Hashing and dictionary keys are not modelled: the box does not conform to `Hashable`.
- `Package.swift` is build metadata only. The async test harness and the `Foundation` import are not modelled either.
- There is no concurrency to model: boxes are immutable values.
