/** How callers use a box's `==` over arrays of boxes, as the package's tests
    do: `Array.contains(_:)`, `Array.filter` with `==`, and the loop that drops
    duplicates while keeping the first occurrence of each box. */
module BoxCollections {
  import opened Values
  import opened EquatableBoxes

  /** An array `[EquatableBox<T>]`: every element was built by an initialiser
      and has the tuple type `sh`. */
  predicate OfType(xs: seq<Box>, sh: seq<Kind>)
  {
    forall i :: 0 <= i < |xs| ==> Valid(xs[i]) && Shape(xs[i].value) == sh
  }

  /** `xs.contains(x)`: scans from the front, comparing `xs[i] == x`. */
  function Contains(xs: seq<Box>, x: Box): (found: bool)
    requires OfType(xs, Shape(x.value))
    ensures found <==> exists i :: 0 <= i < |xs| && Eq(xs[i], x)
  {
    if |xs| == 0 then false
    else if Eq(xs[0], x) then true
    else
      var rest := Contains(xs[1..], x);
      assert forall i :: 1 <= i < |xs| ==> xs[i] == xs[1..][i - 1];
      rest
  }

  /** For boxes, `contains` is plain membership. */
  lemma ContainsIsMembership(xs: seq<Box>, x: Box)
    requires Valid(x)
    requires OfType(xs, Shape(x.value))
    ensures Contains(xs, x) <==> x in xs
  {
    forall i | 0 <= i < |xs|
      ensures Eq(xs[i], x) <==> xs[i] == x
    {
      EqIsBoxIdentity(xs[i], x);
    }
  }

  /** `xs.filter { $0 == key }`, keeping the original order. This contract
      speaks of which boxes are kept; how many copies of each is stated by
      `FilterCountsOccurrences`. */
  function Filter(xs: seq<Box>, key: Box): (kept: seq<Box>)
    requires OfType(xs, Shape(key.value))
    ensures OfType(kept, Shape(key.value))
    ensures forall j :: 0 <= j < |kept| ==> Eq(kept[j], key)
    ensures forall i :: 0 <= i < |xs| && Eq(xs[i], key) ==> xs[i] in kept
    ensures forall j :: 0 <= j < |kept| ==> kept[j] in xs
  {
    if |xs| == 0 then []
    else
      var rest := Filter(xs[1..], key);
      assert forall i :: 1 <= i < |xs| ==> xs[i] == xs[1..][i - 1];
      if Eq(xs[0], key) then [xs[0]] + rest else rest
  }

  /** The filter keeps one copy of `key` per occurrence of `key` in `xs`,
      and nothing else. */
  lemma {:induction false} FilterCountsOccurrences(xs: seq<Box>, key: Box)
    requires Valid(key)
    requires OfType(xs, Shape(key.value))
    ensures |Filter(xs, key)| == multiset(xs)[key]
    ensures forall j :: 0 <= j < |Filter(xs, key)| ==> Filter(xs, key)[j] == key
  {
    if |xs| > 0 {
      FilterCountsOccurrences(xs[1..], key);
      assert xs == [xs[0]] + xs[1..];
      assert multiset(xs) == multiset([xs[0]]) + multiset(xs[1..]);
      EqIsBoxIdentity(xs[0], key);
    }
  }

  /** The de-duplicating loop of the tests, as a function over the prefix
      processed so far: the last box is appended unless an equal box was
      already kept. */
  function Unique(xs: seq<Box>, ghost sh: seq<Kind>): (u: seq<Box>)
    requires OfType(xs, sh)
    ensures OfType(u, sh)
    ensures forall j :: 0 <= j < |u| ==> u[j] in xs
    decreases |xs|
  {
    if |xs| == 0 then []
    else
      var u := Unique(xs[..|xs| - 1], sh);
      if Contains(u, xs[|xs| - 1]) then u else u + [xs[|xs| - 1]]
  }

  /** One step of the de-duplicating loop, with `contains` read as
      membership: the last box is appended exactly when it was not kept yet. */
  lemma UniqueStep(xs: seq<Box>, sh: seq<Kind>)
    requires OfType(xs, sh)
    requires |xs| > 0
    ensures xs[|xs| - 1] in Unique(xs[..|xs| - 1], sh) ==> Unique(xs, sh) == Unique(xs[..|xs| - 1], sh)
    ensures xs[|xs| - 1] !in Unique(xs[..|xs| - 1], sh) ==> Unique(xs, sh) == Unique(xs[..|xs| - 1], sh) + [xs[|xs| - 1]]
  {
    ContainsIsMembership(Unique(xs[..|xs| - 1], sh), xs[|xs| - 1]);
  }

  /** No box occurs twice. */
  predicate Distinct(s: seq<Box>)
  {
    forall j, k :: 0 <= j < k < |s| ==> s[j] != s[k]
  }

  /** Appending a box that is not there yet keeps a sequence duplicate-free. */
  lemma DistinctAppend(u: seq<Box>, x: Box)
    requires Distinct(u)
    requires x !in u
    ensures Distinct(u + [x])
  {
    forall j, k | 0 <= j < k < |u + [x]|
      ensures (u + [x])[j] != (u + [x])[k]
    {
      if k == |u| {
        assert (u + [x])[j] == u[j];
      }
    }
  }

  /** No two kept boxes are equal. */
  lemma {:induction false} UniqueIsDuplicateFree(xs: seq<Box>, sh: seq<Kind>)
    requires OfType(xs, sh)
    ensures Distinct(Unique(xs, sh))
    decreases |xs|
  {
    if |xs| > 0 {
      var init := xs[..|xs| - 1];
      var last := xs[|xs| - 1];
      UniqueIsDuplicateFree(init, sh);
      UniqueStep(xs, sh);
      if last !in Unique(init, sh) {
        DistinctAppend(Unique(init, sh), last);
      }
    }
  }

  /** Every input box is kept: it equals a box of the result. */
  lemma {:induction false} UniqueKeepsEveryBox(xs: seq<Box>, sh: seq<Kind>)
    requires OfType(xs, sh)
    ensures forall x :: x in xs ==> x in Unique(xs, sh)
    decreases |xs|
  {
    if |xs| > 0 {
      var init := xs[..|xs| - 1];
      var last := xs[|xs| - 1];
      UniqueKeepsEveryBox(init, sh);
      UniqueStep(xs, sh);
      var u := Unique(init, sh);
      var v := Unique(xs, sh);
      assert u <= v;
      assert last in v;
      assert xs == init + [last];
      forall x | x in xs
        ensures x in v
      {
        if x != last {
          assert x in init;
        }
      }
    }
  }

  /** The kept boxes are first occurrences, in input order: kept box `j` is
      the input box at position `idx[j]`, no earlier input box equals it,
      and the positions increase. */
  lemma {:induction false} UniqueKeepsFirstOccurrencesInOrder(xs: seq<Box>, sh: seq<Kind>) returns (idx: seq<nat>)
    requires OfType(xs, sh)
    ensures |idx| == |Unique(xs, sh)|
    ensures forall j :: 0 <= j < |idx| ==> idx[j] < |xs| && xs[idx[j]] == Unique(xs, sh)[j]
    ensures forall j, i :: 0 <= j < |idx| && 0 <= i < idx[j] ==> xs[i] != Unique(xs, sh)[j]
    ensures forall j, k :: 0 <= j < k < |idx| ==> idx[j] < idx[k]
    decreases |xs|
  {
    if |xs| == 0 {
      idx := [];
    } else {
      var init := xs[..|xs| - 1];
      var last := xs[|xs| - 1];
      assert forall i :: 0 <= i < |init| ==> xs[i] == init[i];
      idx := UniqueKeepsFirstOccurrencesInOrder(init, sh);
      var u := Unique(init, sh);
      UniqueStep(xs, sh);
      if last !in u {
        UniqueKeepsEveryBox(init, sh);
        assert forall i :: 0 <= i < |init| ==> init[i] != last;
        idx := idx + [|xs| - 1];
      }
    }
  }

  /** The loop as written in the tests: `uniqueBoxes` starts empty and each
      box is appended unless `uniqueBoxes.contains(box)`. */
  method RemoveDuplicates(boxes: seq<Box>, ghost sh: seq<Kind>) returns (unique: seq<Box>)
    requires OfType(boxes, sh)
    ensures unique == Unique(boxes, sh)
  {
    unique := [];
    for i := 0 to |boxes|
      invariant unique == Unique(boxes[..i], sh)
    {
      assert boxes[..i + 1][..i] == boxes[..i];
      if !Contains(unique, boxes[i]) {
        unique := unique + [boxes[i]];
      }
    }
    assert boxes[..|boxes|] == boxes;
  }
}
