/** `ComparableExtensions`: the inclusive, bound-order-tolerant `IsBetween`
    and the two comparers that wrap `IComparable<T>.CompareTo`.

    A comparer is modelled as its `Compare` function; a `null` comparer is
    `None`. */
module Comparable {
  import opened Wrappers
  import opened Exceptions

  /** `IComparer<T>.Compare` (or `IComparable<T>.CompareTo`): negative, zero
      or positive as the first argument sorts before, with or after the second. */
  type Comparison<!T> = (T, T) -> int

  /** The laws a well-behaved comparer obeys: every value compares equal to
      itself, swapping the arguments flips the sign, and "sorts no later than"
      is transitive. */
  ghost predicate Lawful<T(!new)>(cmp: Comparison<T>) {
    && (forall x :: cmp(x, x) == 0)
    && (forall x, y :: cmp(x, y) < 0 <==> cmp(y, x) > 0)
    && (forall x, y, z :: cmp(x, y) <= 0 && cmp(y, z) <= 0 ==> cmp(x, z) <= 0)
  }

  /** `value` sorts between `a` and `b`, both ends included, whichever of the
      two is the lower one. */
  ghost predicate BetweenEitherWay<T>(cmp: Comparison<T>, value: T, a: T, b: T) {
    || (cmp(a, value) <= 0 && cmp(value, b) <= 0)
    || (cmp(b, value) <= 0 && cmp(value, a) <= 0)
  }

  /** `AscendingComparer<T>.Compare`: the natural order. */
  function Ascending<T(!new)>(compareTo: Comparison<T>): (c: Comparison<T>)
    ensures forall x, y :: c(x, y) == compareTo(x, y)
  {
    (x, y) => compareTo(x, y)
  }

  /** `DescendingComparer<T>.Compare`: the natural order with the arguments
      swapped. */
  function Descending<T(!new)>(compareTo: Comparison<T>): (c: Comparison<T>)
    ensures forall x, y :: c(x, y) == Ascending(compareTo)(y, x)
  {
    (x, y) => compareTo(y, x)
  }

  /** `IsBetween(value, minValue, maxValue, comparer)`: a null comparer is
      rejected before anything is compared; otherwise the bounds are taken in
      the order the comparer puts them and both ends count. */
  function IsBetweenWith<T(!new)>(value: T, minValue: T, maxValue: T, comparer: Option<Comparison<T>>): (r: Result<bool, Exception>)
    ensures comparer.None? <==> r == Failure(ArgumentNullException("comparer"))
    ensures comparer.Some? && Lawful(comparer.value) ==>
      r.Success? && (r.value <==> BetweenEitherWay(comparer.value, value, minValue, maxValue))
  {
    match comparer
    case None => Failure(ArgumentNullException("comparer"))
    case Some(cmp) =>
      var minMaxCompare := cmp(minValue, maxValue);
      if minMaxCompare < 0 then
        Success(cmp(value, minValue) >= 0 && cmp(value, maxValue) <= 0)
      else
        Success(cmp(value, maxValue) >= 0 && cmp(value, minValue) <= 0)
  }

  /** `IsBetween(value, minValue, maxValue)`: the comparer overload called
      with `Comparer<T>.Default`, which orders by `CompareTo`. */
  function IsBetween<T(!new)>(value: T, minValue: T, maxValue: T, compareTo: Comparison<T>): (r: bool)
    ensures IsBetweenWith(value, minValue, maxValue, Some(Ascending(compareTo))) == Success(r)
    ensures Lawful(compareTo) ==> (r <==> BetweenEitherWay(compareTo, value, minValue, maxValue))
  {
    IsBetweenWith(value, minValue, maxValue, Some(Ascending(compareTo))).value
  }

  /** When the lower bound comes first, `IsBetween` is the closed interval. */
  lemma IsBetweenInclusive<T(!new)>(cmp: Comparison<T>, value: T, minValue: T, maxValue: T)
    requires Lawful(cmp)
    requires cmp(minValue, maxValue) < 0
    ensures IsBetweenWith(value, minValue, maxValue, Some(cmp))
         == Success(cmp(minValue, value) <= 0 && cmp(value, maxValue) <= 0)
  {
  }

  /** Swapping the bounds never changes the answer. */
  lemma IsBetweenSwapBounds<T(!new)>(cmp: Comparison<T>, value: T, a: T, b: T)
    requires Lawful(cmp)
    ensures IsBetweenWith(value, a, b, Some(cmp)) == IsBetweenWith(value, b, a, Some(cmp))
  {
  }

  /** With bounds that compare equal, only values equal to them are between. */
  lemma IsBetweenEqualBounds<T(!new)>(cmp: Comparison<T>, value: T, a: T, b: T)
    requires Lawful(cmp)
    requires cmp(a, b) == 0
    ensures IsBetweenWith(value, a, b, Some(cmp)) == Success(cmp(value, a) == 0)
  {
    if cmp(value, a) == 0 {
      assert cmp(a, value) == 0;
      assert cmp(value, b) <= 0 && cmp(b, value) <= 0;
    }
  }

  /** Reversing a lawful order gives a lawful order. */
  lemma DescendingIsLawful<T(!new)>(compareTo: Comparison<T>)
    requires Lawful(compareTo)
    ensures Lawful(Descending(compareTo))
  {
    var d := Descending(compareTo);
    forall x, y, z | d(x, y) <= 0 && d(y, z) <= 0
      ensures d(x, z) <= 0
    {
      assert compareTo(z, y) <= 0 && compareTo(y, x) <= 0;
    }
  }

  /** Because the bounds may come in either order, `IsBetween` gives the same
      answer under `DescendingComparer` as under `AscendingComparer`. */
  lemma DescendingAgreesWithAscending<T(!new)>(compareTo: Comparison<T>, value: T, a: T, b: T)
    requires Lawful(compareTo)
    ensures IsBetweenWith(value, a, b, Some(Descending(compareTo)))
         == IsBetweenWith(value, a, b, Some(Ascending(compareTo)))
  {
    DescendingIsLawful(compareTo);
    var d := Descending(compareTo);
    var c := Ascending(compareTo);
    assert BetweenEitherWay(d, value, a, b) <==> BetweenEitherWay(c, value, a, b);
  }

  /** `Int32.CompareTo`: -1, 0 or 1. */
  function IntCompareTo(x: int, y: int): (r: int)
    ensures r < 0 <==> x < y
    ensures r == 0 <==> x == y
  {
    if x < y then -1 else if x == y then 0 else 1
  }

  /** On integers `IsBetween` is the closed interval between the smaller and
      the larger bound. */
  lemma IntIsBetween(value: int, a: int, b: int)
    ensures IsBetween(value, a, b, IntCompareTo)
        <==> (if a <= b then a else b) <= value <= (if a <= b then b else a)
  {
    assert Lawful(IntCompareTo);
  }
}
