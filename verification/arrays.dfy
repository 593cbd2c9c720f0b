/** `Array.IndexOf`, which every `In`/`NotIn` helper of the library is built
    on, over a `params` array modelled as a sequence. */
module Arrays {

  /** The index of the first element equal to `x`, or -1 when there is none. */
  function IndexOf<T(==)>(a: seq<T>, x: T): (r: int)
    ensures -1 <= r < |a|
    ensures r == -1 <==> x !in a
    ensures 0 <= r ==> a[r] == x && forall j :: 0 <= j < r ==> a[j] != x
  {
    if |a| == 0 then -1
    else if a[0] == x then 0
    else
      var k := IndexOf(a[1..], x);
      if k == -1 then -1 else k + 1
  }

  /** Searching a sequence with one element in front: found at 0 when the
      front element matches, otherwise one past where the rest has it. */
  lemma IndexOfCons<T>(y: T, a: seq<T>, x: T)
    ensures IndexOf([y] + a, x) ==
      if y == x then 0
      else if IndexOf(a, x) == -1 then -1
      else IndexOf(a, x) + 1
  {
    assert ([y] + a)[1..] == a;
  }

  /** The elements before the first `x`, or all of `a` when there is none. */
  function Before<T(==)>(a: seq<T>, x: T): (r: seq<T>)
    ensures x !in r
    ensures forall i :: 0 <= i < |r| ==> r[i] in a
  {
    var k := IndexOf(a, x);
    if k >= 0 then a[..k] else a
  }

  /** An element other than `x` in front stays in front of what comes
      before `x`. */
  lemma BeforeCons<T>(y: T, a: seq<T>, x: T)
    requires y != x
    ensures Before([y] + a, x) == [y] + Before(a, x)
  {
    IndexOfCons(y, a, x);
    var k := IndexOf(a, x);
    if k >= 0 {
      assert ([y] + a)[..k + 1] == [y] + a[..k];
    }
  }
}
