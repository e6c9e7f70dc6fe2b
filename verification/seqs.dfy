/** Array.prototype.filter with a `!==` test, as the views use it to drop one value. */
module Seqs {

  /** xs without any occurrence of x, the rest in their order. */
  function RemoveAll<T(==,!new)>(xs: seq<T>, x: T): (r: seq<T>)
    ensures x !in r
    ensures forall y :: y != x ==> (y in r <==> y in xs)
    ensures multiset(r) == multiset(xs)[x := 0]
    ensures |r| <= |xs| && (x in xs ==> |r| < |xs|)
    decreases |xs|
  {
    if xs == [] then []
    else if xs[0] == x then
      assert xs == [xs[0]] + xs[1..];
      RemoveAll(xs[1..], x)
    else
      assert xs == [xs[0]] + xs[1..];
      [xs[0]] + RemoveAll(xs[1..], x)
  }

  /** Removing a value that is absent changes nothing. */
  lemma {:induction false} RemoveAllAbsent<T(!new)>(xs: seq<T>, x: T)
    requires x !in xs
    ensures RemoveAll(xs, x) == xs
    decreases |xs|
  {
    if xs != [] {
      RemoveAllAbsent(xs[1..], x);
    }
  }

  /** Filtering works piece by piece, so the kept elements stay in order. */
  lemma {:induction false} RemoveAllConcat<T(!new)>(xs: seq<T>, ys: seq<T>, x: T)
    ensures RemoveAll(xs + ys, x) == RemoveAll(xs, x) + RemoveAll(ys, x)
    decreases |xs|
  {
    if xs != [] {
      assert (xs + ys)[1..] == xs[1..] + ys;
      RemoveAllConcat(xs[1..], ys, x);
    } else {
      assert xs + ys == ys;
    }
  }

  /** Removing from a list ending in the value removes that last element too. */
  lemma RemoveAllAppended<T(!new)>(xs: seq<T>, x: T)
    requires x !in xs
    ensures RemoveAll(xs + [x], x) == xs
  {
    RemoveAllConcat(xs, [x], x);
    RemoveAllAbsent(xs, x);
    assert RemoveAll([x], x) == [];
  }
}
