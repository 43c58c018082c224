/** Lists of message indices: ascending order and the "not yet seen" filter. */
module Indices {

  /** Strictly ascending, hence free of duplicates. */
  predicate Increasing(xs: seq<nat>) {
    forall i, j :: 0 <= i < j < |xs| ==> xs[i] < xs[j]
  }

  /** Appending an index above every listed one keeps the list ascending. */
  lemma IncreasingSnoc(xs: seq<nat>, x: nat)
    requires Increasing(xs) && forall k :: 0 <= k < |xs| ==> xs[k] < x
    ensures Increasing(xs + [x])
  {
  }

  /** The set of the list's elements. */
  function Elems(xs: seq<nat>): (r: set<int>)
    ensures forall x :: x in r <==> x in xs
  {
    set x | x in xs :: x as int
  }

  /** `[i for i in xs if i not in seen]`. */
  function Without(xs: seq<nat>, seen: set<int>): (r: seq<nat>)
    ensures |r| <= |xs|
  {
    if xs == [] then []
    else (if xs[0] as int in seen then [] else [xs[0]]) + Without(xs[1..], seen)
  }

  /** An index survives the filter exactly when it is listed and not seen. */
  lemma {:induction false} WithoutMembers(xs: seq<nat>, seen: set<int>)
    ensures forall x :: x in Without(xs, seen) <==> x in xs && x as int !in seen
  {
    if xs != [] {
      WithoutMembers(xs[1..], seen);
      assert xs == [xs[0]] + xs[1..];
    }
  }

  /** The filter keeps the original order. */
  lemma {:induction false} WithoutIncreasing(xs: seq<nat>, seen: set<int>)
    requires Increasing(xs)
    ensures Increasing(Without(xs, seen))
  {
    if xs != [] {
      WithoutIncreasing(xs[1..], seen);
      WithoutMembers(xs[1..], seen);
      var rest := Without(xs[1..], seen);
      assert forall y :: y in rest ==> xs[0] < y by {
        forall y | y in rest ensures xs[0] < y {
          var j :| 0 <= j < |xs[1..]| && xs[1..][j] == y;
          assert xs[j + 1] == y;
        }
      }
      var r := Without(xs, seen);
      if xs[0] as int !in seen {
        assert r == [xs[0]] + rest;
        forall i, j | 0 <= i < j < |r| ensures r[i] < r[j] {
          if i == 0 {
            assert r[j] == rest[j - 1];
            assert r[j] in rest;
          } else {
            assert r[i] == rest[i - 1] && r[j] == rest[j - 1];
          }
        }
      } else {
        assert r == rest;
      }
    }
  }

  /** Once every listed index is seen, filtering again leaves nothing. */
  lemma {:induction false} WithoutAll(xs: seq<nat>, seen: set<int>)
    requires forall x :: x in xs ==> x as int in seen
    ensures Without(xs, seen) == []
  {
    if xs != [] {
      assert xs[0] in xs;
      assert forall x :: x in xs[1..] ==> x in xs;
      WithoutAll(xs[1..], seen);
    }
  }

  /** Seeing more indices can only remove entries; in particular an empty result stays empty. */
  lemma WithoutMonotone(xs: seq<nat>, seen: set<int>, more: set<int>)
    requires seen <= more && Without(xs, seen) == []
    ensures Without(xs, more) == []
  {
    WithoutMembers(xs, seen);
    WithoutMembers(xs, more);
  }
}
