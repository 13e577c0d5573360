/** The registry of outstanding product-data requests (`_productDataRequests`),
    a linked list of request handles. */
module Registry {

  /** No handle occurs twice. */
  predicate Distinct<T(==)>(xs: seq<T>) {
    forall i, j :: 0 <= i < j < |xs| ==> xs[i] != xs[j]
  }

  /** `LinkedList<T>.Remove(value)`: drops the first occurrence of `x`, if any,
      and keeps the other elements in their order. */
  function RemoveFirst<T(==)>(xs: seq<T>, x: T): (r: seq<T>)
    ensures x !in xs ==> r == xs
    ensures x in xs ==> |r| == |xs| - 1
    ensures forall y :: y in r ==> y in xs
    decreases |xs|
  {
    if xs == [] then []
    else if xs[0] == x then xs[1..]
    else [xs[0]] + RemoveFirst(xs[1..], x)
  }

  /** Exactly the element at the first occurrence is cut out. */
  lemma {:induction false} RemoveFirstAt<T>(xs: seq<T>, x: T, i: nat)
    requires i < |xs| && xs[i] == x && x !in xs[..i]
    ensures RemoveFirst(xs, x) == xs[..i] + xs[i + 1..]
    decreases i
  {
    if i > 0 {
      assert xs[0] in xs[..i];
      assert xs[1..][..i - 1] == xs[1..i];
      assert x !in xs[1..][..i - 1];
      RemoveFirstAt(xs[1..], x, i - 1);
      assert xs[1..][i..] == xs[i + 1..];
      assert xs[..i] == [xs[0]] + xs[1..i];
    }
  }

  /** Removing from a list without repeats leaves no copy behind. */
  lemma {:induction false} RemoveFirstDistinct<T>(xs: seq<T>, x: T)
    requires Distinct(xs)
    ensures Distinct(RemoveFirst(xs, x))
    ensures x !in RemoveFirst(xs, x)
    decreases |xs|
  {
    if xs != [] {
      var rest := xs[1..];
      assert Distinct(rest) by {
        forall i, j | 0 <= i < j < |rest| ensures rest[i] != rest[j] {
          assert rest[i] == xs[i + 1] && rest[j] == xs[j + 1];
        }
      }
      if xs[0] != x {
        RemoveFirstDistinct(rest, x);
        assert xs[0] !in rest by {
          forall k | 0 <= k < |rest| ensures rest[k] != xs[0] {
            assert rest[k] == xs[k + 1];
          }
        }
      } else {
        assert x !in rest by {
          forall k | 0 <= k < |rest| ensures rest[k] != x {
            assert rest[k] == xs[k + 1];
          }
        }
      }
    }
  }

  /** Adding a fresh handle at the end and removing it again restores the list. */
  lemma {:induction false} AddLastThenRemove<T>(xs: seq<T>, x: T)
    requires x !in xs
    ensures RemoveFirst(xs + [x], x) == xs
  {
    assert (xs + [x])[|xs|] == x;
    assert (xs + [x])[..|xs|] == xs;
    RemoveFirstAt(xs + [x], x, |xs|);
    assert (xs + [x])[|xs| + 1..] == [];
  }
}
