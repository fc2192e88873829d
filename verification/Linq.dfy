/** The two LINQ operators the statement builder relies on: the `Select`
    projection and the `Except` set difference, which keeps first
    occurrences and drops duplicates. */
module Linq {

  /** No element occurs twice. */
  predicate Distinct<T(==)>(xs: seq<T>) {
    forall i, j :: 0 <= i < j < |xs| ==> xs[i] != xs[j]
  }

  /** `xs.Select(f)`: the element-wise projection. */
  function Project<A, B>(f: A -> B, xs: seq<A>): (r: seq<B>)
    ensures |r| == |xs|
    ensures forall i :: 0 <= i < |xs| ==> r[i] == f(xs[i])
  {
    seq(|xs|, i requires 0 <= i < |xs| => f(xs[i]))
  }

  /** The elements of `xs` other than `k`, in order, duplicates kept:
      the plain order-preserving filter that `Except` agrees with on
      duplicate-free input. */
  function Without<T(==,!new)>(xs: seq<T>, k: T): (r: seq<T>)
    ensures forall x :: x in r <==> x in xs && x != k
  {
    if xs == [] then []
    else
      assert xs == [xs[0]] + xs[1..];
      if xs[0] == k then Without(xs[1..], k)
      else [xs[0]] + Without(xs[1..], k)
  }

  /** `Except` as it runs: walk `xs` once, yield an element the first time
      it is met unless it is in `seen`, and add every yielded element to
      `seen`. It yields exactly the elements of `xs` not in `seen`, each
      once. */
  function ExceptFrom<T(==,!new)>(xs: seq<T>, seen: set<T>): (r: seq<T>)
    ensures forall x :: x in r <==> x in xs && x !in seen
    ensures Distinct(r)
  {
    if xs == [] then []
    else
      assert xs == [xs[0]] + xs[1..];
      if xs[0] in seen then ExceptFrom(xs[1..], seen)
      else
        var tail := ExceptFrom(xs[1..], seen + {xs[0]});
        DistinctCons(xs[0], tail);
        [xs[0]] + tail
  }

  /** Putting an element in front of a duplicate-free list that does not
      hold it keeps the list duplicate-free. */
  lemma DistinctCons<T>(x: T, xs: seq<T>)
    requires Distinct(xs) && x !in xs
    ensures Distinct([x] + xs)
  {
    var r := [x] + xs;
    forall i, j | 0 <= i < j < |r| ensures r[i] != r[j] {
      assert r[j] == xs[j - 1];
      if i > 0 {
        assert r[i] == xs[i - 1];
      }
    }
  }

  /** `first.Except(second)`: the elements of `first` that are not in
      `second`, each once. */
  function Except<T(==,!new)>(first: seq<T>, second: seq<T>): (r: seq<T>)
    ensures forall x :: x in r <==> x in first && x !in second
    ensures Distinct(r)
  {
    ExceptFrom(first, set x | x in second)
  }

  /** Adding to `seen` an element that does not occur changes nothing. */
  lemma {:induction false} ExceptFromIgnoresAbsent<T(!new)>(xs: seq<T>, seen: set<T>, a: T)
    requires a !in xs
    ensures ExceptFrom(xs, seen + {a}) == ExceptFrom(xs, seen)
  {
    if xs != [] {
      assert xs[0] != a && a !in xs[1..];
      if xs[0] in seen {
        ExceptFromIgnoresAbsent(xs[1..], seen, a);
      } else {
        assert seen + {a} + {xs[0]} == seen + {xs[0]} + {a};
        ExceptFromIgnoresAbsent(xs[1..], seen + {xs[0]}, a);
      }
    }
  }

  /** On duplicate-free input `Except` with one excluded element is the
      order-preserving filter: it keeps every other element, in order. */
  lemma {:induction false} ExceptOfDistinct<T(!new)>(xs: seq<T>, k: T)
    requires Distinct(xs)
    ensures Except(xs, [k]) == Without(xs, k)
  {
    assert (set x | x in [k]) == {k};
    ExceptFromSingleOfDistinct(xs, k);
  }

  lemma {:induction false} ExceptFromSingleOfDistinct<T(!new)>(xs: seq<T>, k: T)
    requires Distinct(xs)
    ensures ExceptFrom(xs, {k}) == Without(xs, k)
  {
    if xs != [] {
      var tail := xs[1..];
      assert Distinct(tail) by {
        forall i, j | 0 <= i < j < |tail| ensures tail[i] != tail[j] {
          assert tail[i] == xs[i + 1] && tail[j] == xs[j + 1];
        }
      }
      ExceptFromSingleOfDistinct(tail, k);
      if xs[0] != k {
        assert xs[0] !in tail by {
          forall j | 0 <= j < |tail| ensures tail[j] != xs[0] {
            assert tail[j] == xs[j + 1];
          }
        }
        ExceptFromIgnoresAbsent(tail, {k}, xs[0]);
      }
    }
  }

  /** Removing an element that occurs exactly once shortens the list by one. */
  lemma {:induction false} WithoutOfDistinctLength<T(!new)>(xs: seq<T>, k: T)
    requires Distinct(xs) && k in xs
    ensures |Without(xs, k)| == |xs| - 1
    ensures k !in Without(xs, k)
  {
    var tail := xs[1..];
    assert Distinct(tail) by {
      forall i, j | 0 <= i < j < |tail| ensures tail[i] != tail[j] {
        assert tail[i] == xs[i + 1] && tail[j] == xs[j + 1];
      }
    }
    if xs[0] == k {
      assert k !in tail by {
        forall j | 0 <= j < |tail| ensures tail[j] != k {
          assert tail[j] == xs[j + 1];
        }
      }
      WithoutAbsent(tail, k);
    } else {
      assert k in tail by {
        var i :| 0 <= i < |xs| && xs[i] == k;
        assert tail[i - 1] == k;
      }
      WithoutOfDistinctLength(tail, k);
    }
  }

  /** Removing an element that does not occur is the identity. */
  lemma {:induction false} WithoutAbsent<T(!new)>(xs: seq<T>, k: T)
    requires k !in xs
    ensures Without(xs, k) == xs
  {
    if xs != [] {
      assert k !in xs[1..];
      WithoutAbsent(xs[1..], k);
    }
  }
}
