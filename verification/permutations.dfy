/** All orderings of a list, in the order the standard library's permutation
    generator yields them: lexicographic in the positions of the input, so
    every ordering that starts with element 0 comes first, then those that
    start with element 1, and so on.  Repeated elements are treated as
    distinct positions, so equal orderings may repeat. */
module Orderings {

  function RemoveAt<T>(xs: seq<T>, i: nat): (r: seq<T>)
    requires i < |xs|
    ensures |r| == |xs| - 1
  {
    xs[..i] + xs[i + 1..]
  }

  function Prepend<T>(x: T, ps: seq<seq<T>>): (r: seq<seq<T>>)
    ensures |r| == |ps| && forall j | 0 <= j < |ps| :: r[j] == [x] + ps[j]
  {
    seq(|ps|, j requires 0 <= j < |ps| => [x] + ps[j])
  }

  function Permutations<T>(xs: seq<T>): seq<seq<T>>
    decreases |xs|, |xs| + 1
  {
    if xs == [] then [[]] else PermutationsFrom(xs, 0)
  }

  /** The orderings whose first element is taken from position `i` or later. */
  function PermutationsFrom<T>(xs: seq<T>, i: nat): seq<seq<T>>
    requires i <= |xs|
    decreases |xs|, |xs| - i
  {
    if i == |xs| then []
    else Prepend(xs[i], Permutations(RemoveAt(xs, i))) + PermutationsFrom(xs, i + 1)
  }

  lemma MultisetRemoveAt<T>(xs: seq<T>, i: nat)
    requires i < |xs|
    ensures multiset(RemoveAt(xs, i)) == multiset(xs) - multiset{xs[i]}
  {
    assert xs == xs[..i] + [xs[i]] + xs[i + 1..];
  }

  /** Every generated ordering is a rearrangement of the input. */
  lemma {:induction false} PermutationsSound<T>(xs: seq<T>)
    ensures forall p | p in Permutations(xs) :: multiset(p) == multiset(xs)
    decreases |xs|, |xs| + 1
  {
    if xs != [] {
      PermutationsFromSound(xs, 0);
    }
  }

  lemma ConsRestoresMultiset<T>(xs: seq<T>, i: nat, q: seq<T>)
    requires i < |xs|
    requires multiset(q) == multiset(RemoveAt(xs, i))
    ensures multiset([xs[i]] + q) == multiset(xs)
  {
    MultisetRemoveAt(xs, i);
    assert xs[i] in multiset(xs);
  }

  lemma {:induction false} PermutationsFromSound<T>(xs: seq<T>, i: nat)
    requires i <= |xs|
    ensures forall p | p in PermutationsFrom(xs, i) :: multiset(p) == multiset(xs)
    decreases |xs|, |xs| - i
  {
    if i < |xs| {
      var rest := RemoveAt(xs, i);
      var perms := Permutations(rest);
      PermutationsSound(rest);
      PermutationsFromSound(xs, i + 1);
      var front := Prepend(xs[i], perms);
      forall j | 0 <= j < |front| ensures multiset(front[j]) == multiset(xs) {
        assert perms[j] in perms;
        ConsRestoresMultiset(xs, i, perms[j]);
      }
      assert PermutationsFrom(xs, i) == front + PermutationsFrom(xs, i + 1);
    }
  }

  /** Every rearrangement of the input is generated. */
  lemma {:induction false} PermutationsComplete<T>(xs: seq<T>, p: seq<T>)
    requires multiset(p) == multiset(xs)
    ensures p in Permutations(xs)
    decreases |xs|, |xs| + 1
  {
    if xs == [] {
      assert |p| == |multiset(p)| == 0;
    } else {
      assert |p| == |multiset(p)| == |xs|;
      assert p[0] in multiset(xs);
      var i :| 0 <= i < |xs| && xs[i] == p[0];
      PermutationsFromComplete(xs, 0, i, p);
    }
  }

  lemma {:induction false} PermutationsFromComplete<T>(xs: seq<T>, i: nat, k: nat, p: seq<T>)
    requires i <= k < |xs|
    requires p != [] && p[0] == xs[k] && multiset(p) == multiset(xs)
    ensures p in PermutationsFrom(xs, i)
    decreases |xs|, |xs| - i
  {
    if i < k {
      PermutationsFromComplete(xs, i + 1, k, p);
    } else {
      ComesFirstFrom(xs, k, p);
    }
  }

  /** A rearrangement starting with the element at position `k` is among the
      orderings generated with that element first. */
  lemma {:induction false} ComesFirstFrom<T>(xs: seq<T>, k: nat, p: seq<T>)
    requires k < |xs|
    requires p != [] && p[0] == xs[k] && multiset(p) == multiset(xs)
    ensures p in Prepend(xs[k], Permutations(RemoveAt(xs, k)))
    decreases |xs|, 0
  {
    var rest := RemoveAt(xs, k);
    MultisetRemoveAt(xs, k);
    assert p == [p[0]] + p[1..];
    assert multiset(p) == multiset{p[0]} + multiset(p[1..]);
    PermutationsComplete(rest, p[1..]);
    var j :| 0 <= j < |Permutations(rest)| && Permutations(rest)[j] == p[1..];
    assert Prepend(xs[k], Permutations(rest))[j] == p;
  }
}
