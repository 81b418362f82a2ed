/** Order-preserving map and filter over sequences, the shape of every
    "loop over the elements and push the ones that qualify" in the source. */
module Seqs {

  /** `f` applied to every element, in order. Defined by appending at the
      end, as the source's loops push. */
  function Map<A, B>(f: A -> B, xs: seq<A>): (ys: seq<B>)
    ensures |ys| == |xs|
  {
    if xs == [] then [] else Map(f, xs[..|xs| - 1]) + [f(xs[|xs| - 1])]
  }

  /** The `i`-th element of the image is the image of the `i`-th element. */
  lemma {:induction false} MapIndex<A, B>(f: A -> B, xs: seq<A>, i: nat)
    requires i < |xs|
    ensures Map(f, xs)[i] == f(xs[i])
  {
    if i < |xs| - 1 {
      MapIndex(f, xs[..|xs| - 1], i);
    }
  }

  /** The elements of `xs` that satisfy `p`, in order. Defined by appending at
      the end, as the source's loops push. */
  function Filter<T>(p: T -> bool, xs: seq<T>): (ys: seq<T>)
    ensures |ys| <= |xs|
  {
    if xs == [] then []
    else Filter(p, xs[..|xs| - 1]) + (if p(xs[|xs| - 1]) then [xs[|xs| - 1]] else [])
  }

  /** One more loop step: the filter of a longer prefix. */
  lemma FilterStep<T>(p: T -> bool, xs: seq<T>, j: nat)
    requires j < |xs|
    ensures Filter(p, xs[..j + 1]) == Filter(p, xs[..j]) + (if p(xs[j]) then [xs[j]] else [])
  {
    assert xs[..j + 1][..j] == xs[..j];
  }

  lemma MapStep<A, B>(f: A -> B, xs: seq<A>, j: nat)
    requires j < |xs|
    ensures Map(f, xs[..j + 1]) == Map(f, xs[..j]) + [f(xs[j])]
  {
    assert xs[..j + 1][..j] == xs[..j];
  }

  /** Filtering keeps exactly the elements that satisfy the predicate. */
  lemma {:induction false} FilterMember<T>(p: T -> bool, xs: seq<T>, y: T)
    ensures y in Filter(p, xs) <==> y in xs && p(y)
  {
    if xs != [] {
      var n := |xs| - 1;
      FilterMember(p, xs[..n], y);
      assert xs == xs[..n] + [xs[n]];
    }
  }

  /** Filtering preserves order: it distributes over concatenation. */
  lemma {:induction false} FilterAppend<T>(p: T -> bool, xs: seq<T>, ys: seq<T>)
    ensures Filter(p, xs + ys) == Filter(p, xs) + Filter(p, ys)
  {
    if ys == [] {
      assert xs + ys == xs;
    } else {
      var n := |ys| - 1;
      FilterAppend(p, xs, ys[..n]);
      assert (xs + ys)[..|xs + ys| - 1] == xs + ys[..n];
    }
  }

  /** The filter of a sequence with no qualifying element is empty, and
      conversely. */
  lemma {:induction false} FilterEmpty<T>(p: T -> bool, xs: seq<T>)
    ensures Filter(p, xs) == [] <==> forall i :: 0 <= i < |xs| ==> !p(xs[i])
  {
    if Filter(p, xs) == [] {
      forall i | 0 <= i < |xs| ensures !p(xs[i]) {
        FilterMember(p, xs, xs[i]);
      }
    } else {
      var y := Filter(p, xs)[0];
      FilterMember(p, xs, y);
      var i :| 0 <= i < |xs| && xs[i] == y;
      assert p(xs[i]);
    }
  }

  /** Mapping distributes over concatenation. */
  lemma {:induction false} MapAppend<A, B>(f: A -> B, xs: seq<A>, ys: seq<A>)
    ensures Map(f, xs + ys) == Map(f, xs) + Map(f, ys)
  {
    if ys == [] {
      assert xs + ys == xs;
    } else {
      var n := |ys| - 1;
      MapAppend(f, xs, ys[..n]);
      assert (xs + ys)[..|xs + ys| - 1] == xs + ys[..n];
    }
  }

  /** The image holds exactly the images of the elements. */
  lemma MapMembers<A, B>(f: A -> B, xs: seq<A>, y: B)
    ensures y in Map(f, xs) <==> exists i :: 0 <= i < |xs| && y == f(xs[i])
  {
    if y in Map(f, xs) {
      var k :| 0 <= k < |xs| && Map(f, xs)[k] == y;
      MapIndex(f, xs, k);
    }
    if exists i :: 0 <= i < |xs| && y == f(xs[i]) {
      var i :| 0 <= i < |xs| && y == f(xs[i]);
      MapIndex(f, xs, i);
    }
  }

  /** One more loop step of "compute, then push if it qualifies". */
  lemma FilterMapStep<A, B>(p: B -> bool, f: A -> B, xs: seq<A>, j: nat)
    requires j < |xs|
    ensures Filter(p, Map(f, xs[..j + 1])) == Filter(p, Map(f, xs[..j])) + (if p(f(xs[j])) then [f(xs[j])] else [])
  {
    MapStep(f, xs, j);
    FilterStep(p, Map(f, xs[..j + 1]), j);
    assert Map(f, xs[..j + 1])[..j] == Map(f, xs[..j]);
  }

  /** One more loop step of "push the image of the ones that qualify". */
  lemma MapFilterStep<A, B>(f: A -> B, p: A -> bool, xs: seq<A>, j: nat)
    requires j < |xs|
    ensures Map(f, Filter(p, xs[..j + 1])) == Map(f, Filter(p, xs[..j])) + (if p(xs[j]) then [f(xs[j])] else [])
  {
    FilterStep(p, xs, j);
    MapAppend(f, Filter(p, xs[..j]), if p(xs[j]) then [xs[j]] else []);
  }
}
