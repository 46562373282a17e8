/** `Array.prototype.filter` and the facts about it the store and the panels use. */
module Seqs {
  import opened Wrappers

  /** `xs.filter(p)`: the elements satisfying `p`, in their original order. */
  function Filter<T>(xs: seq<T>, p: T -> bool): (r: seq<T>)
    ensures |r| <= |xs|
    ensures forall i :: 0 <= i < |r| ==> r[i] in xs && p(r[i])
    ensures forall i :: 0 <= i < |xs| && p(xs[i]) ==> xs[i] in r
  {
    if xs == [] then []
    else Filter(xs[..|xs| - 1], p) + (if p(xs[|xs| - 1]) then [xs[|xs| - 1]] else [])
  }

  /** `xs.filter(p).length` */
  function Count<T>(xs: seq<T>, p: T -> bool): nat {
    |Filter(xs, p)|
  }

  /** Filtering a concatenation filters each part: the kept elements keep their order. */
  lemma {:induction false} FilterAppend<T>(a: seq<T>, b: seq<T>, p: T -> bool)
    ensures Filter(a + b, p) == Filter(a, p) + Filter(b, p)
    decreases |b|
  {
    if b != [] {
      var b' := b[..|b| - 1];
      assert (a + b)[..|a + b| - 1] == a + b';
      assert (a + b)[|a + b| - 1] == b[|b| - 1];
      FilterAppend(a, b', p);
    } else {
      assert a + b == a;
    }
  }

  /** When every element satisfies `p`, nothing is removed; when none does, everything is. */
  lemma {:induction false} FilterAllOrNone<T>(xs: seq<T>, p: T -> bool)
    ensures (forall i :: 0 <= i < |xs| ==> p(xs[i])) ==> Filter(xs, p) == xs
    ensures (forall i :: 0 <= i < |xs| ==> !p(xs[i])) ==> Filter(xs, p) == []
  {
    if xs != [] {
      var init := xs[..|xs| - 1];
      FilterAllOrNone(init, p);
      assert xs == init + [xs[|xs| - 1]];
      if forall i :: 0 <= i < |xs| ==> p(xs[i]) {
        forall i | 0 <= i < |init| ensures p(init[i]) {
          assert init[i] == xs[i];
        }
      }
      if forall i :: 0 <= i < |xs| ==> !p(xs[i]) {
        forall i | 0 <= i < |init| ensures !p(init[i]) {
          assert init[i] == xs[i];
        }
      }
    }
  }

  lemma {:induction false} CountAppend<T>(a: seq<T>, b: seq<T>, p: T -> bool)
    ensures Count(a + b, p) == Count(a, p) + Count(b, p)
  {
    FilterAppend(a, b, p);
  }

  /** Counting with a stronger predicate gives no more. */
  lemma {:induction false} CountMonotone<T>(xs: seq<T>, p: T -> bool, q: T -> bool)
    requires forall x :: p(x) ==> q(x)
    ensures Count(xs, p) <= Count(xs, q)
  {
    if xs != [] {
      CountMonotone(xs[..|xs| - 1], p, q);
    }
  }

  /** Counts of predicates that never hold together add up to at most the length. */
  lemma {:induction false} CountDisjoint<T>(xs: seq<T>, p: T -> bool, q: T -> bool)
    requires forall x :: !(p(x) && q(x))
    ensures Count(xs, p) + Count(xs, q) == Count(xs, x => p(x) || q(x))
    ensures Count(xs, p) + Count(xs, q) <= |xs|
  {
    if xs != [] {
      CountDisjoint(xs[..|xs| - 1], p, q);
    }
  }

  /** When at most one position satisfies `p`, at most one element is kept. */
  lemma {:induction false} CountAtMostOne<T>(xs: seq<T>, p: T -> bool)
    requires forall i, j :: 0 <= i < |xs| && 0 <= j < |xs| && p(xs[i]) && p(xs[j]) ==> i == j
    ensures Count(xs, p) <= 1
  {
    if xs != [] {
      var init := xs[..|xs| - 1];
      CountAtMostOne(init, p);
      if p(xs[|xs| - 1]) {
        FilterAllOrNone(init, p);
      }
    }
  }

  /**
   * A loop that pushes `build(x, k)` for every element `x` that passes `keep`,
   * where `k` is the number of elements pushed before it.
   */
  function KeepAndBuild<T, U>(xs: seq<T>, keep: T -> bool, build: (T, nat) -> U): (r: seq<U>)
    ensures |r| <= |xs|
  {
    if xs == [] then []
    else
      var prev := KeepAndBuild(xs[..|xs| - 1], keep, build);
      prev + (if keep(xs[|xs| - 1]) then [build(xs[|xs| - 1], |prev|)] else [])
  }

  /** The same as filtering first and then building the k-th kept element with k. */
  lemma {:induction false} KeepAndBuildIsFilterThenBuild<T, U>(xs: seq<T>, keep: T -> bool, build: (T, nat) -> U)
    ensures |KeepAndBuild(xs, keep, build)| == |Filter(xs, keep)|
    ensures forall k :: 0 <= k < |Filter(xs, keep)| ==> KeepAndBuild(xs, keep, build)[k] == build(Filter(xs, keep)[k], k)
  {
    if xs != [] {
      var init := xs[..|xs| - 1];
      var x := xs[|xs| - 1];
      KeepAndBuildIsFilterThenBuild(init, keep, build);
      var prev := KeepAndBuild(init, keep, build);
      var kept := Filter(init, keep);
      if keep(x) {
        forall k | 0 <= k < |kept| + 1
          ensures (prev + [build(x, |prev|)])[k] == build((kept + [x])[k], k)
        {
          if k < |kept| {
            assert (prev + [build(x, |prev|)])[k] == prev[k];
            assert (kept + [x])[k] == kept[k];
          }
        }
      } else {
        assert prev + [] == prev && kept + [] == kept;
      }
    }
  }

  /** `xs.findIndex(p)`, with no match as `None`: the position of the first element satisfying `p`. */
  function FirstWhere<T>(xs: seq<T>, p: T -> bool): (r: Option<nat>)
    ensures r.Some? ==> r.value < |xs| && p(xs[r.value])
                        && forall j :: 0 <= j < r.value ==> !p(xs[j])
    ensures r.None? ==> forall j :: 0 <= j < |xs| ==> !p(xs[j])
  {
    if xs == [] then None
    else if p(xs[0]) then Some(0)
    else
      var r := FirstWhere(xs[1..], p);
      if r.Some? then Some(r.value + 1) else None
  }

  /** No element of `xs` at a position from `lo` up to (not including) `hi` satisfies `p`. */
  predicate NoneBetween<T>(xs: seq<T>, p: T -> bool, lo: nat, hi: nat) {
    forall j :: lo <= j < hi && j < |xs| ==> !p(xs[j])
  }

  /** Splitting off the first position of the range. */
  lemma NoneBetweenFront<T>(xs: seq<T>, p: T -> bool, lo: nat, hi: nat)
    requires lo < |xs| && lo < hi
    ensures NoneBetween(xs, p, lo, hi) <==> !p(xs[lo]) && NoneBetween(xs, p, lo + 1, hi)
  {
  }

  /** The first position from `i` on whose element satisfies `p`, found by walking forward. */
  function FirstFrom<T>(xs: seq<T>, p: T -> bool, i: nat): (r: Option<nat>)
    decreases |xs| - i
    ensures r.Some? ==> i <= r.value < |xs| && p(xs[r.value])
  {
    if i >= |xs| then None
    else if p(xs[i]) then Some(i)
    else FirstFrom(xs, p, i + 1)
  }

  /** The walk stops at an element that satisfies `p`. */
  lemma FirstFromHit<T>(xs: seq<T>, p: T -> bool, i: nat)
    requires i < |xs| && p(xs[i])
    ensures FirstFrom(xs, p, i) == Some(i)
  {
  }

  /** The walk passes over an element that does not satisfy `p`. */
  lemma FirstFromSkip<T>(xs: seq<T>, p: T -> bool, i: nat)
    requires i < |xs| && !p(xs[i])
    ensures FirstFrom(xs, p, i) == FirstFrom(xs, p, i + 1)
  {
  }

  /** The walk finds nothing exactly when no position from `i` on satisfies `p`. */
  lemma {:induction false} FirstFromNoneIff<T>(xs: seq<T>, p: T -> bool, i: nat)
    ensures FirstFrom(xs, p, i).None? <==> NoneBetween(xs, p, i, |xs|)
    decreases |xs| - i
  {
    if i < |xs| {
      FirstFromNoneIff(xs, p, i + 1);
      NoneBetweenFront(xs, p, i, |xs|);
    }
  }

  /** The walk stops at `k` when `k` satisfies `p` and nothing between `i` and `k` does. */
  lemma {:induction false} FirstFromIsFirst<T>(xs: seq<T>, p: T -> bool, i: nat, k: nat)
    requires i <= k < |xs| && p(xs[k]) && NoneBetween(xs, p, i, k)
    ensures FirstFrom(xs, p, i) == Some(k)
    decreases k - i
  {
    if i < k {
      NoneBetweenFront(xs, p, i, k);
      FirstFromIsFirst(xs, p, i + 1, k);
    }
  }

  /** The walk from `i` only looks at the elements from `i` on. */
  lemma {:induction false} FirstFromAgree<T>(xs: seq<T>, ys: seq<T>, p: T -> bool, i: nat)
    requires |xs| == |ys|
    requires forall j :: i <= j < |xs| ==> xs[j] == ys[j]
    ensures FirstFrom(xs, p, i) == FirstFrom(ys, p, i)
    decreases |xs| - i
  {
    if i < |xs| {
      FirstFromAgree(xs, ys, p, i + 1);
    }
  }

  /** One more element: it is built with the number of elements built so far, when it passes. */
  lemma KeepAndBuildSnoc<T, U>(xs: seq<T>, x: T, keep: T -> bool, build: (T, nat) -> U)
    ensures KeepAndBuild(xs + [x], keep, build) ==
              KeepAndBuild(xs, keep, build) + (if keep(x) then [build(x, |KeepAndBuild(xs, keep, build)|)] else [])
  {
    assert (xs + [x])[..|xs|] == xs;
  }
}
