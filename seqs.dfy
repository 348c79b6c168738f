/** Counting, maximum-finding and prefix steps over sequences, shared by the
    analysis modules. */
module Seqs {

  /** Number of elements of `xs` that satisfy `p` (defined on the last element,
      so that appending one observation adds at most one). */
  function Count<T>(xs: seq<T>, p: T -> bool): (n: nat)
    ensures n <= |xs|
  {
    if xs == [] then 0
    else Count(xs[..|xs| - 1], p) + (if p(xs[|xs| - 1]) then 1 else 0)
  }

  lemma CountAppend<T>(xs: seq<T>, x: T, p: T -> bool)
    ensures Count(xs + [x], p) == Count(xs, p) + (if p(x) then 1 else 0)
  {
    assert (xs + [x])[..|xs|] == xs;
  }

  lemma {:induction false} CountConcat<T>(xs: seq<T>, ys: seq<T>, p: T -> bool)
    ensures Count(xs + ys, p) == Count(xs, p) + Count(ys, p)
    decreases |ys|
  {
    if ys == [] {
      assert xs + ys == xs;
    } else {
      var init, last := ys[..|ys| - 1], ys[|ys| - 1];
      assert ys == init + [last];
      assert xs + ys == (xs + init) + [last];
      CountConcat(xs, init, p);
      CountAppend(xs + init, last, p);
      CountAppend(init, last, p);
    }
  }

  /** No element satisfies `p`: the count is zero. */
  lemma {:induction false} CountNone<T>(xs: seq<T>, p: T -> bool)
    requires forall k :: 0 <= k < |xs| ==> !p(xs[k])
    ensures Count(xs, p) == 0
    decreases |xs|
  {
    if xs != [] {
      CountNone(xs[..|xs| - 1], p);
    }
  }

  /** Every element satisfies `p`: the count is the length. */
  lemma {:induction false} CountAll<T>(xs: seq<T>, p: T -> bool)
    requires forall k :: 0 <= k < |xs| ==> p(xs[k])
    ensures Count(xs, p) == |xs|
    decreases |xs|
  {
    if xs != [] {
      CountAll(xs[..|xs| - 1], p);
    }
  }

  /** Two disjoint properties that both imply `r` together count no more than `r`. */
  lemma {:induction false} CountDisjoint<T>(xs: seq<T>, p: T -> bool, q: T -> bool, r: T -> bool)
    requires forall k :: 0 <= k < |xs| ==> !(p(xs[k]) && q(xs[k]))
    requires forall k :: 0 <= k < |xs| ==> (p(xs[k]) || q(xs[k])) ==> r(xs[k])
    ensures Count(xs, p) + Count(xs, q) <= Count(xs, r)
    decreases |xs|
  {
    if xs != [] {
      CountDisjoint(xs[..|xs| - 1], p, q, r);
    }
  }

  /** A property implied by `r` counts no more than `r`. */
  lemma {:induction false} CountImplies<T>(xs: seq<T>, p: T -> bool, r: T -> bool)
    requires forall k :: 0 <= k < |xs| ==> p(xs[k]) ==> r(xs[k])
    ensures Count(xs, p) <= Count(xs, r)
    decreases |xs|
  {
    if xs != [] {
      CountImplies(xs[..|xs| - 1], p, r);
    }
  }

  /** `k` is the position of the first element whose key is maximal. */
  ghost predicate IsFirstMax<T>(xs: seq<T>, key: T -> real, k: int)
  {
    && 0 <= k < |xs|
    && (forall j :: 0 <= j < |xs| ==> key(xs[j]) <= key(xs[k]))
    && (forall j :: 0 <= j < k ==> key(xs[j]) < key(xs[k]))
  }

  /** A first maximum of `tail` that beats `x` is a first maximum of `[x] + tail`. */
  lemma FirstMaxShift<T>(x: T, tail: seq<T>, key: T -> real, k: int)
    requires IsFirstMax(tail, key, k) && key(x) < key(tail[k])
    ensures IsFirstMax([x] + tail, key, k + 1)
  {
    var xs := [x] + tail;
    assert forall j :: 1 <= j < |xs| ==> xs[j] == tail[j - 1];
  }

  /** There is at most one first maximum. */
  lemma FirstMaxUnique<T>(xs: seq<T>, key: T -> real, k1: int, k2: int)
    requires IsFirstMax(xs, key, k1) && IsFirstMax(xs, key, k2)
    ensures k1 == k2
  {
    assert key(xs[k1]) == key(xs[k2]);
  }

  /** A loop that has handled `xs[..j]` after `done` handles `xs[j]` next. */
  lemma PrefixStep<T>(done: seq<T>, xs: seq<T>, j: nat)
    requires j < |xs|
    ensures done + xs[..j] + [xs[j]] == done + xs[..j + 1]
  {
    assert xs[..j + 1] == xs[..j] + [xs[j]];
  }
}
