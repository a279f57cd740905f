/** Shuffles, modelled as the index permutation they apply. */
module Permutations {

  /** `perm` lists each position `0 .. n-1` exactly once: the reordering a
      shuffle of `n` elements applies. The generator that picks it is not
      modelled; every permutation is allowed. */
  predicate IsIndexPermutation(perm: seq<int>, n: int)
  {
    && |perm| == n
    && InRange(perm, n)
    && Distinct(perm)
  }

  predicate InRange(s: seq<int>, m: int)
  {
    forall i :: 0 <= i < |s| ==> 0 <= s[i] < m
  }

  predicate Distinct(s: seq<int>)
  {
    forall i, j :: 0 <= i < j < |s| ==> s[i] != s[j]
  }

  /** Pigeonhole: distinct values below `m` number at most `m`. */
  lemma {:induction false} Pigeonhole(s: seq<int>, m: nat)
    requires Distinct(s) && InRange(s, m)
    ensures |s| <= m
    decreases m
  {
    if |s| > 0 {
      assert 0 <= s[0] < m;
      var rest := s;
      if exists p :: 0 <= p < |s| && s[p] == m - 1 {
        var p :| 0 <= p < |s| && s[p] == m - 1;
        rest := s[..p] + s[p + 1..];
        assert forall i :: 0 <= i < |rest| ==> rest[i] == if i < p then s[i] else s[i + 1];
      }
      assert |rest| >= |s| - 1;
      Pigeonhole(rest, m - 1);
    }
  }

  /** Where a permutation of `0 .. n-1` puts position `j`: were `j` missing,
      `n` distinct positions would fit below `n - 1` once the positions
      above `j` move down by one. */
  lemma PositionOf(perm: seq<int>, n: nat, j: int) returns (i: int)
    requires IsIndexPermutation(perm, n) && 0 <= j < n
    ensures 0 <= i < n && perm[i] == j
  {
    if exists k :: 0 <= k < n && perm[k] == j {
      i :| 0 <= i < n && perm[i] == j;
    } else {
      var squeezed := seq(n, k requires 0 <= k < n => if perm[k] > j then perm[k] - 1 else perm[k]);
      Pigeonhole(squeezed, n - 1);
      assert false;
    }
  }

  /** Every position occurs in a permutation. */
  lemma PermutationOnto(perm: seq<int>, n: nat)
    requires IsIndexPermutation(perm, n)
    ensures forall j :: 0 <= j < n ==> j in perm
  {
    forall j | 0 <= j < n ensures j in perm {
      var i := PositionOf(perm, n, j);
    }
  }

  /** `rng.shuffle(xs)`: the elements of `xs` in the order `perm` gives. */
  function Shuffle<T(!new)>(xs: seq<T>, perm: seq<int>): (r: seq<T>)
    requires IsIndexPermutation(perm, |xs|)
    ensures |r| == |xs|
    ensures forall i :: 0 <= i < |r| ==> r[i] == xs[perm[i]]
    ensures forall x :: x in r <==> x in xs
  {
    var r := seq(|xs|, i requires 0 <= i < |xs| => xs[perm[i]]);
    forall j | 0 <= j < |xs| ensures xs[j] in r {
      var i := PositionOf(perm, |xs|, j);
      assert r[i] == xs[j];
    }
    r
  }
}
