/** Holdout evaluation: the pairs that are scored, and the threshold chosen for a target rate of
    false accepts. */
module Threshold {
  import opened Prelude
  import opened Counting

  /* ---------- pairs ---------- */

  /** One row of the upper triangle: is the first image of the identity of each later one? */
  function RowTruth(who: nat, later: seq<nat>): seq<bool> {
    seq(|later|, j requires 0 <= j < |later| => later[j] == who)
  }

  /** The ground truth of all pairs, row by row as `triu_indices` lists them. */
  function PairTruth(labels: seq<nat>): seq<bool> {
    if labels == [] then [] else RowTruth(labels[0], labels[1..]) + PairTruth(labels[1..])
  }

  predicate Same(truth: bool) { truth }

  function Choose2(n: nat): nat { n * (n - 1) / 2 }

  lemma Choose2Succ(n: nat)
    ensures Choose2(n + 1) == Choose2(n) + n
  {
    assert (n + 1) * n == n * (n - 1) + 2 * n;
  }

  function ImagesOf(labels: seq<nat>, who: nat): nat {
    Count(labels, l => l == who)
  }

  /** The same-identity pairs, identity by identity. */
  function PairsWithin(labels: seq<nat>, identities: nat): nat {
    if identities == 0 then 0
    else PairsWithin(labels, identities - 1) + Choose2(ImagesOf(labels, identities - 1))
  }

  lemma {:induction false} PairTotal(labels: seq<nat>)
    ensures |PairTruth(labels)| == Choose2(|labels|)
  {
    if labels != [] {
      PairTotal(labels[1..]);
      Choose2Succ(|labels| - 1);
    }
  }

  /** Where `triu_indices` puts a pair. */
  function PairIndex(n: nat, i: nat, j: nat): nat
    requires i < j < n
  {
    if i == 0 then j - 1 else (n - 1) + PairIndex(n - 1, i - 1, j - 1)
  }

  /** Each entry is the truth of its pair. */
  lemma {:induction false} PairTruthAt(labels: seq<nat>, i: nat, j: nat)
    requires i < j < |labels|
    ensures PairIndex(|labels|, i, j) < |PairTruth(labels)|
    ensures PairTruth(labels)[PairIndex(|labels|, i, j)] == (labels[i] == labels[j])
  {
    if i > 0 { PairTruthAt(labels[1..], i - 1, j - 1); }
  }

  lemma {:induction false} RowPositives(who: nat, later: seq<nat>)
    ensures Count(RowTruth(who, later), Same) == ImagesOf(later, who)
  {
    if later != [] {
      assert RowTruth(who, later)[1..] == RowTruth(who, later[1..]);
      RowPositives(who, later[1..]);
    }
  }

  lemma {:induction false} FirstImageAdds(labels: seq<nat>, identities: nat)
    requires labels != []
    ensures PairsWithin(labels, identities)
            == PairsWithin(labels[1..], identities)
               + if labels[0] < identities then ImagesOf(labels[1..], labels[0]) else 0
    decreases identities
  {
    if identities > 0 {
      FirstImageAdds(labels, identities - 1);
      Choose2Succ(ImagesOf(labels[1..], identities - 1));
    }
  }

  /** The positive pairs are, for every identity, its images taken two at a time. */
  lemma {:induction false} PositiveTotal(labels: seq<nat>, identities: nat)
    requires forall l | l in labels :: l < identities
    ensures Count(PairTruth(labels), Same) == PairsWithin(labels, identities)
  {
    if labels == [] {
      NoPairs(identities);
    } else {
      CountConcat(RowTruth(labels[0], labels[1..]), PairTruth(labels[1..]), Same);
      RowPositives(labels[0], labels[1..]);
      assert labels[0] in labels && forall l | l in labels[1..] :: l in labels;
      PositiveTotal(labels[1..], identities);
      FirstImageAdds(labels, identities);
    }
  }

  lemma {:induction false} NoPairs(identities: nat)
    ensures PairsWithin([], identities) == 0
  {
    if identities > 0 { NoPairs(identities - 1); }
  }

  /* ---------- the threshold ---------- */

  predicate Ascending(s: seq<real>) { forall i, k | 0 <= i <= k < |s| :: s[i] <= s[k] }

  /** What `np.sort` returns. */
  ghost predicate IsSortOf(sorted: seq<real>, s: seq<real>) { multiset(sorted) == multiset(s) && Ascending(sorted) }

  function Allowed(target: real, n: nat): int { (target * n as real).Floor }

  /** The chosen threshold; None is the IndexError. */
  function Chosen(sorted: seq<real>, target: real): Option<real> {
    var k := Allowed(target, |sorted|);
    if k <= 0 then Some(-1.0)
    else if k + 1 > |sorted| then None
    else Some(sorted[|sorted| - k - 1])
  }

  function Above(s: seq<real>, x: real): nat { Count(s, y => y > x) }

  function AtLeast(s: seq<real>, x: real): nat { Count(s, y => y >= x) }

  /** In a sorted list only what lies behind a place can exceed it. */
  lemma SortedAbove(sorted: seq<real>, i: nat)
    requires Ascending(sorted) && i < |sorted|
    ensures Above(sorted, sorted[i]) <= |sorted| - i - 1
  {
    var f := (y: real) => y > sorted[i];
    assert sorted == sorted[..i + 1] + sorted[i + 1..];
    CountConcat(sorted[..i + 1], sorted[i + 1..], f);
    CountNone(sorted[..i + 1], f);
    CountBounds(sorted[i + 1..], f);
  }

  lemma SortedAboveBelow(sorted: seq<real>, i: nat, x: real)
    requires Ascending(sorted) && i < |sorted| && x < sorted[i]
    ensures Above(sorted, x) >= |sorted| - i
  {
    var f := (y: real) => y > x;
    assert sorted == sorted[..i] + sorted[i..];
    CountConcat(sorted[..i], sorted[i..], f);
    CountAll(sorted[i..], f);
  }

  lemma SortedAtLeast(sorted: seq<real>, i: nat)
    requires Ascending(sorted) && i < |sorted|
    ensures AtLeast(sorted, sorted[i]) >= |sorted| - i
    ensures AtLeast(sorted, sorted[i]) == |sorted| - i <==> i == 0 || sorted[i - 1] < sorted[i]
  {
    var f := (y: real) => y >= sorted[i];
    assert sorted == sorted[..i] + sorted[i..];
    CountConcat(sorted[..i], sorted[i..], f);
    CountAll(sorted[i..], f);
    if i > 0 {
      assert sorted[..i] == sorted[..i - 1] + [sorted[i - 1]];
      CountConcat(sorted[..i - 1], [sorted[i - 1]], f);
      if sorted[i - 1] < sorted[i] { CountNone(sorted[..i], f); }
    }
  }

  /** With k > 0 false accepts allowed, the threshold is the least negative score with at most the
      target fraction strictly above it.  The search fails exactly when k reaches n. */
  lemma LeastWithinTarget(negatives: seq<real>, sorted: seq<real>, target: real)
    requires IsSortOf(sorted, negatives) && Allowed(target, |negatives|) > 0
    ensures |sorted| == |negatives|
    ensures Chosen(sorted, target).None? <==> Allowed(target, |negatives|) >= |negatives|
    ensures Chosen(sorted, target).Some? ==>
              var t, n := Chosen(sorted, target).value, |negatives| as real;
              && t in negatives && Above(negatives, t) as real <= target * n
              && forall s | s in negatives && s < t :: Above(negatives, s) as real > target * n
  {
    PermutationLength(sorted, negatives);
    if Chosen(sorted, target).Some? {
      var i := |sorted| - Allowed(target, |sorted|) - 1;
      var t := sorted[i];
      assert t in multiset(negatives);
      SortedAbove(sorted, i);
      CountPermutation(sorted, negatives, y => y > t);
      forall s | s in negatives && s < t
        ensures Above(negatives, s) as real > target * |negatives| as real
      {
        SortedAboveBelow(sorted, i, s);
        CountPermutation(sorted, negatives, y => y > s);
      }
    }
  }

  /** The reported rate counts the threshold itself: with k > 0 it is at least (k+1)/n, hence above
      the target, and exactly that when the next lower score differs, as it does when all do. */
  lemma ReportedRate(negatives: seq<real>, sorted: seq<real>, target: real)
    requires IsSortOf(sorted, negatives) && Allowed(target, |negatives|) > 0 && Chosen(sorted, target).Some?
    ensures |sorted| == |negatives|
    ensures var k, n, t := Allowed(target, |negatives|), |negatives|, Chosen(sorted, target).value;
      && AtLeast(negatives, t) >= k + 1 && AtLeast(negatives, t) as real > target * n as real
      && (AtLeast(negatives, t) == k + 1 <==> n == k + 1 || sorted[n - k - 2] < t)
      && (Distinct(negatives) ==> AtLeast(negatives, t) == k + 1)
  {
    PermutationLength(sorted, negatives);
    var i := |sorted| - Allowed(target, |sorted|) - 1;
    SortedAtLeast(sorted, i);
    CountPermutation(sorted, negatives, y => y >= sorted[i]);
    if Distinct(negatives) { SortKeepsDistinct(negatives, sorted); }
  }

  lemma {:induction false} DistinctCountsOnce(s: seq<real>, x: real)
    requires Distinct(s)
    ensures multiset(s)[x] <= 1
  {
    if s != [] {
      assert s == [s[0]] + s[1..];
      DistinctCountsOnce(s[1..], x);
      if x == s[0] { assert x !in s[1..]; }
    }
  }

  lemma TwicePresent(s: seq<real>, i: nat, k: nat)
    requires i < k < |s| && s[i] == s[k]
    ensures multiset(s)[s[i]] >= 2
  {
    assert s == s[..k] + ([s[k]] + s[k + 1..]);
    assert s[i] in s[..k];
  }

  lemma SortKeepsDistinct(s: seq<real>, sorted: seq<real>)
    requires multiset(s) == multiset(sorted) && Distinct(s)
    ensures Distinct(sorted)
  {
    forall i, k | 0 <= i < k < |sorted|
      ensures sorted[i] != sorted[k]
    {
      DistinctCountsOnce(s, sorted[i]);
      if sorted[i] == sorted[k] { TwicePresent(sorted, i, k); }
    }
  }

  lemma AllowsNoneIff(target: real, n: nat)
    ensures Allowed(target, n) <= 0 <==> target * n as real < 1.0
  {
    var x := target * n as real;
    assert x.Floor as real <= x < x.Floor as real + 1.0;
  }

  /** When the target allows less than one false accept the threshold is -1, which accepts every cosine. */
  lemma NoneAllowedAcceptsAll(negatives: seq<real>, sorted: seq<real>, target: real)
    requires IsSortOf(sorted, negatives) && target * |negatives| as real < 1.0
    requires forall s | s in negatives :: -1.0 <= s <= 1.0
    ensures Chosen(sorted, target) == Some(-1.0) && AtLeast(negatives, -1.0) == |negatives|
  {
    PermutationLength(sorted, negatives);
    AllowsNoneIff(target, |negatives|);
    assert Allowed(target, |sorted|) == Allowed(target, |negatives|);
    CountAll(negatives, y => y >= -1.0);
  }

  /* ---------- the best balanced accuracy ---------- */

  function Accuracy(positives: seq<real>, negatives: seq<real>, t: real): real
    requires positives != [] && negatives != []
  {
    (AtLeast(positives, t) as real / |positives| as real
     + Count(negatives, y => y < t) as real / |negatives| as real) / 2.0
  }

  /** What is missing to one is the mean of the two error rates: genuine pairs below the threshold, and
      impostor pairs at or above it. */
  lemma AccuracyIsWithoutErrors(positives: seq<real>, negatives: seq<real>, t: real)
    requires positives != [] && negatives != []
    ensures 1.0 - Accuracy(positives, negatives, t)
            == (Count(positives, y => y < t) as real / |positives| as real
                + AtLeast(negatives, t) as real / |negatives| as real) / 2.0
  {
    BelowOrAbove(positives, t);
    BelowOrAbove(negatives, t);
    Shares(Count(positives, y => y < t), AtLeast(positives, t), |positives|);
    Shares(Count(negatives, y => y < t), AtLeast(negatives, t), |negatives|);
  }

  lemma {:induction false} BelowOrAbove(s: seq<real>, t: real)
    ensures Count(s, y => y < t) + AtLeast(s, t) == |s|
  {
    if s != [] { BelowOrAbove(s[1..], t); }
  }

  lemma Shares(a: nat, b: nat, n: nat)
    requires a + b == n && n > 0
    ensures a as real / n as real + b as real / n as real == 1.0
  {
    TwoShares(a as real, b as real, n as real);
  }

  lemma TwoShares(a: real, b: real, n: real)
    requires n > 0.0 && a + b == n
    ensures a / n + b / n == 1.0
  {
    var x := a / n;
    assert (1.0 - x) * n == n - x * n;
    Quotient(b, n, 1.0 - x);
  }

  lemma Quotient(b: real, n: real, y: real)
    requires n > 0.0 && y * n == b
    ensures b / n == y
  {
  }

  /** The candidate loop of `evaluate`: the first of the best, or zero when none beats zero. */
  method BestAccuracy(positives: seq<real>, negatives: seq<real>, candidates: seq<real>) returns (best: real, at: real)
    requires positives != [] && negatives != []
    ensures best >= 0.0 && forall c | c in candidates :: Accuracy(positives, negatives, c) <= best
    ensures best > 0.0 ==>
              exists i :: 0 <= i < |candidates| && candidates[i] == at && Accuracy(positives, negatives, at) == best
                && forall j | 0 <= j < i :: Accuracy(positives, negatives, candidates[j]) < best
    ensures best == 0.0 ==> at == 0.0
  {
    best, at := 0.0, 0.0;
    for i := 0 to |candidates|
      invariant best >= 0.0 && forall j | 0 <= j < i :: Accuracy(positives, negatives, candidates[j]) <= best
      invariant best > 0.0 ==>
        exists m :: 0 <= m < i && candidates[m] == at && Accuracy(positives, negatives, at) == best
          && forall j | 0 <= j < m :: Accuracy(positives, negatives, candidates[j]) < best
      invariant best == 0.0 ==> at == 0.0
    {
      var acc := Accuracy(positives, negatives, candidates[i]);
      if acc > best {
        best, at := acc, candidates[i];
      }
    }
  }
}
