/** The identity split and the batch sampler, and what they guarantee to batch-hard mining. */
module Dataset {
  import opened Prelude
  import opened Counting
  import Vectors
  import BatchHard

  type Image = string
  type Sample = (Image, nat)

  const MIN_IMAGES: nat := 4

  /* ---------- the split ---------- */

  /** Identities with too few images are left out. */
  function Kept(found: seq<seq<Image>>): (kept: seq<seq<Image>>)
    ensures forall images | images in kept :: |images| >= MIN_IMAGES && images in found
    ensures forall images | images in found && |images| >= MIN_IMAGES :: images in kept
  {
    if found == [] then []
    else
      var n := |found| - 1;
      assert found == found[..n] + [found[n]];
      Kept(found[..n]) + if |found[n]| >= MIN_IMAGES then [found[n]] else []
  }

  method CollectIdentities(found: seq<seq<Image>>) returns (identities: seq<seq<Image>>)
    ensures identities == Kept(found)
  {
    identities := [];
    for i := 0 to |found|
      invariant identities == Kept(found[..i])
    {
      assert found[..i + 1][..i] == found[..i];
      if |found[i]| >= MIN_IMAGES {
        identities := identities + [found[i]];
      }
    }
    assert found[..|found|] == found;
  }

  /** Python's `int`: towards zero. */
  function Truncated(x: real): int { if x >= 0.0 then x.Floor else -((-x).Floor) }

  function ValidationCount(images: nat, ratio: real): (n: nat)
    ensures n >= 1
  {
    if images > 4 then Max(1, Truncated(images as real * ratio)) else 1
  }

  /** Up to four images give one to validation; more give the whole number that the ratio amounts to, but at
      least one. */
  lemma ValidationCountMeaning(images: nat, ratio: real)
    requires ratio >= 0.0
    ensures var n, share := ValidationCount(images, ratio), images as real * ratio;
      if images <= 4 then n == 1 else share < n as real + 1.0 && (n > 1 ==> n as real <= share)
  {
    ProductNonNegative(images as real, ratio);
  }

  /** Python's `images[:n]` and `images[n:]`. */
  function Take<T>(s: seq<T>, n: nat): seq<T> { s[..Min(n, |s|)] }

  function Drop<T>(s: seq<T>, n: nat): seq<T> { s[Min(n, |s|)..] }

  function Tag(images: seq<Image>, who: nat): seq<Sample> {
    seq(|images|, i requires 0 <= i < |images| => (images[i], who))
  }

  function TrainOf(shuffled: seq<seq<Image>>, ratio: real): seq<Sample> {
    if shuffled == [] then []
    else
      var n := |shuffled| - 1;
      TrainOf(shuffled[..n], ratio) + Tag(Drop(shuffled[n], ValidationCount(|shuffled[n]|, ratio)), n)
  }

  function ValidationOf(shuffled: seq<seq<Image>>, ratio: real): seq<Sample> {
    if shuffled == [] then []
    else
      var n := |shuffled| - 1;
      ValidationOf(shuffled[..n], ratio) + Tag(Take(shuffled[n], ValidationCount(|shuffled[n]|, ratio)), n)
  }

  lemma OneMore(shuffled: seq<seq<Image>>, ratio: real, who: nat)
    requires who < |shuffled|
    ensures var n := ValidationCount(|shuffled[who]|, ratio);
      && TrainOf(shuffled[..who + 1], ratio) == TrainOf(shuffled[..who], ratio) + Tag(Drop(shuffled[who], n), who)
      && ValidationOf(shuffled[..who + 1], ratio)
         == ValidationOf(shuffled[..who], ratio) + Tag(Take(shuffled[who], n), who)
  {
    assert shuffled[..who + 1][..who] == shuffled[..who];
  }

  /** The split loop over the shuffled image lists; None is the error for fewer than two identities. */
  method Split(shuffled: seq<seq<Image>>, ratio: real) returns (sets: Option<(seq<Sample>, seq<Sample>)>)
    ensures sets == if |shuffled| < 2 then None else Some((TrainOf(shuffled, ratio), ValidationOf(shuffled, ratio)))
  {
    if |shuffled| < 2 { return None; }
    var train: seq<Sample>, validation: seq<Sample> := [], [];
    for who := 0 to |shuffled|
      invariant train == TrainOf(shuffled[..who], ratio) && validation == ValidationOf(shuffled[..who], ratio)
    {
      var images := shuffled[who];
      var n := ValidationCount(|images|, ratio);
      train := train + Tag(Drop(images, n), who);
      validation := validation + Tag(Take(images, n), who);
      OneMore(shuffled, ratio, who);
    }
    assert shuffled[..|shuffled|] == shuffled;
    sets := Some((train, validation));
  }

  /** The images a sample list holds for one identity, in order. */
  function ImagesFor(samples: seq<Sample>, who: nat): seq<Image> {
    if samples == [] then []
    else (if samples[0].1 == who then [samples[0].0] else []) + ImagesFor(samples[1..], who)
  }

  lemma {:induction false} ImagesForConcat(a: seq<Sample>, b: seq<Sample>, who: nat)
    ensures ImagesFor(a + b, who) == ImagesFor(a, who) + ImagesFor(b, who)
  {
    if a == [] {
      assert a + b == b;
    } else {
      assert (a + b)[1..] == a[1..] + b && (a + b)[0] == a[0];
      ImagesForConcat(a[1..], b, who);
      Associative(if a[0].1 == who then [a[0].0] else [], ImagesFor(a[1..], who), ImagesFor(b, who));
    }
  }

  lemma {:induction false} ImagesForTag(images: seq<Image>, owner: nat, who: nat)
    ensures ImagesFor(Tag(images, owner), who) == if who == owner then images else []
  {
    if images != [] {
      assert Tag(images, owner)[1..] == Tag(images[1..], owner);
      ImagesForTag(images[1..], owner, who);
    }
  }

  lemma TagAdds(front: seq<Sample>, images: seq<Image>, owner: nat, who: nat)
    ensures ImagesFor(front + Tag(images, owner), who)
            == if who == owner then ImagesFor(front, who) + images else ImagesFor(front, who)
  {
    ImagesForConcat(front, Tag(images, owner), who);
    ImagesForTag(images, owner, who);
    assert ImagesFor(front, who) + [] == ImagesFor(front, who);
  }

  lemma {:induction false} TrainPerIdentity(shuffled: seq<seq<Image>>, ratio: real, who: nat)
    ensures ImagesFor(TrainOf(shuffled, ratio), who)
            == if who < |shuffled| then Drop(shuffled[who], ValidationCount(|shuffled[who]|, ratio)) else []
  {
    if shuffled != [] {
      var n := |shuffled| - 1;
      TrainPerIdentity(shuffled[..n], ratio, who);
      TagAdds(TrainOf(shuffled[..n], ratio), Drop(shuffled[n], ValidationCount(|shuffled[n]|, ratio)), n, who);
    }
  }

  lemma {:induction false} ValidationPerIdentity(shuffled: seq<seq<Image>>, ratio: real, who: nat)
    ensures ImagesFor(ValidationOf(shuffled, ratio), who)
            == if who < |shuffled| then Take(shuffled[who], ValidationCount(|shuffled[who]|, ratio)) else []
  {
    if shuffled != [] {
      var n := |shuffled| - 1;
      ValidationPerIdentity(shuffled[..n], ratio, who);
      TagAdds(ValidationOf(shuffled[..n], ratio), Take(shuffled[n], ValidationCount(|shuffled[n]|, ratio)), n, who);
    }
  }

  /** Training and validation images of an identity, and nothing of an unknown one. */
  lemma SplitPerIdentity(shuffled: seq<seq<Image>>, ratio: real, who: nat)
    ensures who < |shuffled| ==>
              var n := ValidationCount(|shuffled[who]|, ratio);
              && ImagesFor(TrainOf(shuffled, ratio), who) == Drop(shuffled[who], n)
              && ImagesFor(ValidationOf(shuffled, ratio), who) == Take(shuffled[who], n)
    ensures who >= |shuffled| ==>
              ImagesFor(TrainOf(shuffled, ratio), who) == [] && ImagesFor(ValidationOf(shuffled, ratio), who) == []
  {
    TrainPerIdentity(shuffled, ratio, who);
    ValidationPerIdentity(shuffled, ratio, who);
  }

  /** The validation images come first in the shuffled list, as many as the ratio gives, and the training
      images are the rest, in order. */
  lemma SplitSizes(shuffled: seq<seq<Image>>, ratio: real, who: nat)
    requires who < |shuffled|
    ensures var held, kept := ImagesFor(ValidationOf(shuffled, ratio), who), ImagesFor(TrainOf(shuffled, ratio), who);
      held + kept == shuffled[who] && |held| == Min(ValidationCount(|shuffled[who]|, ratio), |shuffled[who]|)
  {
    SplitPerIdentity(shuffled, ratio, who);
  }

  function Enough(images: seq<Image>): Option<seq<Image>> { if |images| >= 4 then Some(images) else None }

  /** The identities with at least four images, in the order they were found, each as often. */
  lemma {:induction false} KeptIsPicked(found: seq<seq<Image>>)
    ensures Kept(found) == Picked(found, Enough)
  {
    if found != [] {
      var n := |found| - 1;
      KeptIsPicked(found[..n]);
      PickedLast(found, Enough);
    }
  }

  /** The split loses and invents no image of any identity, whatever the ratio and the shuffle. */
  lemma SplitPartitions(identities: seq<seq<Image>>, shuffled: seq<seq<Image>>, ratio: real, who: nat)
    requires |shuffled| == |identities| && who < |identities|
    requires multiset(shuffled[who]) == multiset(identities[who])
    ensures multiset(ImagesFor(TrainOf(shuffled, ratio), who)) + multiset(ImagesFor(ValidationOf(shuffled, ratio), who))
            == multiset(identities[who])
  {
    SplitSizes(shuffled, ratio, who);
    MultisetOfParts(ImagesFor(ValidationOf(shuffled, ratio), who), ImagesFor(TrainOf(shuffled, ratio), who));
  }

  lemma MultisetOfParts<T>(a: seq<T>, b: seq<T>)
    ensures multiset(a + b) == multiset(b) + multiset(a)
  {
  }

  /** With at most half of the images held out, every identity keeps at least two for training
      and gives at least one to validation. */
  lemma SplitLeavesTwo(shuffled: seq<seq<Image>>, ratio: real, who: nat)
    requires who < |shuffled| && |shuffled[who]| >= MIN_IMAGES && ratio <= 0.5
    ensures |ImagesFor(TrainOf(shuffled, ratio), who)| >= 2 && |ImagesFor(ValidationOf(shuffled, ratio), who)| >= 1
  {
    SplitPerIdentity(shuffled, ratio, who);
    HalfLeavesTwo(|shuffled[who]|, ratio);
  }

  lemma TruncatedAtMost(x: real, y: real)
    requires x <= y && y >= 0.0
    ensures Truncated(x) as real <= y
  {
  }

  lemma ProductNonNegative(a: real, b: real)
    requires a >= 0.0 && b >= 0.0
    ensures a * b >= 0.0
  {
  }

  lemma Scale(n: real, x: real, y: real)
    requires n >= 0.0 && x <= y
    ensures n * x <= n * y
  {
    ProductNonNegative(n, y - x);
    assert n * (y - x) == n * y - n * x;
  }

  lemma HalfLeavesTwo(images: nat, ratio: real)
    requires images >= MIN_IMAGES && ratio <= 0.5
    ensures ValidationCount(images, ratio) <= images - 2
  {
    var n := images as real;
    Scale(n, ratio, 0.5);
    TruncatedAtMost(n * ratio, n * 0.5);
  }

  /* ---------- the sampler ---------- */

  /** The positions of a label, in order: the pool `by_label` keeps. */
  function Pool(labels: seq<int>, who: int): seq<nat> {
    if labels == [] then []
    else
      var n := |labels| - 1;
      Pool(labels[..n], who) + if labels[n] == who then [n] else []
  }

  lemma DistinctConcat<T>(a: seq<T>, b: seq<T>)
    requires Distinct(a) && Distinct(b) && forall x | x in a :: x !in b
    ensures Distinct(a + b)
  {
    var s := a + b;
    forall i, k | 0 <= i < k < |s|
      ensures s[i] != s[k]
    {
      if i < |a| <= k {
        assert s[i] in a && s[k] in b;
      }
    }
  }

  lemma PoolOfAbsent(labels: seq<int>, who: int)
    requires who !in labels
    ensures Pool(labels, who) == []
  {
    var pool := Pool(labels, who);
    assert pool != [] ==> pool[0] in pool;
    PoolMeaning(labels, who);
  }

  lemma {:induction false} PoolMeaning(labels: seq<int>, who: int)
    ensures forall i: nat :: i in Pool(labels, who) <==> i < |labels| && labels[i] == who
    ensures Distinct(Pool(labels, who))
  {
    if labels != [] {
      var n := |labels| - 1;
      PoolMeaning(labels[..n], who);
      DistinctConcat(Pool(labels[..n], who), if labels[n] == who then [n] else []);
    }
  }

  class PKBatchSampler {
    const labels: seq<int>
    const p: nat
    const k: nat
    var byLabel: map<int, seq<nat>>
    var usableLabels: seq<int>

    ghost predicate Valid()
      reads this
    {
      && (forall who :: who in byLabel <==> who in labels)
      && (forall who | who in byLabel :: byLabel[who] == Pool(labels, who))
      && StrictlyAscending(usableLabels)
      && (forall who :: who in usableLabels <==> who in labels && |Pool(labels, who)| >= 2)
    }

    constructor (labels: seq<int>, p: nat, k: nat)
      ensures Valid() && this.labels == labels && this.p == p && this.k == k
    {
      this.labels, this.p, this.k := labels, p, k;
      byLabel, usableLabels := map[], [];
      new;
      var pools := GroupByLabel(labels);
      byLabel := pools;
      usableLabels := Usable(pools);
    }

    static method GroupByLabel(labels: seq<int>) returns (pools: map<int, seq<nat>>)
      ensures forall who :: who in pools <==> who in labels
      ensures forall who | who in pools :: pools[who] == Pool(labels, who)
    {
      pools := map[];
      for i := 0 to |labels|
        invariant forall who :: who in pools <==> who in labels[..i]
        invariant forall who | who in pools :: pools[who] == Pool(labels[..i], who)
      {
        var who := labels[i];
        assert labels[..i + 1][..i] == labels[..i];
        if who !in pools { PoolOfAbsent(labels[..i], who); }
        pools := pools[who := (if who in pools then pools[who] else []) + [i]];
      }
      assert labels[..|labels|] == labels;
    }

    static method Usable(pools: map<int, seq<nat>>) returns (usable: seq<int>)
      ensures StrictlyAscending(usable)
      ensures forall who :: who in usable <==> who in pools && |pools[who]| >= 2
    {
      usable := [];
      var todo := pools.Keys;
      while todo != {}
        invariant todo <= pools.Keys
        invariant StrictlyAscending(usable)
        invariant forall who | who in usable :: who in pools && who !in todo && |pools[who]| >= 2
        invariant forall who | who in pools && who !in todo && |pools[who]| >= 2 :: who in usable
        decreases |todo|
      {
        var _ := NonEmpty(todo);
        var next: int :| next in todo;
        todo := todo - {next};
        if |pools[next]| >= 2 {
          InsertKeepsAscending(next, usable);
          usable := SortedInsert(next, usable);
        }
      }
    }

    /** One batch, for any outcome of the random choices: labels first, then images of each. */
    method NextBatch(chosen: seq<int>, picks: seq<seq<nat>>) returns (batch: seq<nat>)
      requires Valid() && IsBatchDraw(labels, usableLabels, p, k, chosen, picks)
      ensures batch == Flatten(picks)
      ensures Distinct(batch) && forall i | i in batch :: i < |labels|
      ensures |usableLabels| >= 2 && p >= 2 && k >= 2 ==> Minable(LabelsOf(labels, batch))
    {
      batch := [];
      for i := 0 to |chosen|
        invariant batch == Flatten(picks[..i])
      {
        batch := batch + picks[i];
        assert picks[..i + 1][..i] == picks[..i];
      }
      assert picks[..|picks|] == picks;
      BatchIsDistinct(labels, usableLabels, p, k, chosen, picks);
      if |usableLabels| >= 2 && p >= 2 && k >= 2 {
        BatchIsMinable(labels, usableLabels, p, k, chosen, picks);
      }
    }
  }

  function SortedInsert(x: int, s: seq<int>): (r: seq<int>)
    ensures forall y :: y in r <==> y == x || y in s
  {
    if s == [] || x < s[0] then [x] + s
    else
      assert s == [s[0]] + s[1..];
      [s[0]] + SortedInsert(x, s[1..])
  }

  predicate StrictlyAscending(s: seq<int>) { forall i, j | 0 <= i < j < |s| :: s[i] < s[j] }

  lemma {:induction false} InsertKeepsAscending(x: int, s: seq<int>)
    requires x !in s && StrictlyAscending(s)
    ensures StrictlyAscending(SortedInsert(x, s))
  {
    if s != [] && x > s[0] {
      var rest := SortedInsert(x, s[1..]);
      InsertKeepsAscending(x, s[1..]);
      forall k | 0 <= k < |rest|
        ensures rest[k] > s[0]
      {
        assert rest[k] == x || rest[k] in s[1..];
      }
      assert SortedInsert(x, s) == [s[0]] + rest;
    }
  }

  /** Any outcome of choosing `size` elements without replacement. */
  ghost predicate IsDraw<T(!new)>(draw: seq<T>, pool: seq<T>, size: nat) {
    |draw| == size && Distinct(draw) && forall x | x in draw :: x in pool
  }

  /** Any outcome of the random choices of one batch. */
  ghost predicate IsBatchDraw(
    labels: seq<int>, usable: seq<int>, p: nat, k: nat, chosen: seq<int>, picks: seq<seq<nat>>)
  {
    && IsDraw(chosen, usable, Min(p, |usable|)) && |picks| == |chosen|
    && forall i | 0 <= i < |chosen| :: IsDraw(picks[i], Pool(labels, chosen[i]), Min(k, |Pool(labels, chosen[i])|))
  }

  function Flatten(picks: seq<seq<nat>>): seq<nat> {
    if picks == [] then [] else Flatten(picks[..|picks| - 1]) + picks[|picks| - 1]
  }

  function LabelsOf(labels: seq<int>, batch: seq<nat>): seq<int>
    requires forall i | i in batch :: i < |labels|
  {
    seq(|batch|, i requires 0 <= i < |batch| => assert batch[i] in batch; labels[batch[i]])
  }

  /** Every anchor has a positive and a negative. */
  ghost predicate Minable(labels: seq<int>) {
    forall i: nat | i < |labels| :: BatchHard.HasPositive(labels, i) && BatchHard.HasNegative(labels, i)
  }

  lemma {:induction false} FlattenMembers(picks: seq<seq<nat>>, x: nat)
    ensures x in Flatten(picks) <==> exists i :: 0 <= i < |picks| && x in picks[i]
  {
    if picks != [] {
      var n := |picks| - 1;
      FlattenMembers(picks[..n], x);
      if x in Flatten(picks[..n]) {
        var i :| 0 <= i < |picks[..n]| && x in picks[..n][i];
        assert x in picks[i];
      }
      if i :| 0 <= i < |picks| && x in picks[i] && i < n {
        assert x in picks[..n][i];
      }
    }
  }

  /** Each pick holds positions of its own label. */
  ghost predicate PicksOk(labels: seq<int>, chosen: seq<int>, picks: seq<seq<nat>>) {
    && |picks| == |chosen| && Distinct(chosen)
    && forall i | 0 <= i < |picks| ::
         Distinct(picks[i]) && forall x | x in picks[i] :: x < |labels| && labels[x] == chosen[i]
  }

  lemma DrawsAreOk(labels: seq<int>, usable: seq<int>, p: nat, k: nat, chosen: seq<int>, picks: seq<seq<nat>>)
    requires IsBatchDraw(labels, usable, p, k, chosen, picks)
    ensures PicksOk(labels, chosen, picks)
  {
    forall i | 0 <= i < |picks|
      ensures Distinct(picks[i]) && forall x | x in picks[i] :: x < |labels| && labels[x] == chosen[i]
    {
      assert IsDraw(picks[i], Pool(labels, chosen[i]), Min(k, |Pool(labels, chosen[i])|));
      PoolMeaning(labels, chosen[i]);
    }
  }

  lemma {:induction false} FlattenIsDistinct(labels: seq<int>, chosen: seq<int>, picks: seq<seq<nat>>)
    requires PicksOk(labels, chosen, picks)
    ensures Distinct(Flatten(picks))
  {
    if picks != [] {
      var n := |picks| - 1;
      FlattenIsDistinct(labels, chosen[..n], picks[..n]);
      forall x | x in Flatten(picks[..n])
        ensures x !in picks[n]
      {
        FlattenMembers(picks[..n], x);
        var i :| 0 <= i < |picks[..n]| && x in picks[..n][i];
        assert x in picks[i] && labels[x] == chosen[i] != chosen[n];
      }
      DistinctConcat(Flatten(picks[..n]), picks[n]);
    }
  }

  lemma BatchIsDistinct(labels: seq<int>, usable: seq<int>, p: nat, k: nat, chosen: seq<int>, picks: seq<seq<nat>>)
    requires IsBatchDraw(labels, usable, p, k, chosen, picks)
    ensures Distinct(Flatten(picks)) && forall x | x in Flatten(picks) :: x < |labels|
  {
    DrawsAreOk(labels, usable, p, k, chosen, picks);
    FlattenIsDistinct(labels, chosen, picks);
    forall x | x in Flatten(picks)
      ensures x < |labels|
    {
      FlattenMembers(picks, x);
      var i :| 0 <= i < |picks| && x in picks[i];
    }
  }

  /** Another image of the anchor's label, and an image of another label, are in the batch. */
  lemma Companions(labels: seq<int>, chosen: seq<int>, picks: seq<seq<nat>>, x: nat) returns (y: nat, z: nat)
    requires PicksOk(labels, chosen, picks) && |chosen| >= 2 && x in Flatten(picks)
    requires forall i | 0 <= i < |picks| :: |picks[i]| >= 2
    ensures x < |labels|
    ensures y in Flatten(picks) && y < |labels| && y != x && labels[y] == labels[x]
    ensures z in Flatten(picks) && z < |labels| && labels[z] != labels[x]
  {
    FlattenMembers(picks, x);
    var a: nat :| a < |picks| && x in picks[a];
    y := if picks[a][0] == x then picks[a][1] else picks[a][0];
    var b := if a == 0 then 1 else 0;
    z := picks[b][0];
    assert y in picks[a] && z in picks[b];
    FlattenMembers(picks, y);
    FlattenMembers(picks, z);
  }

  lemma BatchIsMinable(labels: seq<int>, usable: seq<int>, p: nat, k: nat, chosen: seq<int>, picks: seq<seq<nat>>)
    requires IsBatchDraw(labels, usable, p, k, chosen, picks) && |usable| >= 2 && p >= 2 && k >= 2
    requires forall who | who in usable :: |Pool(labels, who)| >= 2
    requires forall x | x in Flatten(picks) :: x < |labels|
    ensures Minable(LabelsOf(labels, Flatten(picks)))
  {
    DrawsAreOk(labels, usable, p, k, chosen, picks);
    var batch := Flatten(picks);
    forall i | 0 <= i < |picks|
      ensures |picks[i]| >= 2
    {
      assert chosen[i] in usable;
      assert IsDraw(picks[i], Pool(labels, chosen[i]), Min(k, |Pool(labels, chosen[i])|));
    }
    forall i: nat | i < |batch|
      ensures BatchHard.HasPositive(LabelsOf(labels, batch), i) && BatchHard.HasNegative(LabelsOf(labels, batch), i)
    {
      var y, z := Companions(labels, chosen, picks, batch[i]);
      var j: nat :| j < |batch| && batch[j] == y;
      var m: nat :| m < |batch| && batch[m] == z;
      assert BatchHard.IsPositive(LabelsOf(labels, batch), i, j);
      assert BatchHard.IsNegative(LabelsOf(labels, batch), i, m);
    }
  }

  /* ---------- from the split to the loss ---------- */

  function SampleLabels(samples: seq<Sample>): seq<int> {
    seq(|samples|, i requires 0 <= i < |samples| => samples[i].1 as int)
  }

  lemma {:induction false} PoolCountsImages(samples: seq<Sample>, who: nat)
    ensures |Pool(SampleLabels(samples), who)| == |ImagesFor(samples, who)|
  {
    if samples != [] {
      var n := |samples| - 1;
      assert samples == samples[..n] + [samples[n]];
      ImagesForConcat(samples[..n], [samples[n]], who);
      assert SampleLabels(samples)[..n] == SampleLabels(samples[..n]);
      PoolCountsImages(samples[..n], who);
    }
  }

  /** Every batch sampled from the training half of any split with at most half held out is mined
      correctly: over any encoder, squared or not, the fast maximum and minimum of each anchor are
      its hardest positive and its hardest negative. */
  lemma EveryBatchMines(shuffled: seq<seq<Image>>, ratio: real, usable: seq<int>, p: nat, k: nat,
                        chosen: seq<int>, picks: seq<seq<nat>>,
                        vectors: seq<Vectors.Vec>, dim: nat, squared: bool, root: real -> real)
    requires |shuffled| >= 2 && ratio <= 0.5 && p >= 2 && k >= 2
    requires forall images | images in shuffled :: |images| >= MIN_IMAGES
    requires var labels := SampleLabels(TrainOf(shuffled, ratio));
      && (forall who :: who in usable <==> who in labels && |Pool(labels, who)| >= 2)
      && IsBatchDraw(labels, usable, p, k, chosen, picks)
    requires |vectors| == |Flatten(picks)| && (forall v | v in vectors :: |v| == dim) && BatchHard.IsMonotoneRoot(root)
    ensures forall x | x in Flatten(picks) :: x < |SampleLabels(TrainOf(shuffled, ratio))|
    ensures var d := BatchHard.Pairwise(vectors, dim, squared, root);
      var batch := LabelsOf(SampleLabels(TrainOf(shuffled, ratio)), Flatten(picks));
      && BatchHard.Square(d, |batch|)
      && forall i: nat | i < |batch| ::
           && BatchHard.IsHardestPositive(d, batch, i, BatchHard.MaskedMax(d, batch, i))
           && BatchHard.IsHardestNegative(d, batch, i, BatchHard.ShiftedMin(d, batch, i))
  {
    var labels := SampleLabels(TrainOf(shuffled, ratio));
    TwoUsable(shuffled, ratio, usable);
    BatchIsDistinct(labels, usable, p, k, chosen, picks);
    BatchIsMinable(labels, usable, p, k, chosen, picks);
    var d := BatchHard.Pairwise(vectors, dim, squared, root);
    BatchHard.PairwiseIsNonNegative(vectors, dim, squared, root);
    var batch := LabelsOf(labels, Flatten(picks));
    forall i: nat | i < |batch|
      ensures BatchHard.IsHardestPositive(d, batch, i, BatchHard.MaskedMax(d, batch, i))
      ensures BatchHard.IsHardestNegative(d, batch, i, BatchHard.ShiftedMin(d, batch, i))
    {
      BatchHard.MaskedMaxIff(d, batch, i);
      BatchHard.ShiftedMinIff(d, batch, i);
    }
  }

  lemma TwoUsable(shuffled: seq<seq<Image>>, ratio: real, usable: seq<int>)
    requires |shuffled| >= 2 && ratio <= 0.5
    requires forall images | images in shuffled :: |images| >= MIN_IMAGES
    requires var labels := SampleLabels(TrainOf(shuffled, ratio));
      forall who :: who in usable <==> who in labels && |Pool(labels, who)| >= 2
    ensures |usable| >= 2
  {
    var labels := SampleLabels(TrainOf(shuffled, ratio));
    forall who: nat | who < 2
      ensures who in usable
    {
      assert shuffled[who] in shuffled;
      SplitLeavesTwo(shuffled, ratio, who);
      PoolCountsImages(TrainOf(shuffled, ratio), who);
      PoolMeaning(labels, who);
      assert Pool(labels, who)[0] in Pool(labels, who);
    }
    assert 0 in usable && 1 in usable;
  }
}
