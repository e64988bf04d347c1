/** Batch-hard mining without branches, against its definition. */
module BatchHard {
  import opened Prelude
  import opened Vectors
  import opened Counting

  type Matrix = seq<seq<real>>

  predicate Square(d: Matrix, n: nat) { |d| == n && forall i | 0 <= i < n :: |d[i]| == n }

  predicate NonNegative(d: Matrix, n: nat)
    requires Square(d, n)
  {
    forall i, j | 0 <= i < n && 0 <= j < n :: d[i][j] >= 0.0
  }

  /* ---------- distances ---------- */

  function SquaredDifferences(a: Vec, b: Vec): real
    requires |a| == |b|
  {
    if a == [] then 0.0 else (a[0] - b[0]) * (a[0] - b[0]) + SquaredDifferences(a[1..], b[1..])
  }

  lemma {:induction false} GramIsSquaredDifference(a: Vec, b: Vec)
    requires |a| == |b|
    ensures Dot(a, a) - 2.0 * Dot(a, b) + Dot(b, b) == SquaredDifferences(a, b)
  {
    if a != [] {
      GramIsSquaredDifference(a[1..], b[1..]);
      assert (a[0] - b[0]) * (a[0] - b[0]) == a[0] * a[0] - 2.0 * (a[0] * b[0]) + b[0] * b[0];
    }
  }

  lemma {:induction false} SquaredDifferencesAreNonNegative(a: Vec, b: Vec)
    requires |a| == |b|
    ensures SquaredDifferences(a, b) >= 0.0
  {
    if a != [] { SquaredDifferencesAreNonNegative(a[1..], b[1..]); }
  }

  const TINY: real := 0.0000000000000001

  /** One entry of `_pairwise_distances`: the Gram form, clamped, and rooted away from zero. */
  function Distance(a: Vec, b: Vec, squared: bool, root: real -> real): real
    requires |a| == |b|
  {
    var d := Dot(a, a) - 2.0 * Dot(a, b) + Dot(b, b);
    var clamped := if d < 0.0 then 0.0 else d;
    if squared then clamped
    else
      var mask := if clamped == 0.0 then 1.0 else 0.0;
      root(clamped + mask * TINY) * (1.0 - mask)
  }

  /** All that is asked of the square root. */
  ghost predicate IsMonotoneRoot(root: real -> real) {
    forall x, y | 0.0 <= x <= y :: 0.0 <= root(x) <= root(y)
  }

  /** The entry is the sum of squared differences, or its root with zero kept at zero. */
  lemma DistanceMeaning(a: Vec, b: Vec, squared: bool, root: real -> real)
    requires |a| == |b| && IsMonotoneRoot(root)
    ensures var exact := SquaredDifferences(a, b);
      && Distance(a, b, squared, root) == (if squared then exact else if exact == 0.0 then 0.0 else root(exact))
      && Distance(a, b, squared, root) >= 0.0
  {
    GramIsSquaredDifference(a, b);
    SquaredDifferencesAreNonNegative(a, b);
    var exact := SquaredDifferences(a, b);
    assert exact + 0.0 * TINY == exact;
  }

  function Pairwise(vectors: seq<Vec>, dim: nat, squared: bool, root: real -> real): Matrix
    requires forall v | v in vectors :: |v| == dim
  {
    seq(|vectors|, i requires 0 <= i < |vectors| =>
      seq(|vectors|, j requires 0 <= j < |vectors| => Distance(vectors[i], vectors[j], squared, root)))
  }

  lemma PairwiseIsNonNegative(vectors: seq<Vec>, dim: nat, squared: bool, root: real -> real)
    requires (forall v | v in vectors :: |v| == dim) && IsMonotoneRoot(root)
    ensures var d := Pairwise(vectors, dim, squared, root); Square(d, |vectors|) && NonNegative(d, |vectors|)
  {
    var d := Pairwise(vectors, dim, squared, root);
    forall i, j | 0 <= i < |vectors| && 0 <= j < |vectors|
      ensures d[i][j] >= 0.0
    {
      DistanceMeaning(vectors[i], vectors[j], squared, root);
    }
  }

  /* ---------- masks, maxima and minima ---------- */

  predicate IsPositive(labels: seq<int>, i: nat, j: nat)
    requires i < |labels| && j < |labels|
  {
    labels[i] == labels[j] && i != j
  }

  predicate IsNegative(labels: seq<int>, i: nat, j: nat)
    requires i < |labels| && j < |labels|
  {
    labels[i] != labels[j]
  }

  function Float(b: bool): real { if b then 1.0 else 0.0 }

  function MaxOf(s: seq<real>): (m: real)
    requires s != []
    ensures m in s && forall x | x in s :: x <= m
  {
    if |s| == 1 then s[0]
    else
      var m := MaxOf(s[1..]);
      assert s == [s[0]] + s[1..];
      if s[0] >= m then s[0] else m
  }

  function MinOf(s: seq<real>): (m: real)
    requires s != []
    ensures m in s && forall x | x in s :: m <= x
  {
    if |s| == 1 then s[0]
    else
      var m := MinOf(s[1..]);
      assert s == [s[0]] + s[1..];
      if s[0] <= m then s[0] else m
  }

  function RowMaxima(d: Matrix, n: nat): seq<real>
    requires Square(d, n) && n > 0
  {
    seq(n, i requires 0 <= i < n => MaxOf(d[i]))
  }

  /** `(mask * distances).max(dim=1)`. */
  function MaskedMax(d: Matrix, labels: seq<int>, i: nat): real
    requires Square(d, |labels|) && i < |labels|
  {
    MaxOf(seq(|labels|, j requires 0 <= j < |labels| => Float(IsPositive(labels, i, j)) * d[i][j]))
  }

  /** `(distances + max * (1 - mask)).min(dim=1)`, with the maximum of the whole matrix. */
  function ShiftedMin(d: Matrix, labels: seq<int>, i: nat): real
    requires Square(d, |labels|) && i < |labels|
  {
    var top := MaxOf(RowMaxima(d, |labels|));
    MinOf(seq(|labels|, j requires 0 <= j < |labels| => d[i][j] + top * (1.0 - Float(IsNegative(labels, i, j)))))
  }

  /* ---------- the definition ---------- */

  ghost predicate HasPositive(labels: seq<int>, i: nat)
    requires i < |labels|
  {
    exists j: nat :: j < |labels| && IsPositive(labels, i, j)
  }

  ghost predicate HasNegative(labels: seq<int>, i: nat)
    requires i < |labels|
  {
    exists j: nat :: j < |labels| && IsNegative(labels, i, j)
  }

  /** An anchor has a positive exactly when its label is there twice, and a negative exactly when some
      label is another. */
  lemma CompanionsByCount(labels: seq<int>, i: nat)
    requires i < |labels|
    ensures HasPositive(labels, i) <==> multiset(labels)[labels[i]] >= 2
    ensures HasNegative(labels, i) <==> exists x :: x in labels && x != labels[i]
  {
    var others := labels[..i] + labels[i + 1..];
    assert labels == labels[..i] + [labels[i]] + labels[i + 1..];
    assert multiset(labels) == multiset(others) + multiset{labels[i]};
    if HasPositive(labels, i) {
      var j: nat :| j < |labels| && IsPositive(labels, i, j);
      assert labels[j] == others[if j < i then j else j - 1];
    }
    if labels[i] in others {
      var k :| 0 <= k < |others| && others[k] == labels[i];
      assert IsPositive(labels, i, if k < i then k else k + 1);
    }
    if HasNegative(labels, i) {
      var j: nat :| j < |labels| && IsNegative(labels, i, j);
      assert labels[j] in labels;
    }
    if x :| x in labels && x != labels[i] {
      var j: nat :| j < |labels| && labels[j] == x;
      assert IsNegative(labels, i, j);
    }
  }

  /** The farthest image of the anchor's own identity. */
  ghost predicate IsHardestPositive(d: Matrix, labels: seq<int>, i: nat, x: real)
    requires Square(d, |labels|) && i < |labels|
  {
    && (exists j: nat :: j < |labels| && IsPositive(labels, i, j) && d[i][j] == x)
    && forall j: nat | j < |labels| && IsPositive(labels, i, j) :: d[i][j] <= x
  }

  /** The nearest image of any other identity. */
  ghost predicate IsHardestNegative(d: Matrix, labels: seq<int>, i: nat, x: real)
    requires Square(d, |labels|) && i < |labels|
  {
    && (exists j: nat :: j < |labels| && IsNegative(labels, i, j) && d[i][j] == x)
    && forall j: nat | j < |labels| && IsNegative(labels, i, j) :: x <= d[i][j]
  }

  /** The masked maximum is the hardest positive exactly for an anchor that has one; otherwise 0. */
  lemma MaskedMaxIff(d: Matrix, labels: seq<int>, i: nat)
    requires Square(d, |labels|) && NonNegative(d, |labels|) && i < |labels|
    ensures IsHardestPositive(d, labels, i, MaskedMax(d, labels, i)) <==> HasPositive(labels, i)
    ensures !HasPositive(labels, i) ==> MaskedMax(d, labels, i) == 0.0
  {
    var row := seq(|labels|, j requires 0 <= j < |labels| => Float(IsPositive(labels, i, j)) * d[i][j]);
    var m := MaxOf(row);
    var at: nat :| at < |row| && row[at] == m;
    forall j: nat | j < |labels|
      ensures row[j] == (if IsPositive(labels, i, j) then d[i][j] else 0.0) && row[j] <= m
    {
      assert row[j] in row;
    }
    if HasPositive(labels, i) {
      var p: nat :| p < |labels| && IsPositive(labels, i, p);
      if !IsPositive(labels, i, at) {
        assert d[i][p] == 0.0 == m;
      }
    }
  }

  lemma TopBounds(d: Matrix, n: nat, i: nat, j: nat)
    requires Square(d, n) && i < n && j < n
    ensures d[i][j] <= MaxOf(RowMaxima(d, n))
  {
    var maxima := RowMaxima(d, n);
    assert maxima[i] in maxima;
    assert d[i][j] in d[i];
  }

  /** The shifted minimum is the hardest negative exactly for an anchor that has one. */
  lemma ShiftedMinIff(d: Matrix, labels: seq<int>, i: nat)
    requires Square(d, |labels|) && NonNegative(d, |labels|) && i < |labels|
    ensures IsHardestNegative(d, labels, i, ShiftedMin(d, labels, i)) <==> HasNegative(labels, i)
  {
    var top := MaxOf(RowMaxima(d, |labels|));
    var row := seq(|labels|, j requires 0 <= j < |labels| => d[i][j] + top * (1.0 - Float(IsNegative(labels, i, j))));
    var m := MinOf(row);
    var at: nat :| at < |row| && row[at] == m;
    forall j: nat | j < |labels|
      ensures row[j] == (if IsNegative(labels, i, j) then d[i][j] else d[i][j] + top) && m <= row[j]
    {
      assert row[j] in row;
    }
    if HasNegative(labels, i) {
      var p: nat :| p < |labels| && IsNegative(labels, i, p);
      TopBounds(d, |labels|, i, p);
      if !IsNegative(labels, i, at) {
        assert d[i][p] == m;
      }
    }
  }

  /** What the two forms of the distance matrix have to do with each other: zero stays zero, the rest is rooted. */
  ghost predicate IsRootOf(e: Matrix, d: Matrix, n: nat, root: real -> real)
    requires Square(d, n) && Square(e, n)
  {
    forall i, j | 0 <= i < n && 0 <= j < n :: e[i][j] == Rooted(d[i][j], root)
  }

  function Rooted(x: real, root: real -> real): real { if x == 0.0 then 0.0 else root(x) }

  lemma PairwiseIsRooted(vectors: seq<Vec>, dim: nat, root: real -> real)
    requires (forall v | v in vectors :: |v| == dim) && IsMonotoneRoot(root)
    ensures var n, d, e := |vectors|, Pairwise(vectors, dim, true, root), Pairwise(vectors, dim, false, root);
      Square(d, n) && Square(e, n) && NonNegative(d, n) && IsRootOf(e, d, n, root)
  {
    PairwiseIsNonNegative(vectors, dim, true, root);
    forall i, j | 0 <= i < |vectors| && 0 <= j < |vectors|
      ensures Pairwise(vectors, dim, false, root)[i][j] == Rooted(Pairwise(vectors, dim, true, root)[i][j], root)
    {
      DistanceMeaning(vectors[i], vectors[j], true, root);
      DistanceMeaning(vectors[i], vectors[j], false, root);
    }
  }

  lemma RootKeepsHardestIn(d: Matrix, e: Matrix, labels: seq<int>, i: nat, root: real -> real, x: real)
    requires Square(d, |labels|) && Square(e, |labels|) && NonNegative(d, |labels|) && i < |labels|
    requires IsMonotoneRoot(root) && IsRootOf(e, d, |labels|, root)
    ensures IsHardestPositive(d, labels, i, x) ==> IsHardestPositive(e, labels, i, Rooted(x, root))
    ensures IsHardestNegative(d, labels, i, x) ==> IsHardestNegative(e, labels, i, Rooted(x, root))
  {
  }

  /** Mining does not depend on whether distances are squared: the hardest of the rooted matrix is the root
      of the hardest of the squared one. */
  lemma RootKeepsHardest(vectors: seq<Vec>, dim: nat, labels: seq<int>, i: nat, root: real -> real)
    requires (forall v | v in vectors :: |v| == dim) && IsMonotoneRoot(root)
    requires |labels| == |vectors| && i < |labels|
    ensures var n, d, e := |vectors|, Pairwise(vectors, dim, true, root), Pairwise(vectors, dim, false, root);
      && Square(d, n) && Square(e, n)
      && (HasPositive(labels, i) ==> MaskedMax(e, labels, i) == Rooted(MaskedMax(d, labels, i), root))
      && (HasNegative(labels, i) ==> ShiftedMin(e, labels, i) == Rooted(ShiftedMin(d, labels, i), root))
  {
    var d, e := Pairwise(vectors, dim, true, root), Pairwise(vectors, dim, false, root);
    PairwiseIsRooted(vectors, dim, root);
    PairwiseIsNonNegative(vectors, dim, false, root);
    MaskedMaxIff(d, labels, i);
    MaskedMaxIff(e, labels, i);
    ShiftedMinIff(d, labels, i);
    ShiftedMinIff(e, labels, i);
    RootKeepsHardestIn(d, e, labels, i, root, MaskedMax(d, labels, i));
    RootKeepsHardestIn(d, e, labels, i, root, ShiftedMin(d, labels, i));
    HardestIsOne(e, labels, i, MaskedMax(e, labels, i), Rooted(MaskedMax(d, labels, i), root));
    HardestIsOne(e, labels, i, ShiftedMin(e, labels, i), Rooted(ShiftedMin(d, labels, i), root));
  }

  lemma HardestIsOne(d: Matrix, labels: seq<int>, i: nat, x: real, y: real)
    requires Square(d, |labels|) && i < |labels|
    ensures IsHardestPositive(d, labels, i, x) && IsHardestPositive(d, labels, i, y) ==> x == y
    ensures IsHardestNegative(d, labels, i, x) && IsHardestNegative(d, labels, i, y) ==> x == y
  {
  }

  /* ---------- the loss ---------- */

  function Relu(x: real): real { if x > 0.0 then x else 0.0 }

  function Sum(s: seq<real>): real { if s == [] then 0.0 else s[0] + Sum(s[1..]) }

  function Active(s: seq<real>): nat { if s == [] then 0 else (if s[0] > TINY then 1 else 0) + Active(s[1..]) }

  lemma ReluIsMaximum(x: real)
    ensures Relu(x) >= 0.0 && Relu(x) >= x && (Relu(x) == 0.0 || Relu(x) == x)
  {
  }

  /** The sum is that of the elements, each once. */
  lemma {:induction false} SumConcat(a: seq<real>, b: seq<real>)
    ensures Sum(a + b) == Sum(a) + Sum(b)
  {
    if a == [] {
      assert a + b == b;
    } else {
      assert (a + b)[1..] == a[1..] + b;
      SumConcat(a[1..], b);
    }
  }

  lemma SumOfOne(x: real)
    ensures Sum([x]) == x
  {
    assert Sum([x][1..]) == 0.0;
  }

  predicate NotNegligible(x: real) { x > 0.0000000000000001 }

  lemma {:induction false} ActiveIsCount(s: seq<real>)
    ensures Active(s) == Count(s, NotNegligible)
  {
    if s != [] { ActiveIsCount(s[1..]); }
  }

  /** The mean over the anchors whose loss is not negligible. */
  function MeanOfActive(terms: seq<real>): real { Sum(terms) / (Active(terms) as real + TINY) }

  /** `BatchHardTripletLoss.forward`. */
  function Loss(d: Matrix, labels: seq<int>, margin: real): real
    requires Square(d, |labels|)
  {
    MeanOfActive(seq(|labels|, i requires 0 <= i < |labels| =>
      Relu(MaskedMax(d, labels, i) - ShiftedMin(d, labels, i) + margin)))
  }

  /** When every anchor has a positive and a negative the loss is the one of the definition. */
  lemma LossIsByDefinition(d: Matrix, labels: seq<int>, margin: real, far: seq<real>, near: seq<real>)
    requires Square(d, |labels|) && NonNegative(d, |labels|) && |far| == |near| == |labels|
    requires forall i | 0 <= i < |labels| ::
               IsHardestPositive(d, labels, i, far[i]) && IsHardestNegative(d, labels, i, near[i])
    ensures Loss(d, labels, margin)
            == MeanOfActive(seq(|labels|, i requires 0 <= i < |labels| => Relu(far[i] - near[i] + margin)))
  {
    forall i: nat | i < |labels|
      ensures MaskedMax(d, labels, i) == far[i] && ShiftedMin(d, labels, i) == near[i]
    {
      assert IsHardestPositive(d, labels, i, far[i]) && IsHardestNegative(d, labels, i, near[i]);
      MaskedMaxIff(d, labels, i);
      ShiftedMinIff(d, labels, i);
    }
    assert seq(|labels|, i requires 0 <= i < |labels| =>
             Relu(MaskedMax(d, labels, i) - ShiftedMin(d, labels, i) + margin))
           == seq(|labels|, i requires 0 <= i < |labels| => Relu(far[i] - near[i] + margin));
  }

  /** How far each anchor's hardest positive lies beyond its hardest negative and the margin, but never less
      than zero. */
  ghost predicate AreTerms(terms: seq<real>, margin: real, far: seq<real>, near: seq<real>) {
    && |terms| == |far| == |near|
    && forall i | 0 <= i < |terms| ::
         terms[i] == if far[i] - near[i] + margin > 0.0 then far[i] - near[i] + margin else 0.0
  }

  lemma TermsAreRelus(terms: seq<real>, margin: real, far: seq<real>, near: seq<real>)
    requires AreTerms(terms, margin, far, near)
    ensures terms == seq(|terms|, i requires 0 <= i < |terms| => Relu(far[i] - near[i] + margin))
  {
  }

  /** The loss is the mean of the terms. */
  lemma LossMeaning(d: Matrix, labels: seq<int>, margin: real, far: seq<real>, near: seq<real>, terms: seq<real>)
    requires Square(d, |labels|) && NonNegative(d, |labels|)
    requires |terms| == |labels| && AreTerms(terms, margin, far, near)
    requires forall i | 0 <= i < |labels| ::
               IsHardestPositive(d, labels, i, far[i]) && IsHardestNegative(d, labels, i, near[i])
    ensures Loss(d, labels, margin) == MeanOfActive(terms)
  {
    LossIsByDefinition(d, labels, margin, far, near);
    TermsAreRelus(terms, margin, far, near);
    assert seq(|labels|, i requires 0 <= i < |labels| => Relu(far[i] - near[i] + margin)) == terms;
  }

  /** Multiplied out: the mean times the number of active terms (and a little more) is their sum. */
  lemma MeanMultiplied(mean: real, terms: seq<real>)
    requires mean == MeanOfActive(terms)
    ensures mean * (Count(terms, NotNegligible) as real + 0.0000000000000001) == Sum(terms)
  {
    ActiveIsCount(terms);
    Undivided(Sum(terms), Count(terms, NotNegligible) as real + TINY);
  }

  lemma Undivided(x: real, n: real)
    requires n > 0.0
    ensures x / n * n == x
  {
  }
}
