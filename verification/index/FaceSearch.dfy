/** Searching an index: the head of an argsort against the definition of the best match. */
module FaceSearch {
  import opened Prelude
  import opened Vectors
  import opened FaceIndex

  /* ---------- scores ---------- */

  predicate SameLength(rows: seq<Vec>, query: Vec) {
    forall r | r in rows :: |r| == |query|
  }

  function Scores(rows: seq<Vec>, query: Vec): seq<real>
    requires SameLength(rows, query)
  {
    seq(|rows|, i requires 0 <= i < |rows| => Dot(rows[i], query))
  }

  /** `get_all_scores`. */
  function AllScores(ids: seq<Id>, scores: seq<real>): seq<(Id, real)>
    requires |ids| == |scores|
  {
    seq(|ids|, i requires 0 <= i < |ids| => (ids[i], scores[i]))
  }

  /** The definition: nobody below the threshold, otherwise somebody with the highest score. */
  ghost predicate IsBest(ids: seq<Id>, scores: seq<real>, threshold: real, r: Option<(Id, real)>)
    requires |ids| == |scores|
  {
    match r
    case None => forall i | 0 <= i < |scores| :: scores[i] < threshold
    case Some(hit) =>
      && hit in AllScores(ids, scores) && hit.1 >= threshold
      && forall i | 0 <= i < |scores| :: scores[i] <= hit.1
  }

  /* ---------- numpy ---------- */

  /** Any order numpy's argsort may return: every index once, scores ascending. */
  ghost predicate IsArgsort(order: seq<nat>, scores: seq<real>) {
    && |order| == |scores| && Distinct(order)
    && (forall i | i in order :: i < |scores|) && (forall i: nat | i < |scores| :: i in order)
    && forall i, k | 0 <= i < k < |order| && order[i] < |scores| && order[k] < |scores| ::
         scores[order[i]] <= scores[order[k]]
  }

  function Reverse<T>(s: seq<T>): (r: seq<T>)
    ensures |r| == |s| && forall k | 0 <= k < |s| :: r[k] == s[|s| - 1 - k]
  {
    if s == [] then [] else Reverse(s[1..]) + [s[0]]
  }

  /** Python's `order[-k:][::-1]`; a k of zero or less counts from the front. */
  function TopIndices(order: seq<nat>, k: int): seq<nat> {
    var n := |order|;
    var start := if k <= 0 then Min(-k, n) else Max(n - k, 0);
    Reverse(order[start..])
  }

  /** Unless k takes everything away, the last of the order comes first. */
  lemma TopIndicesMeaning(order: seq<nat>, k: int)
    requires order != []
    ensures var top := TopIndices(order, k);
      && (top == [] <==> k <= -|order|)
      && (top != [] ==> top[0] == order[|order| - 1])
      && forall i | 0 <= i < |top| :: top[i] in order
  {
  }

  lemma LastIsHighest(order: seq<nat>, scores: seq<real>)
    requires |scores| > 0 && IsArgsort(order, scores)
    ensures var last := order[|order| - 1];
      last < |scores| && forall m | 0 <= m < |scores| :: scores[m] <= scores[last]
  {
    var last := order[|order| - 1];
    assert last in order;
    forall m: nat | m < |scores|
      ensures scores[m] <= scores[last]
    {
      assert m in order;
      var p :| 0 <= p < |order| && order[p] == m;
    }
  }

  /** `_match_numpy`: exact for every `top_k` that leaves a candidate at all. */
  method MatchNumpy(ids: seq<Id>, scores: seq<real>, order: seq<nat>, threshold: real, topK: int)
    returns (r: Option<(Id, real)>)
    requires |ids| == |scores| > 0 && IsArgsort(order, scores)
    ensures topK > -|ids| ==> IsBest(ids, scores, threshold, r)
    ensures topK <= -|ids| ==> r.None?
  {
    var top := TopIndices(order, Min(topK, |scores|));
    LastIsHighest(order, scores);
    TopIndicesMeaning(order, Min(topK, |scores|));
    var i := 0;
    while i < |top|
      invariant i <= |top|
      invariant i > 0 ==> forall m | 0 <= m < |scores| :: scores[m] < threshold
    {
      var score := scores[top[i]];
      if score >= threshold {
        assert AllScores(ids, scores)[top[i]] == (ids[top[i]], score);
        return Some((ids[top[i]], score));
      }
      i := i + 1;
    }
    r := None;
  }

  /** `match`: an index without rows matches nobody; FAISS answers when it is in use and built. */
  method Match(ix: Index, query: Vec, order: seq<nat>, faissOrder: seq<nat>, threshold: real, topK: int)
    returns (r: Outcome)
    requires Sound(ix) && SameLength(Rows(ix), query) && IsArgsort(order, Scores(Rows(ix), query))
    requires ix.faiss.Some? ==>
               SameLength(ix.faiss.value, query) && IsArgsort(faissOrder, Scores(ix.faiss.value, query))
    ensures Rows(ix) == [] ==> r == Answer(None)
    ensures topK >= 1 && FaissAligned(ix) ==>
              r.Answer? && IsBest(ix.ids, Scores(Rows(ix), query), threshold, r.hit)
  {
    if ix.rows.None? || |ix.rows.value| == 0 { return Answer(None); }
    if ix.useFaiss && ix.faiss.Some? {
      r := MatchFaiss(ix.ids, Scores(ix.faiss.value, query), faissOrder, threshold, topK);
    } else {
      var hit := MatchNumpy(ix.ids, Scores(Rows(ix), query), order, threshold, topK);
      r := Answer(hit);
    }
  }

  /* ---------- FAISS ---------- */

  /** A row number past the end of the id list is an IndexError. */
  datatype Outcome = Answer(hit: Option<(Id, real)>) | IndexError

  /** `_match_faiss` over a flat inner-product index: the best rows first, row numbers read as
      positions in the id list. */
  method MatchFaiss(ids: seq<Id>, scores: seq<real>, order: seq<nat>, threshold: real, topK: int) returns (r: Outcome)
    requires |ids| > 0 && IsArgsort(order, scores)
    ensures topK >= 1 && |scores| == |ids| ==> r.Answer? && IsBest(ids, scores, threshold, r.hit)
    ensures topK >= 1 && |scores| > 0 ==>
              var row := order[|order| - 1];
              row < |scores| && (scores[row] >= threshold ==>
                r == if row < |ids| then Answer(Some((ids[row], scores[row]))) else IndexError)
  {
    var k := Min(topK, |ids|);
    var top := Reverse(order);
    if |scores| > 0 { LastIsHighest(order, scores); }
    var i := 0;
    while i < k && i < |top|
      invariant 0 <= i <= |top|
      invariant i > 0 ==> forall m | 0 <= m < |scores| :: scores[m] < threshold
    {
      assert top[i] in order;
      if scores[top[i]] >= threshold {
        if top[i] >= |ids| { return IndexError; }
        assert |scores| == |ids| ==> AllScores(ids, scores)[top[i]] == (ids[top[i]], scores[top[i]]);
        return Answer(Some((ids[top[i]], scores[top[i]])));
      }
      i := i + 1;
    }
    r := Answer(None);
  }

  lemma DotOfOne(a: Vec, b: Vec)
    requires |a| == |b| == 1
    ensures Dot(a, b) == a[0] * b[0]
  {
    assert Dot(a[1..], b[1..]) == 0.0;
  }

  /** One user in, out again, and another in. */
  function Replaced(one: Vec, other: Vec): Index {
    Update(Remove(Build(Empty(true), [one], ["old"], map[], true).value, "old", true), "new", other, None, true)
  }

  lemma ReplacedKeepsRow(one: Vec, other: Vec)
    ensures var ix := Replaced(one, other);
      Sound(ix) && ix.ids == ["new"] && Rows(ix) == [other] && ix.faiss == Some([one, other])
  {
    var built := Build(Empty(true), [one], ["old"], map[], true).value;
    assert IndexOf(["old"], "old") == 0;
    var gone := Remove(built, "old", true);
    assert gone.ids == [] && Rows(gone) == [] && gone.faiss == Some([one]);
    assert "new" !in gone.ids;
    var ix := Update(gone, "new", other, None, true);
    assert ix.ids == ["new"] && ix.faiss.value == [one, other];
  }

  lemma UnitScores(one: Vec, other: Vec)
    requires one == [1.0] && other == [0.0]
    ensures SameLength([one, other], one) && Scores([one, other], one) == [1.0, 0.0]
    ensures SameLength([other], one) && Scores([other], one) == [0.0]
    ensures IsArgsort([1, 0], [1.0, 0.0])
  {
    DotOfOne(one, one);
    DotOfOne(other, one);
    var order: seq<nat> := [1, 0];
    assert order[0] == 1 && order[1] == 0;
  }

  /** After the last user is removed the FAISS row stays: with the next user added, the removed
      face scores highest in row 0, which now reads as the new user, whose own score is 0. */
  lemma StaleRowNamesAnotherUser(one: Vec, other: Vec)
    requires one == [1.0] && other == [0.0]
    ensures var ix := Replaced(one, other);
      && Sound(ix) && ix.ids == ["new"] && Rows(ix) == [other] && ix.faiss == Some([one, other])
      && SameLength(ix.faiss.value, one) && Scores(ix.faiss.value, one) == [1.0, 0.0]
      && IsArgsort([1, 0], [1.0, 0.0]) && SameLength(Rows(ix), one) && Scores(Rows(ix), one) == [0.0]
  {
    ReplacedKeepsRow(one, other);
    UnitScores(one, other);
  }

  /* ---------- the ranking ---------- */

  predicate Descending(s: seq<(Id, real)>) {
    forall i, k | 0 <= i < k < |s| :: s[i].1 >= s[k].1
  }

  /** An element stays ahead of later ones with the same score. */
  function Insert(x: (Id, real), s: seq<(Id, real)>): (r: seq<(Id, real)>)
    ensures forall y :: y in r <==> y == x || y in s
  {
    if s == [] || x.1 >= s[0].1 then [x] + s
    else
      assert s == [s[0]] + s[1..];
      [s[0]] + Insert(x, s[1..])
  }

  lemma {:induction false} InsertAddsOne(x: (Id, real), s: seq<(Id, real)>)
    ensures multiset(Insert(x, s)) == multiset(s) + multiset{x}
  {
    if s != [] && x.1 < s[0].1 {
      InsertAddsOne(x, s[1..]);
      assert s == [s[0]] + s[1..];
    }
  }

  lemma {:induction false} InsertKeepsDescending(x: (Id, real), s: seq<(Id, real)>)
    requires Descending(s)
    ensures Descending(Insert(x, s))
  {
    if s != [] && x.1 < s[0].1 {
      var rest := Insert(x, s[1..]);
      InsertKeepsDescending(x, s[1..]);
      forall k | 0 <= k < |rest|
        ensures rest[k].1 <= s[0].1
      {
        assert rest[k] in rest;
      }
    }
  }

  /** Python's stable `sorted(..., reverse=True)` by score. */
  function Ranked(s: seq<(Id, real)>): (r: seq<(Id, real)>)
    ensures Descending(r) && multiset(r) == multiset(s)
  {
    if s == [] then []
    else
      assert s == [s[0]] + s[1..];
      InsertKeepsDescending(s[0], Ranked(s[1..]));
      InsertAddsOne(s[0], Ranked(s[1..]));
      Insert(s[0], Ranked(s[1..]))
  }

  /** Python's `s[:n]`. */
  function Prefix<T>(s: seq<T>, n: int): seq<T> {
    s[..if n >= 0 then Min(n, |s|) else Max(|s| + n, 0)]
  }

  function FindSimilar(ids: seq<Id>, scores: seq<real>, n: int): seq<(Id, real)>
    requires |ids| == |scores|
  {
    Prefix(Ranked(AllScores(ids, scores)), n)
  }

  lemma FrontIsHighest(ranked: seq<(Id, real)>, k: nat)
    requires Descending(ranked) && k <= |ranked|
    ensures multiset(ranked[..k]) + multiset(ranked[k..]) == multiset(ranked)
    ensures forall x, y | x in ranked[..k] && y in ranked[k..] :: x.1 >= y.1
  {
    var front, back := ranked[..k], ranked[k..];
    assert ranked == front + back;
    forall x, y | x in front && y in back
      ensures x.1 >= y.1
    {
      var i :| 0 <= i < |front| && front[i] == x;
      var j :| 0 <= j < |back| && back[j] == y;
      assert ranked[i] == x && ranked[k + j] == y;
    }
  }

  /** What the similar users are cut off from. */
  function LeftOut(ids: seq<Id>, scores: seq<real>, n: int): seq<(Id, real)>
    requires |ids| == |scores|
  {
    var ranked := Ranked(AllScores(ids, scores));
    ranked[Min(|FindSimilar(ids, scores, n)|, |ranked|)..]
  }

  /** The similar users are so many of the highest scores, highest first: as many as asked for, or all but
      so many for a negative number, and nobody left out scores higher. */
  lemma FindSimilarMeaning(ids: seq<Id>, scores: seq<real>, n: int)
    requires |ids| == |scores|
    ensures var best, rest := FindSimilar(ids, scores, n), LeftOut(ids, scores, n);
      && |best| == (if n >= 0 then Min(n, |ids|) else Max(|ids| + n, 0)) && Descending(best)
      && multiset(best) + multiset(rest) == multiset(AllScores(ids, scores))
      && forall x, y | x in best && y in rest :: x.1 >= y.1
  {
    var ranked := Ranked(AllScores(ids, scores));
    assert |multiset(ranked)| == |multiset(AllScores(ids, scores))|;
    assert |ranked| == |ids|;
    FrontIsHighest(ranked, |FindSimilar(ids, scores, n)|);
  }

  /** Whoever a search returns has the score that heads the ranking. */
  lemma MatchHeadsRanking(ids: seq<Id>, scores: seq<real>, threshold: real, r: Option<(Id, real)>, n: int)
    requires |ids| == |scores| > 0 && n >= 1 && IsBest(ids, scores, threshold, r)
    ensures var ranking := FindSimilar(ids, scores, n);
      && ranking != []
      && (r.Some? <==> ranking[0].1 >= threshold)
      && (r.Some? ==> r.value.1 == ranking[0].1)
  {
    var all, ranked := AllScores(ids, scores), Ranked(AllScores(ids, scores));
    assert |multiset(ranked)| == |multiset(all)|;
    assert ranked[0] in multiset(all);
    assert ranked[0] in all;
    forall i | 0 <= i < |all|
      ensures all[i].1 <= ranked[0].1
    {
      assert all[i] in multiset(ranked);
    }
    if r.Some? {
      var i :| 0 <= i < |all| && all[i] == r.value;
    } else {
      assert all[0].1 == scores[0];
    }
  }
}
