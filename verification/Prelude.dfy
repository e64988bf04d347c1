/** A small vocabulary shared by every part of the model. */
module Prelude {
  datatype Option<+T> = None | Some(value: T)

  function Min(a: int, b: int): int {
    if a <= b then a else b
  }

  function Max(a: int, b: int): int {
    if a >= b then a else b
  }

  lemma NonEmpty<T>(s: set<T>) returns (x: T)
    requires s != {}
    ensures x in s
  {
    x :| x in s;
  }

  lemma Associative<T>(a: seq<T>, b: seq<T>, c: seq<T>)
    ensures (a + b) + c == a + (b + c)
  {
  }

  predicate Distinct<T(==)>(s: seq<T>) {
    forall i, k | 0 <= i < k < |s| :: s[i] != s[k]
  }
}

/** Inner products over exact reals. */
module Vectors {
  type Vec = seq<real>

  function Dot(a: Vec, b: Vec): real
    requires |a| == |b|
  {
    if a == [] then 0.0 else a[0] * b[0] + Dot(a[1..], b[1..])
  }
}

/** Counting the elements of a list that satisfy a condition. */
module Counting {
  import opened Prelude

  function Count<T>(s: seq<T>, f: T -> bool): nat {
    if s == [] then 0 else (if f(s[0]) then 1 else 0) + Count(s[1..], f)
  }

  lemma {:induction false} CountConcat<T>(a: seq<T>, b: seq<T>, f: T -> bool)
    ensures Count(a + b, f) == Count(a, f) + Count(b, f)
  {
    if a == [] {
      assert a + b == b;
    } else {
      assert (a + b)[1..] == a[1..] + b;
      CountConcat(a[1..], b, f);
    }
  }

  lemma {:induction false} CountNone<T>(s: seq<T>, f: T -> bool)
    requires forall x | x in s :: !f(x)
    ensures Count(s, f) == 0
  {
    if s != [] { CountNone(s[1..], f); }
  }

  lemma {:induction false} CountAll<T>(s: seq<T>, f: T -> bool)
    requires forall x | x in s :: f(x)
    ensures Count(s, f) == |s|
  {
    if s != [] { CountAll(s[1..], f); }
  }

  lemma {:induction false} CountBounds<T>(s: seq<T>, f: T -> bool)
    ensures Count(s, f) <= |s|
  {
    if s != [] { CountBounds(s[1..], f); }
  }

  lemma PermutationLength<T>(a: seq<T>, b: seq<T>)
    requires multiset(a) == multiset(b)
    ensures |a| == |b|
  {
    assert |multiset(a)| == |multiset(b)|;
  }

  /** The order of the elements does not matter. */
  lemma {:induction false} CountPermutation<T>(a: seq<T>, b: seq<T>, f: T -> bool)
    requires multiset(a) == multiset(b)
    ensures Count(a, f) == Count(b, f)
    decreases |a|
  {
    if a == [] {
      assert |multiset(b)| == 0;
    } else {
      assert a == [a[0]] + a[1..];
      assert a[0] in multiset(b);
      var k :| 0 <= k < |b| && b[k] == a[0];
      var rest := b[..k] + b[k + 1..];
      assert b == b[..k] + ([b[k]] + b[k + 1..]);
      assert multiset(rest) == multiset(b) - multiset{a[0]};
      assert multiset(rest) == multiset(a[1..]);
      CountPermutation(a[1..], rest, f);
      CountConcat(b[..k], [b[k]] + b[k + 1..], f);
      CountConcat([b[k]], b[k + 1..], f);
      CountConcat(b[..k], b[k + 1..], f);
    }
  }

  /** The results of a partial function on a list, where it has one, in order. */
  function Picked<A, B>(s: seq<A>, f: A -> Option<B>): seq<B> {
    if s == [] then [] else (if f(s[0]).Some? then [f(s[0]).value] else []) + Picked(s[1..], f)
  }

  function Has<A, B>(f: A -> Option<B>): A -> bool { x => f(x).Some? }

  /** One result per element that has one, at the place that the earlier ones leave it. */
  lemma {:induction false} PickedMeaning<A, B>(s: seq<A>, f: A -> Option<B>)
    ensures |Picked(s, f)| == Count(s, Has(f))
    ensures forall k | 0 <= k < |s| && f(s[k]).Some? ::
              Count(s[..k], Has(f)) < |Picked(s, f)| && Picked(s, f)[Count(s[..k], Has(f))] == f(s[k]).value
  {
    if s != [] {
      PickedMeaning(s[1..], f);
      forall k | 0 <= k < |s| && f(s[k]).Some?
        ensures Count(s[..k], Has(f)) < |Picked(s, f)| && Picked(s, f)[Count(s[..k], Has(f))] == f(s[k]).value
      {
        if k > 0 {
          assert s[..k][0] == s[0] && s[..k][1..] == s[1..][..k - 1] && s[1..][k - 1] == s[k];
          assert Count(s[..k], Has(f)) == (if f(s[0]).Some? then 1 else 0) + Count(s[1..][..k - 1], Has(f));
        } else {
          assert s[..0] == [];
        }
      }
    }
  }

  lemma {:induction false} PickedConcat<A, B>(a: seq<A>, b: seq<A>, f: A -> Option<B>)
    ensures Picked(a + b, f) == Picked(a, f) + Picked(b, f)
  {
    if a == [] {
      assert a + b == b;
    } else {
      assert (a + b)[1..] == a[1..] + b && (a + b)[0] == a[0];
      PickedConcat(a[1..], b, f);
      Associative(if f(a[0]).Some? then [f(a[0]).value] else [], Picked(a[1..], f), Picked(b, f));
    }
  }

  lemma PickedLast<A, B>(s: seq<A>, f: A -> Option<B>)
    requires s != []
    ensures var front, last := s[..|s| - 1], s[|s| - 1];
      Picked(s, f) == if f(last).Some? then Picked(front, f) + [f(last).value] else Picked(front, f)
  {
    var front, last := s[..|s| - 1], s[|s| - 1];
    assert s == front + [last];
    PickedConcat(front, [last], f);
    assert [last][1..] == [];
  }

  /** When every element has a result the results are in step with the list. */
  lemma {:induction false} PickedAll<A, B>(s: seq<A>, f: A -> Option<B>)
    requires forall x | x in s :: f(x).Some?
    ensures |Picked(s, f)| == |s| && forall k | 0 <= k < |s| :: s[k] in s && Picked(s, f)[k] == f(s[k]).value
  {
    if s != [] {
      assert s[0] in s && forall x | x in s[1..] :: x in s;
      PickedAll(s[1..], f);
      assert forall k | 1 <= k < |s| :: s[1..][k - 1] == s[k];
    }
  }
}
