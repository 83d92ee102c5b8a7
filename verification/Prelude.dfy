/** Shared vocabulary: optional values, results that carry an error, finite sums
    over sequences, and the insertion sort that stands for `ORDER BY` and `sorted`. */
module Prelude {

  datatype Option<+T> = None | Some(value: T)

  datatype Result<+T, +E> = Ok(value: T) | Err(error: E)

  function Min(a: int, b: int): int { if a <= b then a else b }

  function Max(a: int, b: int): int { if a <= b then b else a }

  function MinR(a: real, b: real): real { if b < a then b else a }

  function MaxR(a: real, b: real): real { if a < b then b else a }

  // ---------------------------------------------------------------- sums

  /** The sum of a measure over the elements of a sequence. */
  function SumOf<T>(s: seq<T>, f: T -> int): int {
    if |s| == 0 then 0 else SumOf(s[..|s| - 1], f) + f(s[|s| - 1])
  }

  lemma SumAppend<T>(s: seq<T>, x: T, f: T -> int)
    ensures SumOf(s + [x], f) == SumOf(s, f) + f(x)
  {
    assert (s + [x])[..|s|] == s;
  }

  lemma {:induction false} SumConcat<T>(s: seq<T>, t: seq<T>, f: T -> int)
    ensures SumOf(s + t, f) == SumOf(s, f) + SumOf(t, f)
  {
    if |t| == 0 {
      assert s + t == s;
    } else {
      SumConcat(s, t[..|t| - 1], f);
      assert s + t == (s + t[..|t| - 1]) + [t[|t| - 1]];
      SumAppend(s + t[..|t| - 1], t[|t| - 1], f);
    }
  }

  lemma {:induction false} SumUpdate<T>(s: seq<T>, i: nat, x: T, f: T -> int)
    requires i < |s|
    ensures SumOf(s[i := x], f) == SumOf(s, f) - f(s[i]) + f(x)
  {
    var n := |s| - 1;
    if i == n {
      assert s[i := x][..n] == s[..n];
    } else {
      SumUpdate(s[..n], i, x, f);
      assert s[i := x][..n] == s[..n][i := x];
    }
  }

  lemma {:induction false} SumAtMost<S, T>(s: seq<S>, t: seq<T>, f: S -> int, g: T -> int)
    requires |s| == |t|
    requires forall i :: 0 <= i < |s| ==> f(s[i]) <= g(t[i])
    ensures SumOf(s, f) <= SumOf(t, g)
  {
    if |s| != 0 {
      SumAtMost(s[..|s| - 1], t[..|s| - 1], f, g);
    }
  }

  lemma SumEqual<S, T>(s: seq<S>, t: seq<T>, f: S -> int, g: T -> int)
    requires |s| == |t|
    requires forall i :: 0 <= i < |s| ==> f(s[i]) == g(t[i])
    ensures SumOf(s, f) == SumOf(t, g)
  {
    SumAtMost(s, t, f, g);
    SumAtMost(t, s, g, f);
  }

  /** Two measures that differ by the same amount at every position have sums that
      differ by the same amount. */
  lemma {:induction false} SumSameGap<T>(s: seq<T>, t: seq<T>, f: T -> int, g: T -> int)
    requires |s| == |t|
    requires forall i :: 0 <= i < |s| ==> f(s[i]) - g(s[i]) == f(t[i]) - g(t[i])
    ensures SumOf(s, f) - SumOf(s, g) == SumOf(t, f) - SumOf(t, g)
  {
    if |s| != 0 {
      SumSameGap(s[..|s| - 1], t[..|s| - 1], f, g);
    }
  }

  // ------------------------------------------------------------- sorting

  ghost predicate Ranks(before: (nat, nat) -> bool, s: seq<nat>)
  {
    && (forall a, b :: a in s && b in s && a != b ==> before(a, b) || before(b, a))
    && (forall a, b, c :: a in s && b in s && c in s && before(a, b) && before(b, c) ==> before(a, c))
  }

  ghost predicate Sorted(before: (nat, nat) -> bool, s: seq<nat>)
  {
    forall i, j :: 0 <= i < j < |s| ==> before(s[i], s[j])
  }

  ghost predicate Distinct<T(!new)>(s: seq<T>)
  {
    forall i, j :: 0 <= i < j < |s| ==> s[i] != s[j]
  }

  function InsertBy(before: (nat, nat) -> bool, x: nat, s: seq<nat>): (r: seq<nat>)
    ensures |r| == |s| + 1
    ensures forall a :: a in r <==> a == x || a in s
  {
    if |s| == 0 then [x]
    else if before(x, s[0]) then [x] + s
    else
      var r := [s[0]] + InsertBy(before, x, s[1..]);
      assert s == [s[0]] + s[1..];
      r
  }

  function SortBy(before: (nat, nat) -> bool, s: seq<nat>): (r: seq<nat>)
    ensures |r| == |s|
    ensures forall a :: a in r <==> a in s
  {
    if |s| == 0 then []
    else InsertBy(before, s[|s| - 1], SortBy(before, s[..|s| - 1]))
  }

  lemma RanksFewer(before: (nat, nat) -> bool, s: seq<nat>, t: seq<nat>)
    requires Ranks(before, s) && forall a :: a in t ==> a in s
    ensures Ranks(before, t)
  {
  }

  lemma SortedCons(before: (nat, nat) -> bool, head: nat, tail: seq<nat>)
    requires Sorted(before, tail) && forall a :: a in tail ==> before(head, a)
    ensures Sorted(before, [head] + tail)
  {
    assert forall k :: 0 <= k < |tail| ==> tail[k] in tail;
  }

  lemma SortedParts(before: (nat, nat) -> bool, s: seq<nat>)
    requires Sorted(before, s) && |s| > 0
    ensures s == [s[0]] + s[1..] && Sorted(before, s[1..]) && forall a :: a in s[1..] ==> before(s[0], a)
  {
  }

  lemma {:induction false} InsertByKeepsSorted(before: (nat, nat) -> bool, x: nat, s: seq<nat>)
    requires Ranks(before, s + [x]) && Sorted(before, s) && x !in s
    ensures Sorted(before, InsertBy(before, x, s))
  {
    if |s| != 0 {
      var head, tail := s[0], s[1..];
      SortedParts(before, s);
      assert x in s + [x] && head in s + [x] && forall a :: a in tail ==> a in s + [x];
      if before(x, head) {
        SortedCons(before, x, s);
      } else {
        RanksFewer(before, s + [x], tail + [x]);
        InsertByKeepsSorted(before, x, tail);
        SortedCons(before, head, InsertBy(before, x, tail));
      }
    }
  }

  lemma {:induction false} SortBySorts(before: (nat, nat) -> bool, s: seq<nat>)
    requires Ranks(before, s) && Distinct(s)
    ensures Sorted(before, SortBy(before, s))
  {
    if |s| != 0 {
      var t, x := s[..|s| - 1], s[|s| - 1];
      assert s == t + [x];
      assert forall a :: a in t ==> a in s;
      SortBySorts(before, t);
      assert x !in t;
      var r := SortBy(before, t);
      assert forall a :: a in r + [x] <==> a in s;
      InsertByKeepsSorted(before, x, r);
    }
  }

  lemma {:induction false} InsertBySum(before: (nat, nat) -> bool, x: nat, s: seq<nat>, f: nat -> int)
    ensures SumOf(InsertBy(before, x, s), f) == SumOf(s, f) + f(x)
  {
    SumConcat([x], s, f);
    if |s| != 0 && !before(x, s[0]) {
      InsertBySum(before, x, s[1..], f);
      SumConcat([s[0]], s[1..], f);
      assert s == [s[0]] + s[1..];
      SumConcat([s[0]], InsertBy(before, x, s[1..]), f);
    }
  }

  lemma {:induction false} SortBySum(before: (nat, nat) -> bool, s: seq<nat>, f: nat -> int)
    ensures SumOf(SortBy(before, s), f) == SumOf(s, f)
  {
    if |s| != 0 {
      SortBySum(before, s[..|s| - 1], f);
      InsertBySum(before, s[|s| - 1], SortBy(before, s[..|s| - 1]), f);
    }
  }

  // -------------------------------------------- folds and their order

  function Fold<S, E>(step: (S, E) -> S, start: S, s: seq<E>): S
  {
    if |s| == 0 then start else step(Fold(step, start, s[..|s| - 1]), s[|s| - 1])
  }

  lemma FoldAppend<S, E>(step: (S, E) -> S, start: S, s: seq<E>, e: E)
    ensures Fold(step, start, s + [e]) == step(Fold(step, start, s), e)
  {
    assert (s + [e])[..|s|] == s;
  }

  /** Up to `same`, the step may be taken for two elements in either order. */
  ghost predicate OrderFree<S(!new), E(!new)>(step: (S, E) -> S, same: (S, S) -> bool)
  {
    && (forall x :: same(x, x))
    && (forall x, y, z :: same(x, y) && same(y, z) ==> same(x, z))
    && (forall x, y, e :: same(x, y) ==> same(step(x, e), step(y, e)))
    && (forall x, e, f :: same(step(step(x, e), f), step(step(x, f), e)))
  }

  function Without<E>(s: seq<E>, k: nat): seq<E>
    requires k < |s|
  {
    s[..k] + s[k + 1..]
  }

  lemma SameElementsWithout<E>(a: seq<E>, b: seq<E>) returns (k: nat)
    requires |a| > 0 && multiset(a) == multiset(b)
    ensures k < |b| && b[k] == a[|a| - 1] && multiset(a[..|a| - 1]) == multiset(Without(b, k))
  {
    var e := a[|a| - 1];
    assert a == a[..|a| - 1] + [e];
    assert e in multiset(b);
    k :| 0 <= k < |b| && b[k] == e;
    assert b == b[..k] + [e] + b[k + 1..];
    assert multiset(Without(b, k)) == multiset(b) - multiset{e};
  }

  /** An order-free fold gives the same result for any two orders of the same elements. */
  lemma {:induction false} FoldPermutes<S(!new), E(!new)>(step: (S, E) -> S, same: (S, S) -> bool, start: S, a: seq<E>,
                                          b: seq<E>)
    requires OrderFree(step, same) && multiset(a) == multiset(b)
    ensures same(Fold(step, start, a), Fold(step, start, b))
    decreases |a|
  {
    if |a| == 0 {
      assert |multiset(b)| == 0;
      assert a == b;
    } else {
      var n := |a| - 1;
      var k := SameElementsWithout(a, b);
      FoldPermutes(step, same, start, a[..n], Without(b, k));
      FoldAppend(step, start, Without(b, k), b[k]);
      assert same(Fold(step, start, a), step(Fold(step, start, Without(b, k)), b[k]));
      MoveToEnd(step, same, start, b, k);
    }
  }

  lemma WithoutBeforeLast<E>(s: seq<E>, k: nat)
    requires k < |s| - 1
    ensures Without(s, k) + [s[k]] == (Without(s[..|s| - 1], k) + [s[|s| - 1]]) + [s[k]]
  {
  }

  // An element may be moved to the end.
  lemma {:induction false} MoveToEnd<S(!new), E(!new)>(step: (S, E) -> S, same: (S, S) -> bool, start: S, s: seq<E>,
                                       k: nat)
    requires OrderFree(step, same) && k < |s|
    ensures same(Fold(step, start, Without(s, k) + [s[k]]), Fold(step, start, s))
    decreases |s|
  {
    var n := |s| - 1;
    if k == n {
      assert Without(s, k) + [s[k]] == s;
    } else {
      var w := Without(s[..n], k);
      WithoutBeforeLast(s, k);
      MoveToEnd(step, same, start, s[..n], k);
      FoldAppend(step, start, w, s[k]);
      FoldAppend(step, start, w, s[n]);
      FoldAppend(step, start, w + [s[n]], s[k]);
      SwapThenStep(step, same, Fold(step, start, w), Fold(step, start, s[..n]), s[k], s[n]);
    }
  }

  lemma {:induction false} FoldAgrees<S(!new), E>(one: (S, E) -> S, two: (S, E) -> S, start: S, s: seq<E>)
    requires forall x, e :: e in s ==> one(x, e) == two(x, e)
    ensures Fold(one, start, s) == Fold(two, start, s)
  {
    if |s| != 0 {
      FoldAgrees(one, two, start, s[..|s| - 1]);
    }
  }

  lemma SwapThenStep<S(!new), E(!new)>(step: (S, E) -> S, same: (S, S) -> bool, x: S, y: S, e: E, f: E)
    requires OrderFree(step, same) && same(step(x, e), y)
    ensures same(step(step(x, f), e), step(y, f))
  {
    assert same(step(step(x, f), e), step(step(x, e), f));
    assert same(step(step(x, e), f), step(y, f));
  }
}
