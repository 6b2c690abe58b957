/** Generic sequence vocabulary shared by the ledger, the category registry
    and the analytics: duplicate-freeness, order-preserving subsequences,
    filtering, summation, a stable sort with the highest rank first, and a
    shuffle driven by externally chosen positions. */
module Seqs {

  /** No element occurs twice. */
  predicate NoDup<T(==)>(xs: seq<T>) {
    forall i, j :: 0 <= i < j < |xs| ==> xs[i] != xs[j]
  }

  /** `a` is obtained from `b` by deleting elements; the order is kept. */
  predicate Subseq<T(==)>(a: seq<T>, b: seq<T>)
    decreases |b|
  {
    |a| == 0 || (|b| > 0 && ((a[0] == b[0] && Subseq(a[1..], b[1..])) || Subseq(a, b[1..])))
  }

  /** `Array.prototype.filter`: keeps, in order, the elements satisfying `keep`. */
  function Filter<T(==)>(xs: seq<T>, keep: T -> bool): (r: seq<T>)
    ensures |r| <= |xs|
    ensures forall x | x in r :: x in xs && keep(x)
    ensures forall x | x in xs && keep(x) :: x in r
    ensures Subseq(r, xs)
  {
    if |xs| == 0 then []
    else if keep(xs[0]) then [xs[0]] + Filter(xs[1..], keep)
    else Filter(xs[1..], keep)
  }

  /** Filtering keeps everything when every element passes. */
  lemma {:induction false} FilterKeepsAll<T>(xs: seq<T>, keep: T -> bool)
    ensures (forall x | x in xs :: keep(x)) ==> Filter(xs, keep) == xs
  {
    if |xs| > 0 {
      FilterKeepsAll(xs[1..], keep);
    }
  }

  /** Filtering twice with the same test is filtering once. */
  lemma FilterIdempotent<T>(xs: seq<T>, keep: T -> bool)
    ensures Filter(Filter(xs, keep), keep) == Filter(xs, keep)
  {
    FilterKeepsAll(Filter(xs, keep), keep);
  }

  /** Filtering drops everything when no element passes. */
  lemma {:induction false} FilterKeepsNone<T>(xs: seq<T>, keep: T -> bool)
    ensures (forall x | x in xs :: !keep(x)) ==> Filter(xs, keep) == []
  {
    if |xs| > 0 {
      FilterKeepsNone(xs[1..], keep);
    }
  }

  /** Filters with tests that agree on the elements agree. */
  lemma {:induction false} FilterCongruent<T>(xs: seq<T>, p: T -> bool, q: T -> bool)
    requires forall x | x in xs :: p(x) == q(x)
    ensures Filter(xs, p) == Filter(xs, q)
  {
    if |xs| > 0 {
      FilterCongruent(xs[1..], p, q);
    }
  }

  /** Filtering distributes over concatenation. */
  lemma {:induction false} FilterAppend<T>(a: seq<T>, b: seq<T>, keep: T -> bool)
    ensures Filter(a + b, keep) == Filter(a, keep) + Filter(b, keep)
  {
    if |a| == 0 {
      assert a + b == b;
    } else {
      assert (a + b)[0] == a[0];
      assert (a + b)[1..] == a[1..] + b;
      FilterAppend(a[1..], b, keep);
    }
  }

  /** A filter keeps every copy of each element that passes the test and
      no copy of any other element. */
  lemma {:induction false} FilterCount<T>(xs: seq<T>, keep: T -> bool)
    ensures forall x :: multiset(Filter(xs, keep))[x] == if keep(x) then multiset(xs)[x] else 0
  {
    if |xs| > 0 {
      FilterCount(xs[1..], keep);
      assert xs == [xs[0]] + xs[1..];
      assert multiset(xs) == multiset{xs[0]} + multiset(xs[1..]);
      if keep(xs[0]) {
        assert multiset(Filter(xs, keep)) == multiset{xs[0]} + multiset(Filter(xs[1..], keep));
      }
    }
  }

  /** A filter of a duplicate-free sequence is duplicate-free. */
  lemma {:induction false} FilterKeepsNoDup<T>(xs: seq<T>, keep: T -> bool)
    ensures NoDup(xs) ==> NoDup(Filter(xs, keep))
  {
    if |xs| > 0 && NoDup(xs) {
      assert NoDup(xs[1..]) by {
        forall i, j | 0 <= i < j < |xs[1..]| ensures xs[1..][i] != xs[1..][j] {
          assert xs[1..][i] == xs[i + 1] && xs[1..][j] == xs[j + 1];
        }
      }
      FilterKeepsNoDup(xs[1..], keep);
      if keep(xs[0]) {
        HeadNotInTail(xs);
        ConsKeepsNoDup(xs[0], Filter(xs[1..], keep));
      }
    }
  }

  /** In a duplicate-free sequence the head does not recur in the tail. */
  lemma HeadNotInTail<T>(xs: seq<T>)
    requires |xs| > 0 && NoDup(xs)
    ensures xs[0] !in xs[1..]
  {
    forall k | 0 <= k < |xs[1..]| ensures xs[1..][k] != xs[0] {
      assert xs[1..][k] == xs[k + 1];
    }
  }

  /** Prepending a fresh element keeps a sequence duplicate-free. */
  lemma ConsKeepsNoDup<T>(x: T, xs: seq<T>)
    requires NoDup(xs) && x !in xs
    ensures NoDup([x] + xs)
  {
    forall i, j | 0 <= i < j < |[x] + xs| ensures ([x] + xs)[i] != ([x] + xs)[j] {
      if i == 0 {
        assert ([x] + xs)[j] == xs[j - 1];
      } else {
        assert ([x] + xs)[i] == xs[i - 1] && ([x] + xs)[j] == xs[j - 1];
      }
    }
  }

  /** Appending a fresh element keeps a sequence duplicate-free. */
  lemma SnocKeepsNoDup<T>(xs: seq<T>, x: T)
    requires x !in xs
    ensures NoDup(xs) ==> NoDup(xs + [x])
  {
    forall i, j | NoDup(xs) && 0 <= i < j < |xs + [x]| ensures (xs + [x])[i] != (xs + [x])[j] {
      assert (xs + [x])[i] == xs[i];
      if j < |xs| {
        assert (xs + [x])[j] == xs[j];
      }
    }
  }

  /** The first element a filter keeps is the first element passing the test. */
  lemma {:induction false} FilterFirst<T>(xs: seq<T>, keep: T -> bool)
    requires |Filter(xs, keep)| > 0
    ensures exists i :: 0 <= i < |xs| && xs[i] == Filter(xs, keep)[0] && keep(xs[i])
                        && forall j :: 0 <= j < i ==> !keep(xs[j])
  {
    if keep(xs[0]) {
      assert xs[0] == Filter(xs, keep)[0];
    } else {
      FilterFirst(xs[1..], keep);
      var i :| 0 <= i < |xs[1..]| && xs[1..][i] == Filter(xs[1..], keep)[0] && keep(xs[1..][i])
               && forall j :: 0 <= j < i ==> !keep(xs[1..][j]);
      assert xs[i + 1] == Filter(xs, keep)[0];
      forall j | 0 <= j < i + 1 ensures !keep(xs[j]) {
        if j > 0 {
          assert xs[j] == xs[1..][j - 1];
        }
      }
    }
  }

  /** A weaker test keeps at least as many elements. */
  lemma {:induction false} FilterMonotone<T>(xs: seq<T>, p: T -> bool, q: T -> bool)
    requires forall x | x in xs :: p(x) ==> q(x)
    ensures |Filter(xs, p)| <= |Filter(xs, q)|
  {
    if |xs| > 0 {
      assert xs[0] in xs;
      FilterMonotone(xs[1..], p, q);
    }
  }

  /** `Array.prototype.map`. */
  function Map<A, B>(xs: seq<A>, f: A -> B): (r: seq<B>)
    ensures |r| == |xs|
    ensures forall i :: 0 <= i < |xs| ==> r[i] == f(xs[i])
  {
    if |xs| == 0 then [] else [f(xs[0])] + Map(xs[1..], f)
  }

  lemma MapSnoc<A, B>(xs: seq<A>, x: A, f: A -> B)
    ensures Map(xs + [x], f) == Map(xs, f) + [f(x)]
  {
  }

  /** A position at which a member occurs. */
  lemma IndexOf<T>(xs: seq<T>, x: T) returns (n: nat)
    requires x in xs
    ensures n < |xs| && xs[n] == x
  {
    n :| 0 <= n < |xs| && xs[n] == x;
  }

  /** The elements of the front (all but the last) are elements of the whole. */
  lemma InFront<T>(xs: seq<T>, i: nat)
    requires i < |xs| - 1
    ensures xs[..|xs| - 1][i] == xs[i] && xs[i] in xs && xs[|xs| - 1] in xs
  {
  }

  /** A reordering has the same members. */
  lemma SameMembers<T>(a: seq<T>, b: seq<T>)
    requires multiset(a) == multiset(b)
    ensures forall x | x in b :: x in a
  {
    forall x | x in b ensures x in a {
      assert x in multiset(b);
    }
  }

  /** The sum of `f` over the elements, left to right (`reduce` from 0). */
  function SumBy<T>(xs: seq<T>, f: T -> real): real {
    if |xs| == 0 then 0.0 else f(xs[0]) + SumBy(xs[1..], f)
  }

  /** A sum of terms none of which is negative is not negative. */
  lemma {:induction false} SumByNonNegative<T>(xs: seq<T>, f: T -> real)
    ensures (forall x | x in xs :: 0.0 <= f(x)) ==> 0.0 <= SumBy(xs, f)
  {
    if |xs| > 0 {
      assert forall x | x in xs[1..] :: x in xs;
      SumByNonNegative(xs[1..], f);
    }
  }

  /** Sums distribute over concatenation. */
  lemma {:induction false} SumByAppend<T>(a: seq<T>, b: seq<T>, f: T -> real)
    ensures SumBy(a + b, f) == SumBy(a, f) + SumBy(b, f)
  {
    if |a| == 0 {
      assert a + b == b;
    } else {
      assert (a + b)[0] == a[0];
      assert (a + b)[1..] == a[1..] + b;
      SumByAppend(a[1..], b, f);
    }
  }

  /** With no negative terms, a filtered sum never exceeds the whole sum. */
  lemma {:induction false} FilterSumBound<T>(xs: seq<T>, keep: T -> bool, f: T -> real)
    requires forall x | x in xs :: 0.0 <= f(x)
    ensures SumBy(Filter(xs, keep), f) <= SumBy(xs, f)
  {
    if |xs| > 0 {
      assert xs[0] in xs;
      assert forall x | x in xs[1..] :: x in xs;
      FilterSumBound(xs[1..], keep, f);
    }
  }

  /** Ordered with the highest rank first (ties in any order). */
  predicate SortedDesc<T>(xs: seq<T>, rank: T -> real) {
    forall i, j :: 0 <= i < j < |xs| ==> rank(xs[i]) >= rank(xs[j])
  }

  /** Inserts `x` before the first element whose rank does not exceed its own. */
  function InsertDesc<T(==)>(x: T, xs: seq<T>, rank: T -> real): (r: seq<T>)
    requires SortedDesc(xs, rank)
    ensures SortedDesc(r, rank)
    ensures multiset(r) == multiset(xs) + multiset{x}
    ensures forall y | y in r :: y == x || y in xs
    ensures x in r && forall y | y in xs :: y in r
  {
    if |xs| == 0 || rank(x) >= rank(xs[0]) then [x] + xs
    else
      assert xs == [xs[0]] + xs[1..];
      var t := InsertDesc(x, xs[1..], rank);
      assert forall k | 0 <= k < |xs[1..]| :: rank(xs[0]) >= rank(xs[1..][k]) by {
        forall k | 0 <= k < |xs[1..]| ensures rank(xs[0]) >= rank(xs[1..][k]) {
          assert xs[1..][k] == xs[k + 1];
        }
      }
      assert forall j | 0 <= j < |t| :: rank(xs[0]) >= rank(t[j]) by {
        forall j | 0 <= j < |t| ensures rank(xs[0]) >= rank(t[j]) {
          assert t[j] in t;
          if t[j] != x {
            var k :| 0 <= k < |xs[1..]| && xs[1..][k] == t[j];
          }
        }
      }
      [xs[0]] + t
  }

  /** A stable insertion sort, highest rank first: the comparator
      `(a, b) => rank(b) - rank(a)` of a stable `Array.prototype.sort`. */
  function SortDesc<T(==)>(xs: seq<T>, rank: T -> real): (r: seq<T>)
    ensures SortedDesc(r, rank)
    ensures multiset(r) == multiset(xs)
    ensures |r| == |xs|
  {
    if |xs| == 0 then []
    else
      assert xs == [xs[0]] + xs[1..];
      InsertDesc(xs[0], SortDesc(xs[1..], rank), rank)
  }

  lemma {:induction false} InsertDescSum<T>(x: T, xs: seq<T>, rank: T -> real, f: T -> real)
    requires SortedDesc(xs, rank)
    ensures SumBy(InsertDesc(x, xs, rank), f) == f(x) + SumBy(xs, f)
  {
    if |xs| == 0 || rank(x) >= rank(xs[0]) {
      assert ([x] + xs)[1..] == xs;
    } else {
      var t := InsertDesc(x, xs[1..], rank);
      assert ([xs[0]] + t)[1..] == t;
      InsertDescSum(x, xs[1..], rank, f);
    }
  }

  /** Sorting does not change any sum over the elements. */
  lemma {:induction false} SortDescSum<T>(xs: seq<T>, rank: T -> real, f: T -> real)
    ensures SumBy(SortDesc(xs, rank), f) == SumBy(xs, f)
  {
    if |xs| > 0 {
      SortDescSum(xs[1..], rank, f);
      InsertDescSum(xs[0], SortDesc(xs[1..], rank), rank, f);
    }
  }

  /** A duplicate-free sequence holds every value at most once. */
  lemma {:induction false} NoDupCount<T>(xs: seq<T>, v: T)
    requires NoDup(xs)
    ensures multiset(xs)[v] <= 1
  {
    if |xs| > 0 {
      assert xs == [xs[0]] + xs[1..];
      assert NoDup(xs[1..]) by {
        forall i, j | 0 <= i < j < |xs[1..]| ensures xs[1..][i] != xs[1..][j] {
          assert xs[1..][i] == xs[i + 1] && xs[1..][j] == xs[j + 1];
        }
      }
      NoDupCount(xs[1..], v);
      HeadNotInTail(xs);
    }
  }

  /** A permutation of a duplicate-free sequence is duplicate-free. */
  lemma PermutationKeepsNoDup<T>(a: seq<T>, b: seq<T>)
    requires multiset(a) == multiset(b)
    ensures NoDup(a) ==> NoDup(b)
  {
    forall i, j | NoDup(a) && 0 <= i < j < |b| ensures b[i] != b[j] {
      if b[i] == b[j] {
        var v := b[i];
        assert b == b[..j] + [b[j]] + b[j + 1..];
        assert v in b[..j];
        assert multiset(b)[v] >= 2;
        NoDupCount(a, v);
        assert false;
      }
    }
  }

  /** `[...xs].sort(() => Math.random() - 0.5)`: the random choices are the
      parameter `picks`; each step moves the element at position
      `picks[0] % |xs|` to the front of the output. */
  function Shuffle<T(==)>(xs: seq<T>, picks: seq<nat>): (r: seq<T>)
    ensures multiset(r) == multiset(xs)
    decreases |xs|
  {
    if |xs| == 0 then []
    else
      var k := (if |picks| > 0 then picks[0] else 0) % |xs|;
      var rest := xs[..k] + xs[k + 1..];
      assert xs == xs[..k] + [xs[k]] + xs[k + 1..];
      [xs[k]] + Shuffle(rest, if |picks| > 0 then picks[1..] else [])
  }
}
