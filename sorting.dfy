/**
 * `Array.prototype.sort` with a numeric comparator `(a, b) => rank(a) - rank(b)`.
 * The language requires the sort to be stable, so elements of equal rank keep
 * their relative order; it is modelled as insertion sort.
 */
module Sorting {
  import opened Seqs

  /** Ranks never decrease from left to right. */
  predicate SortedBy<T>(s: seq<T>, rank: T -> int) {
    forall i, j | 0 <= i < j < |s| :: rank(s[i]) <= rank(s[j])
  }

  /** The elements of rank exactly `k`, in their order in `s`. */
  function WithRank<T>(s: seq<T>, rank: T -> int, k: int): seq<T> {
    Filter(s, RankIs(rank, k))
  }

  function RankIs<T>(rank: T -> int, k: int): T -> bool {
    (x: T) => rank(x) == k
  }

  /** `x` placed into sorted `s` after every element whose rank is not greater. */
  function Insert<T>(s: seq<T>, x: T, rank: T -> int): (r: seq<T>)
    requires SortedBy(s, rank)
    ensures SortedBy(r, rank)
    ensures multiset(r) == multiset(s) + multiset{x}
    ensures forall y | y in r :: y == x || y in s
    decreases |s|
  {
    if s == [] || rank(s[|s| - 1]) <= rank(x) then
      s + [x]
    else
      var init, last := s[..|s| - 1], s[|s| - 1];
      assert s == init + [last];
      var m := Insert(init, x, rank);
      RanksBelow(m, init, x, rank, rank(last));
      m + [last]
  }

  /** The stable sort: a permutation of `s` ordered by rank. */
  function SortBy<T>(s: seq<T>, rank: T -> int): (r: seq<T>)
    ensures SortedBy(r, rank)
    ensures multiset(r) == multiset(s)
    decreases |s|
  {
    if s == [] then []
    else
      assert s == s[..|s| - 1] + [s[|s| - 1]];
      Insert(SortBy(s[..|s| - 1], rank), s[|s| - 1], rank)
  }

  /** Two lists with the same multiset hold the same elements. */
  lemma SameElements<T>(a: seq<T>, b: seq<T>)
    requires multiset(a) == multiset(b)
    ensures forall x | x in a :: x in b
    ensures forall x | x in b :: x in a
  {
    forall x | x in a ensures x in b { assert x in multiset(a); }
    forall x | x in b ensures x in a { assert x in multiset(b); }
  }

  /**
   * A prefix of a sorted list is sorted, holds some of its elements, and
   * ranks no lower than any element it leaves out.
   */
  lemma SortedPrefix<T>(s: seq<T>, n: nat, rank: T -> int)
    requires SortedBy(s, rank) && n <= |s|
    ensures SortedBy(s[..n], rank)
    ensures multiset(s[..n]) <= multiset(s)
    ensures forall a, b | a in s[..n] && b in multiset(s) - multiset(s[..n]) :: rank(a) <= rank(b)
  {
    assert s == s[..n] + s[n..];
    assert multiset(s) - multiset(s[..n]) == multiset(s[n..]);
    forall a, b | a in s[..n] && b in multiset(s) - multiset(s[..n]) ensures rank(a) <= rank(b) {
      assert b in s[n..];
      var i :| 0 <= i < n && s[..n][i] == a;
      var j :| 0 <= j < |s[n..]| && s[n..][j] == b;
      assert s[i] == a && s[n + j] == b;
    }
  }

  /** Drawing elements from `s` and `x`, all of rank at most `b`, gives ranks at most `b`. */
  lemma RanksBelow<T>(m: seq<T>, s: seq<T>, x: T, rank: T -> int, b: int)
    requires forall y | y in m :: y == x || y in s
    requires rank(x) <= b && forall i | 0 <= i < |s| :: rank(s[i]) <= b
    ensures forall i | 0 <= i < |m| :: rank(m[i]) <= b
  {
    forall i | 0 <= i < |m| ensures rank(m[i]) <= b {
      assert m[i] in m;
      if m[i] != x {
        var j :| 0 <= j < |s| && s[j] == m[i];
      }
    }
  }

  /** Inserting keeps the order among the elements of any one rank. */
  lemma {:induction false} InsertStable<T>(s: seq<T>, x: T, rank: T -> int, k: int)
    requires SortedBy(s, rank)
    ensures WithRank(Insert(s, x, rank), rank, k) == WithRank(s + [x], rank, k)
    decreases |s|
  {
    if s != [] && rank(s[|s| - 1]) > rank(x) {
      var init, last := s[..|s| - 1], s[|s| - 1];
      assert s == init + [last];
      var p := RankIs(rank, k);
      InsertStable(init, x, rank, k);
      FilterConcat(Insert(init, x, rank), [last], p);
      FilterConcat(init, [x], p);
      FilterConcat(init, [last], p);
      FilterConcat(s, [x], p);
      FilterSingle(x, p);
      FilterSingle(last, p);
      assert p(x) == (rank(x) == k) && p(last) == (rank(last) == k);
      assert Insert(s, x, rank) == Insert(init, x, rank) + [last];
      calc {
        Filter(Insert(s, x, rank), p);
        Filter(init + [x], p) + Filter([last], p);
        Filter(init, p) + Filter([x], p) + Filter([last], p);
        { SwapPastEmpty(Filter(init, p), Filter([x], p), Filter([last], p)); }
        Filter(init, p) + Filter([last], p) + Filter([x], p);
        Filter(s + [x], p);
      }
    }
  }

  lemma SwapPastEmpty<T>(a: seq<T>, b: seq<T>, c: seq<T>)
    requires b == [] || c == []
    ensures a + b + c == a + c + b
  {
  }

  /** Stability: elements of equal rank come out in the order they went in. */
  lemma {:induction false} SortByIsStable<T>(s: seq<T>, rank: T -> int, k: int)
    ensures WithRank(SortBy(s, rank), rank, k) == WithRank(s, rank, k)
    decreases |s|
  {
    if s != [] {
      var init, last := s[..|s| - 1], s[|s| - 1];
      assert s == init + [last];
      SortByIsStable(init, rank, k);
      InsertStable(SortBy(init, rank), last, rank, k);
      FilterConcat(SortBy(init, rank), [last], RankIs(rank, k));
      FilterConcat(init, [last], RankIs(rank, k));
    }
  }
}
