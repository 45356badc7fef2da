/** Order-preserving selection over sequences: JavaScript's `Array.prototype.filter`. */
module Seqs {

  /** `r` is obtained from `s` by deleting elements, without reordering the rest. */
  ghost predicate Subsequence<T>(r: seq<T>, s: seq<T>)
    decreases |s|
  {
    if r == [] then true
    else if s == [] then false
    else (r[0] == s[0] && Subsequence(r[1..], s[1..])) || Subsequence(r, s[1..])
  }

  /** The elements of `s` that satisfy `p`, in their order in `s`. */
  function Filter<T>(s: seq<T>, p: T -> bool): (r: seq<T>)
    ensures |r| <= |s|
    ensures forall x | x in r :: x in s && p(x)
    ensures forall x | x in s && p(x) :: x in r
    ensures Subsequence(r, s)
    decreases |s|
  {
    if s == [] then []
    else if p(s[0]) then [s[0]] + Filter(s[1..], p)
    else Filter(s[1..], p)
  }

  /** Filtering keeps every copy of a passing element and no copy of a failing one. */
  lemma {:induction false} FilterCounts<T>(s: seq<T>, p: T -> bool)
    ensures multiset(Filter(s, p)) <= multiset(s)
    ensures forall x | x in s && p(x) :: multiset(Filter(s, p))[x] == multiset(s)[x]
    decreases |s|
  {
    if s != [] {
      assert s == [s[0]] + s[1..];
      FilterCounts(s[1..], p);
    }
  }

  /** Filtering distributes over concatenation: the relative order of the kept elements is that of `a + b`. */
  lemma {:induction false} FilterConcat<T>(a: seq<T>, b: seq<T>, p: T -> bool)
    ensures Filter(a + b, p) == Filter(a, p) + Filter(b, p)
    decreases |a|
  {
    if a == [] {
      assert a + b == b;
    } else {
      assert (a + b)[0] == a[0];
      assert (a + b)[1..] == a[1..] + b;
      FilterConcat(a[1..], b, p);
    }
  }

  /** Filtering a one-element list keeps the element exactly when it qualifies. */
  lemma FilterSingle<T>(x: T, p: T -> bool)
    ensures Filter([x], p) == if p(x) then [x] else []
  {
    assert [x][1..] == [];
  }

  /** Filtering a two-element list, spelled out. */
  lemma FilterPair<T>(a: T, b: T, p: T -> bool)
    ensures Filter([a, b], p) == (if p(a) then [a] else []) + (if p(b) then [b] else [])
  {
    assert [a, b][1..] == [b];
    assert [a, b][1..][1..] == [];
  }

  /** Filtering one element more of `s` appends that element when it qualifies. */
  lemma FilterSnoc<T>(s: seq<T>, i: nat, p: T -> bool)
    requires i < |s|
    ensures Filter(s[..i + 1], p) == Filter(s[..i], p) + if p(s[i]) then [s[i]] else []
  {
    assert s[..i + 1] == s[..i] + [s[i]];
    FilterConcat(s[..i], [s[i]], p);
    FilterSingle(s[i], p);
  }

  /** Filtering keeps everything when every element qualifies. */
  lemma {:induction false} FilterKeepsAll<T>(s: seq<T>, p: T -> bool)
    requires forall x | x in s :: p(x)
    ensures Filter(s, p) == s
    decreases |s|
  {
    if s != [] {
      FilterKeepsAll(s[1..], p);
    }
  }

  /** The sequence has no element twice. */
  predicate Distinct<T(==)>(s: seq<T>) {
    forall i, j | 0 <= i < j < |s| :: s[i] != s[j]
  }

  /** Filtering a sequence without duplicates gives one without duplicates. */
  lemma {:induction false} FilterDistinct<T>(s: seq<T>, p: T -> bool)
    requires Distinct(s)
    ensures Distinct(Filter(s, p))
    decreases |s|
  {
    if s != [] {
      FilterDistinct(s[1..], p);
      var rest := Filter(s[1..], p);
      assert s[0] !in s[1..] by {
        forall i | 0 <= i < |s[1..]| ensures s[1..][i] != s[0] {
          assert s[1..][i] == s[i + 1];
        }
      }
      assert s[0] !in rest;
    }
  }

  /** Concatenation is associative. */
  /** Writing position `i` twice leaves only the second write. */
  lemma UpdateTwice<T>(s: seq<T>, i: nat, a: T, b: T)
    requires i < |s|
    ensures s[i := a][i := b] == s[i := b]
  {
  }

  /** Appending nothing leaves a sequence as it was. */
  lemma AppendNothing<T>(a: seq<T>, b: seq<T>)
    requires b == []
    ensures a + b == a
  {
  }

  lemma AppendAssoc<T>(a: seq<T>, b: seq<T>, c: seq<T>)
    ensures a + b + c == a + (b + c)
  {
  }
}
