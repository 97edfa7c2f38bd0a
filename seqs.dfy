/** `Array.prototype.filter`, `find`, `findIndex`, `some` and the stable
    `sort` with a comparator, over sequences. */
module Seqs {
  import opened Common

  /** `s.filter(p)` */
  function Filter<T(!new)>(s: seq<T>, p: T -> bool): (r: seq<T>)
    ensures |r| <= |s|
    ensures forall x :: x in r <==> x in s && p(x)
    ensures forall i :: 0 <= i < |r| ==> p(r[i])
  {
    if s == [] then []
    else if p(s[0]) then [s[0]] + Filter(s[1..], p)
    else Filter(s[1..], p)
  }

  /** r can be obtained from s by deleting elements (relative order kept). */
  predicate IsSubsequence<T(==)>(r: seq<T>, s: seq<T>)
    decreases |s|
  {
    if r == [] then true
    else if s == [] then false
    else if r[0] == s[0] then IsSubsequence(r[1..], s[1..])
    else IsSubsequence(r, s[1..])
  }

  lemma {:induction false} SubsequenceOfTail<T>(r: seq<T>, x: T, s: seq<T>)
    requires IsSubsequence(r, s)
    ensures IsSubsequence(r, [x] + s)
    decreases |s|, 1
  {
    assert ([x] + s)[1..] == s;
    if r != [] && r[0] == x {
      SubsequenceDropHead(r, s);
    }
  }

  lemma {:induction false} SubsequenceDropHead<T>(r: seq<T>, s: seq<T>)
    requires r != [] && IsSubsequence(r, s)
    ensures IsSubsequence(r[1..], s)
    decreases |s|, 0
  {
    assert [s[0]] + s[1..] == s;
    if r[0] == s[0] {
      SubsequenceOfTail(r[1..], s[0], s[1..]);
    } else {
      SubsequenceDropHead(r, s[1..]);
      SubsequenceOfTail(r[1..], s[0], s[1..]);
    }
  }

  /** Filtering keeps the relative order of what it keeps. */
  lemma {:induction false} FilterIsSubsequence<T(!new)>(s: seq<T>, p: T -> bool)
    ensures IsSubsequence(Filter(s, p), s)
  {
    if s != [] {
      FilterIsSubsequence(s[1..], p);
      if p(s[0]) {
        assert Filter(s, p)[1..] == Filter(s[1..], p);
      } else {
        SubsequenceOfTail(Filter(s[1..], p), s[0], s[1..]);
        assert [s[0]] + s[1..] == s;
      }
    }
  }

  /** Filtering with a predicate every element meets changes nothing. */
  lemma {:induction false} FilterAll<T(!new)>(s: seq<T>, p: T -> bool)
    requires forall x :: x in s ==> p(x)
    ensures Filter(s, p) == s
  {
    if s != [] {
      FilterAll(s[1..], p);
      assert [s[0]] + s[1..] == s;
    }
  }

  /** Filtering distributes over concatenation. */
  lemma {:induction false} FilterConcat<T(!new)>(a: seq<T>, b: seq<T>, p: T -> bool)
    ensures Filter(a + b, p) == Filter(a, p) + Filter(b, p)
  {
    if a == [] {
      assert a + b == b;
    } else {
      assert (a + b)[0] == a[0];
      assert (a + b)[1..] == a[1..] + b;
      FilterConcat(a[1..], b, p);
    }
  }

  /** When exactly the element at slot i fails the test, filtering removes
      that slot and nothing else. */
  lemma FilterRemovesSlot<T(!new)>(s: seq<T>, p: T -> bool, i: int)
    requires 0 <= i < |s| && !p(s[i])
    requires forall j :: 0 <= j < |s| && j != i ==> p(s[j])
    ensures Filter(s, p) == s[..i] + s[i+1..]
  {
    OthersKept(s, p, i);
    SplitAround(s, i);
    FilterSkipsFailing(s[..i], s[i], s[i+1..], p);
  }

  /** A sequence is what comes before slot i, slot i, and what comes after. */
  lemma SplitAround<T>(s: seq<T>, i: int)
    requires 0 <= i < |s|
    ensures s == s[..i] + ([s[i]] + s[i+1..])
  {
  }

  /** Filtering keeps whole the runs before and after slot i. */
  lemma OthersKept<T(!new)>(s: seq<T>, p: T -> bool, i: int)
    requires 0 <= i < |s|
    requires forall j :: 0 <= j < |s| && j != i ==> p(s[j])
    ensures Filter(s[..i], p) == s[..i] && Filter(s[i+1..], p) == s[i+1..]
  {
    forall x | x in s[..i] ensures p(x) {
      var j :| 0 <= j < i && s[..i][j] == x;
      assert s[j] == x;
    }
    forall x | x in s[i+1..] ensures p(x) {
      var j :| 0 <= j < |s| - i - 1 && s[i+1..][j] == x;
      assert s[i + 1 + j] == x;
    }
    FilterAll(s[..i], p);
    FilterAll(s[i+1..], p);
  }

  /** Filtering drops a failing element between two runs that filtering
      keeps whole. */
  lemma FilterSkipsFailing<T(!new)>(front: seq<T>, x: T, back: seq<T>, p: T -> bool)
    requires Filter(front, p) == front && Filter(back, p) == back && !p(x)
    ensures Filter(front + ([x] + back), p) == front + back
  {
    var tail := [x] + back;
    FilterConcat(front, tail, p);
    assert tail[0] == x && tail[1..] == back;
  }

  /** The elements before and after slot i all pass the test. */
  lemma OthersPass<T>(s: seq<T>, p: T -> bool, i: int)
    requires 0 <= i < |s|
    requires forall j :: 0 <= j < |s| && j != i ==> p(s[j])
    ensures forall x :: x in s[..i] ==> p(x)
    ensures forall x :: x in s[i+1..] ==> p(x)
  {
    forall x | x in s[..i] ensures p(x) {
      var j :| 0 <= j < i && s[..i][j] == x;
      assert s[j] == x;
    }
    forall x | x in s[i+1..] ensures p(x) {
      var j :| 0 <= j < |s| - i - 1 && s[i+1..][j] == x;
      assert s[i + 1 + j] == x;
    }
  }

  /** Two filters in a row are one filter with the conjunction. */
  lemma {:induction false} FilterFilter<T(!new)>(s: seq<T>, p: T -> bool, q: T -> bool)
    ensures Filter(Filter(s, p), q) == Filter(s, x => p(x) && q(x))
  {
    if s != [] {
      FilterFilter(s[1..], p, q);
      if p(s[0]) {
        assert Filter(s, p) == [s[0]] + Filter(s[1..], p);
        assert Filter(s, p)[1..] == Filter(s[1..], p);
      }
    }
  }

  /** Filtering by the same test gives the same result on equal keys. */
  lemma {:induction false} FilterExtensional<T(!new)>(s: seq<T>, p: T -> bool, q: T -> bool)
    requires forall x :: x in s ==> p(x) == q(x)
    ensures Filter(s, p) == Filter(s, q)
  {
    if s != [] {
      FilterExtensional(s[1..], p, q);
    }
  }

  /** `s.findIndex(p)` */
  function FindIndex<T>(s: seq<T>, p: T -> bool): (i: int)
    ensures -1 <= i < |s|
    ensures 0 <= i ==> p(s[i]) && forall j :: 0 <= j < i ==> !p(s[j])
    ensures i < 0 ==> forall j :: 0 <= j < |s| ==> !p(s[j])
  {
    if s == [] then -1
    else if p(s[0]) then 0
    else
      var j := FindIndex(s[1..], p);
      if j < 0 then -1 else j + 1
  }

  /** `s.find(p)`, or the first row of a `select ... where p`. */
  function Find<T>(s: seq<T>, p: T -> bool): (r: Option<T>)
    ensures r.Some? <==> exists i :: 0 <= i < |s| && p(s[i])
    ensures r.Some? ==> r.value in s && p(r.value)
  {
    var i := FindIndex(s, p);
    if i < 0 then None else Some(s[i])
  }

  /** `s.some(p)` */
  predicate Exists<T>(s: seq<T>, p: T -> bool) {
    exists i :: 0 <= i < |s| && p(s[i])
  }

  /** `s.map(f)` */
  function Map<T, U>(s: seq<T>, f: T -> U): (r: seq<U>)
    ensures |r| == |s| && forall i :: 0 <= i < |s| ==> r[i] == f(s[i])
  {
    seq(|s|, i requires 0 <= i < |s| => f(s[i]))
  }

  // ---------------------------------------------------------------------
  // Sorting with a comparator. A comparator returns a negative number, zero
  // or a positive number; `cmp(a, b) <= 0` means "a may stay before b".

  /** The comparator describes a total preorder: every pair is ordered one
      way or the other, and "may precede" is transitive. */
  ghost predicate Consistent<T(!new)>(cmp: (T, T) -> int) {
    && (forall a, b :: cmp(a, b) <= 0 || cmp(b, a) <= 0)
    && (forall a, b, c :: cmp(a, b) <= 0 && cmp(b, c) <= 0 ==> cmp(a, c) <= 0)
  }

  /** s is ordered by cmp. */
  ghost predicate Sorted<T>(s: seq<T>, cmp: (T, T) -> int) {
    forall i, j :: 0 <= i < j < |s| ==> cmp(s[i], s[j]) <= 0
  }

  /** Inserts x before the first element it may precede. */
  function Insert<T>(x: T, s: seq<T>, cmp: (T, T) -> int): (r: seq<T>)
    ensures multiset(r) == multiset(s) + multiset{x}
  {
    if s == [] then [x]
    else if cmp(x, s[0]) <= 0 then [x] + s
    else
      assert s == [s[0]] + s[1..];
      [s[0]] + Insert(x, s[1..], cmp)
  }

  /** Sequences holding the same multiset hold the same elements. */
  lemma SameElements<T>(r: seq<T>, s: seq<T>)
    requires multiset(r) == multiset(s)
    ensures forall x :: x in r <==> x in s
  {
    forall x ensures x in r <==> x in s {
      assert x in r <==> x in multiset(r);
      assert x in s <==> x in multiset(s);
    }
  }

  /** `[...s].sort(cmp)`: a stable sort (ECMAScript 2019 requires stability,
      so for a consistent comparator the result is unique). */
  function SortBy<T>(s: seq<T>, cmp: (T, T) -> int): (r: seq<T>)
    ensures multiset(r) == multiset(s)
    ensures |r| == |s|
  {
    if s == [] then []
    else
      var r := Insert(s[0], SortBy(s[1..], cmp), cmp);
      assert s == [s[0]] + s[1..];
      assert |r| == |multiset(r)|;
      r
  }

  lemma {:induction false} InsertSorted<T(!new)>(x: T, s: seq<T>, cmp: (T, T) -> int)
    requires Consistent(cmp) && Sorted(s, cmp)
    ensures Sorted(Insert(x, s, cmp), cmp)
  {
    if s != [] && cmp(x, s[0]) > 0 {
      InsertSorted(x, s[1..], cmp);
      var r := Insert(x, s[1..], cmp);
      forall i | 0 <= i < |r| ensures cmp(s[0], r[i]) <= 0 {
        assert r[i] in multiset(r);
        assert r[i] in multiset(s[1..]) + multiset{x};
        if r[i] != x || r[i] in multiset(s[1..]) {
          if r[i] in multiset(s[1..]) {
            assert r[i] in s[1..];
            var k :| 0 <= k < |s[1..]| && s[1..][k] == r[i];
            assert s[k + 1] == r[i];
          }
        }
      }
    }
  }

  /** The result of SortBy is ordered by a consistent comparator. */
  lemma {:induction false} SortBySorted<T(!new)>(s: seq<T>, cmp: (T, T) -> int)
    requires Consistent(cmp)
    ensures Sorted(SortBy(s, cmp), cmp)
  {
    if s != [] {
      SortBySorted(s[1..], cmp);
      InsertSorted(s[0], SortBy(s[1..], cmp), cmp);
    }
  }

  /** Sorting what is already in order changes nothing; in particular a
      comparator that always returns 0 keeps the order. */
  lemma {:induction false} SortBySortedIdentity<T>(s: seq<T>, cmp: (T, T) -> int)
    requires Sorted(s, cmp)
    ensures SortBy(s, cmp) == s
  {
    if s != [] {
      assert Sorted(s[1..], cmp) by {
        forall i, j | 0 <= i < j < |s[1..]| ensures cmp(s[1..][i], s[1..][j]) <= 0 {
          assert s[1..][i] == s[i + 1] && s[1..][j] == s[j + 1];
        }
      }
      SortBySortedIdentity(s[1..], cmp);
      if |s| > 1 {
        assert cmp(s[0], s[1]) <= 0;
      }
      assert [s[0]] + s[1..] == s;
    }
  }
}
