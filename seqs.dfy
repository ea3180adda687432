/**
 * The array operations the application uses (`filter`, `map`, `slice`, stable
 * `sort` with a numeric comparator, `new Set(...)`, `reduce` to a sum), with the
 * facts about them that the rest of the model needs.
 */
module Seqs {

  // ---------------------------------------------------------------------------
  // filter

  /** `s.filter(x => p(x) == keep)`: `keep` false gives the complementary filter. */
  function FilterBy<T(!new)>(s: seq<T>, p: T -> bool, keep: bool): (r: seq<T>)
    ensures |r| <= |s|
    ensures forall i :: 0 <= i < |r| ==> p(r[i]) == keep
  {
    if s == [] then []
    else (if p(s[0]) == keep then [s[0]] else []) + FilterBy(s[1..], p, keep)
  }

  /** What the filter keeps: exactly the elements of `s` that pass. */
  lemma {:induction false} FilterByMembership<T(!new)>(s: seq<T>, p: T -> bool, keep: bool)
    ensures forall x :: x in FilterBy(s, p, keep) <==> x in s && p(x) == keep
  {
    if s != [] {
      FilterByMembership(s[1..], p, keep);
    }
  }

  function Filter<T(!new)>(s: seq<T>, p: T -> bool): seq<T>
  {
    FilterBy(s, p, true)
  }

  lemma {:induction false} FilterByAll<T(!new)>(s: seq<T>, p: T -> bool, keep: bool)
    requires forall i :: 0 <= i < |s| ==> p(s[i]) == keep
    ensures FilterBy(s, p, keep) == s
  {
    if s != [] {
      FilterByAll(s[1..], p, keep);
      assert [s[0]] + s[1..] == s;
    }
  }

  lemma {:induction false} FilterByPartition<T(!new)>(s: seq<T>, p: T -> bool)
    ensures multiset(FilterBy(s, p, true)) + multiset(FilterBy(s, p, false)) == multiset(s)
    ensures |FilterBy(s, p, true)| + |FilterBy(s, p, false)| == |s|
  {
    if s != [] {
      FilterByPartition(s[1..], p);
      assert s == [s[0]] + s[1..];
    }
  }

  lemma {:induction false} FilterByAppend<T(!new)>(s: seq<T>, x: T, p: T -> bool, keep: bool)
    ensures FilterBy(s + [x], p, keep) == FilterBy(s, p, keep) + (if p(x) == keep then [x] else [])
  {
    if s == [] {
      assert [] + [x] == [x];
    } else {
      assert (s + [x])[1..] == s[1..] + [x];
      FilterByAppend(s[1..], x, p, keep);
    }
  }

  lemma {:induction false} FilterByConcat<T(!new)>(a: seq<T>, b: seq<T>, p: T -> bool, keep: bool)
    ensures FilterBy(a + b, p, keep) == FilterBy(a, p, keep) + FilterBy(b, p, keep)
  {
    if a == [] {
      assert a + b == b;
    } else {
      assert (a + b)[1..] == a[1..] + b;
      FilterByConcat(a[1..], b, p, keep);
    }
  }

  lemma {:induction false} FilterByMultiplicity<T(!new)>(s: seq<T>, p: T -> bool, keep: bool, x: T)
    ensures multiset(FilterBy(s, p, keep))[x] == if p(x) == keep then multiset(s)[x] else 0
  {
    if s != [] {
      FilterByMultiplicity(s[1..], p, keep, x);
      assert s == [s[0]] + s[1..];
    }
  }

  /** Filtering two permutations of each other gives permutations of each other. */
  lemma FilterByPermutation<T(!new)>(a: seq<T>, b: seq<T>, p: T -> bool, keep: bool)
    requires multiset(a) == multiset(b)
    ensures multiset(FilterBy(a, p, keep)) == multiset(FilterBy(b, p, keep))
  {
    forall x
      ensures multiset(FilterBy(a, p, keep))[x] == multiset(FilterBy(b, p, keep))[x]
    {
      FilterByMultiplicity(a, p, keep, x);
      FilterByMultiplicity(b, p, keep, x);
    }
  }

  /** `a` is `b` with some elements left out, the rest kept in order. */
  predicate IsSubsequence<T(==)>(a: seq<T>, b: seq<T>)
    decreases |b|
  {
    a == [] || (b != [] && if a[0] == b[0] then IsSubsequence(a[1..], b[1..]) else IsSubsequence(a, b[1..]))
  }

  lemma {:induction false} SubsequenceOfEmpty<T>(b: seq<T>)
    ensures IsSubsequence([], b)
  {
  }

  lemma {:induction false} FilterIsSubsequence<T(!new)>(s: seq<T>, p: T -> bool, keep: bool)
    ensures IsSubsequence(FilterBy(s, p, keep), s)
  {
    if s != [] {
      FilterIsSubsequence(s[1..], p, keep);
      var rest := FilterBy(s[1..], p, keep);
      if p(s[0]) == keep {
        assert ([s[0]] + rest)[1..] == rest;
      } else {
        assert FilterBy(s, p, keep) == rest;
        SkipHead(rest, s[1..], s[0]);
        assert [s[0]] + s[1..] == s;
      }
    }
  }

  /** An element put in front does not spoil a subsequence. */
  lemma {:induction false} SkipHead<T>(a: seq<T>, b: seq<T>, x: T)
    requires IsSubsequence(a, b)
    ensures IsSubsequence(a, [x] + b)
    decreases |b|, 1
  {
    assert ([x] + b)[1..] == b;
    if a != [] && a[0] == x {
      SubsequenceTail(a, b);
    }
  }

  lemma {:induction false} SubsequenceTail<T>(a: seq<T>, b: seq<T>)
    requires a != [] && IsSubsequence(a, b)
    ensures IsSubsequence(a[1..], b)
    decreases |b|, 0
  {
    if a[0] == b[0] {
      SkipHead(a[1..], b[1..], b[0]);
    } else {
      SubsequenceTail(a, b[1..]);
      SkipHead(a[1..], b[1..], b[0]);
    }
    assert [b[0]] + b[1..] == b;
  }

  // ---------------------------------------------------------------------------
  // counting and sums

  /** How many elements satisfy `p` (`s.filter(p).length`). */
  function CountBy<T>(s: seq<T>, p: T -> bool): (n: nat)
    ensures n <= |s|
  {
    if s == [] then 0 else (if p(s[0]) then 1 else 0) + CountBy(s[1..], p)
  }

  lemma {:induction false} CountIsFilterLength<T(!new)>(s: seq<T>, p: T -> bool)
    ensures CountBy(s, p) == |Filter(s, p)|
  {
    if s != [] {
      CountIsFilterLength(s[1..], p);
    }
  }

  lemma {:induction false} CountByConcat<T>(a: seq<T>, b: seq<T>, p: T -> bool)
    ensures CountBy(a + b, p) == CountBy(a, p) + CountBy(b, p)
  {
    if a == [] {
      assert a + b == b;
    } else {
      assert (a + b)[1..] == a[1..] + b;
      CountByConcat(a[1..], b, p);
    }
  }

  lemma {:induction false} CountByNone<T>(s: seq<T>, p: T -> bool)
    requires forall i :: 0 <= i < |s| ==> !p(s[i])
    ensures CountBy(s, p) == 0
  {
    if s != [] {
      CountByNone(s[1..], p);
    }
  }

  /** Nothing is counted exactly when no element satisfies the predicate. */
  lemma {:induction false} CountByZero<T>(s: seq<T>, p: T -> bool)
    ensures CountBy(s, p) == 0 <==> forall i :: 0 <= i < |s| ==> !p(s[i])
  {
    if s != [] {
      CountByZero(s[1..], p);
      assert forall i :: 1 <= i < |s| ==> s[i] == s[1..][i - 1];
    }
  }

  lemma {:induction false} CountByAll<T>(s: seq<T>, p: T -> bool)
    requires forall i :: 0 <= i < |s| ==> p(s[i])
    ensures CountBy(s, p) == |s|
  {
    if s != [] {
      CountByAll(s[1..], p);
    }
  }

  /** Two sequences that agree position by position on their predicates have the same count. */
  lemma {:induction false} CountByPointwise<T, U>(a: seq<T>, p: T -> bool, b: seq<U>, q: U -> bool)
    requires |a| == |b| && forall i :: 0 <= i < |a| ==> p(a[i]) == q(b[i])
    ensures CountBy(a, p) == CountBy(b, q)
  {
    if a != [] {
      assert forall i :: 0 <= i < |a| - 1 ==> a[1..][i] == a[i + 1] && b[1..][i] == b[i + 1];
      CountByPointwise(a[1..], p, b[1..], q);
    }
  }

  /** A count does not depend on the order of the elements. */
  lemma CountByPermutation<T(!new)>(a: seq<T>, b: seq<T>, p: T -> bool)
    requires multiset(a) == multiset(b)
    ensures CountBy(a, p) == CountBy(b, p)
  {
    CountIsFilterLength(a, p);
    CountIsFilterLength(b, p);
    FilterByPermutation(a, b, p, true);
    assert |Filter(a, p)| == |multiset(Filter(a, p))| == |multiset(Filter(b, p))| == |Filter(b, p)|;
  }

  /** `s.reduce((total, x) => total + f(x), 0)` */
  function SumBy<T>(s: seq<T>, f: T -> int): int
  {
    if s == [] then 0 else f(s[0]) + SumBy(s[1..], f)
  }

  lemma {:induction false} SumByConcat<T>(a: seq<T>, b: seq<T>, f: T -> int)
    ensures SumBy(a + b, f) == SumBy(a, f) + SumBy(b, f)
  {
    if a != [] {
      assert (a + b)[1..] == a[1..] + b;
      SumByConcat(a[1..], b, f);
    } else {
      assert a + b == b;
    }
  }

  /** A sum does not depend on the order of its terms. */
  lemma {:induction false} SumByPermutation<T>(a: seq<T>, b: seq<T>, f: T -> int)
    requires multiset(a) == multiset(b)
    ensures SumBy(a, f) == SumBy(b, f)
    decreases |a|
  {
    if a != [] {
      var i := MatchHead(a, b);
      SumByPermutation(a[1..], b[..i] + b[i + 1..], f);
      SumByRemove(b, i, f);
    } else {
      assert |b| == |multiset(b)| == 0;
    }
  }

  /** Where the head of `a` sits in its permutation `b`; the rest of `a` is a permutation of the rest of `b`. */
  lemma MatchHead<T>(a: seq<T>, b: seq<T>) returns (i: nat)
    requires a != [] && multiset(a) == multiset(b)
    ensures i < |b| && b[i] == a[0]
    ensures multiset(a[1..]) == multiset(b[..i] + b[i + 1..])
  {
    var x := a[0];
    assert x in multiset(b);
    i :| 0 <= i < |b| && b[i] == x;
    assert b == b[..i] + [x] + b[i + 1..];
    assert a == [x] + a[1..];
    assert multiset(a[1..]) == multiset(a) - multiset{x};
    assert multiset(b) == multiset(b[..i]) + multiset{x} + multiset(b[i + 1..]);
  }

  lemma SumByRemove<T>(b: seq<T>, i: nat, f: T -> int)
    requires i < |b|
    ensures SumBy(b, f) == SumBy(b[..i] + b[i + 1..], f) + f(b[i])
  {
    assert b == b[..i] + [b[i]] + b[i + 1..];
    SumByConcat(b[..i] + [b[i]], b[i + 1..], f);
    SumByConcat(b[..i], [b[i]], f);
    SumByConcat(b[..i], b[i + 1..], f);
  }

  // ---------------------------------------------------------------------------
  // map

  /** `s.map(f)` */
  function MapSeq<T, U>(s: seq<T>, f: T -> U): (r: seq<U>)
    ensures |r| == |s| && forall i :: 0 <= i < |s| ==> r[i] == f(s[i])
  {
    seq(|s|, i requires 0 <= i < |s| => f(s[i]))
  }

  lemma MapSeqConcat<T, U>(a: seq<T>, b: seq<T>, f: T -> U)
    ensures MapSeq(a + b, f) == MapSeq(a, f) + MapSeq(b, f)
  {
  }

  /** Permutations of each other have the same elements. */
  lemma SameMembers<T>(a: seq<T>, b: seq<T>)
    requires multiset(a) == multiset(b)
    ensures forall x :: x in a <==> x in b
  {
    forall x
      ensures x in a <==> x in b
    {
      assert x in a <==> x in multiset(a);
      assert x in b <==> x in multiset(b);
    }
  }

  lemma MapSeqLast<T, U>(s: seq<T>, f: T -> U)
    requires s != []
    ensures MapSeq(s, f) == MapSeq(s[..|s| - 1], f) + [f(s[|s| - 1])]
  {
  }

  /** Summing mapped elements is summing the composed summand over the original ones. */
  lemma {:induction false} SumByMap<T, U>(s: seq<T>, f: T -> U, g: U -> int, h: T -> int)
    requires forall x :: h(x) == g(f(x))
    ensures SumBy(MapSeq(s, f), g) == SumBy(s, h)
  {
    if s != [] {
      SumByMap(s[1..], f, g, h);
      assert MapSeq(s, f)[1..] == MapSeq(s[1..], f);
    }
  }

  /** Mapping two permutations of each other gives permutations of each other. */
  lemma {:induction false} MapSeqPermutation<T, U>(a: seq<T>, b: seq<T>, f: T -> U)
    requires multiset(a) == multiset(b)
    ensures multiset(MapSeq(a, f)) == multiset(MapSeq(b, f))
    decreases |a|
  {
    if a != [] {
      var x := a[0];
      var i := MatchHead(a, b);
      var rest := b[..i] + b[i + 1..];
      MapSeqPermutation(a[1..], rest, f);
      assert b == b[..i] + [x] + b[i + 1..];
      MapSeqConcat(b[..i] + [x], b[i + 1..], f);
      MapSeqConcat(b[..i], [x], f);
      MapSeqConcat(b[..i], b[i + 1..], f);
      MapSeqConcat([x], a[1..], f);
      assert a == [x] + a[1..];
    } else {
      assert |b| == |multiset(b)| == 0;
    }
  }

  /** `x => f(x) === k` */
  function KeyIs<T, U(==)>(f: T -> U, k: U): T -> bool
  {
    (x: T) => f(x) == k
  }

  /** How often a value occurs among the mapped elements is how many elements map to it. */
  lemma {:induction false} MultiplicityOfMap<T, U>(s: seq<T>, f: T -> U, k: U)
    ensures multiset(MapSeq(s, f))[k] == CountBy(s, KeyIs(f, k))
  {
    if s != [] {
      var rest := MapSeq(s[1..], f);
      MultiplicityOfMap(s[1..], f, k);
      assert MapSeq(s, f) == [f(s[0])] + rest;
      assert multiset(MapSeq(s, f)) == multiset{f(s[0])} + multiset(rest);
      assert CountBy(s, KeyIs(f, k)) == (if f(s[0]) == k then 1 else 0) + CountBy(s[1..], KeyIs(f, k));
    }
  }

  // ---------------------------------------------------------------------------
  // slice

  /** `s.slice(0, n)` for n >= 0 */
  function Take<T>(s: seq<T>, n: nat): (r: seq<T>)
    ensures |r| == if n < |s| then n else |s|
    ensures r == s[..|r|]
  {
    if n < |s| then s[..n] else s
  }

  /** Where `slice` starts or stops for a relative index (negative counts from the end). */
  function RelativeIndex(i: int, len: nat): (r: nat)
    ensures r <= len
  {
    if i < 0 then (if len + i < 0 then 0 else len + i) else (if i < len then i else len)
  }

  /** `s.slice(start, end)` with JavaScript's handling of negative and out-of-range bounds. */
  function JsSlice<T>(s: seq<T>, start: int, end: int): (r: seq<T>)
    ensures |r| <= |s|
  {
    var from := RelativeIndex(start, |s|);
    var to := RelativeIndex(end, |s|);
    if from < to then s[from..to] else []
  }

  // ---------------------------------------------------------------------------
  // stable sort by a numeric key

  ghost predicate SortedBy<T>(s: seq<T>, key: T -> int)
  {
    forall i, j :: 0 <= i < j < |s| ==> key(s[i]) <= key(s[j])
  }

  function InsertBy<T(!new)>(x: T, s: seq<T>, key: T -> int): (r: seq<T>)
    requires SortedBy(s, key)
    ensures SortedBy(r, key)
    ensures |r| == |s| + 1 && multiset(r) == multiset(s) + multiset{x}
    ensures forall y :: y in r <==> y == x || y in s
  {
    if s == [] || key(x) <= key(s[0]) then
      SortedHeadLeast(s, key);
      SortedByCons(x, s, key);
      [x] + s
    else
      SortedByTail(s, key);
      var rest := InsertBy(x, s[1..], key);
      InsertBehindHead(x, s, rest, key);
      [s[0]] + rest
  }

  /** Keeping the head in front of the tail with `x` inserted gives `s` with `x` inserted. */
  lemma InsertBehindHead<T>(x: T, s: seq<T>, rest: seq<T>, key: T -> int)
    requires s != [] && key(s[0]) < key(x)
    requires SortedBy(s[1..], key) && forall y :: y in s[1..] ==> key(s[0]) <= key(y)
    requires SortedBy(rest, key) && multiset(rest) == multiset(s[1..]) + multiset{x}
    requires forall y :: y in rest <==> y == x || y in s[1..]
    ensures SortedBy([s[0]] + rest, key)
    ensures multiset([s[0]] + rest) == multiset(s) + multiset{x}
    ensures forall y :: y in [s[0]] + rest <==> y == x || y in s
  {
    SortedByCons(s[0], rest, key);
    assert s == [s[0]] + s[1..];
  }

  lemma SortedHeadLeast<T>(s: seq<T>, key: T -> int)
    requires SortedBy(s, key)
    ensures s != [] ==> forall y :: y in s ==> key(s[0]) <= key(y)
  {
  }

  lemma SortedByTail<T>(s: seq<T>, key: T -> int)
    requires SortedBy(s, key) && s != []
    ensures SortedBy(s[1..], key)
    ensures forall y :: y in s[1..] ==> key(s[0]) <= key(y)
  {
    forall y | y in s[1..]
      ensures key(s[0]) <= key(y)
    {
      var k :| 0 <= k < |s[1..]| && s[1..][k] == y;
      assert s[k + 1] == y;
    }
  }

  /** A head no greater than anything after it extends a sorted sequence. */
  lemma SortedByCons<T>(h: T, t: seq<T>, key: T -> int)
    requires SortedBy(t, key) && forall y :: y in t ==> key(h) <= key(y)
    ensures SortedBy([h] + t, key)
  {
    var s := [h] + t;
    forall i, j | 0 <= i < j < |s|
      ensures key(s[i]) <= key(s[j])
    {
      assert s[j] == t[j - 1];
      if i > 0 {
        assert s[i] == t[i - 1];
      }
    }
  }

  /**
   * `s.sort((a, b) => key(a) - key(b))`. The sort is stable: the head is inserted
   * in front of every element of the sorted tail whose key is not smaller, which
   * keeps equal keys in their original order, as the ECMAScript sort does.
   */
  function SortBy<T(!new)>(s: seq<T>, key: T -> int): (r: seq<T>)
    ensures SortedBy(r, key)
    ensures |r| == |s| && multiset(r) == multiset(s)
  {
    if s == [] then []
    else
      assert s == [s[0]] + s[1..];
      InsertBy(s[0], SortBy(s[1..], key), key)
  }

  /** The elements of `s` whose key is `v`, in their order in `s`. */
  function WithKey<T(!new)>(s: seq<T>, key: T -> int, v: int): (r: seq<T>)
    ensures |r| <= |s|
    ensures forall x :: x in r <==> x in s && key(x) == v
  {
    if s == [] then []
    else (if key(s[0]) == v then [s[0]] else []) + WithKey(s[1..], key, v)
  }

  /** Inserting `x` puts it in front of every element of the same key. */
  lemma {:induction false} InsertByWithKey<T(!new)>(x: T, s: seq<T>, key: T -> int, v: int)
    requires SortedBy(s, key)
    ensures WithKey(InsertBy(x, s, key), key, v) == (if key(x) == v then [x] else []) + WithKey(s, key, v)
  {
    var r := InsertBy(x, s, key);
    var mine := if key(x) == v then [x] else [];
    if s == [] || key(x) <= key(s[0]) {
      assert r == [x] + s;
      assert r[1..] == s;
      assert WithKey(r, key, v) == mine + WithKey(s, key, v);
    } else {
      SortedByTail(s, key);
      var rest := InsertBy(x, s[1..], key);
      var head := if key(s[0]) == v then [s[0]] else [];
      assert r == [s[0]] + rest;
      assert r[1..] == rest;
      InsertByWithKey(x, s[1..], key, v);
      var w := WithKey(s[1..], key, v);
      assert head == [] || mine == [];
      SwapAroundEmpty(head, mine, w);
      calc {
        WithKey(r, key, v);
        head + WithKey(rest, key, v);
        head + (mine + w);
        mine + (head + w);
        mine + WithKey(s, key, v);
      }
    }
  }

  lemma SwapAroundEmpty<T>(a: seq<T>, b: seq<T>, w: seq<T>)
    requires a == [] || b == []
    ensures a + (b + w) == b + (a + w)
  {
    if a == [] {
      assert a + (b + w) == b + w == b + (a + w);
    } else {
      assert a + (b + w) == a + w == b + (a + w);
    }
  }

  /** The sort is stable: the elements of each key keep their relative order. */
  lemma {:induction false} SortByStable<T(!new)>(s: seq<T>, key: T -> int, v: int)
    ensures WithKey(SortBy(s, key), key, v) == WithKey(s, key, v)
  {
    if s != [] {
      SortByStable(s[1..], key, v);
      InsertByWithKey(s[0], SortBy(s[1..], key), key, v);
    }
  }

  /** The first `n` of a reordering of `t` are some of `t`'s elements, as many as `t` has up to `n`. */
  lemma TakeOfPermutation<T>(s: seq<T>, t: seq<T>, n: nat)
    requires multiset(s) == multiset(t)
    ensures multiset(Take(s, n)) <= multiset(t)
    ensures |Take(s, n)| == if n < |t| then n else |t|
  {
    assert |s| == |multiset(s)| == |t|;
    var front := Take(s, n);
    assert s == front + s[|front|..];
    assert multiset(s) == multiset(front) + multiset(s[|front|..]);
  }

  /** An element of a sorted sequence that the first `n` leave out has a key no smaller than any of theirs. */
  lemma LeftOutOfPrefix<T>(s: seq<T>, key: T -> int, n: nat, x: T)
    requires SortedBy(s, key) && x in s
    ensures x in Take(s, n) || forall i :: 0 <= i < |Take(s, n)| ==> key(Take(s, n)[i]) <= key(x)
  {
    var j :| 0 <= j < |s| && s[j] == x;
    if j < |Take(s, n)| {
      assert Take(s, n)[j] == x;
    }
  }

  function AtMost<T>(key: T -> int, t: int): T -> bool
  {
    x => key(x) <= t
  }

  function Below<T>(key: T -> int, t: int): T -> bool
  {
    x => key(x) < t
  }

  /** In a sorted sequence, the key at position k is reached by k + 1 elements and exceeded by at most k. */
  lemma RankInSorted<T>(s: seq<T>, key: T -> int, k: nat)
    requires SortedBy(s, key) && k < |s|
    ensures CountBy(s, AtMost(key, key(s[k]))) >= k + 1
    ensures CountBy(s, Below(key, key(s[k]))) <= k
  {
    var t := key(s[k]);
    var front := s[..k + 1];
    assert s == front + s[k + 1..];
    CountByConcat(front, s[k + 1..], AtMost(key, t));
    forall i | 0 <= i < |front|
      ensures AtMost(key, t)(front[i])
    {
      assert front[i] == s[i];
    }
    CountByAll(front, AtMost(key, t));
    RankInSortedBelow(s, key, k);
  }

  lemma RankInSortedBelow<T>(s: seq<T>, key: T -> int, k: nat)
    requires SortedBy(s, key) && k < |s|
    ensures CountBy(s, Below(key, key(s[k]))) <= k
  {
    var t := key(s[k]);
    var back := s[k..];
    assert s == s[..k] + back;
    CountByConcat(s[..k], back, Below(key, t));
    forall i | 0 <= i < |back|
      ensures !Below(key, t)(back[i])
    {
      assert back[i] == s[k + i];
    }
    CountByNone(back, Below(key, t));
  }

  ghost predicate Ascending(s: seq<int>)
  {
    forall i, j :: 0 <= i < j < |s| ==> s[i] <= s[j]
  }

  /** Two ascending sequences of numbers with the same elements are equal. */
  lemma {:induction false} AscendingUnique(a: seq<int>, b: seq<int>)
    requires Ascending(a) && Ascending(b)
    requires multiset(a) == multiset(b)
    ensures a == b
    decreases |a|
  {
    if a == [] {
      assert |b| == |multiset(b)| == 0;
    } else {
      AscendingHeads(a, b);
      AscendingTail(a);
      AscendingTail(b);
      AscendingUnique(a[1..], b[1..]);
      assert a == [a[0]] + a[1..] && b == [b[0]] + b[1..];
    }
  }

  /** Dropping the head keeps the order and removes one copy of the head. */
  lemma AscendingTail(a: seq<int>)
    requires Ascending(a) && a != []
    ensures Ascending(a[1..])
    ensures multiset(a[1..]) == multiset(a) - multiset{a[0]}
  {
    assert a == [a[0]] + a[1..];
  }

  lemma AscendingHeads(a: seq<int>, b: seq<int>)
    requires Ascending(a) && Ascending(b)
    requires multiset(a) == multiset(b) && a != []
    ensures b != [] && a[0] == b[0]
  {
    assert a[0] in multiset(b);
    assert |b| == |multiset(b)| == |a|;
    assert b[0] in multiset(a);
    var i :| 0 <= i < |b| && b[i] == a[0];
    var j :| 0 <= j < |a| && a[j] == b[0];
    assert b[0] <= b[i] && a[0] <= a[j];
  }

  /**
   * Any two orderings by `key` of the same elements agree on the key at every
   * position: which element lands where may differ among equal keys, its key cannot.
   */
  lemma SortedKeysAgree<T>(a: seq<T>, b: seq<T>, key: T -> int)
    requires SortedBy(a, key) && SortedBy(b, key)
    requires multiset(a) == multiset(b)
    ensures |a| == |b|
    ensures forall k :: 0 <= k < |a| ==> key(a[k]) == key(b[k])
  {
    assert |a| == |multiset(a)| == |b|;
    MapSeqPermutation(a, b, key);
    AscendingUnique(MapSeq(a, key), MapSeq(b, key));
    assert forall k :: 0 <= k < |a| ==> key(a[k]) == MapSeq(a, key)[k] == MapSeq(b, key)[k];
  }

  // ---------------------------------------------------------------------------
  // distinct values (`Array.from(new Set(s))`)

  predicate NoDuplicates<T(==)>(s: seq<T>)
  {
    forall i, j :: 0 <= i < j < |s| ==> s[i] != s[j]
  }

  /** The distinct elements of `s`, in order of first occurrence. */
  function Distinct<T(==,!new)>(s: seq<T>): (r: seq<T>)
    ensures NoDuplicates(r)
    ensures forall x :: x in r <==> x in s
  {
    if s == [] then []
    else
      var d := Distinct(s[..|s| - 1]);
      assert forall x :: x in s <==> x in s[..|s| - 1] || x == s[|s| - 1];
      if s[|s| - 1] in d then d else d + [s[|s| - 1]]
  }

  /** The elements first seen in a prefix of `s` lead `Distinct(s)`, in the same order. */
  lemma {:induction false} DistinctOfPrefix<T(!new)>(s: seq<T>, k: nat)
    requires k <= |s|
    ensures Distinct(s[..k]) <= Distinct(s)
    decreases |s| - k
  {
    if k < |s| {
      var front := s[..k + 1];
      assert front[..|front| - 1] == s[..k];
      DistinctOfPrefix(s, k + 1);
      assert s[..k + 1][..k] == s[..k];
    } else {
      assert s[..k] == s;
    }
  }

  lemma {:induction false} NoDuplicatesMultiplicity<T>(s: seq<T>, x: T)
    requires NoDuplicates(s)
    ensures multiset(s)[x] == if x in s then 1 else 0
  {
    if s != [] {
      NoDuplicatesMultiplicity(s[1..], x);
      assert s == [s[0]] + s[1..];
      assert s[0] !in s[1..];
    }
  }

  lemma NoDuplicatesAfterPermutation<T>(a: seq<T>, b: seq<T>)
    requires NoDuplicates(a) && multiset(a) == multiset(b)
    ensures NoDuplicates(b)
  {
    forall i, j | 0 <= i < j < |b|
      ensures b[i] != b[j]
    {
      if b[i] == b[j] {
        assert b == b[..i] + [b[i]] + b[i + 1..j] + [b[j]] + b[j + 1..];
        assert multiset(b)[b[i]] >= 2;
        NoDuplicatesMultiplicity(a, b[i]);
        assert false;
      }
    }
  }
}
