/**
 * The array operations the TypeScript code leans on: `filter`, `filter(...).length`
 * and `sort` with a numeric comparator.
 */
module Seqs {

  /** `s.filter(p)`. */
  function Filter<T>(p: T -> bool, s: seq<T>): (r: seq<T>)
    ensures |r| <= |s|
    ensures forall i :: 0 <= i < |r| ==> r[i] in s && p(r[i])
  {
    if s == [] then [] else (if p(s[0]) then [s[0]] else []) + Filter(p, s[1..])
  }

  /** Every element that passes the test is kept. */
  lemma {:induction false} FilterKeeps<T>(p: T -> bool, s: seq<T>)
    ensures forall i :: 0 <= i < |s| && p(s[i]) ==> s[i] in Filter(p, s)
  {
    if s != [] {
      FilterKeeps(p, s[1..]);
      assert forall i :: 1 <= i < |s| ==> s[i] == s[1..][i - 1];
    }
  }

  /** An element is kept exactly when it occurs and passes the test. */
  lemma FilterMembers<T>(p: T -> bool, s: seq<T>)
    ensures forall x :: x in Filter(p, s) <==> x in s && p(x)
  {
    FilterKeeps(p, s);
  }

  /** `s.filter(p).length`. */
  function Count<T>(p: T -> bool, s: seq<T>): nat {
    |Filter(p, s)|
  }

  /** `r` is `s` with some elements left out, the rest in their original order. */
  predicate IsSubsequence<T(==)>(r: seq<T>, s: seq<T>)
    decreases |s|
  {
    if r == [] then true
    else if s == [] then false
    else if r[0] == s[0] then IsSubsequence(r[1..], s[1..])
    else IsSubsequence(r, s[1..])
  }

  /** Filtering keeps the order of the elements it keeps. */
  lemma {:induction false} FilterIsSubsequence<T>(p: T -> bool, s: seq<T>)
    ensures IsSubsequence(Filter(p, s), s)
  {
    if s != [] {
      FilterIsSubsequence(p, s[1..]);
      var r := Filter(p, s);
      if !p(s[0]) {
        assert r == Filter(p, s[1..]);
        if r != [] {
          assert r[0] in r;
          assert r[0] != s[0];
        }
      } else {
        assert r == [s[0]] + Filter(p, s[1..]);
        assert r[1..] == Filter(p, s[1..]);
      }
    }
  }

  /** Filtering by a weaker condition never keeps fewer elements. */
  lemma {:induction false} CountMonotonic<T>(p: T -> bool, q: T -> bool, s: seq<T>)
    requires forall x :: p(x) ==> q(x)
    ensures Count(p, s) <= Count(q, s)
  {
    if s != [] {
      CountMonotonic(p, q, s[1..]);
    }
  }

  /** Three mutually exclusive conditions select at most the whole sequence between them. */
  lemma {:induction false} CountExclusive3<T>(p: T -> bool, q: T -> bool, u: T -> bool, s: seq<T>)
    requires forall x :: !(p(x) && q(x)) && !(p(x) && u(x)) && !(q(x) && u(x))
    ensures Count(p, s) + Count(q, s) + Count(u, s) <= |s|
  {
    if s != [] {
      CountExclusive3(p, q, u, s[1..]);
    }
  }

  /** Four conditions, exactly one of which holds of every element, split the sequence's length between them. */
  lemma {:induction false} CountPartition4<T>(p: T -> bool, q: T -> bool, u: T -> bool, w: T -> bool, s: seq<T>)
    requires forall x :: p(x) || q(x) || u(x) || w(x)
    requires forall x :: !(p(x) && q(x)) && !(p(x) && u(x)) && !(p(x) && w(x))
    requires forall x :: !(q(x) && u(x)) && !(q(x) && w(x)) && !(u(x) && w(x))
    ensures Count(p, s) + Count(q, s) + Count(u, s) + Count(w, s) == |s|
  {
    if s != [] {
      CountPartition4(p, q, u, w, s[1..]);
    }
  }

  /** Sorted ascending by a numeric key (`(a, b) => key(a) - key(b)` as comparator). */
  predicate SortedBy<T>(s: seq<T>, key: T -> int) {
    forall i, j :: 0 <= i < j < |s| ==> key(s[i]) <= key(s[j])
  }

  /** Putting an element no larger than the head in front keeps a sequence sorted. */
  lemma PrependSorted<T>(x: T, s: seq<T>, key: T -> int)
    requires SortedBy(s, key) && (s != [] ==> key(x) <= key(s[0]))
    ensures SortedBy([x] + s, key)
  {
    var r := [x] + s;
    forall i, j | 0 <= i < j < |r| ensures key(r[i]) <= key(r[j]) {
      if i == 0 {
        assert key(s[0]) <= key(s[j - 1]);
      } else {
        assert r[i] == s[i - 1] && r[j] == s[j - 1];
      }
    }
  }

  function InsertBy<T>(x: T, s: seq<T>, key: T -> int): (r: seq<T>)
    requires SortedBy(s, key)
    ensures SortedBy(r, key)
    ensures multiset(r) == multiset(s) + multiset{x}
    ensures r[0] == x || (s != [] && r[0] == s[0])
  {
    if s == [] then [x]
    else if key(x) <= key(s[0]) then
      PrependSorted(x, s, key);
      [x] + s
    else
      var rest := InsertBy(x, s[1..], key);
      PrependSorted(s[0], rest, key);
      assert s == [s[0]] + s[1..];
      [s[0]] + rest
  }

  /** `s.sort((a, b) => key(a) - key(b))`: an ascending permutation of `s`. */
  function SortBy<T>(s: seq<T>, key: T -> int): (r: seq<T>)
    ensures SortedBy(r, key)
    ensures multiset(r) == multiset(s)
  {
    if s == [] then []
    else
      assert s == [s[0]] + s[1..];
      InsertBy(s[0], SortBy(s[1..], key), key)
  }

  /** Sorting keeps exactly the elements it was given. */
  lemma SortByMembers<T>(s: seq<T>, key: T -> int)
    ensures forall x :: x in SortBy(s, key) <==> x in s
    ensures |SortBy(s, key)| == |s|
  {
    var r := SortBy(s, key);
    assert |r| == |multiset(r)| == |multiset(s)| == |s|;
    forall x ensures x in r <==> x in s {
      assert x in r <==> x in multiset(r);
      assert x in s <==> x in multiset(s);
    }
  }

  /** No element occurs twice. */
  predicate Distinct<T(==)>(s: seq<T>) {
    forall i, j :: 0 <= i < j < |s| ==> s[i] != s[j]
  }

  /** Filtering a sequence without repetitions leaves one without repetitions. */
  lemma {:induction false} FilterDistinct<T>(p: T -> bool, s: seq<T>)
    requires Distinct(s)
    ensures Distinct(Filter(p, s))
  {
    if s != [] {
      FilterDistinct(p, s[1..]);
      var rest := Filter(p, s[1..]);
      assert s[0] !in s[1..];
      assert s[0] !in rest;
    }
  }

  /** Strictly increasing in a numeric key. */
  predicate StrictlyIncreasingBy<T>(s: seq<T>, key: T -> int) {
    forall i, j :: 0 <= i < j < |s| ==> key(s[i]) < key(s[j])
  }

  predicate ExactlyOne(a: bool, b: bool, c: bool) {
    (a || b || c) && !(a && b) && !(a && c) && !(b && c)
  }

  /** The multiset of a filter, one element at a time. */
  lemma FilterHead<T>(p: T -> bool, s: seq<T>)
    requires s != []
    ensures multiset(Filter(p, s)) == (if p(s[0]) then multiset{s[0]} else multiset{}) + multiset(Filter(p, s[1..]))
  {
    if p(s[0]) {
      assert Filter(p, s) == [s[0]] + Filter(p, s[1..]);
    } else {
      assert Filter(p, s) == Filter(p, s[1..]);
    }
  }

  /** The head of a sequence goes to exactly one of three filters whose tests exclude each other. */
  lemma FilterSplitHead<T>(p: T -> bool, q: T -> bool, u: T -> bool, s: seq<T>)
    requires s != [] && ExactlyOne(p(s[0]), q(s[0]), u(s[0]))
    ensures multiset(Filter(p, s)) + multiset(Filter(q, s)) + multiset(Filter(u, s)) ==
      multiset{s[0]} + (multiset(Filter(p, s[1..])) + multiset(Filter(q, s[1..])) + multiset(Filter(u, s[1..])))
  {
    FilterHead(p, s);
    FilterHead(q, s);
    FilterHead(u, s);
  }

  /** Three filters whose tests exactly one holds of each element split the sequence between them. */
  lemma {:induction false} FilterSplit3<T>(p: T -> bool, q: T -> bool, u: T -> bool, s: seq<T>)
    requires forall i :: 0 <= i < |s| ==> ExactlyOne(p(s[i]), q(s[i]), u(s[i]))
    ensures multiset(Filter(p, s)) + multiset(Filter(q, s)) + multiset(Filter(u, s)) == multiset(s)
  {
    if s != [] {
      var rest := s[1..];
      forall i | 0 <= i < |rest| ensures ExactlyOne(p(rest[i]), q(rest[i]), u(rest[i])) {
        assert rest[i] == s[i + 1];
      }
      FilterSplit3(p, q, u, rest);
      FilterSplitHead(p, q, u, s);
      assert s == [s[0]] + rest;
    }
  }

  /** A strictly increasing integer key grows by at least one per position. */
  lemma {:induction false} StrictlyIncreasingSpan<T>(s: seq<T>, key: T -> int)
    requires StrictlyIncreasingBy(s, key) && |s| > 0
    ensures key(s[|s| - 1]) - key(s[0]) >= |s| - 1
  {
    if |s| > 1 {
      StrictlyIncreasingSpan(s[..|s| - 1], key);
      assert key(s[|s| - 2]) < key(s[|s| - 1]);
    }
  }

  /** Nothing passes a filter that no element satisfies. */
  lemma {:induction false} FilterNone<T>(p: T -> bool, s: seq<T>)
    requires forall i :: 0 <= i < |s| ==> !p(s[i])
    ensures Filter(p, s) == []
  {
    if s != [] {
      FilterNone(p, s[1..]);
    }
  }

  /** Filtering keeps a strictly increasing key strictly increasing. */
  lemma {:induction false} FilterStrictlyIncreasing<T>(p: T -> bool, s: seq<T>, key: T -> int)
    requires StrictlyIncreasingBy(s, key)
    ensures StrictlyIncreasingBy(Filter(p, s), key)
  {
    if s != [] {
      FilterStrictlyIncreasing(p, s[1..], key);
      var rest := Filter(p, s[1..]);
      forall i | 0 <= i < |rest| ensures key(s[0]) < key(rest[i]) {
        assert rest[i] in s[1..];
      }
    }
  }

  /** A filter keeps each element at most as often as it occurs. */
  lemma {:induction false} FilterSubMultiset<T>(p: T -> bool, s: seq<T>)
    ensures multiset(Filter(p, s)) <= multiset(s)
  {
    if s != [] {
      var rest := s[1..];
      FilterSubMultiset(p, rest);
      assert s == [s[0]] + rest;
      assert multiset(s) == multiset{s[0]} + multiset(rest);
      if p(s[0]) {
        assert Filter(p, s) == [s[0]] + Filter(p, rest);
      } else {
        assert Filter(p, s) == Filter(p, rest);
      }
    }
  }

  /** In a sequence without repetitions every element occurs at most once. */
  lemma {:induction false} DistinctOnce<T>(s: seq<T>, x: T)
    requires Distinct(s)
    ensures multiset(s)[x] <= 1
  {
    if s != [] {
      var rest := s[1..];
      assert Distinct(rest) by {
        forall i, j | 0 <= i < j < |rest| ensures rest[i] != rest[j] {
          assert rest[i] == s[i + 1] && rest[j] == s[j + 1];
        }
      }
      DistinctOnce(rest, x);
      assert s == [s[0]] + rest;
      if x == s[0] {
        assert x !in rest;
      }
    }
  }

  /** A strictly increasing key leaves no repetitions. */
  lemma StrictlyIncreasingDistinct<T>(s: seq<T>, key: T -> int)
    requires StrictlyIncreasingBy(s, key)
    ensures Distinct(s)
  {
    forall i, j | 0 <= i < j < |s| ensures s[i] != s[j] {
      assert key(s[i]) < key(s[j]);
    }
  }

  /** A permutation of a non-empty sequence holds its head somewhere; removing it there leaves a permutation of the tail. */
  lemma PermutationHead<T>(a: seq<T>, b: seq<T>) returns (k: nat)
    requires a != [] && multiset(a) == multiset(b)
    ensures k < |b| && b[k] == a[0]
    ensures multiset(a[1..]) == multiset(b[..k] + b[k + 1..])
  {
    var x := a[0];
    assert x in multiset(a);
    k :| 0 <= k < |b| && b[k] == x;
    var front, back := b[..k], b[k + 1..];
    assert b == front + [x] + back;
    assert a == [x] + a[1..];
    forall y ensures multiset(a[1..])[y] == multiset(front + back)[y] {
      assert multiset(a)[y] == multiset([x])[y] + multiset(a[1..])[y];
      assert multiset(b)[y] == multiset(front)[y] + multiset([x])[y] + multiset(back)[y];
    }
  }
}
