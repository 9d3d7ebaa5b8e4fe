/** Sequence helpers the LEMON database model is built on: the order-preserving
    filter of a Python list comprehension, the stable sort of Python's `sorted`
    with a `key`, and the ascending listing of a set of keys that an SQL
    `ORDER BY` on a unique column produces. */
module Seqs {

  /** Elements of `s` that satisfy `p`, in their original order. */
  function Filter<T>(s: seq<T>, p: T -> bool): (r: seq<T>)
    ensures |r| <= |s|
    ensures forall x :: x in r ==> x in s && p(x)
    ensures forall x :: x in s ==> multiset(r)[x] == if p(x) then multiset(s)[x] else 0
  {
    if s == [] then []
    else
      assert s == [s[0]] + s[1..];
      (if p(s[0]) then [s[0]] else []) + Filter(s[1..], p)
  }

  /** Filtering distributes over concatenation, so it keeps the relative order of what it keeps. */
  lemma {:induction false} FilterAppend<T>(a: seq<T>, b: seq<T>, p: T -> bool)
    ensures Filter(a + b, p) == Filter(a, p) + Filter(b, p)
  {
    if a == [] {
      assert a + b == b;
    } else {
      assert (a + b)[1..] == a[1..] + b;
      FilterAppend(a[1..], b, p);
    }
  }

  /** `R` holds of every pair of elements taken in their order in `s`. */
  ghost predicate Pairwise<T>(s: seq<T>, R: (T, T) -> bool)
  {
    forall i, j :: 0 <= i < j < |s| ==> R(s[i], s[j])
  }

  /** A subsequence keeps every pairwise relation of the whole. */
  lemma {:induction false} FilterKeepsPairwise<T>(s: seq<T>, p: T -> bool, R: (T, T) -> bool)
    requires Pairwise(s, R)
    ensures Pairwise(Filter(s, p), R)
  {
    if s != [] {
      var tail := s[1..];
      TailPairwise(s, R);
      FilterKeepsPairwise(tail, p, R);
      var ft := Filter(tail, p);
      if p(s[0]) {
        forall y | y in ft ensures R(s[0], y) {
          HeadRelates(s, R, y);
        }
        ConsPairwise(s[0], ft, R);
      }
    }
  }

  lemma TailPairwise<T>(s: seq<T>, R: (T, T) -> bool)
    requires s != [] && Pairwise(s, R)
    ensures Pairwise(s[1..], R)
  {
    var tail := s[1..];
    forall i, j | 0 <= i < j < |tail| ensures R(tail[i], tail[j]) {
      assert tail[i] == s[i + 1] && tail[j] == s[j + 1];
    }
  }

  lemma HeadRelates<T>(s: seq<T>, R: (T, T) -> bool, y: T)
    requires s != [] && Pairwise(s, R) && y in s[1..]
    ensures R(s[0], y)
  {
    var k :| 0 <= k < |s[1..]| && s[1..][k] == y;
    assert s[k + 1] == y;
  }

  lemma ConsPairwise<T>(x: T, s: seq<T>, R: (T, T) -> bool)
    requires Pairwise(s, R) && forall y :: y in s ==> R(x, y)
    ensures Pairwise([x] + s, R)
  {
    var r := [x] + s;
    forall i, j | 0 <= i < j < |r| ensures R(r[i], r[j]) {
      assert r[j] == s[j - 1];
      if i > 0 {
        assert r[i] == s[i - 1];
      } else {
        assert r[j] in s;
      }
    }
  }

  /** The keys of `s` never decrease. */
  ghost predicate SortedBy<T>(s: seq<T>, key: T -> real)
  {
    forall i, j :: 0 <= i < j < |s| ==> key(s[i]) <= key(s[j])
  }

  /** Elements with equal keys appear in an order that `before` accepts. */
  ghost predicate TiesOrdered<T>(s: seq<T>, key: T -> real, before: (T, T) -> bool)
  {
    forall i, j :: 0 <= i < j < |s| && key(s[i]) == key(s[j]) ==> before(s[i], s[j])
  }

  /** Puts `x` in front of the first element whose key is not below `x`'s, so
      that `x` precedes every element with an equal key. */
  function InsertBy<T>(x: T, s: seq<T>, key: T -> real): (r: seq<T>)
    requires SortedBy(s, key)
    ensures |r| == |s| + 1
    ensures multiset(r) == multiset(s) + multiset{x}
    ensures SortedBy(r, key)
  {
    if s == [] || key(x) <= key(s[0]) then
      SortedHeadLeast(s, key);
      ConsSorted(x, s, key);
      [x] + s
    else
      TailSorted(s, key);
      var rest := InsertBy(x, s[1..], key);
      InsertStep(x, s, rest, key);
      [s[0]] + rest
  }

  lemma SortedHeadLeast<T>(s: seq<T>, key: T -> real)
    requires SortedBy(s, key)
    ensures s != [] ==> forall y :: y in s ==> key(s[0]) <= key(y)
  {
    forall y | y in s ensures key(s[0]) <= key(y) {
      var k :| 0 <= k < |s| && s[k] == y;
    }
  }

  lemma TailSorted<T>(s: seq<T>, key: T -> real)
    requires s != [] && SortedBy(s, key)
    ensures SortedBy(s[1..], key)
  {
    var tail := s[1..];
    forall i, j | 0 <= i < j < |tail| ensures key(tail[i]) <= key(tail[j]) {
      assert tail[i] == s[i + 1] && tail[j] == s[j + 1];
    }
  }

  lemma ConsSorted<T>(x: T, s: seq<T>, key: T -> real)
    requires SortedBy(s, key) && forall y :: y in s ==> key(x) <= key(y)
    ensures SortedBy([x] + s, key)
  {
    var r := [x] + s;
    forall i, j | 0 <= i < j < |r| ensures key(r[i]) <= key(r[j]) {
      assert r[j] == s[j - 1];
      if i > 0 {
        assert r[i] == s[i - 1];
      } else {
        assert r[j] in s;
      }
    }
  }

  /** The head of `s` goes in front of `x` inserted into the rest. */
  lemma InsertStep<T>(x: T, s: seq<T>, rest: seq<T>, key: T -> real)
    requires s != [] && SortedBy(s, key) && key(s[0]) < key(x)
    requires multiset(rest) == multiset(s[1..]) + multiset{x} && SortedBy(rest, key)
    ensures multiset([s[0]] + rest) == multiset(s) + multiset{x}
    ensures SortedBy([s[0]] + rest, key)
  {
    assert s == [s[0]] + s[1..];
    SortedHeadLeast(s, key);
    forall y | y in rest ensures key(s[0]) <= key(y) {
      assert y in multiset(rest);
      if y != x {
        assert y in s[1..];
      }
    }
    ConsSorted(s[0], rest, key);
  }

  /** Python's `sorted(s, key = key)`: a stable insertion sort. */
  function SortBy<T>(s: seq<T>, key: T -> real): (r: seq<T>)
    ensures |r| == |s|
    ensures multiset(r) == multiset(s)
    ensures SortedBy(r, key)
  {
    if s == [] then []
    else
      assert s == [s[0]] + s[1..];
      InsertBy(s[0], SortBy(s[1..], key), key)
  }

  /** An input that is already sorted comes back as it is. */
  lemma {:induction false} SortBySorted<T>(s: seq<T>, key: T -> real)
    requires SortedBy(s, key)
    ensures SortBy(s, key) == s
  {
    if s != [] {
      SortBySorted(s[1..], key);
    }
  }

  lemma {:induction false} InsertByKeepsTies<T>(x: T, s: seq<T>, key: T -> real, before: (T, T) -> bool)
    requires SortedBy(s, key)
    requires TiesOrdered(s, key, before)
    requires forall y :: y in s && key(y) == key(x) ==> before(x, y)
    ensures TiesOrdered(InsertBy(x, s, key), key, before)
  {
    if s == [] || key(x) <= key(s[0]) {
      ConsTies(x, s, key, before);
    } else {
      var tail := s[1..];
      TailSorted(s, key);
      TailTies(s, key, before);
      InsertByKeepsTies(x, tail, key, before);
      var rest := InsertBy(x, tail, key);
      forall y | y in rest && key(y) == key(s[0]) ensures before(s[0], y) {
        assert y in multiset(rest);
        assert y != x;
        HeadTies(s, key, before, y);
      }
      ConsTies(s[0], rest, key, before);
    }
  }

  lemma TailTies<T>(s: seq<T>, key: T -> real, before: (T, T) -> bool)
    requires s != [] && TiesOrdered(s, key, before)
    ensures TiesOrdered(s[1..], key, before)
  {
    var tail := s[1..];
    forall i, j | 0 <= i < j < |tail| && key(tail[i]) == key(tail[j]) ensures before(tail[i], tail[j]) {
      assert tail[i] == s[i + 1] && tail[j] == s[j + 1];
    }
  }

  lemma HeadTies<T>(s: seq<T>, key: T -> real, before: (T, T) -> bool, y: T)
    requires s != [] && TiesOrdered(s, key, before) && y in s[1..] && key(y) == key(s[0])
    ensures before(s[0], y)
  {
    var k :| 0 <= k < |s[1..]| && s[1..][k] == y;
    assert s[k + 1] == y;
  }

  lemma ConsTies<T>(x: T, s: seq<T>, key: T -> real, before: (T, T) -> bool)
    requires TiesOrdered(s, key, before) && forall y :: y in s && key(y) == key(x) ==> before(x, y)
    ensures TiesOrdered([x] + s, key, before)
  {
    var r := [x] + s;
    forall i, j | 0 <= i < j < |r| && key(r[i]) == key(r[j]) ensures before(r[i], r[j]) {
      assert r[j] == s[j - 1];
      if i > 0 {
        assert r[i] == s[i - 1];
      } else {
        assert r[j] in s;
      }
    }
  }

  /** Stability: if equal-keyed elements of the input are in `before` order,
      so are those of the sorted output. */
  lemma {:induction false} SortByKeepsTies<T>(s: seq<T>, key: T -> real, before: (T, T) -> bool)
    requires TiesOrdered(s, key, before)
    ensures TiesOrdered(SortBy(s, key), key, before)
  {
    if s != [] {
      var tail := s[1..];
      TailTies(s, key, before);
      SortByKeepsTies(tail, key, before);
      var sorted := SortBy(tail, key);
      forall y | y in sorted && key(y) == key(s[0]) ensures before(s[0], y) {
        assert y in multiset(tail);
        HeadTies(s, key, before, y);
      }
      InsertByKeepsTies(s[0], sorted, key, before);
    }
  }

  /** `m` has the least key in `s`. */
  predicate IsMinBy<T>(m: T, s: set<T>, key: T -> real)
  {
    m in s && forall y :: y in s ==> key(m) <= key(y)
  }

  lemma {:induction false} MinByExists<T>(s: set<T>, key: T -> real)
    requires s != {}
    ensures exists m :: IsMinBy(m, s, key)
    decreases |s|
  {
    var x :| x in s;
    if s == {x} {
      assert IsMinBy(x, s, key);
    } else {
      MinByExists(s - {x}, key);
      var m :| IsMinBy(m, s - {x}, key);
      if key(x) < key(m) {
        assert IsMinBy(x, s, key);
      } else {
        assert IsMinBy(m, s, key);
      }
    }
  }

  /** No two elements of `s` share a key. */
  ghost predicate KeyInjective<T>(s: set<T>, key: T -> real)
  {
    forall x, y :: x in s && y in s && key(x) == key(y) ==> x == y
  }

  /** The elements of a set in strictly ascending key order, as `ORDER BY` on a
      unique column lists them. */
  function AscendingBy<T>(s: set<T>, key: T -> real): (r: seq<T>)
    requires KeyInjective(s, key)
    ensures |r| == |s|
    ensures forall x :: x in r ==> x in s
    ensures forall x :: x in s ==> x in r
    ensures forall i, j :: 0 <= i < j < |r| ==> key(r[i]) < key(r[j])
    decreases |s|
  {
    if s == {} then []
    else
      MinByExists(s, key);
      var m :| IsMinBy(m, s, key);
      MinIsStrict(m, s, key);
      var rest := AscendingBy(s - {m}, key);
      ConsAscending(m, rest, s, key);
      [m] + rest
  }

  /** The inductive step of AscendingBy: the least element in front of the rest, listed in order. */
  lemma ConsAscending<T>(m: T, rest: seq<T>, s: set<T>, key: T -> real)
    requires IsMinBy(m, s, key) && KeyInjective(s, key)
    requires |rest| == |s - {m}|
    requires forall x :: x in rest ==> x in s - {m}
    requires forall x :: x in s - {m} ==> x in rest
    requires forall i, j :: 0 <= i < j < |rest| ==> key(rest[i]) < key(rest[j])
    ensures |[m] + rest| == |s|
    ensures forall x :: x in [m] + rest ==> x in s
    ensures forall x :: x in s ==> x in [m] + rest
    ensures forall i, j :: 0 <= i < j < |[m] + rest| ==> key(([m] + rest)[i]) < key(([m] + rest)[j])
  {
    var r := [m] + rest;
    assert |s - {m}| == |s| - 1;
    forall i, j | 0 <= i < j < |r| ensures key(r[i]) < key(r[j]) {
      assert r[j] == rest[j - 1] && r[j] in s - {m};
      if i > 0 {
        assert r[i] == rest[i - 1];
      }
    }
  }

  lemma MinIsStrict<T>(m: T, s: set<T>, key: T -> real)
    requires IsMinBy(m, s, key) && KeyInjective(s, key)
    ensures KeyInjective(s - {m}, key)
    ensures forall y :: y in s - {m} ==> key(m) < key(y)
  {
  }

  /** The identity key, for sorting reals by value. */
  function Value(x: real): real { x }

  /** A star ID as a sort key. */
  function IntKey(i: int): real { i as real }
}
