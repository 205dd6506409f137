/** Building blocks shared by the tour engine and the live-fetch adapter:
    an optional value, a result with a user-facing message, and the
    sequence operations the TypeScript code takes from `Array.prototype`
    (`filter`, and the stable `sort` with a numeric key). */
module Basics {

  datatype Option<T> = None | Some(value: T)

  /** A computation that either yields a value or a user-facing message. */
  datatype Result<T> = Ok(value: T) | Err(message: string)

  /** `a` is `b` with some elements dropped, the rest kept in their order. */
  predicate IsSubsequence<T(==)>(a: seq<T>, b: seq<T>)
    decreases |b|
  {
    a == [] || (b != [] && ((a[0] == b[0] && IsSubsequence(a[1..], b[1..])) || IsSubsequence(a, b[1..])))
  }

  /** `s.filter(keep)`: the elements of `s` that satisfy `keep`, in order,
      every occurrence of a kept value retained. */
  function Filter<T(==,!new)>(s: seq<T>, keep: T -> bool): (r: seq<T>)
    ensures |r| <= |s|
    ensures forall x :: x in r <==> x in s && keep(x)
  {
    if s == [] then []
    else
      assert s == [s[0]] + s[1..];
      (if keep(s[0]) then [s[0]] else []) + Filter(s[1..], keep)
  }

  /** A filter keeps every copy of a kept value and none of the others. */
  lemma {:induction false} FilterCounts<T(!new)>(s: seq<T>, keep: T -> bool)
    ensures forall x :: multiset(Filter(s, keep))[x] == if keep(x) then multiset(s)[x] else 0
  {
    if s != [] {
      FilterCounts(s[1..], keep);
      assert s == [s[0]] + s[1..];
    }
  }

  lemma {:induction false} FilterIsSubsequence<T(!new)>(s: seq<T>, keep: T -> bool)
    ensures IsSubsequence(Filter(s, keep), s)
  {
    if s != [] {
      FilterIsSubsequence(s[1..], keep);
      var rest := Filter(s[1..], keep);
      if keep(s[0]) {
        assert Filter(s, keep) == [s[0]] + rest;
        assert ([s[0]] + rest)[1..] == rest;
      } else {
        assert Filter(s, keep) == rest;
      }
    }
  }

  /** A filter that every element passes returns its input. */
  lemma {:induction false} FilterKeepsAll<T(!new)>(s: seq<T>, keep: T -> bool)
    requires forall x :: x in s ==> keep(x)
    ensures Filter(s, keep) == s
  {
    if s != [] {
      FilterKeepsAll(s[1..], keep);
      assert s == [s[0]] + s[1..];
    }
  }

  /** Loosening the test of a filter never drops an element that the
      stricter test kept, and keeps the order. */
  lemma {:induction false} FilterMonotone<T(!new)>(s: seq<T>, strict: T -> bool, loose: T -> bool)
    requires forall x :: strict(x) ==> loose(x)
    ensures IsSubsequence(Filter(s, strict), Filter(s, loose))
  {
    if s != [] {
      FilterMonotone(s[1..], strict, loose);
      var a, b := Filter(s[1..], strict), Filter(s[1..], loose);
      if strict(s[0]) {
        assert Filter(s, strict) == [s[0]] + a && Filter(s, loose) == [s[0]] + b;
        assert ([s[0]] + a)[1..] == a && ([s[0]] + b)[1..] == b;
      } else if loose(s[0]) {
        assert Filter(s, strict) == a && Filter(s, loose) == [s[0]] + b;
        assert ([s[0]] + b)[1..] == b;
      } else {
        assert Filter(s, strict) == a && Filter(s, loose) == b;
      }
    }
  }

  /** Every pair of positions is in non-decreasing `key` order. */
  predicate SortedBy<T>(s: seq<T>, key: T -> real)
  {
    forall i, j :: 0 <= i < j < |s| ==> key(s[i]) <= key(s[j])
  }

  /** Inserts `x` into a sorted sequence in front of the first element
      whose key is not smaller. */
  function InsertByKey<T>(x: T, s: seq<T>, key: T -> real): (r: seq<T>)
    requires SortedBy(s, key)
    ensures multiset(r) == multiset(s) + multiset{x}
    ensures SortedBy(r, key)
    decreases |s|, 1
  {
    if s == [] || key(x) <= key(s[0]) then
      SortedCons(x, s, key);
      [x] + s
    else
      assert s == [s[0]] + s[1..];
      InsertBehindHead(x, s, key);
      [s[0]] + InsertByKey(x, s[1..], key)
  }

  /** Inserting behind a head with a smaller key keeps the head in front. */
  lemma InsertBehindHead<T>(x: T, s: seq<T>, key: T -> real)
    requires SortedBy(s, key) && s != [] && key(s[0]) < key(x)
    ensures SortedBy([s[0]] + InsertByKey(x, s[1..], key), key)
    decreases |s|, 0
  {
    var rest := InsertByKey(x, s[1..], key);
    forall y | y in rest ensures key(s[0]) <= key(y) {
      assert y in multiset(rest);
      if y != x {
        assert y in multiset(s[1..]);
        var m :| 0 <= m < |s[1..]| && s[1..][m] == y;
        assert s[m + 1] == y;
      }
    }
    SortedCons(s[0], rest, key);
  }

  /** An element no larger than any element of a sorted sequence can go in
      front of it. */
  lemma SortedCons<T>(x: T, s: seq<T>, key: T -> real)
    requires SortedBy(s, key)
    requires forall y :: y in s ==> key(x) <= key(y)
    ensures SortedBy([x] + s, key)
  {
    forall i, j | 0 <= i < j < |[x] + s| ensures key(([x] + s)[i]) <= key(([x] + s)[j]) {
      assert ([x] + s)[j] == s[j - 1];
      if i > 0 {
        assert ([x] + s)[i] == s[i - 1];
      }
    }
  }

  /** `s.sort((a, b) => key(a) - key(b))` on a copy: an insertion sort, which,
      like the engine's `Array.prototype.sort`, keeps equal keys in order. */
  function SortByKey<T>(s: seq<T>, key: T -> real): (r: seq<T>)
    ensures multiset(r) == multiset(s)
    ensures SortedBy(r, key)
  {
    if s == [] then []
    else
      assert s == [s[0]] + s[1..];
      InsertByKey(s[0], SortByKey(s[1..], key), key)
  }

  /** Sorting keeps the elements: the same ones, as many. */
  lemma SortByKeyMembers<T>(s: seq<T>, key: T -> real)
    ensures |SortByKey(s, key)| == |s|
    ensures forall x :: x in SortByKey(s, key) <==> x in s
  {
    var r := SortByKey(s, key);
    assert |r| == |multiset(r)| == |multiset(s)| == |s|;
    forall x ensures x in r <==> x in s {
      assert x in r <==> x in multiset(r);
      assert x in s <==> x in multiset(s);
    }
  }

  /** Two elements already in key order stay where they are. */
  lemma SortTwo<T>(x: T, y: T, key: T -> real)
    requires key(x) <= key(y)
    ensures SortByKey([x, y], key) == [x, y]
  {
    assert [x, y][1..] == [y];
    assert [y][1..] == [];
  }

  /** An element with a larger key goes behind a single one. */
  lemma InsertBehindOne<T>(x: T, z: T, key: T -> real)
    requires key(z) < key(x)
    ensures InsertByKey(x, [z], key) == [z, x]
  {
    assert [z][1..] == [];
    assert InsertByKey(x, [], key) == [x];
  }

  /** An element with a larger key than both goes behind a sorted pair. */
  lemma InsertBehindTwo<T>(x: T, y: T, z: T, key: T -> real)
    requires key(y) <= key(z) < key(x)
    ensures SortedBy([y, z], key)
    ensures InsertByKey(x, [y, z], key) == [y, z, x]
  {
    SortTwo(y, z, key);
    InsertBehindOne(x, z, key);
    assert [y, z][1..] == [z];
  }

  /** A first element with the largest key moves behind the other two. */
  lemma SortThreeLastFirst<T>(x: T, y: T, z: T, key: T -> real)
    requires key(y) <= key(z) < key(x)
    ensures SortByKey([x, y, z], key) == [y, z, x]
  {
    SortTwo(y, z, key);
    InsertBehindTwo(x, y, z, key);
    assert [x, y, z][1..] == [y, z];
  }

  /** The head of a sorted permutation has the smallest key of all. */
  lemma SortedHeadIsLeast<T>(s: seq<T>, key: T -> real)
    requires s != []
    ensures SortByKey(s, key) != []
    ensures SortByKey(s, key)[0] in s
    ensures forall x :: x in s ==> key(SortByKey(s, key)[0]) <= key(x)
  {
    var r := SortByKey(s, key);
    assert s[0] in multiset(r);
    assert r[0] in multiset(s);
    forall x | x in s ensures key(r[0]) <= key(x) {
      assert x in multiset(r);
      var j :| 0 <= j < |r| && r[j] == x;
      assert j == 0 || key(r[0]) <= key(r[j]);
    }
  }
}
