/** Sequence operations that stand for the table queries: `Filter` for a `WHERE`,
    `Take` for a `LIMIT`, and an insertion sort by an integer key for both the in-memory
    sorts (`Array.prototype.sort` with a numeric comparator) and `ORDER BY ... ASC/DESC`. */
module Seqs {

  /** The elements of `s` that satisfy `p`, in their original order. */
  function Filter<T(!new)>(s: seq<T>, p: T -> bool): (r: seq<T>)
    ensures |r| <= |s|
    ensures forall x :: multiset(r)[x] == if p(x) then multiset(s)[x] else 0
    ensures forall x :: x in r <==> x in s && p(x)
  {
    if s == [] then []
    else
      assert s == [s[0]] + s[1..];
      var rest := Filter(s[1..], p);
      assert forall x :: x in rest <==> multiset(rest)[x] > 0;
      if p(s[0]) then [s[0]] + rest else rest
  }

  /** A filter drops something exactly when some element fails the test (so a `DELETE`
      reports a non-zero count of affected rows exactly when a row matched). */
  lemma {:induction false} FilterDropsIff<T(!new)>(s: seq<T>, p: T -> bool)
    ensures |Filter(s, p)| < |s| <==> exists x :: x in s && !p(x)
  {
    if s != [] {
      FilterDropsIff(s[1..], p);
      assert s == [s[0]] + s[1..];
      if p(s[0]) {
        assert Filter(s, p) == [s[0]] + Filter(s[1..], p);
        if exists x :: x in s && !p(x) {
          var x :| x in s && !p(x);
          assert x in s[1..];
        }
        if exists x :: x in s[1..] && !p(x) {
          var x :| x in s[1..] && !p(x);
          assert x in s;
        }
      } else {
        assert s[0] in s;
      }
    }
  }

  /** No two elements of `s` share a key. */
  predicate KeysDistinct<T, K(==)>(s: seq<T>, key: T -> K) {
    forall i, j :: 0 <= i < j < |s| ==> key(s[i]) != key(s[j])
  }

  lemma KeysDistinctTail<T, K>(s: seq<T>, key: T -> K)
    requires s != [] && KeysDistinct(s, key)
    ensures KeysDistinct(s[1..], key)
    ensures forall x :: x in s[1..] ==> key(x) != key(s[0])
  {
    forall x | x in s[1..] ensures key(x) != key(s[0]) {
      var k :| 0 <= k < |s[1..]| && s[1..][k] == x;
      assert s[k + 1] == x;
    }
    forall i, j | 0 <= i < j < |s[1..]| ensures key(s[1..][i]) != key(s[1..][j]) {
      assert s[1..][i] == s[i + 1] && s[1..][j] == s[j + 1];
    }
  }

  lemma KeysDistinctCons<T, K>(x: T, s: seq<T>, key: T -> K)
    requires KeysDistinct(s, key)
    requires forall y :: y in s ==> key(y) != key(x)
    ensures KeysDistinct([x] + s, key)
  {
    var t := [x] + s;
    forall i, j | 0 <= i < j < |t| ensures key(t[i]) != key(t[j]) {
      assert t[j] == s[j - 1];
      if i > 0 { assert t[i] == s[i - 1]; }
    }
  }

  /** Appending an element with a fresh key keeps the keys distinct. */
  lemma KeysDistinctSnoc<T, K>(s: seq<T>, x: T, key: T -> K)
    requires KeysDistinct(s, key)
    requires forall y :: y in s ==> key(y) != key(x)
    ensures KeysDistinct(s + [x], key)
  {
    var t := s + [x];
    forall i, j | 0 <= i < j < |t| ensures key(t[i]) != key(t[j]) {
      assert t[i] == s[i];
      if j < |s| { assert t[j] == s[j]; }
    }
  }

  /** Removing elements keeps the keys of the rest distinct. */
  lemma {:induction false} FilterKeepsKeysDistinct<T(!new), K>(s: seq<T>, p: T -> bool, key: T -> K)
    requires KeysDistinct(s, key)
    ensures KeysDistinct(Filter(s, p), key)
  {
    if s != [] {
      KeysDistinctTail(s, key);
      FilterKeepsKeysDistinct(s[1..], p, key);
      var fr := Filter(s[1..], p);
      if p(s[0]) {
        KeysDistinctCons(s[0], fr, key);
      }
    }
  }

  /** A filter that drops exactly the element at index `k` shortens `s` by one. */
  lemma {:induction false} FilterAllButOne<T(!new)>(s: seq<T>, k: nat, p: T -> bool)
    requires k < |s| && !p(s[k])
    requires forall i :: 0 <= i < |s| && i != k ==> p(s[i])
    ensures |Filter(s, p)| == |s| - 1
  {
    if k == 0 {
      assert Filter(s, p) == Filter(s[1..], p);
      FilterAllPass(s[1..], p);
    } else {
      assert s[1..][k - 1] == s[k];
      FilterAllButOne(s[1..], k - 1, p);
      assert Filter(s, p) == [s[0]] + Filter(s[1..], p);
    }
  }

  /** With distinct keys, filtering out the key of the element at `k` removes that element
      only. */
  lemma FilterDropsOneKey<T(!new), K>(s: seq<T>, key: T -> K, k: nat, p: T -> bool)
    requires KeysDistinct(s, key) && k < |s|
    requires forall x :: p(x) <==> key(x) != key(s[k])
    ensures |Filter(s, p)| == |s| - 1 && s[k] !in Filter(s, p) && KeysDistinct(Filter(s, p), key)
  {
    FilterKeepsKeysDistinct(s, p, key);
    forall i | 0 <= i < |s| && i != k ensures p(s[i]) {
      if i < k { assert key(s[i]) != key(s[k]); } else { assert key(s[k]) != key(s[i]); }
    }
    FilterAllButOne(s, k, p);
  }

  lemma {:induction false} FilterAllPass<T(!new)>(s: seq<T>, p: T -> bool)
    requires forall i :: 0 <= i < |s| ==> p(s[i])
    ensures Filter(s, p) == s
  {
    if s != [] {
      FilterAllPass(s[1..], p);
    }
  }

  /** Filters by two tests that agree everywhere are the same. */
  lemma {:induction false} FilterExt<T(!new)>(s: seq<T>, p: T -> bool, q: T -> bool)
    requires forall x :: p(x) == q(x)
    ensures Filter(s, p) == Filter(s, q)
  {
    if s != [] {
      FilterExt(s[1..], p, q);
    }
  }

  /** Two filters that pass the same positions of two sequences of equal length keep
      equally many elements. */
  lemma {:induction false} FilterSameLength<T(!new), U(!new)>(s: seq<T>, p: T -> bool, t: seq<U>, q: U -> bool)
    requires |s| == |t|
    requires forall i :: 0 <= i < |s| ==> p(s[i]) == q(t[i])
    ensures |Filter(s, p)| == |Filter(t, q)|
  {
    if s != [] {
      assert p(s[0]) == q(t[0]);
      assert forall i :: 0 <= i < |s[1..]| ==> s[1..][i] == s[i + 1] && t[1..][i] == t[i + 1];
      FilterSameLength(s[1..], p, t[1..], q);
    }
  }

  /** The first `n` elements of `s` (all of them when there are fewer). */
  function Take<T>(s: seq<T>, n: nat): (r: seq<T>)
    ensures |r| == if |s| <= n then |s| else n
    ensures r == s[..|r|]
    ensures forall x :: x in r ==> x in s
    ensures |r| < n ==> r == s
  {
    if |s| <= n then s else s[..n]
  }

  /** Filtering a concatenation filters each part. */
  lemma {:induction false} FilterAppend<T(!new)>(a: seq<T>, b: seq<T>, p: T -> bool)
    ensures Filter(a + b, p) == Filter(a, p) + Filter(b, p)
  {
    if a == [] {
      assert a + b == b;
    } else {
      var x, t := a[0], a[1..];
      assert a == [x] + t && a + b == [x] + (t + b);
      FilterAppend(t, b, p);
      FilterCons(x, t + b, p);
      FilterCons(x, t, p);
      if p(x) {
        ConcatAssoc([x], Filter(t, p), Filter(b, p));
      }
    }
  }

  lemma ConcatAssoc<T>(a: seq<T>, b: seq<T>, c: seq<T>)
    ensures a + (b + c) == (a + b) + c
  {
  }

  lemma FilterCons<T(!new)>(x: T, s: seq<T>, p: T -> bool)
    ensures Filter([x] + s, p) == if p(x) then [x] + Filter(s, p) else Filter(s, p)
  {
    assert ([x] + s)[1..] == s;
  }

  /** A limit no longer than the first part takes from that part alone. */
  lemma TakePrefix<T>(a: seq<T>, b: seq<T>, n: nat)
    requires n <= |a|
    ensures Take(a + b, n) == Take(a, n)
  {
    assert (a + b)[..n] == a[..n];
  }

  predicate Distinct<T(==)>(s: seq<T>) {
    forall i, j :: 0 <= i < j < |s| ==> s[i] != s[j]
  }

  predicate NonIncreasing<T>(s: seq<T>, key: T -> int) {
    forall i, j :: 0 <= i < j < |s| ==> key(s[i]) >= key(s[j])
  }

  predicate NonDecreasing<T>(s: seq<T>, key: T -> int) {
    forall i, j :: 0 <= i < j < |s| ==> key(s[i]) <= key(s[j])
  }

  /** The elements of `s` whose key is `k`, in their order in `s`. A sort that keeps
      every such list as it was is stable: it never reorders elements with equal keys. */
  function KeyClass<T>(s: seq<T>, key: T -> int, k: int): (r: seq<T>)
    ensures |r| <= |s|
  {
    if s == [] then [] else (if key(s[0]) == k then [s[0]] else []) + KeyClass(s[1..], key, k)
  }

  /** Negating the key renames the classes and keeps their contents. */
  lemma {:induction false} KeyClassNegated<T>(s: seq<T>, key: T -> int, neg: T -> int, k: int)
    requires forall x :: neg(x) == -key(x)
    ensures KeyClass(s, neg, -k) == KeyClass(s, key, k)
  {
    if s != [] {
      KeyClassNegated(s[1..], key, neg, k);
    }
  }

  lemma KeyClassConsAt<T>(h: T, t: seq<T>, key: T -> int, k: int)
    ensures KeyClass([h] + t, key, k) == (if key(h) == k then [h] else []) + KeyClass(t, key, k)
  {
    assert ([h] + t)[1..] == t;
  }

  lemma KeyClassCons<T>(h: T, t: seq<T>, key: T -> int)
    ensures forall k :: KeyClass([h] + t, key, k) == (if key(h) == k then [h] else []) + KeyClass(t, key, k)
  {
    forall k ensures KeyClass([h] + t, key, k) == (if key(h) == k then [h] else []) + KeyClass(t, key, k) {
      KeyClassConsAt(h, t, key, k);
    }
  }

  /** Inserts `x` into a sequence sorted by descending key, after every element whose
      key is greater than `x`'s and before the first whose key is not. */
  function InsertDesc<T>(x: T, s: seq<T>, key: T -> int): (r: seq<T>)
    requires NonIncreasing(s, key)
    ensures NonIncreasing(r, key)
    ensures multiset(r) == multiset(s) + multiset{x}
    ensures |r| == |s| + 1
  {
    if s == [] then [x]
    else if key(s[0]) > key(x) then
      var rest := InsertDesc(x, s[1..], key);
      HeadBoundsInsertion(x, s, rest, key);
      ConsNonIncreasing(s[0], rest, key);
      assert s == [s[0]] + s[1..];
      [s[0]] + rest
    else
      ConsNonIncreasing(x, s, key);
      [x] + s
  }

  /** Among the elements whose key is `x`'s, `x` lands first; every other key keeps its
      elements in the same order. */
  lemma {:induction false} InsertDescKeyClassAt<T>(x: T, s: seq<T>, key: T -> int, k: int)
    requires NonIncreasing(s, key)
    ensures KeyClass(InsertDesc(x, s, key), key, k) == (if key(x) == k then [x] else []) + KeyClass(s, key, k)
  {
    if s == [] {
      assert InsertDesc(x, s, key) == [x] + s;
      KeyClassConsAt(x, s, key, k);
    } else if key(s[0]) > key(x) {
      var h, t := s[0], s[1..];
      var rest := InsertDesc(x, t, key);
      assert InsertDesc(x, s, key) == [h] + rest;
      InsertDescKeyClassAt(x, t, key, k);
      KeyClassConsAt(h, rest, key, k);
      assert [h] + t == s;
      KeyClassConsAt(h, t, key, k);
      var tail := KeyClass(t, key, k);
      if key(h) == k {
        assert key(x) != k;
        assert KeyClass(rest, key, k) == tail;
        assert KeyClass(s, key, k) == [h] + tail;
        assert KeyClass([h] + rest, key, k) == [h] + tail;
      } else {
        assert KeyClass(s, key, k) == tail;
        assert KeyClass([h] + rest, key, k) == KeyClass(rest, key, k);
      }
    } else {
      assert InsertDesc(x, s, key) == [x] + s;
      KeyClassConsAt(x, s, key, k);
    }
  }

  lemma InsertDescKeyClass<T>(x: T, s: seq<T>, key: T -> int)
    requires NonIncreasing(s, key)
    ensures forall k :: KeyClass(InsertDesc(x, s, key), key, k) == (if key(x) == k then [x] else []) + KeyClass(s, key, k)
  {
    forall k ensures KeyClass(InsertDesc(x, s, key), key, k) == (if key(x) == k then [x] else []) + KeyClass(s, key, k) {
      InsertDescKeyClassAt(x, s, key, k);
    }
  }

  lemma ConsNonIncreasing<T>(h: T, s: seq<T>, key: T -> int)
    requires NonIncreasing(s, key)
    requires forall k :: 0 <= k < |s| ==> key(h) >= key(s[k])
    ensures NonIncreasing([h] + s, key)
  {
    var t := [h] + s;
    forall i, j | 0 <= i < j < |t| ensures key(t[i]) >= key(t[j]) {
      assert t[j] == s[j - 1];
      if i > 0 { assert t[i] == s[i - 1]; }
    }
  }

  lemma HeadBoundsInsertion<T>(x: T, s: seq<T>, rest: seq<T>, key: T -> int)
    requires s != [] && NonIncreasing(s, key) && key(s[0]) >= key(x)
    requires multiset(rest) == multiset(s[1..]) + multiset{x}
    ensures forall k :: 0 <= k < |rest| ==> key(s[0]) >= key(rest[k])
  {
    forall k | 0 <= k < |rest| ensures key(s[0]) >= key(rest[k]) {
      var y := rest[k];
      assert y in multiset(rest);
      if y != x {
        assert y in multiset(s[1..]);
        var m :| 0 <= m < |s[1..]| && s[1..][m] == y;
        assert s[m + 1] == y;
      }
    }
  }

  /** The elements of `s` ordered by descending key, stably (as `Array.prototype.sort`
      with a numeric comparator orders them). */
  function SortDesc<T>(s: seq<T>, key: T -> int): (r: seq<T>)
    ensures NonIncreasing(r, key)
    ensures multiset(r) == multiset(s)
    ensures |r| == |s|
    ensures forall k :: KeyClass(r, key, k) == KeyClass(s, key, k)
  {
    if s == [] then []
    else
      assert s == [s[0]] + s[1..];
      var sorted := SortDesc(s[1..], key);
      InsertDescKeyClass(s[0], sorted, key);
      KeyClassCons(s[0], s[1..], key);
      InsertDesc(s[0], sorted, key)
  }

  /** The elements of `s` ordered by ascending key, stably. */
  function SortAsc<T>(s: seq<T>, key: T -> int): (r: seq<T>)
    ensures NonDecreasing(r, key)
    ensures multiset(r) == multiset(s)
    ensures |r| == |s|
    ensures forall k :: KeyClass(r, key, k) == KeyClass(s, key, k)
  {
    var neg := x => -key(x);
    var r := SortDesc(s, neg);
    assert forall i, j :: 0 <= i < j < |r| ==> -key(r[i]) >= -key(r[j]);
    forall k ensures KeyClass(r, key, k) == KeyClass(s, key, k) {
      KeyClassNegated(r, key, neg, k);
      KeyClassNegated(s, key, neg, k);
    }
    r
  }

  lemma SortedKeepsMembers<T>(s: seq<T>, r: seq<T>, x: T)
    requires multiset(r) == multiset(s)
    ensures x in r <==> x in s
  {
    assert x in r <==> x in multiset(r);
    assert x in s <==> x in multiset(s);
  }

  /** `s` without its element at index `k` (a repository `remove`). */
  function RemoveAt<T>(s: seq<T>, k: nat): (r: seq<T>)
    requires k < |s|
    ensures |r| == |s| - 1
    ensures multiset(r) == multiset(s) - multiset{s[k]}
    ensures forall x :: x in r ==> x in s
  {
    assert s == s[..k] + [s[k]] + s[k + 1..];
    var r := s[..k] + s[k + 1..];
    assert forall x :: x in r ==> x in multiset(r);
    r
  }
}
