/**
 * The stable comparison sort behind `Array.prototype.sort`: a functional
 * insertion sort that serves as the specification, its three properties
 * (ordered, a permutation, stable), and the same algorithm run in place on
 * an array.  The ordering is given as `le(a, b)`: "`a` may come before `b`",
 * i.e. the source's comparator returns a value `<= 0`.
 */
module Sorting {
  import opened Seqs

  /** `le` is total and transitive: a comparator that is consistent. */
  ghost predicate TotalPreorder<T(!new)>(le: (T, T) -> bool) {
    && (forall a, b :: le(a, b) || le(b, a))
    && (forall a, b, c :: le(a, b) && le(b, c) ==> le(a, c))
  }

  /** Every element may come before every later one. */
  predicate SortedBy<T>(s: seq<T>, le: (T, T) -> bool) {
    forall i, j :: 0 <= i < j < |s| ==> le(s[i], s[j])
  }

  /**
   * Insert `x` into `s`, scanning from the right and stopping at the first
   * element that may come before `x`: `x` lands after all of its equals.
   */
  function Insert<T>(s: seq<T>, x: T, le: (T, T) -> bool): (r: seq<T>)
    ensures |r| == |s| + 1
    decreases |s|
  {
    if s == [] || le(s[|s| - 1], x) then s + [x]
    else Insert(s[..|s| - 1], x, le) + [s[|s| - 1]]
  }

  /** Insertion sort: insert each element, left to right, into the sorted prefix. */
  function InsertionSort<T>(s: seq<T>, le: (T, T) -> bool): (r: seq<T>)
    ensures |r| == |s|
    decreases |s|
  {
    if s == [] then [] else Insert(InsertionSort(s[..|s| - 1], le), s[|s| - 1], le)
  }

  lemma {:induction false} InsertPermutes<T>(s: seq<T>, x: T, le: (T, T) -> bool)
    ensures multiset(Insert(s, x, le)) == multiset(s) + multiset{x}
    decreases |s|
  {
    if s != [] && !le(s[|s| - 1], x) {
      var s' := s[..|s| - 1];
      assert s == s' + [s[|s| - 1]];
      InsertPermutes(s', x, le);
    }
  }

  /** Sorting only reorders: the result is a permutation of the input. */
  lemma {:induction false} SortPermutes<T>(s: seq<T>, le: (T, T) -> bool)
    ensures multiset(InsertionSort(s, le)) == multiset(s)
    decreases |s|
  {
    if s != [] {
      var s' := s[..|s| - 1];
      assert s == s' + [s[|s| - 1]];
      SortPermutes(s', le);
      InsertPermutes(InsertionSort(s', le), s[|s| - 1], le);
    }
  }

  lemma {:induction false} InsertSorted<T(!new)>(s: seq<T>, x: T, le: (T, T) -> bool)
    requires TotalPreorder(le)
    requires SortedBy(s, le)
    ensures SortedBy(Insert(s, x, le), le)
    decreases |s|
  {
    if s == [] || le(s[|s| - 1], x) {
    } else {
      var s', y := s[..|s| - 1], s[|s| - 1];
      assert le(x, y);
      InsertSorted(s', x, le);
      var r' := Insert(s', x, le);
      InsertPermutes(s', x, le);
      forall i | 0 <= i < |r'| ensures le(r'[i], y) {
        assert r'[i] in multiset(s') + multiset{x};
        if r'[i] != x {
          assert r'[i] in s';
          var k :| 0 <= k < |s'| && s'[k] == r'[i];
          assert s[k] == s'[k];
        }
      }
    }
  }

  /** With a consistent comparator the result is in order. */
  lemma {:induction false} SortSorted<T(!new)>(s: seq<T>, le: (T, T) -> bool)
    requires TotalPreorder(le)
    ensures SortedBy(InsertionSort(s, le), le)
    decreases |s|
  {
    if s != [] {
      SortSorted(s[..|s| - 1], le);
      InsertSorted(InsertionSort(s[..|s| - 1], le), s[|s| - 1], le);
    }
  }

  /** The elements that compare equal to `k`. */
  function EquivTo<T>(le: (T, T) -> bool, k: T): T -> bool {
    x => le(x, k) && le(k, x)
  }

  /** Two elements in the wrong order cannot both be equal to the same `k`. */
  lemma NotBothEquiv<T(!new)>(le: (T, T) -> bool, k: T, x: T, y: T)
    requires forall a, b, c :: le(a, b) && le(b, c) ==> le(a, c)
    requires !le(y, x)
    ensures !(EquivTo(le, k)(x) && EquivTo(le, k)(y))
  {
    assert EquivTo(le, k)(x) == (le(x, k) && le(k, x));
    assert EquivTo(le, k)(y) == (le(y, k) && le(k, y));
  }

  /** Two elements that the filter cannot both keep may trade places without changing its result. */
  lemma FilterSwap<T>(s: seq<T>, x: T, y: T, p: T -> bool, r: seq<T>)
    requires Filter(r, p) == Filter(s + [x], p)
    requires !(p(x) && p(y))
    ensures Filter(r + [y], p) == Filter(s + [y] + [x], p)
  {
    FilterSnoc(r, y, p);
    FilterSnoc(s, x, p);
    FilterSnoc(s, y, p);
    FilterSnoc(s + [y], x, p);
  }

  /** Inserting `x` keeps the elements equivalent to `k` in the order of `s + [x]`. */
  lemma {:induction false} InsertKeepsEquals<T(!new)>(s: seq<T>, x: T, k: T, le: (T, T) -> bool)
    requires forall a, b, c :: le(a, b) && le(b, c) ==> le(a, c)
    ensures Filter(Insert(s, x, le), EquivTo(le, k)) == Filter(s + [x], EquivTo(le, k))
    decreases |s|
  {
    var p := EquivTo(le, k);
    if s == [] || le(s[|s| - 1], x) {
    } else {
      var s', y := s[..|s| - 1], s[|s| - 1];
      InsertKeepsEquals(s', x, k, le);
      assert s == s' + [y];
      NotBothEquiv(le, k, x, y);
      var r' := Insert(s', x, le);
      assert Insert(s, x, le) == r' + [y];
      FilterSwap(s', x, y, p, r');
    }
  }

  /** The filtered views of two sequences stay equal when both are extended by `x`. */
  lemma StableStep<T>(s: seq<T>, sorted: seq<T>, x: T, p: T -> bool, inserted: seq<T>)
    requires Filter(sorted, p) == Filter(s, p)
    requires Filter(inserted, p) == Filter(sorted + [x], p)
    ensures Filter(inserted, p) == Filter(s + [x], p)
  {
    FilterSnoc(sorted, x, p);
    FilterSnoc(s, x, p);
  }

  /**
   * Stability: among elements that compare equal, the sort keeps the order
   * they had in the input.
   */
  lemma {:induction false} SortStable<T(!new)>(s: seq<T>, k: T, le: (T, T) -> bool)
    requires forall a, b, c :: le(a, b) && le(b, c) ==> le(a, c)
    ensures Filter(InsertionSort(s, le), EquivTo(le, k)) == Filter(s, EquivTo(le, k))
    decreases |s|
  {
    if s != [] {
      var s', x := s[..|s| - 1], s[|s| - 1];
      var p := EquivTo(le, k);
      var sorted' := InsertionSort(s', le);
      assert InsertionSort(s, le) == Insert(sorted', x, le);
      assert s == s' + [x];
      SortStable(s', k, le);
      InsertKeepsEquals(sorted', x, k, le);
      StableStep(s', sorted', x, p, Insert(sorted', x, le));
    }
  }

  /**
   * Insertion only consults `le` on `x` against the elements of `s`, so two
   * orderings that agree there insert alike.
   */
  lemma {:induction false} InsertAgrees<T>(s: seq<T>, x: T, le1: (T, T) -> bool, le2: (T, T) -> bool)
    requires forall y :: y in s ==> le1(y, x) == le2(y, x)
    ensures Insert(s, x, le1) == Insert(s, x, le2)
    decreases |s|
  {
    if s != [] {
      var s' := s[..|s| - 1];
      assert s[|s| - 1] in s;
      forall y | y in s' ensures le1(y, x) == le2(y, x) {
        assert y in s;
      }
      InsertAgrees(s', x, le1, le2);
    }
  }

  /** Sorting only consults `le` on pairs of elements of `s`. */
  lemma {:induction false} SortAgrees<T>(s: seq<T>, le1: (T, T) -> bool, le2: (T, T) -> bool)
    requires forall x, y :: x in s && y in s ==> le1(x, y) == le2(x, y)
    ensures InsertionSort(s, le1) == InsertionSort(s, le2)
    decreases |s|
  {
    if s != [] {
      var s', x := s[..|s| - 1], s[|s| - 1];
      assert x in s;
      forall a, b | a in s' && b in s' ensures le1(a, b) == le2(a, b) {
        assert a in s && b in s;
      }
      SortAgrees(s', le1, le2);
      var r := InsertionSort(s', le1);
      SortPermutes(s', le1);
      forall y | y in r ensures le1(y, x) == le2(y, x) {
        assert y in multiset(s');
        assert y in s;
      }
      InsertAgrees(r, x, le1, le2);
    }
  }

  /** Ascending by an integer key. */
  function ByKey<T>(key: T -> int): (T, T) -> bool {
    (a: T, b: T) => key(a) <= key(b)
  }

  lemma ByKeyTotalPreorder<T(!new)>(key: T -> int)
    ensures TotalPreorder(ByKey(key))
  {
  }

  /**
   * The default order of `sort()` on strings: lexicographic by character,
   * a proper prefix first.
   */
  predicate StringLe(a: string, b: string) {
    a == [] || (b != [] && (a[0] < b[0] || (a[0] == b[0] && StringLe(a[1..], b[1..]))))
  }

  lemma {:induction false} StringLeTotal(a: string, b: string)
    ensures StringLe(a, b) || StringLe(b, a)
    decreases |a|
  {
    if a != [] && b != [] && a[0] == b[0] {
      StringLeTotal(a[1..], b[1..]);
    }
  }

  lemma {:induction false} StringLeTransitive(a: string, b: string, c: string)
    requires StringLe(a, b) && StringLe(b, c)
    ensures StringLe(a, c)
    decreases |a|
  {
    if a != [] && a[0] == b[0] && b[0] == c[0] {
      StringLeTransitive(a[1..], b[1..], c[1..]);
    }
  }

  /** Two strings each ordered before the other are the same string. */
  lemma {:induction false} StringLeAntisymmetric(a: string, b: string)
    requires StringLe(a, b) && StringLe(b, a)
    ensures a == b
    decreases |a|
  {
    if a != [] {
      StringLeAntisymmetric(a[1..], b[1..]);
      assert a == [a[0]] + a[1..];
      assert b == [b[0]] + b[1..];
    }
  }

  lemma StringLeTotalPreorder()
    ensures TotalPreorder(StringLe)
  {
    forall a, b ensures StringLe(a, b) || StringLe(b, a) {
      StringLeTotal(a, b);
    }
    forall a, b, c | StringLe(a, b) && StringLe(b, c) ensures StringLe(a, c) {
      StringLeTransitive(a, b, c);
    }
  }

  /** Inserting `x` into `p[..j]` passes over `p[j - 1]` when `p[j - 1]` may not come before `x`. */
  lemma InsertShiftsPast<T>(p: seq<T>, x: T, le: (T, T) -> bool, j: nat)
    requires 0 < j <= |p|
    requires !le(p[j - 1], x)
    ensures Insert(p[..j], x, le) + p[j..] == Insert(p[..j - 1], x, le) + p[j - 1..]
  {
    assert p[..j][..j - 1] == p[..j - 1];
    assert p[j - 1..] == [p[j - 1]] + p[j..];
  }

  /**
   * One step of the in-place sort: with `a[..i]` sorted into `p`, move
   * `a[i]` left past the elements that may not come before it.
   */
  method InsertInPlace<T>(a: array<T>, i: nat, le: (T, T) -> bool)
    requires i < a.Length
    modifies a
    ensures a[..i + 1] == Insert(old(a[..i]), old(a[i]), le)
    ensures a[i + 1..] == old(a[i + 1..])
  {
    ghost var p := a[..i];
    var x := a[i];
    var j := i;
    while j > 0 && !le(a[j - 1], x)
      invariant 0 <= j <= i
      invariant a[..j] == p[..j]
      invariant a[j + 1..i + 1] == p[j..]
      invariant a[i + 1..] == old(a[i + 1..])
      invariant Insert(p, x, le) == Insert(p[..j], x, le) + p[j..]
    {
      assert a[j - 1] == p[j - 1];
      InsertShiftsPast(p, x, le, j);
      a[j] := a[j - 1];
      j := j - 1;
    }
    a[j] := x;
    assert a[..j] == p[..j];
    assert a[j + 1..i + 1] == p[j..];
    assert a[..i + 1] == a[..j] + [a[j]] + a[j + 1..i + 1];
  }

  /** The in-place sort: insert `a[i]` into the sorted prefix, for each `i` in turn. */
  method SortInPlace<T>(a: array<T>, le: (T, T) -> bool)
    modifies a
    ensures a[..] == InsertionSort(old(a[..]), le)
  {
    ghost var input := a[..];
    var i := 0;
    while i < a.Length
      invariant 0 <= i <= a.Length
      invariant a[..i] == InsertionSort(input[..i], le)
      invariant a[i..] == input[i..]
    {
      assert a[i] == input[i];
      InsertInPlace(a, i, le);
      assert input[..i + 1][..i] == input[..i];
      i := i + 1;
    }
    assert input[..a.Length] == input;
  }
}
