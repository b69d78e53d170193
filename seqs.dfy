/**
 * Generic sequence helpers shared by every module: `Array.prototype.filter`
 * and the `reduce`-style sums the pages use.
 */
module Seqs {

  /** `s.filter(p)`: the elements of `s` satisfying `p`, in their original order. */
  function Filter<T>(s: seq<T>, p: T -> bool): (r: seq<T>)
    ensures |r| <= |s|
    ensures forall x :: x in r ==> x in s && p(x)
    decreases |s|
  {
    if s == [] then []
    else Filter(s[..|s| - 1], p) + (if p(s[|s| - 1]) then [s[|s| - 1]] else [])
  }

  /** Filtering a sequence extended by one element. */
  lemma FilterSnoc<T>(s: seq<T>, x: T, p: T -> bool)
    ensures Filter(s + [x], p) == Filter(s, p) + (if p(x) then [x] else [])
  {
    assert (s + [x])[..|s|] == s;
  }

  /** Filtering distributes over concatenation. */
  lemma {:induction false} FilterConcat<T>(a: seq<T>, b: seq<T>, p: T -> bool)
    ensures Filter(a + b, p) == Filter(a, p) + Filter(b, p)
    decreases |b|
  {
    if b == [] {
      assert a + b == a;
    } else {
      var b', x := b[..|b| - 1], b[|b| - 1];
      assert a + b == (a + b') + [x];
      assert b == b' + [x];
      FilterConcat(a, b', p);
      FilterSnoc(a + b', x, p);
      FilterSnoc(b', x, p);
    }
  }

  /** An element survives the filter exactly when it is in `s` and satisfies `p`. */
  lemma {:induction false} FilterMembership<T>(s: seq<T>, p: T -> bool, x: T)
    ensures x in Filter(s, p) <==> x in s && p(x)
    decreases |s|
  {
    if s != [] {
      var s' := s[..|s| - 1];
      assert s == s' + [s[|s| - 1]];
      FilterMembership(s', p, x);
    }
  }

  /** When every element satisfies `p`, the filter returns the sequence itself. */
  lemma {:induction false} FilterKeepsAll<T>(s: seq<T>, p: T -> bool)
    requires forall i :: 0 <= i < |s| ==> p(s[i])
    ensures Filter(s, p) == s
    decreases |s|
  {
    if s != [] {
      var s' := s[..|s| - 1];
      assert s == s' + [s[|s| - 1]];
      FilterKeepsAll(s', p);
    }
  }

  /** Filtering never invents or duplicates elements: the result is a sub-multiset. */
  lemma {:induction false} FilterSubMultiset<T>(s: seq<T>, p: T -> bool)
    ensures multiset(Filter(s, p)) <= multiset(s)
    decreases |s|
  {
    if s != [] {
      var s' := s[..|s| - 1];
      assert s == s' + [s[|s| - 1]];
      FilterSubMultiset(s', p);
    }
  }

  /** `idx` lists, in increasing order, exactly the positions of `s` whose element satisfies `p`. */
  ghost predicate PositionsWhere<T>(idx: seq<nat>, s: seq<T>, p: T -> bool) {
    && (forall k :: 0 <= k < |idx| ==> idx[k] < |s|)
    && (forall k, l :: 0 <= k < l < |idx| ==> idx[k] < idx[l])
    && (forall i :: 0 <= i < |s| ==> (p(s[i]) <==> i in idx))
  }

  /** `r` is the elements of `s` at the positions `idx`, in that order. */
  ghost predicate Picks<T>(r: seq<T>, s: seq<T>, idx: seq<nat>) {
    |idx| == |r| && forall k :: 0 <= k < |r| ==> idx[k] < |s| && r[k] == s[idx[k]]
  }

  /**
   * `r` is the subsequence of `s` made of the elements satisfying `p`: one
   * entry per satisfying position, in the order of those positions.
   */
  ghost predicate SelectsInOrder<T>(r: seq<T>, s: seq<T>, p: T -> bool) {
    exists idx: seq<nat> :: PositionsWhere(idx, s, p) && Picks(r, s, idx)
  }

  /** The positions of the elements satisfying `p`, left to right. */
  ghost function Positions<T>(s: seq<T>, p: T -> bool): seq<nat>
    decreases |s|
  {
    if s == [] then [] else Positions(s[..|s| - 1], p) + (if p(s[|s| - 1]) then [|s| - 1] else [])
  }

  lemma {:induction false} PositionsCorrect<T>(s: seq<T>, p: T -> bool)
    ensures PositionsWhere(Positions(s, p), s, p)
    decreases |s|
  {
    if s != [] {
      PositionsCorrect(s[..|s| - 1], p);
      PositionsSnoc(Positions(s[..|s| - 1], p), s, p);
    }
  }

  /** Extending the listing for `s` without its last element to `s`. */
  lemma PositionsSnoc<T>(idx': seq<nat>, s: seq<T>, p: T -> bool)
    requires s != []
    requires PositionsWhere(idx', s[..|s| - 1], p)
    ensures PositionsWhere(idx' + (if p(s[|s| - 1]) then [|s| - 1] else []), s, p)
  {
    var n := |s| - 1;
    var idx := idx' + (if p(s[n]) then [n] else []);
    forall i | 0 <= i < |s| ensures p(s[i]) <==> i in idx {
      if i < n {
        assert s[i] == s[..n][i];
      } else {
        assert n !in idx';
      }
    }
  }

  lemma {:induction false} FilterPicksPositions<T>(s: seq<T>, p: T -> bool)
    ensures Picks(Filter(s, p), s, Positions(s, p))
    decreases |s|
  {
    if s != [] {
      var s', x := s[..|s| - 1], s[|s| - 1];
      FilterPicksPositions(s', p);
      PicksSnoc(Filter(s', p), s, Positions(s', p), p(x));
    }
  }

  /** Extending a picking from `s` without its last element, with or without that element. */
  lemma PicksSnoc<T>(r': seq<T>, s: seq<T>, idx': seq<nat>, keep: bool)
    requires s != []
    requires Picks(r', s[..|s| - 1], idx')
    ensures Picks(r' + (if keep then [s[|s| - 1]] else []), s, idx' + (if keep then [|s| - 1] else []))
  {
    forall k | 0 <= k < |idx'| ensures idx'[k] < |s| && r'[k] == s[idx'[k]] {
      assert s[..|s| - 1][idx'[k]] == s[idx'[k]];
    }
  }

  /** The filter keeps each satisfying position once, in order, and nothing else. */
  lemma FilterSelectsInOrder<T>(s: seq<T>, p: T -> bool)
    ensures SelectsInOrder(Filter(s, p), s, p)
  {
    PositionsCorrect(s, p);
    FilterPicksPositions(s, p);
  }

  /** The positions a filter keeps are determined: two such listings coincide. */
  lemma {:induction false} PositionsUnique<T>(a: seq<nat>, b: seq<nat>, s: seq<T>, p: T -> bool)
    requires PositionsWhere(a, s, p) && PositionsWhere(b, s, p)
    ensures a == b
    decreases |a|
  {
    BothEmptyOrNot(a, b, s, p);
    if a != [] {
      LastsAgree(a, b, s, p);
      PositionsBelowLast(a, s, p);
      PositionsBelowLast(b, s, p);
      PositionsUnique(a[..|a| - 1], b[..|b| - 1], s[..a[|a| - 1]], p);
      assert a == a[..|a| - 1] + [a[|a| - 1]];
      assert b == b[..|b| - 1] + [b[|b| - 1]];
    }
  }

  /** Two non-empty listings of the same positions end at the same one. */
  lemma LastsAgree<T>(a: seq<nat>, b: seq<nat>, s: seq<T>, p: T -> bool)
    requires PositionsWhere(a, s, p) && PositionsWhere(b, s, p) && a != [] && b != []
    ensures a[|a| - 1] == b[|b| - 1]
  {
    var la, lb := a[|a| - 1], b[|b| - 1];
    assert la in b && lb in a;
    LastIsLargest(a, lb);
    LastIsLargest(b, la);
  }

  /** Two listings of the same positions are both empty or both not. */
  lemma BothEmptyOrNot<T>(a: seq<nat>, b: seq<nat>, s: seq<T>, p: T -> bool)
    requires PositionsWhere(a, s, p) && PositionsWhere(b, s, p)
    ensures a == [] <==> b == []
  {
    if a != [] {
      assert a[0] in b;
    }
    if b != [] {
      assert b[0] in a;
    }
  }

  /** In a strictly increasing listing the last entry is the largest. */
  lemma LastIsLargest(a: seq<nat>, x: nat)
    requires forall k, l :: 0 <= k < l < |a| ==> a[k] < a[l]
    requires x in a
    ensures x <= a[|a| - 1]
  {
    var k :| 0 <= k < |a| && a[k] == x;
    assert k == |a| - 1 || a[k] < a[|a| - 1];
  }

  /** Dropping the last listed position lists the satisfying positions before it. */
  lemma PositionsBelowLast<T>(a: seq<nat>, s: seq<T>, p: T -> bool)
    requires PositionsWhere(a, s, p) && a != []
    ensures PositionsWhere(a[..|a| - 1], s[..a[|a| - 1]], p)
  {
    var n := a[|a| - 1];
    var a', s' := a[..|a| - 1], s[..n];
    forall i | 0 <= i < |s'| ensures p(s'[i]) <==> i in a' {
      assert s'[i] == s[i];
      if i in a {
        var k :| 0 <= k < |a| && a[k] == i;
        assert k != |a| - 1;
        assert a'[k] == i;
      }
    }
  }

  /** Only the filter's result selects the satisfying elements in order. */
  lemma SelectsInOrderIsFilter<T>(r: seq<T>, s: seq<T>, p: T -> bool)
    requires SelectsInOrder(r, s, p)
    ensures r == Filter(s, p)
  {
    var idx :| PositionsWhere(idx, s, p) && Picks(r, s, idx);
    PositionsCorrect(s, p);
    FilterPicksPositions(s, p);
    PositionsUnique(idx, Positions(s, p), s, p);
  }

  /** The number of elements of `s` satisfying `p`. */
  function Count<T>(s: seq<T>, p: T -> bool): (n: nat)
    ensures n <= |s|
    decreases |s|
  {
    if s == [] then 0
    else Count(s[..|s| - 1], p) + (if p(s[|s| - 1]) then 1 else 0)
  }

  /** The filtered list is exactly as long as the number of matching elements. */
  lemma {:induction false} FilterLength<T>(s: seq<T>, p: T -> bool)
    ensures |Filter(s, p)| == Count(s, p)
    decreases |s|
  {
    if s != [] {
      FilterLength(s[..|s| - 1], p);
    }
  }

  /** `s.reduce((acc, x) => acc + f(x), 0)`. */
  function Sum<T>(s: seq<T>, f: T -> int): int
    decreases |s|
  {
    if s == [] then 0 else Sum(s[..|s| - 1], f) + f(s[|s| - 1])
  }

  /** Sums distribute over concatenation. */
  lemma {:induction false} SumConcat<T>(a: seq<T>, b: seq<T>, f: T -> int)
    ensures Sum(a + b, f) == Sum(a, f) + Sum(b, f)
    decreases |b|
  {
    if b == [] {
      assert a + b == a;
    } else {
      var b' := b[..|b| - 1];
      assert (a + b)[..|a + b| - 1] == a + b';
      SumConcat(a, b', f);
    }
  }

  /** A sum of non-negative terms is non-negative. */
  lemma {:induction false} SumNonNegative<T>(s: seq<T>, f: T -> int)
    requires forall i :: 0 <= i < |s| ==> f(s[i]) >= 0
    ensures Sum(s, f) >= 0
    decreases |s|
  {
    if s != [] {
      SumNonNegative(s[..|s| - 1], f);
    }
  }

  /** Summing over a filtered list adds up only the terms of the matching elements. */
  lemma {:induction false} SumFilter<T>(s: seq<T>, p: T -> bool, f: T -> int, g: T -> int)
    requires forall x :: g(x) == (if p(x) then f(x) else 0)
    ensures Sum(Filter(s, p), f) == Sum(s, g)
    decreases |s|
  {
    if s != [] {
      var s' := s[..|s| - 1];
      var x := s[|s| - 1];
      SumFilter(s', p, f, g);
      SumConcat(Filter(s', p), if p(x) then [x] else [], f);
      if p(x) {
        assert Sum([x], f) == Sum([], f) + f(x);
      }
    }
  }

  /** Splitting a sequence by a predicate and its negation splits its sum. */
  lemma {:induction false} SumSplit<T>(s: seq<T>, p: T -> bool, q: T -> bool, f: T -> int)
    requires forall x :: q(x) == !p(x)
    ensures Sum(Filter(s, p), f) + Sum(Filter(s, q), f) == Sum(s, f)
    decreases |s|
  {
    if s != [] {
      var s' := s[..|s| - 1];
      var x := s[|s| - 1];
      SumSplit(s', p, q, f);
      SumConcat(Filter(s', p), if p(x) then [x] else [], f);
      SumConcat(Filter(s', q), if q(x) then [x] else [], f);
      assert Sum([x], f) == Sum([], f) + f(x);
    }
  }

  /** Replacing one element changes the sum by the difference of the two terms. */
  lemma {:induction false} SumUpdate<T>(s: seq<T>, k: nat, x: T, f: T -> int)
    requires k < |s|
    ensures Sum(s[k := x], f) == Sum(s, f) - f(s[k]) + f(x)
    decreases |s|
  {
    var n := |s| - 1;
    if k < n {
      assert s[k := x][..n] == s[..n][k := x];
      SumUpdate(s[..n], k, x, f);
    } else {
      assert s[k := x][..n] == s[..n];
    }
  }

  /** The index of the first element satisfying `p` (`findIndex`), if any. */
  function FindIndex<T>(s: seq<T>, p: T -> bool): (r: Option<nat>)
    ensures r.Some? ==> r.value < |s| && p(s[r.value]) && forall j :: 0 <= j < r.value ==> !p(s[j])
    ensures r.None? ==> forall j :: 0 <= j < |s| ==> !p(s[j])
    decreases |s|
  {
    if s == [] then None
    else if p(s[0]) then Some(0)
    else match FindIndex(s[1..], p)
      case None => None
      case Some(k) => Some(k + 1)
  }

  import opened Wrappers
}
