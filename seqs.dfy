/**
 * `Array.prototype.filter` and the stable `Array.prototype.sort` (ECMAScript 2019
 * and later), which every list on the screens goes through.
 *
 * A comparator `cmp(a, b)` of the source becomes a relation `before(a, b)` that
 * holds exactly when `cmp(a, b) < 0`: `a` must be placed ahead of `b`.
 */
module Seqs {

  // ---- filter ----------------------------------------------------------

  /** The elements of `s` that satisfy `p`, in their original order. */
  function Filter<T>(s: seq<T>, p: T -> bool): (r: seq<T>)
    ensures |r| <= |s|
    ensures forall i :: 0 <= i < |r| ==> r[i] in s && p(r[i])
    ensures forall i :: 0 <= i < |s| && p(s[i]) ==> s[i] in r
  {
    if s == [] then [] else (if p(s[0]) then [s[0]] else []) + Filter(s[1..], p)
  }

  /** Filtering a concatenation filters each part: the kept elements keep their order. */
  lemma {:induction false} FilterConcat<T>(a: seq<T>, b: seq<T>, p: T -> bool)
    ensures Filter(a + b, p) == Filter(a, p) + Filter(b, p)
  {
    if a == [] {
      assert a + b == b;
    } else {
      assert (a + b)[0] == a[0] && (a + b)[1..] == a[1..] + b;
      FilterConcat(a[1..], b, p);
    }
  }

  /** When every element passes, nothing is removed. */
  lemma {:induction false} FilterKeepsAll<T>(s: seq<T>, p: T -> bool)
    requires forall i :: 0 <= i < |s| ==> p(s[i])
    ensures Filter(s, p) == s
  {
    if s != [] {
      FilterKeepsAll(s[1..], p);
    }
  }

  /** Every element is kept by `p` or by its negation `q`, never by both. */
  lemma {:induction false} FilterSplit<T>(s: seq<T>, p: T -> bool, q: T -> bool)
    requires forall i :: 0 <= i < |s| ==> q(s[i]) == !p(s[i])
    ensures |Filter(s, p)| + |Filter(s, q)| == |s|
  {
    if s != [] {
      FilterSplit(s[1..], p, q);
    }
  }

  // ---- stable insertion sort -------------------------------------------

  /** No element is required to come before one that precedes it. */
  predicate Sorted<T>(s: seq<T>, before: (T, T) -> bool)
  {
    forall i, j :: 0 <= i < j < |s| ==> !before(s[j], s[i])
  }

  /**
   * What a comparator needs for a stable sort to yield a sorted list: it is
   * asymmetric, and "not before" is transitive (a strict weak order).
   */
  ghost predicate StrictWeakOrder<T(!new)>(before: (T, T) -> bool)
  {
    && (forall x, y :: before(x, y) ==> !before(y, x))
    && (forall x, y, z :: !before(x, y) && !before(y, z) ==> !before(x, z))
  }

  /** `x` placed after the last element it need not precede; earlier elements keep their order. */
  function Insert<T>(s: seq<T>, x: T, before: (T, T) -> bool): (r: seq<T>)
    ensures |r| == |s| + 1
  {
    if s == [] || !before(x, s[|s| - 1]) then s + [x]
    else Insert(s[..|s| - 1], x, before) + [s[|s| - 1]]
  }

  /** The stable sort: each element in turn is inserted into the sorted prefix. */
  function Sort<T>(s: seq<T>, before: (T, T) -> bool): (r: seq<T>)
    ensures |r| == |s|
  {
    if s == [] then []
    else Insert(Sort(s[..|s| - 1], before), s[|s| - 1], before)
  }

  lemma {:induction false} InsertPermutation<T>(s: seq<T>, x: T, before: (T, T) -> bool)
    ensures multiset(Insert(s, x, before)) == multiset(s) + multiset{x}
  {
    if s != [] && before(x, s[|s| - 1]) {
      assert s == s[..|s| - 1] + [s[|s| - 1]];
      InsertPermutation(s[..|s| - 1], x, before);
    }
  }

  /** The sort neither loses nor duplicates an element. */
  lemma {:induction false} SortPermutation<T>(s: seq<T>, before: (T, T) -> bool)
    ensures multiset(Sort(s, before)) == multiset(s)
    ensures |Sort(s, before)| == |s|
  {
    if s != [] {
      assert s == s[..|s| - 1] + [s[|s| - 1]];
      SortPermutation(s[..|s| - 1], before);
      InsertPermutation(Sort(s[..|s| - 1], before), s[|s| - 1], before);
    }
  }

  lemma {:induction false} InsertSorted<T(!new)>(s: seq<T>, x: T, before: (T, T) -> bool)
    requires StrictWeakOrder(before)
    requires Sorted(s, before)
    ensures Sorted(Insert(s, x, before), before)
  {
    if s == [] || !before(x, s[|s| - 1]) {
      var r := s + [x];
      forall i, j | 0 <= i < j < |r| ensures !before(r[j], r[i]) {
        if j == |s| && i < |s| - 1 {
          assert !before(s[|s| - 1], s[i]);
        }
      }
    } else {
      var init, last := s[..|s| - 1], s[|s| - 1];
      assert Sorted(init, before);
      InsertSorted(init, x, before);
      var m := Insert(init, x, before);
      InsertPermutation(init, x, before);
      var r := m + [last];
      forall i | 0 <= i < |m| ensures !before(last, m[i]) {
        assert m[i] in multiset(m);
        if m[i] != x {
          assert m[i] in init;
        }
      }
      assert Sorted(r, before);
    }
  }

  /** The result of the sort is ordered by the comparator. */
  lemma {:induction false} SortSorted<T(!new)>(s: seq<T>, before: (T, T) -> bool)
    requires StrictWeakOrder(before)
    ensures Sorted(Sort(s, before), before)
  {
    if s != [] {
      SortSorted(s[..|s| - 1], before);
      InsertSorted(Sort(s[..|s| - 1], before), s[|s| - 1], before);
    }
  }

  /** A list that is already ordered, ties included, comes back unchanged. */
  lemma {:induction false} SortOfSorted<T>(s: seq<T>, before: (T, T) -> bool)
    requires Sorted(s, before)
    ensures Sort(s, before) == s
  {
    if s != [] {
      var init := s[..|s| - 1];
      assert Sorted(init, before);
      SortOfSorted(init, before);
      assert s == init + [s[|s| - 1]];
    }
  }

  /** Applying `f` to every element. */
  function Map<T, U>(s: seq<T>, f: T -> U): (r: seq<U>)
    ensures |r| == |s| && forall i :: 0 <= i < |s| ==> r[i] == f(s[i])
  {
    seq(|s|, i requires 0 <= i < |s| => f(s[i]))
  }

  lemma MapConcat<T, U>(a: seq<T>, b: seq<T>, f: T -> U)
    ensures Map(a + b, f) == Map(a, f) + Map(b, f)
  {
  }

  lemma {:induction false} InsertMap<T, U>(s: seq<T>, x: T, f: T -> U, before: (T, T) -> bool, before': (U, U) -> bool)
    requires forall a, b :: before'(f(a), f(b)) == before(a, b)
    ensures Insert(Map(s, f), f(x), before') == Map(Insert(s, x, before), f)
  {
    var fs := Map(s, f);
    if s == [] || !before(x, s[|s| - 1]) {
      assert s != [] ==> fs[|s| - 1] == f(s[|s| - 1]);
      assert Insert(fs, f(x), before') == fs + [f(x)];
      MapConcat(s, [x], f);
    } else {
      var init, last := s[..|s| - 1], s[|s| - 1];
      assert fs[|s| - 1] == f(last);
      assert fs[..|s| - 1] == Map(init, f);
      assert Insert(fs, f(x), before') == Insert(Map(init, f), f(x), before') + [f(last)];
      InsertMap(init, x, f, before, before');
      MapConcat(Insert(init, x, before), [last], f);
    }
  }

  /**
   * Sorting commutes with a change of the elements that the comparator cannot see:
   * a field the comparator ignores has no influence on the order.
   */
  lemma {:induction false} SortMap<T, U>(s: seq<T>, f: T -> U, before: (T, T) -> bool, before': (U, U) -> bool)
    requires forall a, b :: before'(f(a), f(b)) == before(a, b)
    ensures Sort(Map(s, f), before') == Map(Sort(s, before), f)
  {
    if s != [] {
      var init := s[..|s| - 1];
      assert Map(s, f)[..|s| - 1] == Map(init, f);
      SortMap(init, f, before, before');
      InsertMap(Sort(init, before), s[|s| - 1], f, before, before');
    }
  }

  lemma SortStep<T>(t: seq<T>, i: nat, before: (T, T) -> bool)
    requires i < |t|
    ensures Sort(t[..i + 1], before) == Insert(Sort(t[..i], before), t[i], before)
  {
    assert t[..i + 1][..i] == t[..i];
  }

  // ---- in place ----------------------------------------------------------

  /** `a.sort(cmp)`: reorders the array in place into `Sort(old(a[..]), before)`. */
  method SortInPlace<T>(a: array<T>, before: (T, T) -> bool)
    modifies a
    ensures a[..] == Sort(old(a[..]), before)
  {
    var i := 0;
    while i < a.Length
      invariant 0 <= i <= a.Length
      invariant a[..i] == Sort(old(a[..])[..i], before)
      invariant a[i..] == old(a[..])[i..]
    {
      InsertAt(a, i, before);
      SortStep(old(a[..]), i, before);
      i := i + 1;
    }
    assert old(a[..])[..a.Length] == old(a[..]);
  }

  /** One step of the sort: `a[i]` is shifted left into the ordered prefix `a[..i]`. */
  method InsertAt<T>(a: array<T>, i: nat, before: (T, T) -> bool)
    requires i < a.Length
    modifies a
    ensures a[..i + 1] == Insert(old(a[..i]), old(a[i]), before)
    ensures a[i + 1..] == old(a[i + 1..])
  {
    ghost var s := a[..i];
    var x := a[i];
    var j := i;
    while j > 0 && before(x, a[j - 1])
      invariant 0 <= j <= i
      invariant a[..j] == s[..j]
      invariant a[j + 1..i + 1] == s[j..]
      invariant a[i + 1..] == old(a[i + 1..])
      invariant Insert(s, x, before) == Insert(s[..j], x, before) + s[j..]
      invariant j == 0 || !before(x, a[j - 1]) ==> Insert(s[..j], x, before) == s[..j] + [x]
    {
      InsertShift(s, j, x, before);
      ShiftRight(a[..], s, i, j);
      a[j] := a[j - 1];
      j := j - 1;
    }
    a[j] := x;
    assert a[..i + 1] == s[..j] + [x] + s[j..];
  }

  /** Copying `t[j - 1]` into slot `j` extends the shifted block by one element on the left. */
  lemma ShiftRight<T>(t: seq<T>, s: seq<T>, i: nat, j: nat)
    requires 0 < j <= i < |t| && |s| == i
    requires t[..j] == s[..j] && t[j + 1..i + 1] == s[j..]
    ensures t[j := t[j - 1]][..j - 1] == s[..j - 1]
    ensures t[j := t[j - 1]][j..i + 1] == s[j - 1..]
    ensures t[j := t[j - 1]][i + 1..] == t[i + 1..]
  {
    assert t[j - 1] == t[..j][j - 1];
    assert s[j - 1..] == [s[j - 1]] + s[j..];
  }

  lemma InsertShift<T>(s: seq<T>, j: nat, x: T, before: (T, T) -> bool)
    requires 0 < j <= |s| && before(x, s[j - 1])
    ensures Insert(s[..j], x, before) + s[j..] == Insert(s[..j - 1], x, before) + s[j - 1..]
  {
    assert s[..j][..j - 1] == s[..j - 1];
    assert s[j - 1..] == [s[j - 1]] + s[j..];
  }
}
