/**
 * Order-preserving filtering and stable sorting of sequences.
 *
 * JavaScript's `Array.prototype.filter` and `Array.prototype.sort` are the two
 * library operations the destination browser is built from.  `sort` is stable
 * (ECMAScript 2019 onwards) and reorders the array in place; for a comparator
 * that is a total preorder there is exactly one stable sorted permutation of
 * a sequence, so a stable insertion sort describes the library call's result.
 * A comparator `cmp` is represented by `le(a, b) == (cmp(a, b) <= 0)`: `a` may
 * stay before `b`.
 */
module Seqs {
  import opened Wrappers

  /**
   * `s.find(p)`: the first element of `s` that satisfies `p`, or `None` when
   * no element does.
   */
  function FindFirst<T>(s: seq<T>, p: T -> bool): (r: Option<T>)
    ensures r.Some? ==> r.value in s && p(r.value)
    ensures r.Some? ==> exists i :: 0 <= i < |s| && s[i] == r.value && forall j :: 0 <= j < i ==> !p(s[j])
    ensures r.None? <==> forall i :: 0 <= i < |s| ==> !p(s[i])
  {
    if s == [] then None
    else if p(s[0]) then
      Some(s[0])
    else
      var r := FindFirst(s[1..], p);
      assert forall i :: 1 <= i < |s| ==> s[i] == s[1..][i - 1];
      assert r.Some? ==> exists i :: 0 <= i < |s| && s[i] == r.value && forall j :: 0 <= j < i ==> !p(s[j]) by {
        if r.Some? {
          var k :| 0 <= k < |s[1..]| && s[1..][k] == r.value && forall j :: 0 <= j < k ==> !p(s[1..][j]);
          assert s[k + 1] == r.value && forall j :: 0 <= j < k + 1 ==> !p(s[j]);
        }
      }
      r
  }

  /** `s.filter(p)`: the elements of `s` that satisfy `p`, in their order in `s`. */
  function Filter<T>(s: seq<T>, p: T -> bool): (r: seq<T>)
    ensures |r| <= |s|
  {
    if s == [] then []
    else Filter(s[..|s| - 1], p) + (if p(s[|s| - 1]) then [s[|s| - 1]] else [])
  }

  lemma {:induction false} FilterAppend<T>(a: seq<T>, b: seq<T>, p: T -> bool)
    ensures Filter(a + b, p) == Filter(a, p) + Filter(b, p)
    decreases |b|
  {
    if b == [] {
      assert a + b == a;
    } else {
      var b' := b[..|b| - 1];
      assert (a + b)[..|a + b| - 1] == a + b';
      FilterAppend(a, b', p);
    }
  }

  /** An element is kept exactly when it occurs in the input and satisfies `p`. */
  lemma {:induction false} FilterMember<T>(s: seq<T>, p: T -> bool, x: T)
    ensures x in Filter(s, p) <==> x in s && p(x)
  {
    if s != [] {
      var s' := s[..|s| - 1];
      assert s == s' + [s[|s| - 1]];
      FilterMember(s', p, x);
    }
  }

  /** Every kept element satisfies `p`. */
  lemma FilterSatisfies<T>(s: seq<T>, p: T -> bool)
    ensures forall i :: 0 <= i < |Filter(s, p)| ==> p(Filter(s, p)[i])
  {
    var r := Filter(s, p);
    forall i | 0 <= i < |r| ensures p(r[i]) {
      assert r[i] in r;
      FilterMember(s, p, r[i]);
    }
  }

  /** Filtering keeps each element at most as often as the input holds it. */
  lemma {:induction false} FilterSubMultiset<T>(s: seq<T>, p: T -> bool)
    ensures multiset(Filter(s, p)) <= multiset(s)
  {
    if s != [] {
      var s' := s[..|s| - 1];
      assert s == s' + [s[|s| - 1]];
      FilterSubMultiset(s', p);
    }
  }

  /** A rearrangement of a filtered sequence holds only elements that satisfy `p`. */
  lemma PermutedFilterSatisfies<T>(s: seq<T>, p: T -> bool, r: seq<T>)
    requires multiset(r) == multiset(Filter(s, p))
    ensures forall i :: 0 <= i < |r| ==> p(r[i])
  {
    forall i | 0 <= i < |r| ensures p(r[i]) {
      assert r[i] in multiset(r);
      FilterMember(s, p, r[i]);
    }
  }

  /** Filtering with a predicate every element satisfies is a no-op. */
  lemma {:induction false} FilterKeepsAll<T>(s: seq<T>, p: T -> bool)
    requires forall i :: 0 <= i < |s| ==> p(s[i])
    ensures Filter(s, p) == s
  {
    if s != [] {
      FilterKeepsAll(s[..|s| - 1], p);
    }
  }

  lemma {:induction false} FilterKeepsNone<T>(s: seq<T>, p: T -> bool)
    requires forall i :: 0 <= i < |s| ==> !p(s[i])
    ensures Filter(s, p) == []
  {
    if s != [] {
      FilterKeepsNone(s[..|s| - 1], p);
    }
  }

  /** Two predicates that agree on the elements of `s` filter it alike. */
  lemma {:induction false} FilterCongruent<T>(s: seq<T>, p: T -> bool, q: T -> bool)
    requires forall i :: 0 <= i < |s| ==> p(s[i]) == q(s[i])
    ensures Filter(s, p) == Filter(s, q)
  {
    if s != [] {
      FilterCongruent(s[..|s| - 1], p, q);
    }
  }

  /** The multiset of kept elements is exactly the part of `s` that satisfies `p`. */
  lemma {:induction false} FilterMultiset<T>(s: seq<T>, p: T -> bool, x: T)
    ensures multiset(Filter(s, p))[x] == if p(x) then multiset(s)[x] else 0
  {
    if s != [] {
      var s' := s[..|s| - 1];
      assert s == s' + [s[|s| - 1]];
      FilterMultiset(s', p, x);
    }
  }

  /** `le` orders every pair and is transitive (hence also reflexive). */
  ghost predicate TotalPreorder<T(!new)>(le: (T, T) -> bool) {
    && (forall x, y :: le(x, y) || le(y, x))
    && (forall x, y, z :: le(x, y) && le(y, z) ==> le(x, z))
  }

  predicate SortedBy<T>(s: seq<T>, le: (T, T) -> bool) {
    forall i, j :: 0 <= i < j < |s| ==> le(s[i], s[j])
  }

  /** `x` and `y` compare as equal: the comparator returns 0 both ways. */
  predicate Equiv<T>(le: (T, T) -> bool, x: T, y: T) {
    le(x, y) && le(y, x)
  }

  /** The class of elements that compare equal to `x`. */
  function EquivTo<T>(le: (T, T) -> bool, x: T): T -> bool {
    y => Equiv(le, x, y)
  }

  /**
   * Inserts `x` into `s` from the back: `x` moves left past every element that
   * must come after it and stops behind the first one that may precede it.
   */
  function Insert<T>(s: seq<T>, x: T, le: (T, T) -> bool): (r: seq<T>)
    ensures |r| == |s| + 1
  {
    if s == [] then [x]
    else if le(s[|s| - 1], x) then s + [x]
    else Insert(s[..|s| - 1], x, le) + [s[|s| - 1]]
  }

  /** Stable insertion sort: each element is inserted, in input order, into the sorted prefix. */
  function InsertionSort<T>(s: seq<T>, le: (T, T) -> bool): (r: seq<T>)
    ensures |r| == |s|
  {
    if s == [] then []
    else Insert(InsertionSort(s[..|s| - 1], le), s[|s| - 1], le)
  }

  lemma {:induction false} InsertPermutes<T>(s: seq<T>, x: T, le: (T, T) -> bool)
    ensures multiset(Insert(s, x, le)) == multiset(s) + multiset{x}
  {
    if s != [] && !le(s[|s| - 1], x) {
      assert s == s[..|s| - 1] + [s[|s| - 1]];
      InsertPermutes(s[..|s| - 1], x, le);
    }
  }

  /** The insertion sort returns a permutation of its input. */
  lemma {:induction false} InsertionSortPermutes<T>(s: seq<T>, le: (T, T) -> bool)
    ensures multiset(InsertionSort(s, le)) == multiset(s)
  {
    if s != [] {
      assert s == s[..|s| - 1] + [s[|s| - 1]];
      InsertionSortPermutes(s[..|s| - 1], le);
      InsertPermutes(InsertionSort(s[..|s| - 1], le), s[|s| - 1], le);
    }
  }

  lemma {:induction false} InsertSorted<T(!new)>(s: seq<T>, x: T, le: (T, T) -> bool)
    requires TotalPreorder(le) && SortedBy(s, le)
    ensures SortedBy(Insert(s, x, le), le)
  {
    if s == [] {
    } else if le(s[|s| - 1], x) {
      var r := s + [x];
      forall i, j | 0 <= i < j < |r| ensures le(r[i], r[j]) {
        if j == |s| && i < |s| - 1 {
          assert le(s[i], s[|s| - 1]);
        }
      }
    } else {
      var front, last := s[..|s| - 1], s[|s| - 1];
      InsertSorted(front, x, le);
      var ins := Insert(front, x, le);
      var r := ins + [last];
      InsertPermutes(front, x, le);
      forall i | 0 <= i < |ins| ensures le(ins[i], last) {
        var y := ins[i];
        assert y in multiset(ins);
        assert y in multiset(front) || y == x;
        if y != x {
          var k :| 0 <= k < |front| && front[k] == y;
          assert le(s[k], s[|s| - 1]);
        }
      }
      forall i, j | 0 <= i < j < |r| ensures le(r[i], r[j]) {
        if j < |ins| {
          assert r[i] == ins[i] && r[j] == ins[j];
        }
      }
    }
  }

  /** The result of the insertion sort is ordered by `le`. */
  lemma {:induction false} InsertionSortSorted<T(!new)>(s: seq<T>, le: (T, T) -> bool)
    requires TotalPreorder(le)
    ensures SortedBy(InsertionSort(s, le), le)
  {
    if s != [] {
      InsertionSortSorted(s[..|s| - 1], le);
      InsertSorted(InsertionSort(s[..|s| - 1], le), s[|s| - 1], le);
    }
  }

  lemma {:induction false} InsertStable<T(!new)>(s: seq<T>, x: T, le: (T, T) -> bool, z: T)
    requires TotalPreorder(le) && SortedBy(s, le)
    ensures Filter(Insert(s, x, le), EquivTo(le, z))
         == Filter(s, EquivTo(le, z)) + (if Equiv(le, z, x) then [x] else [])
  {
    var p := EquivTo(le, z);
    if s == [] {
      assert Insert(s, x, le) == [x];
      assert Filter([x], p) == Filter([], p) + (if p(x) then [x] else []);
    } else if le(s[|s| - 1], x) {
      FilterAppend(s, [x], p);
      assert Filter([x], p) == Filter([], p) + (if p(x) then [x] else []);
    } else {
      var front, last := s[..|s| - 1], s[|s| - 1];
      InsertStable(front, x, le, z);
      var ins := Insert(front, x, le);
      assert Insert(s, x, le) == ins + [last];
      assert (ins + [last])[..|ins + [last]| - 1] == ins;
      assert !(p(x) && p(last));
    }
  }

  /**
   * Stability: the elements that compare equal to any `z` appear in the output
   * in exactly the order they had in the input.
   */
  lemma {:induction false} InsertionSortStable<T(!new)>(s: seq<T>, le: (T, T) -> bool, z: T)
    requires TotalPreorder(le)
    ensures Filter(InsertionSort(s, le), EquivTo(le, z)) == Filter(s, EquivTo(le, z))
  {
    if s != [] {
      var front, last := s[..|s| - 1], s[|s| - 1];
      InsertionSortStable(front, le, z);
      InsertionSortSorted(front, le);
      InsertStable(InsertionSort(front, le), last, le, z);
    }
  }

  /**
   * Stability for any predicate that picks out one class of equal elements
   * (or nothing): the chosen elements keep their input order.
   */
  lemma InsertionSortKeepsClass<T(!new)>(s: seq<T>, le: (T, T) -> bool, p: T -> bool)
    requires TotalPreorder(le)
    requires forall x, y :: p(x) ==> (p(y) <==> Equiv(le, x, y))
    ensures Filter(InsertionSort(s, le), p) == Filter(s, p)
  {
    var sorted := InsertionSort(s, le);
    InsertionSortPermutes(s, le);
    if z :| z in s && p(z) {
      InsertionSortStable(s, le, z);
      FilterCongruent(sorted, p, EquivTo(le, z));
      FilterCongruent(s, p, EquivTo(le, z));
    } else {
      forall i | 0 <= i < |sorted| ensures !p(sorted[i]) {
        assert sorted[i] in multiset(s);
      }
      FilterKeepsNone(sorted, p);
      FilterKeepsNone(s, p);
    }
  }

  /** In an ordered sequence, each of the first `k` elements may precede every element after them. */
  lemma SortedPrefixDominates<T>(s: seq<T>, le: (T, T) -> bool, k: nat)
    requires SortedBy(s, le) && k <= |s|
    ensures forall y, i :: y in multiset(s) - multiset(s[..k]) && 0 <= i < k ==> le(s[i], y)
  {
    assert s == s[..k] + s[k..];
    assert multiset(s) - multiset(s[..k]) == multiset(s[k..]);
    forall y, i | y in multiset(s[k..]) && 0 <= i < k ensures le(s[i], y) {
      var j :| 0 <= j < |s[k..]| && s[k..][j] == y;
      assert s[k + j] == y;
    }
  }

  /** An already ordered sequence is left as it is. */
  lemma {:induction false} InsertionSortOfSorted<T>(s: seq<T>, le: (T, T) -> bool)
    requires SortedBy(s, le)
    ensures InsertionSort(s, le) == s
  {
    if s != [] {
      var front := s[..|s| - 1];
      assert SortedBy(front, le);
      InsertionSortOfSorted(front, le);
      if |s| > 1 {
        assert le(s[|s| - 2], s[|s| - 1]);
      }
      assert front + [s[|s| - 1]] == s;
    }
  }

  /**
   * `a.sort(cmp)`: reorders `a` in place, inserting each element in turn into
   * the sorted prefix before it.
   */
  method SortInPlace<T>(a: array<T>, le: (T, T) -> bool)
    modifies a
    ensures a[..] == InsertionSort(old(a[..]), le)
  {
    ghost var s := a[..];
    var i := 0;
    while i < a.Length
      invariant 0 <= i <= a.Length
      invariant a[..i] == InsertionSort(s[..i], le)
      invariant a[i..] == s[i..]
    {
      assert s[..i + 1][..i] == s[..i] && s[..i + 1][i] == s[i];
      InsertLast(a, i, le);
      i := i + 1;
    }
    assert a[..] == a[..a.Length] && s == s[..a.Length];
  }

  /** One step of the in-place sort: shifts `a[i]` left into the sorted prefix `a[..i]`. */
  method InsertLast<T>(a: array<T>, i: nat, le: (T, T) -> bool)
    requires i < a.Length
    modifies a
    ensures a[..i + 1] == Insert(old(a[..i]), old(a[i]), le)
    ensures a[i + 1..] == old(a[i + 1..])
  {
    ghost var sorted := a[..i];
    var x := a[i];
    var j := i;
    ShiftStart(sorted, x, le);
    while j > 0 && !le(a[j - 1], x)
      invariant 0 <= j <= i
      invariant forall k :: 0 <= k < j ==> a[k] == sorted[k]
      invariant forall k :: j < k <= i ==> a[k] == sorted[k - 1]
      invariant forall k :: i < k < a.Length ==> a[k] == old(a[k])
      invariant Insert(sorted, x, le) == Insert(sorted[..j], x, le) + sorted[j..]
    {
      ShiftStep(sorted, j, x, le);
      a[j] := a[j - 1];
      j := j - 1;
    }
    ShiftStop(sorted, j, x, le);
    a[j] := x;
    assert a[..i + 1] == sorted[..j] + [x] + sorted[j..];
  }

  lemma ShiftStart<T>(s: seq<T>, x: T, le: (T, T) -> bool)
    ensures Insert(s, x, le) == Insert(s[..|s|], x, le) + s[|s|..]
  {
    assert s[..|s|] == s && s[|s|..] == [];
  }

  /** `FilterCons` for a non-empty sequence given as a whole. */
  lemma FilterHead<T>(s: seq<T>, p: T -> bool)
    requires s != []
    ensures Filter(s, p) == (if p(s[0]) then [s[0]] else []) + Filter(s[1..], p)
  {
    FilterCons(s[0], s[1..], p);
    assert [s[0]] + s[1..] == s;
  }

  lemma {:induction false} FilterCons<T>(x: T, s: seq<T>, p: T -> bool)
    ensures Filter([x] + s, p) == (if p(x) then [x] else []) + Filter(s, p)
    decreases |s|
  {
    var head := if p(x) then [x] else [];
    if s == [] {
      assert [x] + s == [x];
      assert [x][..0] == [];
      assert Filter([x], p) == head;
    } else {
      var t, front, last := [x] + s, s[..|s| - 1], s[|s| - 1];
      assert t[..|t| - 1] == [x] + front;
      assert t[|t| - 1] == last;
      FilterCons(x, front, p);
      var tail := if p(last) then [last] else [];
      assert Filter(t, p) == head + Filter(front, p) + tail;
    }
  }

  /** Moving `x` past `s[j - 1]`, which must come after it. */
  lemma ShiftStep<T>(s: seq<T>, j: nat, x: T, le: (T, T) -> bool)
    requires 0 < j <= |s| && !le(s[j - 1], x)
    ensures Insert(s[..j], x, le) + s[j..] == Insert(s[..j - 1], x, le) + s[j - 1..]
  {
    var p := s[..j];
    assert p[|p| - 1] == s[j - 1];
    assert p[..|p| - 1] == s[..j - 1];
    assert Insert(p, x, le) == Insert(s[..j - 1], x, le) + [s[j - 1]];
    assert s[j - 1..] == [s[j - 1]] + s[j..];
  }

  /** `x` comes to rest behind `s[j - 1]`, or at the front. */
  lemma ShiftStop<T>(s: seq<T>, j: nat, x: T, le: (T, T) -> bool)
    requires j <= |s| && (j == 0 || le(s[j - 1], x))
    ensures Insert(s[..j], x, le) == s[..j] + [x]
  {
  }
}
