/**
  Stable sorting, as done by Python's `sorted` and by JavaScript's
  `Array.prototype.sort` (stable since ES2019). A comparator is given as a
  "less than or equal" relation that must be a total preorder; the result
  is described by the permutation of input positions it applies.
*/
module Sorting {

  ghost predicate TotalPreorder<T(!new)>(le: (T, T) -> bool)
  {
    (forall a, b :: le(a, b) || le(b, a)) &&
    (forall a, b, c :: le(a, b) && le(b, c) ==> le(a, c))
  }

  /** Position `a` of `s` goes before position `b`: its element is not
      larger, and on a tie the earlier position goes first. */
  predicate Before<T>(s: seq<T>, le: (T, T) -> bool, a: int, b: int)
    requires 0 <= a < |s| && 0 <= b < |s|
  {
    le(s[a], s[b]) && (le(s[b], s[a]) ==> a < b)
  }

  ghost predicate InRange(p: seq<int>, n: int)
  {
    forall k :: 0 <= k < |p| ==> 0 <= p[k] < n
  }

  ghost predicate IsPermutation(p: seq<int>, n: int)
  {
    |p| == n && InRange(p, n) && forall x, y :: 0 <= x < y < |p| ==> p[x] != p[y]
  }

  /** Every earlier position of `p` goes before every later one: the order
      is non-decreasing and ties keep the input order. */
  ghost predicate SortedBy<T>(s: seq<T>, le: (T, T) -> bool, p: seq<int>)
    requires InRange(p, |s|)
  {
    forall x, y :: 0 <= x < y < |p| ==> Before(s, le, p[x], p[y])
  }

  lemma BeforeTrans<T(!new)>(s: seq<T>, le: (T, T) -> bool, a: int, b: int, c: int)
    requires TotalPreorder(le)
    requires 0 <= a < |s| && 0 <= b < |s| && 0 <= c < |s|
    requires Before(s, le, a, b) && Before(s, le, b, c)
    ensures Before(s, le, a, c)
  {
    if le(s[c], s[a]) {
      assert le(s[c], s[b]);
      assert le(s[b], s[a]);
    }
  }

  lemma BeforeTotal<T(!new)>(s: seq<T>, le: (T, T) -> bool, a: int, b: int)
    requires TotalPreorder(le)
    requires 0 <= a < |s| && 0 <= b < |s| && a != b
    ensures Before(s, le, a, b) || Before(s, le, b, a)
  {
  }

  /** Inserts position `i` in front of the first entry that does not go
      before it. */
  function InsertIndex<T>(s: seq<T>, le: (T, T) -> bool, p: seq<int>, i: int): (r: seq<int>)
    requires InRange(p, |s|) && 0 <= i < |s|
    ensures |r| == |p| + 1 && InRange(r, |s|)
    ensures multiset(r) == multiset(p) + multiset{i}
    ensures forall x :: x in r <==> x in p || x == i
  {
    if p == [] then [i]
    else if Before(s, le, p[0], i) then
      assert p == [p[0]] + p[1..];
      [p[0]] + InsertIndex(s, le, p[1..], i)
    else [i] + p
  }

  /** The positions `0 .. n-1`, sorted by insertion. */
  function SortPrefix<T>(s: seq<T>, le: (T, T) -> bool, n: nat): (p: seq<int>)
    requires n <= |s|
    ensures |p| == n && InRange(p, n)
  {
    if n == 0 then []
    else
      var q := SortPrefix(s, le, n - 1);
      var r := InsertIndex(s, le, q, n - 1);
      assert forall k :: 0 <= k < |r| ==> r[k] in q || r[k] == n - 1;
      r
  }

  function SortIndices<T>(s: seq<T>, le: (T, T) -> bool): (p: seq<int>)
    ensures |p| == |s| && InRange(p, |s|)
  {
    SortPrefix(s, le, |s|)
  }

  /** `p` applied to `s`: the elements at the listed positions. */
  function Pick<T>(s: seq<T>, p: seq<int>): (r: seq<T>)
    requires InRange(p, |s|)
    ensures |r| == |p|
  {
    if p == [] then [] else [s[p[0]]] + Pick(s, p[1..])
  }

  lemma {:induction false} PickAt<T>(s: seq<T>, p: seq<int>)
    requires InRange(p, |s|)
    ensures forall k :: 0 <= k < |p| ==> Pick(s, p)[k] == s[p[k]]
  {
    if p != [] {
      PickAt(s, p[1..]);
    }
  }

  /** The stable sort of `s` under `le`. */
  function StableSort<T>(s: seq<T>, le: (T, T) -> bool): (r: seq<T>)
    ensures |r| == |s|
  {
    Pick(s, SortIndices(s, le))
  }

  lemma SortedCons<T>(s: seq<T>, le: (T, T) -> bool, x: int, t: seq<int>)
    requires 0 <= x < |s| && InRange(t, |s|)
    requires SortedBy(s, le, t)
    requires forall y :: y in t ==> Before(s, le, x, y)
    ensures InRange([x] + t, |s|) && SortedBy(s, le, [x] + t)
  {
    var r := [x] + t;
    forall a, b | 0 <= a < b < |r|
      ensures Before(s, le, r[a], r[b])
    {
      assert r[b] == t[b - 1];
      if a > 0 {
        assert r[a] == t[a - 1];
      } else {
        assert r[b] in t;
      }
    }
  }

  lemma {:induction false} InsertIndexSorted<T(!new)>(s: seq<T>, le: (T, T) -> bool, p: seq<int>, i: int)
    requires TotalPreorder(le)
    requires InRange(p, |s|) && 0 <= i < |s| && i !in p
    requires SortedBy(s, le, p)
    ensures InRange(InsertIndex(s, le, p, i), |s|)
    ensures SortedBy(s, le, InsertIndex(s, le, p, i))
  {
    if p == [] {
    } else if Before(s, le, p[0], i) {
      var t := InsertIndex(s, le, p[1..], i);
      InsertIndexSorted(s, le, p[1..], i);
      forall y | y in t
        ensures Before(s, le, p[0], y)
      {
        if y != i {
          var k :| 0 <= k < |p[1..]| && p[1..][k] == y;
          assert p[k + 1] == y;
        }
      }
      SortedCons(s, le, p[0], t);
    } else {
      BeforeTotal(s, le, p[0], i);
      forall y | y in p
        ensures Before(s, le, i, y)
      {
        var k :| 0 <= k < |p| && p[k] == y;
        if k > 0 {
          BeforeTrans(s, le, i, p[0], p[k]);
        }
      }
      SortedCons(s, le, i, p);
    }
  }

  lemma {:induction false} SortPrefixSorted<T(!new)>(s: seq<T>, le: (T, T) -> bool, n: nat)
    requires TotalPreorder(le)
    requires n <= |s|
    ensures SortedBy(s, le, SortPrefix(s, le, n))
  {
    if n > 0 {
      var q := SortPrefix(s, le, n - 1);
      SortPrefixSorted(s, le, n - 1);
      InsertIndexSorted(s, le, q, n - 1);
    }
  }

  lemma SortedDistinct<T(!new)>(s: seq<T>, le: (T, T) -> bool, p: seq<int>)
    requires TotalPreorder(le)
    requires InRange(p, |s|) && SortedBy(s, le, p)
    ensures forall x, y :: 0 <= x < y < |p| ==> p[x] != p[y]
  {
  }

  lemma MultisetAssoc<T>(a: multiset<T>, b: multiset<T>, c: multiset<T>)
    ensures a + (b + c) == (a + b) + c
  {
  }

  lemma PickCons<T>(s: seq<T>, x: int, t: seq<int>)
    requires 0 <= x < |s| && InRange(t, |s|)
    ensures InRange([x] + t, |s|)
    ensures multiset(Pick(s, [x] + t)) == multiset{s[x]} + multiset(Pick(s, t))
  {
    var r := [x] + t;
    assert r[0] == x && r[1..] == t;
    assert Pick(s, r) == [s[x]] + Pick(s, t);
  }

  /** Inserting position `i` into `p` adds `s[i]` to what `p` picks. */
  ghost predicate InsertAddsPick<T>(s: seq<T>, le: (T, T) -> bool, p: seq<int>, i: int)
    requires InRange(p, |s|) && 0 <= i < |s|
  {
    multiset(Pick(s, InsertIndex(s, le, p, i))) == multiset(Pick(s, p)) + multiset{s[i]}
  }

  lemma {:induction false} PickInsert<T>(s: seq<T>, le: (T, T) -> bool, p: seq<int>, i: int)
    requires InRange(p, |s|) && 0 <= i < |s|
    ensures InsertAddsPick(s, le, p, i)
  {
    if p == [] {
      assert Pick(s, InsertIndex(s, le, p, i)) == [s[i]];
    } else if Before(s, le, p[0], i) {
      PickInsert(s, le, p[1..], i);
      PickInsertBehind(s, le, p, i);
    } else {
      PickInsertFront(s, le, p, i);
    }
  }

  lemma PickInsertFront<T>(s: seq<T>, le: (T, T) -> bool, p: seq<int>, i: int)
    requires InRange(p, |s|) && 0 <= i < |s| && p != [] && !Before(s, le, p[0], i)
    ensures InsertAddsPick(s, le, p, i)
  {
    assert InsertIndex(s, le, p, i) == [i] + p;
    PickCons(s, i, p);
  }

  lemma PickInsertBehind<T>(s: seq<T>, le: (T, T) -> bool, p: seq<int>, i: int)
    requires InRange(p, |s|) && 0 <= i < |s| && p != [] && Before(s, le, p[0], i)
    requires InsertAddsPick(s, le, p[1..], i)
    ensures InsertAddsPick(s, le, p, i)
  {
    var q := p[1..];
    var t := InsertIndex(s, le, q, i);
    assert InsertIndex(s, le, p, i) == [p[0]] + t;
    assert p == [p[0]] + q;
    PickConsBoth(s, p[0], t, q, multiset{s[i]});
  }

  /** Putting the same position in front of two index lists keeps the
      difference of what they pick. */
  lemma PickConsBoth<T>(s: seq<T>, x: int, t: seq<int>, q: seq<int>, extra: multiset<T>)
    requires 0 <= x < |s| && InRange(t, |s|) && InRange(q, |s|)
    requires multiset(Pick(s, t)) == multiset(Pick(s, q)) + extra
    ensures InRange([x] + t, |s|) && InRange([x] + q, |s|)
    ensures multiset(Pick(s, [x] + t)) == multiset(Pick(s, [x] + q)) + extra
  {
    PickCons(s, x, t);
    PickCons(s, x, q);
    MultisetAssoc(multiset{s[x]}, multiset(Pick(s, q)), extra);
  }




  lemma {:induction false} PickSortPrefix<T>(s: seq<T>, le: (T, T) -> bool, n: nat)
    requires n <= |s|
    ensures multiset(Pick(s, SortPrefix(s, le, n))) == multiset(s[..n])
  {
    if n > 0 {
      var q := SortPrefix(s, le, n - 1);
      var p := SortPrefix(s, le, n);
      InRangeWiden(q, n - 1, |s|);
      InRangeWiden(p, n, |s|);
      assert multiset(Pick(s, q)) == multiset(s[..n - 1]) by {
        PickSortPrefix(s, le, n - 1);
      }
      assert multiset(Pick(s, p)) == multiset(Pick(s, q)) + multiset{s[n - 1]} by {
        PickSortPrefixStep(s, le, n);
      }
      MultisetSnoc(s, n);
    }
  }

  lemma PickSortPrefixStep<T>(s: seq<T>, le: (T, T) -> bool, n: nat)
    requires 0 < n <= |s|
    ensures multiset(Pick(s, SortPrefix(s, le, n))) ==
            multiset(Pick(s, SortPrefix(s, le, n - 1))) + multiset{s[n - 1]}
  {
    var q := SortPrefix(s, le, n - 1);
    var p := SortPrefix(s, le, n);
    InRangeWiden(q, n - 1, |s|);
    InRangeWiden(p, n, |s|);
    SortPrefixUnfold(s, le, n);
    PickInsertMultiset(s, le, q, n - 1, p);
  }

  lemma InRangeWiden(p: seq<int>, m: int, n: int)
    requires InRange(p, m) && m <= n
    ensures InRange(p, n)
  {
  }

  lemma PickInsertMultiset<T>(s: seq<T>, le: (T, T) -> bool, p: seq<int>, i: int, r: seq<int>)
    requires InRange(p, |s|) && 0 <= i < |s| && InRange(r, |s|)
    requires r == InsertIndex(s, le, p, i)
    ensures multiset(Pick(s, r)) == multiset(Pick(s, p)) + multiset{s[i]}
  {
    PickInsert(s, le, p, i);
  }

  lemma SortPrefixUnfold<T>(s: seq<T>, le: (T, T) -> bool, n: nat)
    requires 0 < n <= |s|
    ensures SortPrefix(s, le, n) == InsertIndex(s, le, SortPrefix(s, le, n - 1), n - 1)
  {
  }

  lemma MultisetSnoc<T>(s: seq<T>, n: nat)
    requires 0 < n <= |s|
    ensures multiset(s[..n]) == multiset(s[..n-1]) + multiset{s[n-1]}
  {
    assert s[..n] == s[..n - 1] + [s[n - 1]];
  }
  /** The stable sort applies a permutation of the input positions, keeps the
      multiset of elements, is non-decreasing, and keeps equal elements in
      their input order. */
  lemma StableSortCorrect<T(!new)>(s: seq<T>, le: (T, T) -> bool)
    requires TotalPreorder(le)
    ensures IsPermutation(SortIndices(s, le), |s|)
    ensures SortedBy(s, le, SortIndices(s, le))
    ensures forall k :: 0 <= k < |s| ==> StableSort(s, le)[k] == s[SortIndices(s, le)[k]]
    ensures multiset(StableSort(s, le)) == multiset(s)
    ensures forall x, y :: 0 <= x < y < |s| ==> le(StableSort(s, le)[x], StableSort(s, le)[y])
  {
    var p := SortIndices(s, le);
    SortPrefixSorted(s, le, |s|);
    SortedDistinct(s, le, p);
    PickSortPrefix(s, le, |s|);
    assert s[..|s|] == s;
    PickAt(s, p);
  }
}
