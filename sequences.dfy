/**
  The standard-library vector operations the graph code relies on:
  `sort`, `sort_by` (both stable) and `dedup`. Their implementations are
  not part of the program, so they are modelled by value: a stable insertion
  sort over an arbitrary total preorder, and removal of consecutive repeats.
  For a total preorder the output of a stable sort is fully determined, so
  the choice of sorting algorithm does not matter.
 */
module Sequences {

  /** `le` is total and transitive: the comparison a sort may be given. */
  ghost predicate TotalPreorder<T(!new)>(le: (T, T) -> bool)
  {
    && (forall a, b :: le(a, b) || le(b, a))
    && (forall a, b, c :: le(a, b) && le(b, c) ==> le(a, c))
  }

  /** Every element is `le` every later element. */
  ghost predicate Sorted<T>(s: seq<T>, le: (T, T) -> bool)
  {
    forall i, j :: 0 <= i < j < |s| ==> le(s[i], s[j])
  }

  /** Whenever two elements compare as equal under `le`, the earlier one is
      `lt`-below the later one: the tie-breaking order survived the sort. */
  ghost predicate TiesOrdered<T>(s: seq<T>, le: (T, T) -> bool, lt: (T, T) -> bool)
  {
    forall i, j :: 0 <= i < j < |s| && le(s[j], s[i]) ==> lt(s[i], s[j])
  }

  /** Inserts `x` after every element that is `le` it, the stable choice. */
  function Insert<T>(r: seq<T>, x: T, le: (T, T) -> bool): (r': seq<T>)
    ensures |r'| == |r| + 1
    ensures multiset(r') == multiset(r) + multiset{x}
  {
    if r == [] then [x]
    else if le(r[0], x) then
      assert r == [r[0]] + r[1..];
      [r[0]] + Insert(r[1..], x, le)
    else [x] + r
  }

  /** Stable sort: each element in turn is inserted into the sorted prefix. */
  function SortBy<T>(s: seq<T>, le: (T, T) -> bool): (r: seq<T>)
    ensures multiset(r) == multiset(s)
    ensures |r| == |s|
  {
    if s == [] then []
    else
      var p, x := s[..|s| - 1], s[|s| - 1];
      assert s == p + [x];
      assert multiset(s) == multiset(p) + multiset{x};
      Insert(SortBy(p, le), x, le)
  }

  /** Removes consecutive repeated elements, keeping the first of each run.
      On arbitrary input the contract below does not fix the order of the
      result; on sorted input it does: `DedupSorted` shows the result is
      sorted, and a sorted sequence without repeats is determined by its
      elements (`Labels.StrictlyAscendingUnique` for labels). */
  function Dedup<T(==,!new)>(s: seq<T>): (r: seq<T>)
    ensures |r| <= |s|
    ensures forall x :: x in r <==> x in s
    ensures |s| > 0 ==> |r| > 0 && r[|r| - 1] == s[|s| - 1]
    ensures forall i :: 0 <= i < |r| - 1 ==> r[i] != r[i + 1]
  {
    if |s| <= 1 then s
    else
      var p := Dedup(s[..|s| - 1]);
      assert s == s[..|s| - 1] + [s[|s| - 1]];
      if s[|s| - 1] == s[|s| - 2] then p else p + [s[|s| - 1]]
  }

  lemma {:induction false} InsertSorted<T(!new)>(r: seq<T>, x: T, le: (T, T) -> bool)
    requires TotalPreorder(le) && Sorted(r, le)
    ensures Sorted(Insert(r, x, le), le)
  {
    if r == [] {
    } else if le(r[0], x) {
      var t := Insert(r[1..], x, le);
      InsertSorted(r[1..], x, le);
      forall k | 0 <= k < |t| ensures le(r[0], t[k]) {
        assert t[k] in multiset(t);
        if t[k] != x {
          assert t[k] in r[1..];
          var m :| 0 <= m < |r| - 1 && r[1..][m] == t[k];
          assert r[m + 1] == t[k];
        }
      }
    } else {
      assert le(x, r[0]);
      forall k | 0 <= k < |r| ensures le(x, r[k]) {
        if k > 0 { assert le(r[0], r[k]); }
      }
    }
  }

  /** The stable sort produces a sorted sequence. */
  lemma {:induction false} SortBySorted<T(!new)>(s: seq<T>, le: (T, T) -> bool)
    requires TotalPreorder(le)
    ensures Sorted(SortBy(s, le), le)
  {
    if s != [] {
      SortBySorted(s[..|s| - 1], le);
      InsertSorted(SortBy(s[..|s| - 1], le), s[|s| - 1], le);
    }
  }

  lemma {:induction false} InsertAfterAll<T>(r: seq<T>, x: T, le: (T, T) -> bool)
    requires forall k :: 0 <= k < |r| ==> le(r[k], x)
    ensures Insert(r, x, le) == r + [x]
  {
    if r != [] {
      InsertAfterAll(r[1..], x, le);
      assert r == [r[0]] + r[1..];
    }
  }

  /** Sorting an already sorted sequence leaves it as it is. */
  lemma {:induction false} SortByOfSorted<T>(s: seq<T>, le: (T, T) -> bool)
    requires Sorted(s, le)
    ensures SortBy(s, le) == s
  {
    if s != [] {
      var p := s[..|s| - 1];
      SortByOfSorted(p, le);
      InsertAfterAll(p, s[|s| - 1], le);
      assert p + [s[|s| - 1]] == s;
    }
  }

  /** Sorting twice is the same as sorting once. */
  lemma SortByIdempotent<T(!new)>(s: seq<T>, le: (T, T) -> bool)
    requires TotalPreorder(le)
    ensures SortBy(SortBy(s, le), le) == SortBy(s, le)
  {
    SortBySorted(s, le);
    SortByOfSorted(SortBy(s, le), le);
  }

  lemma TiesOrderedCons<T>(y: T, t: seq<T>, le: (T, T) -> bool, lt: (T, T) -> bool)
    requires TiesOrdered(t, le, lt)
    requires forall k :: 0 <= k < |t| && le(t[k], y) ==> lt(y, t[k])
    ensures TiesOrdered([y] + t, le, lt)
  {
    var r := [y] + t;
    forall i, j | 0 <= i < j < |r| && le(r[j], r[i]) ensures lt(r[i], r[j]) {
      assert r[j] == t[j - 1];
      if i > 0 {
        assert r[i] == t[i - 1];
      }
    }
  }

  lemma {:induction false} InsertTies<T(!new)>(r: seq<T>, x: T, le: (T, T) -> bool, lt: (T, T) -> bool)
    requires TotalPreorder(le) && Sorted(r, le) && TiesOrdered(r, le, lt)
    requires forall y :: y in r ==> lt(y, x)
    ensures TiesOrdered(Insert(r, x, le), le, lt)
  {
    if r == [] {
    } else if le(r[0], x) {
      var t := Insert(r[1..], x, le);
      assert Sorted(r[1..], le);
      assert TiesOrdered(r[1..], le, lt);
      InsertTies(r[1..], x, le, lt);
      forall k | 0 <= k < |t| && le(t[k], r[0]) ensures lt(r[0], t[k]) {
        assert t[k] in multiset(t);
        if t[k] != x {
          assert t[k] in r[1..];
          var m :| 0 <= m < |r| - 1 && r[1..][m] == t[k];
          assert r[m + 1] == t[k];
        }
      }
      TiesOrderedCons(r[0], t, le, lt);
    } else {
      forall k | 0 <= k < |r| ensures !le(r[k], x) {
        assert le(r[0], r[k]) by { if k > 0 { assert Sorted(r, le); } }
      }
      TiesOrderedCons(x, r, le, lt);
    }
  }

  /** Stability: if the input is strictly increasing under `lt`, then elements
      that the sort consider equal leave the sort still in `lt` order. */
  lemma {:induction false} SortByTies<T(!new)>(s: seq<T>, le: (T, T) -> bool, lt: (T, T) -> bool)
    requires TotalPreorder(le)
    requires forall i, j :: 0 <= i < j < |s| ==> lt(s[i], s[j])
    ensures TiesOrdered(SortBy(s, le), le, lt)
  {
    if s != [] {
      var p, x := s[..|s| - 1], s[|s| - 1];
      SortByTies(p, le, lt);
      SortBySorted(p, le);
      var q := SortBy(p, le);
      forall y | y in q ensures lt(y, x) {
        assert y in multiset(q);
        var m :| 0 <= m < |p| && p[m] == y;
      }
      InsertTies(q, x, le, lt);
    }
  }

  /** On a sorted input, dedup keeps it sorted. */
  lemma {:induction false} DedupSorted<T(!new)>(s: seq<T>, le: (T, T) -> bool)
    requires Sorted(s, le)
    ensures Sorted(Dedup(s), le)
  {
    if |s| > 1 {
      var p := s[..|s| - 1];
      DedupSorted(p, le);
      if s[|s| - 1] != s[|s| - 2] {
        var d := Dedup(p);
        forall i | 0 <= i < |d| ensures le(d[i], s[|s| - 1]) {
          assert d[i] in p;
          var m :| 0 <= m < |p| && p[m] == d[i];
        }
      }
    }
  }
}
