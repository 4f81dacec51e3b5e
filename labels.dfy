/**
  Node labels and the label <-> index correspondence of a graph.
  Labels are strings compared as Rust compares `String`s: lexicographically,
  character by character, a proper prefix coming first. Comparing UTF-8 bytes
  and comparing Unicode scalar values give the same order, so `char`
  comparison is used here.
 */
module Labels {
  import opened Sequences

  /** Lexicographic strict order on strings. */
  predicate LexLess(a: string, b: string)
  {
    if |a| == 0 then |b| > 0
    else if |b| == 0 then false
    else if a[0] != b[0] then a[0] < b[0]
    else LexLess(a[1..], b[1..])
  }

  /** The order `sort` uses on labels; a total preorder with `==` as its ties. */
  predicate LexLe(a: string, b: string)
  {
    a == b || LexLess(a, b)
  }

  lemma LexLessIrreflexive(a: string)
    ensures !LexLess(a, a)
  {
  }

  lemma LexLessAsymmetric(a: string, b: string)
    ensures !(LexLess(a, b) && LexLess(b, a))
  {
  }

  lemma {:induction false} LexLessTransitive(a: string, b: string, c: string)
    requires LexLess(a, b) && LexLess(b, c)
    ensures LexLess(a, c)
  {
    if |a| > 0 && a[0] == b[0] && b[0] == c[0] {
      LexLessTransitive(a[1..], b[1..], c[1..]);
    }
  }

  lemma {:induction false} LexLessTotal(a: string, b: string)
    ensures a == b || LexLess(a, b) || LexLess(b, a)
  {
    if |a| > 0 && |b| > 0 && a[0] == b[0] {
      LexLessTotal(a[1..], b[1..]);
      if a[1..] == b[1..] {
        assert a == [a[0]] + a[1..] && b == [b[0]] + b[1..];
      }
    }
  }

  /** `LexLe` is a total preorder, so sorting labels with it is meaningful. */
  lemma LexLeTotalPreorder()
    ensures TotalPreorder(LexLe)
  {
    forall a, b ensures LexLe(a, b) || LexLe(b, a) {
      LexLessTotal(a, b);
    }
    forall a, b, c | LexLe(a, b) && LexLe(b, c) ensures LexLe(a, c) {
      if a != b && b != c {
        LexLessTransitive(a, b, c);
      }
    }
  }

  /** Each label comes strictly before every later one (so none repeats). */
  ghost predicate StrictlyAscending(s: seq<string>)
  {
    forall i, j :: 0 <= i < j < |s| ==> LexLess(s[i], s[j])
  }

  /** `m` maps each label of `labels` to its position, and nothing else. */
  ghost predicate IsIndex(m: map<string, nat>, labels: seq<string>)
  {
    && (forall i :: 0 <= i < |labels| ==> labels[i] in m && m[labels[i]] == i)
    && (forall x :: x in m ==> m[x] < |labels| && labels[m[x]] == x)
  }

  /** Sorted then deduplicated labels are strictly ascending. */
  lemma {:induction false} DedupStrictlyAscending(s: seq<string>)
    requires Sorted(s, LexLe)
    ensures StrictlyAscending(Dedup(s))
  {
    LexLeTotalPreorder();
    var d := Dedup(s);
    DedupSorted(s, LexLe);
    forall i, j | 0 <= i < j < |d| ensures LexLess(d[i], d[j]) {
      if d[i] == d[j] {
        assert LexLe(d[i], d[i + 1]) && LexLe(d[i + 1], d[j]);
        if d[i + 1] != d[j] {
          LexLessAsymmetric(d[i], d[i + 1]);
        }
        assert false;
      }
    }
  }

  /** A set of labels has exactly one strictly ascending arrangement. */
  lemma {:induction false} StrictlyAscendingUnique(a: seq<string>, b: seq<string>)
    requires StrictlyAscending(a) && StrictlyAscending(b)
    requires forall x :: x in a <==> x in b
    ensures a == b
  {
    if a != [] { assert a[0] in b; }
    if b != [] { assert b[0] in a; }
    if a != [] {
      if a[0] != b[0] {
        assert a[0] in b;
        var k :| 0 <= k < |b| && b[k] == a[0];
        assert b[0] in a;
        var m :| 0 <= m < |a| && a[m] == b[0];
        LexLessAsymmetric(a[0], b[0]);
        assert false;
      }
      forall x ensures x in a[1..] <==> x in b[1..] {
        if x in a[1..] {
          var m :| 1 <= m < |a| && a[m] == x;
          LexLessIrreflexive(x);
          assert x != a[0];
          assert x in b;
          assert x != b[0];
          var k :| 0 <= k < |b| && b[k] == x;
          assert k != 0;
          assert b[1..][k - 1] == x;
        }
        if x in b[1..] {
          var k :| 1 <= k < |b| && b[k] == x;
          LexLessIrreflexive(x);
          assert x in a;
          var m :| 0 <= m < |a| && a[m] == x;
          assert m != 0;
          assert a[1..][m - 1] == x;
        }
      }
      StrictlyAscendingUnique(a[1..], b[1..]);
      assert a == [a[0]] + a[1..] && b == [b[0]] + b[1..];
    }
  }

  /** The index is a bijection between the labels and 0 .. |labels|-1. */
  lemma IndexBijection(m: map<string, nat>, labels: seq<string>)
    requires IsIndex(m, labels)
    ensures m.Keys == set x | x in labels
    ensures forall v: nat :: v in m.Values <==> v < |labels|
    ensures forall x, y :: x in m && y in m && m[x] == m[y] ==> x == y
  {
    forall i | 0 <= i < |labels| ensures i in m.Values {
      assert m[labels[i]] == i;
    }
  }
}
