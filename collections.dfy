/**
 * The array built-ins behind the category list: `[...new Set(xs)]`
 * (distinct values in first-occurrence order) and `Array.prototype.sort`
 * with its default comparison, modelled as an insertion sort under the
 * lexicographic order of `Strings.StrLe`.
 */
module Collections {
  import opened Strings

  ghost predicate NoDuplicates<T>(s: seq<T>)
  {
    forall i, j :: 0 <= i < j < |s| ==> s[i] != s[j]
  }

  /** The set of values in a sequence. */
  function Elements<T>(s: seq<T>): set<T>
  {
    set x | x in s
  }

  /** `[...new Set(s)]`: each value once, at the place it first occurs. */
  function Distinct(s: seq<string>): (r: seq<string>)
    ensures NoDuplicates(r)
    ensures forall x :: x in r <==> x in s
    ensures |r| <= |s|
  {
    if s == [] then []
    else
      var front := Distinct(s[..|s| - 1]);
      var last := s[|s| - 1];
      assert forall x :: x in s <==> x in s[..|s| - 1] || x == last by {
        assert s == s[..|s| - 1] + [last];
      }
      if last in front then front else front + [last]
  }

  /** A sequence without duplicates has as many elements as its set. */
  lemma {:induction false} NoDuplicatesCardinality<T>(s: seq<T>)
    requires NoDuplicates(s)
    ensures |Elements(s)| == |s|
  {
    if s != [] {
      var front := s[..|s| - 1];
      NoDuplicatesCardinality(front);
      assert s == front + [s[|s| - 1]];
      assert Elements(s) == Elements(front) + {s[|s| - 1]};
      assert s[|s| - 1] !in Elements(front);
    }
  }

  /** The number of distinct values is the size of the value set. */
  lemma DistinctCardinality(s: seq<string>)
    ensures |Distinct(s)| == |Elements(s)|
  {
    NoDuplicatesCardinality(Distinct(s));
    assert Elements(Distinct(s)) == Elements(s);
  }

  /** Ascending under the lexicographic order, for every pair of positions. */
  ghost predicate Sorted(s: seq<string>)
  {
    forall i, j :: 0 <= i < j < |s| ==> StrLe(s[i], s[j])
  }

  /** Two sorted sequences without duplicates that hold the same values are
      equal: the sorted category list is determined by its values. */
  lemma {:induction false} SortedUnique(a: seq<string>, b: seq<string>)
    requires NoDuplicates(a) && Sorted(a) && NoDuplicates(b) && Sorted(b)
    requires forall x :: x in a <==> x in b
    ensures a == b
    decreases |a|
  {
    NoDuplicatesCardinality(a);
    NoDuplicatesCardinality(b);
    assert Elements(a) == Elements(b);
    if a != [] {
      var x, y := a[0], b[0];
      assert StrLe(x, y) by {
        assert b[0] in b;
        var j :| 0 <= j < |a| && a[j] == y;
        if j == 0 { StrLeReflexive(x); }
      }
      assert StrLe(y, x) by {
        assert a[0] in a;
        var j :| 0 <= j < |b| && b[j] == x;
        if j == 0 { StrLeReflexive(y); }
      }
      StrLeAntisymmetric(x, y);
      forall z ensures z in a[1..] <==> z in b[1..] {
        assert z in a[1..] <==> z in a && z != x;
        assert z in b[1..] <==> z in b && z != y;
      }
      SortedUnique(a[1..], b[1..]);
      assert a == [x] + a[1..] && b == [y] + b[1..];
    }
  }

  /** Places `x` before the first element it does not follow. */
  function Insert(x: string, s: seq<string>): (r: seq<string>)
    ensures multiset(r) == multiset(s) + multiset{x}
  {
    if s == [] then [x]
    else if StrLe(x, s[0]) then [x] + s
    else
      assert s == [s[0]] + s[1..];
      [s[0]] + Insert(x, s[1..])
  }

  /** Insertion sort; the default order of `sort()` on strings. */
  function Sort(s: seq<string>): (r: seq<string>)
    ensures multiset(r) == multiset(s)
  {
    if s == [] then []
    else
      assert s == [s[0]] + s[1..];
      Insert(s[0], Sort(s[1..]))
  }

  lemma {:induction false} InsertSorted(x: string, s: seq<string>)
    requires Sorted(s)
    ensures Sorted(Insert(x, s))
  {
    if s == [] {
    } else if StrLe(x, s[0]) {
      var r := [x] + s;
      forall i, j | 0 <= i < j < |r| ensures StrLe(r[i], r[j]) {
        if i == 0 && j > 1 {
          StrLeTransitive(x, s[0], s[j - 1]);
        }
      }
    } else {
      StrLeTotal(x, s[0]);
      InsertSorted(x, s[1..]);
      var t := Insert(x, s[1..]);
      var r := [s[0]] + t;
      forall j | 0 <= j < |t| ensures StrLe(s[0], t[j]) {
        assert t[j] in multiset(t);
        if t[j] != x {
          assert t[j] in multiset(s[1..]);
          var k :| 0 <= k < |s[1..]| && s[1..][k] == t[j];
          assert s[k + 1] == t[j];
        }
      }
      forall i, j | 0 <= i < j < |r| ensures StrLe(r[i], r[j]) {
        if i == 0 {
          assert r[j] == t[j - 1];
        } else {
          assert r[i] == t[i - 1] && r[j] == t[j - 1];
        }
      }
    }
  }

  lemma {:induction false} SortSorted(s: seq<string>)
    ensures Sorted(Sort(s))
  {
    if s != [] {
      SortSorted(s[1..]);
      InsertSorted(s[0], Sort(s[1..]));
    }
  }

  lemma {:induction false} InsertNoDuplicates(x: string, s: seq<string>)
    requires NoDuplicates(s) && x !in s
    ensures NoDuplicates(Insert(x, s))
  {
    if s != [] && !StrLe(x, s[0]) {
      assert s[0] !in s[1..];
      InsertNoDuplicates(x, s[1..]);
      var t := Insert(x, s[1..]);
      assert multiset(t)[s[0]] == 0;
      assert s[0] !in t;
    }
  }

  lemma {:induction false} SortNoDuplicates(s: seq<string>)
    requires NoDuplicates(s)
    ensures NoDuplicates(Sort(s))
  {
    if s != [] {
      assert NoDuplicates(s[1..]);
      SortNoDuplicates(s[1..]);
      assert s[0] !in s[1..];
      assert multiset(Sort(s[1..]))[s[0]] == 0;
      InsertNoDuplicates(s[0], Sort(s[1..]));
    }
  }

  /** `a` is `b` with some elements left out, the rest kept in order. */
  predicate Subsequence<T(==)>(a: seq<T>, b: seq<T>)
    decreases |b|
  {
    if a == [] then true
    else if b == [] then false
    else (a[0] == b[0] && Subsequence(a[1..], b[1..])) || Subsequence(a, b[1..])
  }

  lemma {:induction false} SubsequenceReflexive<T>(a: seq<T>)
    ensures Subsequence(a, a)
  {
    if a != [] {
      SubsequenceReflexive(a[1..]);
    }
  }
}
