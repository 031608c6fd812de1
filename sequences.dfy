/**
 * The array operations the dashboard's tables are built from: `filter`, the
 * de-duplication `[...new Set(xs)]`, `slice(0, n)`, and `sort` with a
 * comparator. ECMA-262 requires `Array.prototype.sort` to be stable and reads
 * a NaN comparator result as +0; here the comparator's result is a real and
 * the caller maps NaN to 0.0. Sort is a stable insertion sort: for a consistent
 * comparator this fixes the order completely, and for any comparator it is a
 * permutation of its input.
 */
module Sequences {
  import opened Wrappers

  /** `s.filter(p)`. */
  function Filter<T(!new)>(s: seq<T>, p: T -> bool): (r: seq<T>)
    ensures |r| <= |s|
    ensures forall x :: x in r <==> x in s && p(x)
    ensures multiset(r) <= multiset(s)
  {
    if |s| == 0 then []
    else
      var rest := Filter(s[1..], p);
      assert s == [s[0]] + s[1..];
      if p(s[0]) then [s[0]] + rest else rest
  }

  /** Filtering keeps exactly the elements that satisfy p, each as often as it occurs. */
  lemma {:induction false} FilterCount<T(!new)>(s: seq<T>, p: T -> bool, x: T)
    ensures multiset(Filter(s, p))[x] == if p(x) then multiset(s)[x] else 0
  {
    if |s| > 0 {
      FilterCount(s[1..], p, x);
      assert s == [s[0]] + s[1..];
    }
  }

  /** When every element satisfies p, filtering changes nothing. */
  lemma {:induction false} FilterAll<T(!new)>(s: seq<T>, p: T -> bool)
    requires forall x :: x in s ==> p(x)
    ensures Filter(s, p) == s
  {
    if |s| > 0 {
      FilterAll(s[1..], p);
      assert s == [s[0]] + s[1..];
    }
  }

  /** `[...new Set(s)]`: each value once, in the order of its first occurrence. */
  function Distinct<T(==,!new)>(s: seq<T>): (r: seq<T>)
    ensures forall x :: x in r <==> x in s
    ensures forall i, j :: 0 <= i < j < |r| ==> r[i] != r[j]
  {
    if |s| == 0 then []
    else
      var d := Distinct(s[..|s| - 1]);
      assert forall x :: x in s <==> x in s[..|s| - 1] || x == s[|s| - 1] by {
        assert s == s[..|s| - 1] + [s[|s| - 1]];
      }
      if s[|s| - 1] in d then d else d + [s[|s| - 1]]
  }

  /** Each value of s occurs exactly once in Distinct(s), and no other value does. */
  lemma {:induction false} DistinctCount<T(!new)>(s: seq<T>, x: T)
    ensures multiset(Distinct(s))[x] == if x in s then 1 else 0
  {
    if |s| > 0 {
      var p := s[..|s| - 1];
      DistinctCount(p, x);
      assert s == p + [s[|s| - 1]];
      assert x in s <==> x in p || x == s[|s| - 1];
    }
  }

  /** The first n elements, or all of them when there are fewer: `s.slice(0, n)`. */
  function Take<T>(s: seq<T>, n: nat): (r: seq<T>)
    ensures |r| == if |s| < n then |s| else n
    ensures r == s[..|r|]
  {
    if |s| < n then s else s[..n]
  }

  // ---------------------------------------------------------------------------
  // Stable sort by a comparator

  /** How `sort` reads a comparator's result: NaN (None) counts as +0, so the two values are kept in their order. */
  function SortResult(r: Option<real>): real {
    r.GetOr(0.0)
  }

  /** A comparator that is a total preorder on the values of u: ECMA-262's "consistent comparator". */
  predicate ConsistentOn<T(==,!new)>(cmp: (T, T) -> real, u: seq<T>) {
    (forall a, b :: a in u && b in u ==> cmp(a, b) <= 0.0 || cmp(b, a) <= 0.0) &&
    (forall a, b, c :: a in u && b in u && c in u && cmp(a, b) <= 0.0 && cmp(b, c) <= 0.0 ==> cmp(a, c) <= 0.0)
  }

  /** A comparator that subtracts integer keys is consistent. */
  lemma KeyDifferenceConsistent<T(!new)>(cmp: (T, T) -> real, u: seq<T>, key: T -> int)
    requires forall a, b :: a in u && b in u ==> cmp(a, b) == (key(a) - key(b)) as real
    ensures ConsistentOn(cmp, u)
  {
  }

  /** Every element may precede every later one. */
  predicate SortedBy<T>(s: seq<T>, cmp: (T, T) -> real) {
    forall i, j :: 0 <= i < j < |s| ==> cmp(s[i], s[j]) <= 0.0
  }

  /** x goes in front of the first element it does not compare above; equal elements stay after it. */
  function Insert<T>(x: T, s: seq<T>, cmp: (T, T) -> real): (r: seq<T>)
    ensures multiset(r) == multiset(s) + multiset{x}
  {
    if |s| == 0 || cmp(x, s[0]) <= 0.0 then [x] + s
    else
      assert s == [s[0]] + s[1..];
      [s[0]] + Insert(x, s[1..], cmp)
  }

  /** `[...s].sort(cmp)`: the first element is inserted into the sorted rest, ahead of its equals. */
  function Sort<T>(s: seq<T>, cmp: (T, T) -> real): (r: seq<T>)
    ensures multiset(r) == multiset(s)
    ensures |r| == |s|
  {
    if |s| == 0 then []
    else
      assert s == [s[0]] + s[1..];
      Insert(s[0], Sort(s[1..], cmp), cmp)
  }

  /** Every value of a sorted copy is a value of the input. */
  lemma SortValues<T>(s: seq<T>, cmp: (T, T) -> real, y: T)
    requires y in Sort(s, cmp)
    ensures y in s
  {
    assert y in multiset(Sort(s, cmp));
  }

  lemma Transitive<T(!new)>(cmp: (T, T) -> real, u: seq<T>, a: T, b: T, c: T)
    requires ConsistentOn(cmp, u) && a in u && b in u && c in u
    requires cmp(a, b) <= 0.0 && cmp(b, c) <= 0.0
    ensures cmp(a, c) <= 0.0
  {
  }

  /** Every value of an insertion is x or a value of s. */
  lemma InsertValues<T>(x: T, s: seq<T>, cmp: (T, T) -> real, y: T)
    requires y in Insert(x, s, cmp)
    ensures y == x || y in s
  {
    assert y in multiset(Insert(x, s, cmp));
  }

  /** The tail of a sorted sequence is sorted. */
  lemma SortedTail<T>(s: seq<T>, cmp: (T, T) -> real)
    requires |s| > 0 && SortedBy(s, cmp)
    ensures SortedBy(s[1..], cmp)
  {
    var t := s[1..];
    forall i, j | 0 <= i < j < |t| ensures cmp(t[i], t[j]) <= 0.0 {
      assert t[i] == s[i + 1] && t[j] == s[j + 1];
    }
  }

  /** Putting in front an element that may precede the first of a sorted sequence keeps it sorted. */
  lemma PrependSorted<T(!new)>(x: T, s: seq<T>, cmp: (T, T) -> real, u: seq<T>)
    requires ConsistentOn(cmp, u) && x in u && (forall y :: y in s ==> y in u)
    requires SortedBy(s, cmp) && (|s| > 0 ==> cmp(x, s[0]) <= 0.0)
    ensures SortedBy([x] + s, cmp)
  {
    var r := [x] + s;
    forall i, j | 0 <= i < j < |r| ensures cmp(r[i], r[j]) <= 0.0 {
      if i == 0 {
        if j > 1 {
          assert s[0] in s && s[j - 1] in s;
          Transitive(cmp, u, x, s[0], s[j - 1]);
        }
      } else {
        assert r[i] == s[i - 1] && r[j] == s[j - 1];
      }
    }
  }

  /** Putting in front an element that may precede every later one keeps a sorted sequence sorted. */
  lemma ConsSorted<T>(x: T, s: seq<T>, cmp: (T, T) -> real)
    requires SortedBy(s, cmp) && (forall y :: y in s ==> cmp(x, y) <= 0.0)
    ensures SortedBy([x] + s, cmp)
  {
    var r := [x] + s;
    forall i, j | 0 <= i < j < |r| ensures cmp(r[i], r[j]) <= 0.0 {
      if i == 0 {
        assert r[j] in s;
      } else {
        assert r[i] == s[i - 1] && r[j] == s[j - 1];
      }
    }
  }

  lemma {:induction false} InsertSorted<T(!new)>(x: T, s: seq<T>, cmp: (T, T) -> real, u: seq<T>)
    requires ConsistentOn(cmp, u) && x in u && (forall y :: y in s ==> y in u)
    requires SortedBy(s, cmp)
    ensures SortedBy(Insert(x, s, cmp), cmp)
  {
    if |s| == 0 || cmp(x, s[0]) <= 0.0 {
      PrependSorted(x, s, cmp, u);
    } else {
      var t := s[1..];
      assert forall y :: y in t ==> y in s;
      SortedTail(s, cmp);
      InsertSorted(x, t, cmp, u);
      var rest := Insert(x, t, cmp);
      assert s[0] in s;
      assert cmp(s[0], x) <= 0.0;
      forall y | y in rest ensures cmp(s[0], y) <= 0.0 {
        InsertValues(x, t, cmp, y);
        if y != x {
          var k :| 0 <= k < |t| && t[k] == y;
          assert s[k + 1] == y;
        }
      }
      ConsSorted(s[0], rest, cmp);
    }
  }

  /** With a consistent comparator the copy comes out sorted. */
  lemma {:induction false} SortSorted<T(!new)>(s: seq<T>, cmp: (T, T) -> real)
    requires ConsistentOn(cmp, s)
    ensures SortedBy(Sort(s, cmp), cmp)
  {
    if |s| > 0 {
      var t := s[1..];
      assert ConsistentOn(cmp, t) by {
        assert forall y :: y in t ==> y in s;
      }
      SortSorted(t, cmp);
      var st := Sort(t, cmp);
      forall y | y in st ensures y in s {
        assert y in multiset(st);
        assert y in multiset(t);
        var k :| 0 <= k < |t| && t[k] == y;
        assert s[k + 1] == y;
      }
      InsertSorted(s[0], st, cmp, s);
    }
  }

  /** Sorting by the difference of integer keys orders by key. */
  lemma SortByKey<T(!new)>(s: seq<T>, cmp: (T, T) -> real, key: T -> int)
    requires forall a, b :: a in s && b in s ==> cmp(a, b) == (key(a) - key(b)) as real
    ensures forall i, j :: 0 <= i < j < |Sort(s, cmp)| ==> key(Sort(s, cmp)[i]) <= key(Sort(s, cmp)[j])
  {
    var r := Sort(s, cmp);
    KeyDifferenceConsistent(cmp, s, key);
    SortSorted(s, cmp);
    forall i, j | 0 <= i < j < |r| ensures key(r[i]) <= key(r[j]) {
      assert r[i] in r && r[j] in r;
      SortValues(s, cmp, r[i]);
      SortValues(s, cmp, r[j]);
      assert cmp(r[i], r[j]) <= 0.0;
    }
  }

  /** A sequence in which no value occurs twice has no repeated element. */
  lemma CountsAtMostOne<T>(r: seq<T>)
    requires forall x :: multiset(r)[x] <= 1
    ensures forall i, j :: 0 <= i < j < |r| ==> r[i] != r[j]
  {
    forall i, j | 0 <= i < j < |r| ensures r[i] != r[j] {
      var a, b := r[..j], r[j..];
      assert r == a + b;
      assert r[i] == a[i] && r[j] == b[0];
      assert multiset(r)[r[j]] == multiset(a)[r[j]] + multiset(b)[r[j]];
      assert multiset(a)[r[i]] >= 1 && multiset(b)[r[j]] >= 1;
    }
  }

  /** The sorted distinct values of s: each value of s exactly once. */
  lemma SortDistinct<T(!new)>(s: seq<T>, cmp: (T, T) -> real)
    ensures forall x :: multiset(Sort(Distinct(s), cmp))[x] == if x in s then 1 else 0
    ensures forall i, j :: 0 <= i < j < |Sort(Distinct(s), cmp)| ==> Sort(Distinct(s), cmp)[i] != Sort(Distinct(s), cmp)[j]
    ensures forall x :: x in Sort(Distinct(s), cmp) <==> x in s
  {
    var r := Sort(Distinct(s), cmp);
    forall x ensures multiset(r)[x] == if x in s then 1 else 0 {
      DistinctCount(s, x);
    }
    CountsAtMostOne(r);
    forall x ensures x in r <==> x in s {
      assert x in r <==> x in multiset(r);
    }
  }

  /** Sorting a sequence already in order changes nothing: the sort is stable. */
  lemma {:induction false} SortOfSorted<T>(s: seq<T>, cmp: (T, T) -> real)
    requires SortedBy(s, cmp)
    ensures Sort(s, cmp) == s
  {
    if |s| > 0 {
      var t := s[1..];
      assert SortedBy(t, cmp) by {
        forall i, j | 0 <= i < j < |t| ensures cmp(t[i], t[j]) <= 0.0 {
          assert t[i] == s[i + 1] && t[j] == s[j + 1];
        }
      }
      SortOfSorted(t, cmp);
      if |t| > 0 {
        assert cmp(s[0], t[0]) <= 0.0 by {
          assert t[0] == s[1];
        }
      }
      assert s == [s[0]] + t;
    }
  }

  // ---------------------------------------------------------------------------
  // Counting with filters

  /** A predicate implied by another keeps at least as many elements. */
  lemma {:induction false} FilterMono<T(!new)>(s: seq<T>, p: T -> bool, q: T -> bool)
    requires forall x :: x in s && p(x) ==> q(x)
    ensures |Filter(s, p)| <= |Filter(s, q)|
  {
    if |s| > 0 {
      assert forall x :: x in s[1..] ==> x in s;
      FilterMono(s[1..], p, q);
    }
  }

  /** Two predicates that never hold together count, added up, what their disjunction counts. */
  lemma {:induction false} FilterDisjoint<T(!new)>(s: seq<T>, p: T -> bool, q: T -> bool, r: T -> bool)
    requires forall x :: x in s ==> (r(x) <==> p(x) || q(x)) && !(p(x) && q(x))
    ensures |Filter(s, r)| == |Filter(s, p)| + |Filter(s, q)|
  {
    if |s| > 0 {
      assert forall x :: x in s[1..] ==> x in s;
      FilterDisjoint(s[1..], p, q, r);
      assert s[0] in s;
    }
  }

  /** Nothing satisfies p: the filter is empty. */
  lemma {:induction false} FilterNone<T(!new)>(s: seq<T>, p: T -> bool)
    requires forall x :: x in s ==> !p(x)
    ensures Filter(s, p) == []
  {
    if |s| > 0 {
      assert forall x :: x in s[1..] ==> x in s;
      FilterNone(s[1..], p);
      assert s[0] in s;
    }
  }

  /** Exactly one position satisfies p: the filter keeps one element. */
  lemma {:induction false} FilterSingle<T(!new)>(s: seq<T>, p: T -> bool, i: nat)
    requires i < |s| && p(s[i])
    requires forall j :: 0 <= j < |s| && j != i ==> !p(s[j])
    ensures |Filter(s, p)| == 1
  {
    var t := s[1..];
    if i == 0 {
      assert forall x :: x in t ==> !p(x);
    } else {
      forall j | 0 <= j < |t| && j != i - 1 ensures !p(t[j]) {
        assert t[j] == s[j + 1];
      }
      FilterSingle(t, p, i - 1);
    }
  }

  /** Sequences that agree position by position on two predicates have filters of one length. */
  lemma {:induction false} FilterCorresponding<A(!new), B(!new)>(s: seq<A>, t: seq<B>, p: A -> bool, q: B -> bool)
    requires |s| == |t| && forall i :: 0 <= i < |s| ==> p(s[i]) == q(t[i])
    ensures |Filter(s, p)| == |Filter(t, q)|
  {
    if |s| > 0 {
      assert p(s[0]) == q(t[0]);
      forall i | 0 <= i < |s| - 1 ensures p(s[1..][i]) == q(t[1..][i]) {
        assert s[1..][i] == s[i + 1] && t[1..][i] == t[i + 1];
      }
      FilterCorresponding(s[1..], t[1..], p, q);
    }
  }

  /** Filtering twice is filtering once by the conjunction. */
  lemma {:induction false} FilterFilter<T(!new)>(s: seq<T>, p: T -> bool, q: T -> bool, r: T -> bool)
    requires forall x :: x in s ==> (r(x) <==> p(x) && q(x))
    ensures Filter(Filter(s, p), q) == Filter(s, r)
  {
    if |s| > 0 {
      assert forall x :: x in s[1..] ==> x in s;
      FilterFilter(s[1..], p, q, r);
      assert s[0] in s;
    }
  }

  /** A relation that holds between every element and every later one still does after filtering. */
  lemma {:induction false} FilterOrdered<T(!new)>(s: seq<T>, p: T -> bool, before: (T, T) -> bool)
    requires forall i, j :: 0 <= i < j < |s| ==> before(s[i], s[j])
    ensures forall i, j :: 0 <= i < j < |Filter(s, p)| ==> before(Filter(s, p)[i], Filter(s, p)[j])
  {
    if |s| > 0 {
      var t := s[1..];
      forall i, j | 0 <= i < j < |t| ensures before(t[i], t[j]) {
        assert t[i] == s[i + 1] && t[j] == s[j + 1];
      }
      FilterOrdered(t, p, before);
      var rest := Filter(t, p);
      if p(s[0]) {
        var r := [s[0]] + rest;
        forall i, j | 0 <= i < j < |r| ensures before(r[i], r[j]) {
          if i == 0 {
            assert r[j] in t;
            var k :| 0 <= k < |t| && t[k] == r[j];
            assert s[k + 1] == r[j];
          } else {
            assert r[i] == rest[i - 1] && r[j] == rest[j - 1];
          }
        }
      }
    }
  }

  /** The de-duplicated sequence has as many elements as there are distinct values. */
  lemma {:induction false} DistinctLength<T(!new)>(s: seq<T>)
    ensures |Distinct(s)| == |set x | x in s|
  {
    if |s| > 0 {
      var p := s[..|s| - 1];
      DistinctLength(p);
      assert s == p + [s[|s| - 1]];
      assert (set x | x in s) == (set x | x in p) + {s[|s| - 1]};
    }
  }
}
