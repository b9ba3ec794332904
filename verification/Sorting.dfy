/** Sorting by a strict total order: the result depends only on which elements there are. */
module Sorting {
  import opened Common

  ghost predicate StrictTotal<T(!new)>(less: (T, T) -> bool) {
    && (forall a, b :: less(a, b) ==> !less(b, a))
    && (forall a, b :: a != b ==> less(a, b) || less(b, a))
    && (forall a, b, c :: less(a, b) && less(b, c) ==> less(a, c))
  }

  function InsertBy<T>(less: (T, T) -> bool, s: seq<T>, x: T): seq<T> {
    if s == [] then [x]
    else if less(s[|s| - 1], x) then s + [x]
    else InsertBy(less, s[..|s| - 1], x) + [s[|s| - 1]]
  }

  function SortBy<T>(less: (T, T) -> bool, s: seq<T>): seq<T> {
    if s == [] then [] else InsertBy(less, SortBy(less, s[..|s| - 1]), s[|s| - 1])
  }

  predicate AllLess<T>(less: (T, T) -> bool, s: seq<T>, x: T) {
    forall i | 0 <= i < |s| :: less(s[i], x)
  }

  predicate Sorted<T>(less: (T, T) -> bool, s: seq<T>) {
    s == [] || (Sorted(less, s[..|s| - 1]) && AllLess(less, s[..|s| - 1], s[|s| - 1]))
  }

  lemma {:induction false} InsertElems<T>(less: (T, T) -> bool, s: seq<T>, x: T)
    ensures Elems(InsertBy(less, s, x)) == Elems(s) + {x}
    ensures |InsertBy(less, s, x)| == |s| + 1
  {
    if s != [] {
      var p, last := s[..|s| - 1], s[|s| - 1];
      LastElems(s);
      if less(last, x) {
        SnocElems(s, x);
      } else {
        InsertElems(less, p, x);
        SnocElems(InsertBy(less, p, x), last);
      }
    }
  }

  lemma {:induction false} InsertSorted<T(!new)>(less: (T, T) -> bool, s: seq<T>, x: T)
    requires StrictTotal(less) && Sorted(less, s) && x !in s
    ensures Sorted(less, InsertBy(less, s, x))
  {
    if s != [] {
      var p, last := s[..|s| - 1], s[|s| - 1];
      if less(last, x) {
        assert (s + [x])[..|s|] == s;
        forall i | 0 <= i < |s| ensures less(s[i], x) {
          if i < |s| - 1 {
            assert less(p[i], last);
          }
        }
      } else {
        InsertSorted(less, p, x);
        InsertElems(less, p, x);
        var r := InsertBy(less, p, x);
        assert (r + [last])[..|r|] == r;
        forall i | 0 <= i < |r| ensures less(r[i], last) {
          assert r[i] in Elems(r);
        }
      }
    }
  }

  lemma InPrefix<T>(s: seq<T>, y: T)
    requires s != [] && y in s && y != s[|s| - 1]
    ensures y in s[..|s| - 1]
  {
    assert s == s[..|s| - 1] + [s[|s| - 1]];
  }

  lemma {:induction false} SortFacts<T(!new)>(less: (T, T) -> bool, s: seq<T>)
    requires StrictTotal(less) && NoDup(s)
    ensures Elems(SortBy(less, s)) == Elems(s)
    ensures Sorted(less, SortBy(less, s))
  {
    if s != [] {
      var p, last := s[..|s| - 1], s[|s| - 1];
      SortFacts(less, p);
      LastElems(s);
      assert last !in SortBy(less, p) by {
        assert last !in Elems(p);
      }
      InsertElems(less, SortBy(less, p), last);
      InsertSorted(less, SortBy(less, p), last);
    }
  }

  lemma {:induction false} SortedNoDup<T(!new)>(less: (T, T) -> bool, s: seq<T>)
    requires StrictTotal(less) && Sorted(less, s)
    ensures NoDup(s)
  {
    if s != [] {
      SortedNoDup(less, s[..|s| - 1]);
      assert !less(s[|s| - 1], s[|s| - 1]);
    }
  }

  /** Two sorted sequences of the same elements are the same. */
  lemma {:induction false} SortedUnique<T(!new)>(less: (T, T) -> bool, s: seq<T>, t: seq<T>)
    requires StrictTotal(less) && Sorted(less, s) && Sorted(less, t)
    requires Elems(s) == Elems(t)
    ensures s == t
  {
    assert s != [] ==> s[0] in Elems(s);
    assert t != [] ==> t[0] in Elems(t);
    if s != [] {
      var a, b := s[|s| - 1], t[|t| - 1];
      SameLast(less, s, t);
      SortedNoDup(less, s);
      SortedNoDup(less, t);
      LastElems(s);
      LastElems(t);
      assert a !in Elems(s[..|s| - 1]) && b !in Elems(t[..|t| - 1]);
      assert Elems(s[..|s| - 1]) == Elems(s) - {a} == Elems(t[..|t| - 1]);
      SortedUnique(less, s[..|s| - 1], t[..|t| - 1]);
      assert s == s[..|s| - 1] + [a] && t == t[..|t| - 1] + [b];
    }
  }

  lemma SameLast<T(!new)>(less: (T, T) -> bool, s: seq<T>, t: seq<T>)
    requires StrictTotal(less) && Sorted(less, s) && Sorted(less, t)
    requires s != [] && t != [] && Elems(s) == Elems(t)
    ensures s[|s| - 1] == t[|t| - 1]
  {
    var a, b := s[|s| - 1], t[|t| - 1];
    assert a in Elems(t) && b in Elems(s);
    if a != b {
      InPrefix(t, a);
      InPrefix(s, b);
    }
  }

  lemma {:induction false} SortedAt<T(!new)>(less: (T, T) -> bool, s: seq<T>, i: nat, j: nat)
    requires Sorted(less, s) && i < j < |s|
    ensures less(s[i], s[j])
  {
    var p := s[..|s| - 1];
    if j < |s| - 1 {
      SortedAt(less, p, i, j);
      assert p[i] == s[i] && p[j] == s[j];
    } else {
      assert p[i] == s[i];
    }
  }

  lemma {:induction false} SortElems<T>(less: (T, T) -> bool, s: seq<T>)
    ensures Elems(SortBy(less, s)) == Elems(s)
  {
    if s != [] {
      SortElems(less, s[..|s| - 1]);
      InsertElems(less, SortBy(less, s[..|s| - 1]), s[|s| - 1]);
      LastElems(s);
    }
  }

  // ---- sorting by a total preorder: equal elements keep their order ----

  ghost predicate TotalPreorder<T(!new)>(less: (T, T) -> bool) {
    && (forall a, b :: less(a, b) || less(b, a))
    && (forall a, b, c :: less(a, b) && less(b, c) ==> less(a, c))
  }

  lemma {:induction false} InsertOrdered<T(!new)>(less: (T, T) -> bool, s: seq<T>, x: T)
    requires TotalPreorder(less) && Sorted(less, s)
    ensures Sorted(less, InsertBy(less, s, x))
  {
    if s != [] {
      var p, last := s[..|s| - 1], s[|s| - 1];
      if less(last, x) {
        assert (s + [x])[..|s|] == s;
        forall i | 0 <= i < |s| ensures less(s[i], x) {
          if i < |s| - 1 {
            assert less(p[i], last);
          }
        }
      } else {
        InsertOrdered(less, p, x);
        InsertElems(less, p, x);
        var r := InsertBy(less, p, x);
        assert (r + [last])[..|r|] == r;
        forall i | 0 <= i < |r| ensures less(r[i], last) {
          assert r[i] in Elems(r);
        }
      }
    }
  }

  lemma {:induction false} SortOrdered<T(!new)>(less: (T, T) -> bool, s: seq<T>)
    requires TotalPreorder(less)
    ensures Sorted(less, SortBy(less, s))
  {
    if s != [] {
      SortOrdered(less, s[..|s| - 1]);
      InsertOrdered(less, SortBy(less, s[..|s| - 1]), s[|s| - 1]);
    }
  }

  lemma {:induction false} InsertMany<T>(less: (T, T) -> bool, s: seq<T>, x: T)
    ensures multiset(InsertBy(less, s, x)) == multiset(s) + multiset{x}
  {
    if s != [] && !less(s[|s| - 1], x) {
      InsertMany(less, s[..|s| - 1], x);
      ManyLast(s);
    }
  }

  lemma {:induction false} SortLength<T>(less: (T, T) -> bool, s: seq<T>)
    ensures |SortBy(less, s)| == |s|
  {
    if s != [] {
      SortLength(less, s[..|s| - 1]);
      InsertElems(less, SortBy(less, s[..|s| - 1]), s[|s| - 1]);
    }
  }

  lemma {:induction false} SortMany<T>(less: (T, T) -> bool, s: seq<T>)
    ensures multiset(SortBy(less, s)) == multiset(s)
  {
    if s != [] {
      SortMany(less, s[..|s| - 1]);
      InsertMany(less, SortBy(less, s[..|s| - 1]), s[|s| - 1]);
      ManyLast(s);
    }
  }

  lemma ManyLast<T>(s: seq<T>)
    requires s != []
    ensures multiset(s) == multiset(s[..|s| - 1]) + multiset{s[|s| - 1]}
  {
    assert s == s[..|s| - 1] + [s[|s| - 1]];
  }

  lemma {:induction false} SortKeepsNoDup<T>(less: (T, T) -> bool, s: seq<T>)
    requires NoDup(s)
    ensures NoDup(SortBy(less, s)) && |SortBy(less, s)| == |s|
  {
    if s != [] {
      SortKeepsNoDup(less, s[..|s| - 1]);
      SortElems(less, s[..|s| - 1]);
      assert s[|s| - 1] !in Elems(SortBy(less, s[..|s| - 1]));
      InsertKeepsNoDup(less, SortBy(less, s[..|s| - 1]), s[|s| - 1]);
      InsertElems(less, SortBy(less, s[..|s| - 1]), s[|s| - 1]);
    }
  }

  lemma {:induction false} InsertKeepsNoDup<T>(less: (T, T) -> bool, s: seq<T>, x: T)
    requires NoDup(s) && x !in s
    ensures NoDup(InsertBy(less, s, x))
  {
    if s != [] {
      if less(s[|s| - 1], x) {
        SnocElems(s, x);
      } else {
        var p, last := s[..|s| - 1], s[|s| - 1];
        InsertKeepsNoDup(less, p, x);
        InsertElems(less, p, x);
        assert last !in Elems(InsertBy(less, p, x));
        SnocElems(InsertBy(less, p, x), last);
      }
    }
  }

  // ---- the place of two elements ----

  ghost predicate Before<T>(s: seq<T>, x: T, y: T) {
    exists i, j :: 0 <= i < j < |s| && s[i] == x && s[j] == y
  }

  lemma NotBoth<T>(s: seq<T>, x: T, y: T)
    requires NoDup(s) && Before(s, x, y)
    ensures !Before(s, y, x)
  {
    if Before(s, y, x) {
      var a, b :| 0 <= a < b < |s| && s[a] == x && s[b] == y;
      var c, d :| 0 <= c < d < |s| && s[c] == y && s[d] == x;
      NoDupSame(s, a, d);
      NoDupSame(s, b, c);
    }
  }

  lemma BeforeSnoc<T>(s: seq<T>, z: T, x: T, y: T)
    requires Before(s, x, y)
    ensures Before(s + [z], x, y)
  {
    var a, b :| 0 <= a < b < |s| && s[a] == x && s[b] == y;
    assert (s + [z])[a] == x && (s + [z])[b] == y;
  }

  lemma {:induction false} InsertAfter<T>(less: (T, T) -> bool, s: seq<T>, x: T, y: T)
    requires x in s && less(x, y)
    ensures Before(InsertBy(less, s, y), x, y)
  {
    var last := s[|s| - 1];
    if less(last, y) {
      var i :| 0 <= i < |s| && s[i] == x;
      assert (s + [y])[i] == x && (s + [y])[|s|] == y;
    } else {
      InPrefix(s, x);
      InsertAfter(less, s[..|s| - 1], x, y);
      BeforeSnoc(InsertBy(less, s[..|s| - 1], y), last, x, y);
    }
  }

  lemma {:induction false} InsertKeepsBefore<T>(less: (T, T) -> bool, s: seq<T>, z: T, x: T, y: T)
    requires Before(s, x, y)
    ensures Before(InsertBy(less, s, z), x, y)
  {
    var p, last := s[..|s| - 1], s[|s| - 1];
    if less(last, z) {
      BeforeSnoc(s, z, x, y);
    } else {
      var a, b :| 0 <= a < b < |s| && s[a] == x && s[b] == y;
      if b < |s| - 1 {
        assert p[a] == x && p[b] == y;
        InsertKeepsBefore(less, p, z, x, y);
        BeforeSnoc(InsertBy(less, p, z), last, x, y);
      } else {
        InsertElems(less, p, z);
        assert p[a] == x && x in Elems(InsertBy(less, p, z));
        var r := InsertBy(less, p, z);
        var c := PlaceOf(r, x);
        assert (r + [last])[c] == x && (r + [last])[|r|] == y;
      }
    }
  }

  /** The sort is stable: of two elements that may stand in the order they came, the first stays first. */
  lemma {:induction false} SortStable<T>(less: (T, T) -> bool, s: seq<T>, i: nat, j: nat)
    requires i < j < |s| && less(s[i], s[j])
    ensures Before(SortBy(less, s), s[i], s[j])
  {
    var p, last := s[..|s| - 1], s[|s| - 1];
    if j < |s| - 1 {
      assert p[i] == s[i] && p[j] == s[j];
      SortStable(less, p, i, j);
      InsertKeepsBefore(less, SortBy(less, p), last, s[i], s[j]);
    } else {
      SortElems(less, p);
      assert p[i] == s[i] && s[i] in Elems(p);
      InsertAfter(less, SortBy(less, p), s[i], last);
    }
  }
}
