/** Small shared vocabulary: an optional value and facts about sequences without repeats. */
module Common {

  datatype Option<+T> = None | Some(value: T) {
    function GetOr(default: T): T {
      match this
      case Some(v) => v
      case None => default
    }
  }

  // No element occurs twice.
  predicate NoDup<T(==)>(s: seq<T>) {
    s == [] || (s[|s| - 1] !in s[..|s| - 1] && NoDup(s[..|s| - 1]))
  }

  function Elems<T>(s: seq<T>): set<T> {
    set x | x in s
  }

  lemma SnocElems<T>(s: seq<T>, x: T)
    ensures Elems(s + [x]) == Elems(s) + {x}
    ensures NoDup(s) && x !in s ==> NoDup(s + [x])
  {
    assert (s + [x])[..|s|] == s;
    assert forall y :: y in s + [x] <==> y in s || y == x;
  }

  lemma NoDupSnoc<T>(s: seq<T>, x: T)
    requires NoDup(s) && x !in s
    ensures NoDup(s + [x])
  {
    assert (s + [x])[..|s|] == s;
  }

  lemma LastElems<T>(s: seq<T>)
    requires s != []
    ensures Elems(s) == Elems(s[..|s| - 1]) + {s[|s| - 1]}
  {
    assert s == s[..|s| - 1] + [s[|s| - 1]];
    SnocElems(s[..|s| - 1], s[|s| - 1]);
  }

  // The first occurrences, in order.
  function Distinct<T(==)>(s: seq<T>): (r: seq<T>)
    ensures NoDup(r)
    ensures Elems(r) == Elems(s)
  {
    if s == [] then []
    else
      var x := s[|s| - 1];
      var before := Distinct(s[..|s| - 1]);
      SnocElems(before, x);
      LastElems(s);
      if x in before then before else before + [x]
  }

  lemma AppendElems<T>(a: seq<T>, b: seq<T>)
    ensures Elems(a + b) == Elems(a) + Elems(b)
  {
    assert forall x :: x in a + b <==> x in a || x in b;
  }

  lemma {:induction false} AppendNoDup<T>(a: seq<T>, b: seq<T>)
    requires NoDup(a) && NoDup(b)
    requires forall x | x in b :: x !in a
    ensures NoDup(a + b)
  {
    if b == [] {
      assert a + b == a;
    } else {
      var p, x := b[..|b| - 1], b[|b| - 1];
      assert (a + b)[..|a + b| - 1] == a + p;
      AppendNoDup(a, p);
    }
  }

  lemma {:induction false} PrefixNoDup<T>(s: seq<T>, n: nat)
    requires NoDup(s) && n <= |s|
    ensures NoDup(s[..n])
    ensures n < |s| ==> s[n] !in s[..n]
  {
    if n < |s| {
      var p := s[..|s| - 1];
      PrefixNoDup(p, n);
      assert p[..n] == s[..n];
    } else {
      assert s[..n] == s;
    }
  }

  // ... so different positions hold different elements.
  lemma NoDupAt<T>(s: seq<T>, i: nat, j: nat)
    requires NoDup(s) && i < j < |s|
    ensures s[i] != s[j]
  {
    PrefixNoDup(s, j);
    assert s[i] in s[..j];
  }

  lemma NoDupSame<T>(s: seq<T>, i: nat, j: nat)
    requires NoDup(s) && i < |s| && j < |s| && s[i] == s[j]
    ensures i == j
  {
    if i < j {
      NoDupAt(s, i, j);
    } else if j < i {
      NoDupAt(s, j, i);
    }
  }

  lemma {:induction false} NoDupSize<T>(s: seq<T>)
    requires NoDup(s)
    ensures |Elems(s)| == |s|
  {
    if s != [] {
      LastElems(s);
      NoDupSize(s[..|s| - 1]);
      assert s[|s| - 1] !in Elems(s[..|s| - 1]);
    }
  }

  lemma {:induction false} NoDupRest<T>(s: seq<T>, n: nat)
    requires NoDup(s) && n <= |s|
    ensures NoDup(s[n..])
  {
    if n < |s| {
      NoDupRest(s[..|s| - 1], n);
      assert s[n..][..|s| - n - 1] == s[..|s| - 1][n..];
      assert s[|s| - 1] !in s[..|s| - 1][n..];
    }
  }

  lemma SubsetSize<T>(a: set<T>, b: set<T>)
    requires a <= b
    ensures |a| <= |b|
  {
    assert b == a + (b - a);
  }

  lemma PlaceOf<T>(s: seq<T>, x: T) returns (j: nat)
    requires x in Elems(s)
    ensures j < |s| && s[j] == x
  {
    j :| 0 <= j < |s| && s[j] == x;
  }

  lemma AppendAssoc<T>(a: seq<T>, b: seq<T>, c: seq<T>)
    ensures a + b + c == a + (b + c)
  {
  }
}
