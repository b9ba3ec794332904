/** Reciprocal-rank fusion of ranked lists. */
module Fusion {
  import opened Common
  import opened Scores
  import opened Sorting

  const K: real := 60.0

  // A ranked list of keys, and what a place in it is worth.
  datatype Arm = Arm(keys: seq<int>, weight: real)

  // The rank of a key, from 1; 0 when the list lacks it.
  function Rank(keys: seq<int>, key: int): (r: nat)
    ensures r <= |keys|
    ensures r > 0 ==> keys[r - 1] == key
    ensures r == 0 <==> key !in keys
  {
    if keys == [] then 0 else if keys[|keys| - 1] == key then |keys| else Rank(keys[..|keys| - 1], key)
  }

  function Share(weight: real, rank: nat): real {
    weight / (K + rank as real)
  }

  function Worth(arm: Arm, key: int): real {
    if Rank(arm.keys, key) == 0 then 0.0 else Share(arm.weight, Rank(arm.keys, key))
  }

  // What a key earns over all lists.
  function Score(arms: seq<Arm>, key: int): real {
    if arms == [] then 0.0 else Score(arms[..|arms| - 1], key) + Worth(arms[|arms| - 1], key)
  }

  function Pool(arms: seq<Arm>): set<int> {
    if arms == [] then {} else Pool(arms[..|arms| - 1]) + Elems(arms[|arms| - 1].keys)
  }

  // ---- the fusion loops ----

  predicate Listed(arms: seq<Arm>) {
    forall i | 0 <= i < |arms| :: NoDup(arms[i].keys)
  }

  // The table after one list's rows, and the order its keys were first seen in.
  function TableAfter(scores: map<int, real>, keys: seq<int>, weight: real): map<int, real> {
    if keys == [] then scores
    else
      var before, key := TableAfter(scores, keys[..|keys| - 1], weight), keys[|keys| - 1];
      before[key := ScoreOf(before, key) + Share(weight, |keys|)]
  }

  function OrderAfter<T(==)>(order: seq<T>, keys: seq<T>): seq<T> {
    if keys == [] then order
    else
      var before, key := OrderAfter(order, keys[..|keys| - 1]), keys[|keys| - 1];
      if key in before then before else before + [key]
  }

  ghost predicate Added(scores0: map<int, real>, arm: Arm, scores: map<int, real>) {
    forall key :: ScoreOf(scores, key) == ScoreOf(scores0, key) + Worth(arm, key)
  }

  lemma WorthSnoc(keys: seq<int>, weight: real, key: int)
    requires key !in keys
    ensures forall k :: (Worth(Arm(keys + [key], weight), k)
      == if k == key then Share(weight, |keys| + 1) else Worth(Arm(keys, weight), k))
    ensures Worth(Arm(keys, weight), key) == 0.0
  {
    assert (keys + [key])[..|keys|] == keys;
  }

  lemma {:induction false} TableFacts(scores: map<int, real>, keys: seq<int>, weight: real)
    requires NoDup(keys)
    ensures TableAfter(scores, keys, weight).Keys == scores.Keys + Elems(keys)
    ensures Added(scores, Arm(keys, weight), TableAfter(scores, keys, weight))
  {
    if keys != [] {
      var p, key := keys[..|keys| - 1], keys[|keys| - 1];
      TableFacts(scores, p, weight);
      LastElems(keys);
      assert keys == p + [key];
      WorthSnoc(p, weight, key);
    }
  }

  lemma {:induction false} OrderFacts<T>(order: seq<T>, keys: seq<T>)
    requires NoDup(order)
    ensures NoDup(OrderAfter(order, keys)) && Elems(OrderAfter(order, keys)) == Elems(order) + Elems(keys)
  {
    if keys != [] {
      var before, key := OrderAfter(order, keys[..|keys| - 1]), keys[|keys| - 1];
      OrderFacts(order, keys[..|keys| - 1]);
      LastElems(keys);
      if key in before {
        assert key in Elems(before);
      } else {
        SnocElems(before, key);
      }
    }
  }

  method AddArm(scores0: map<int, real>, order0: seq<int>, arm: Arm) returns (scores: map<int, real>, order: seq<int>)
    requires NoDup(arm.keys) && NoDup(order0) && Elems(order0) == scores0.Keys
    ensures scores == TableAfter(scores0, arm.keys, arm.weight)
    ensures order == OrderAfter(order0, arm.keys)
  {
    scores, order := scores0, order0;
    var i := 0;
    while i < |arm.keys|
      invariant 0 <= i <= |arm.keys|
      invariant scores == TableAfter(scores0, arm.keys[..i], arm.weight)
      invariant order == OrderAfter(order0, arm.keys[..i])
    {
      var key := arm.keys[i];
      SeenSoFar(scores0, order0, arm, i);
      assert arm.keys[..i + 1][..i] == arm.keys[..i];
      if key !in scores {
        order := order + [key];
      }
      scores := scores[key := ScoreOf(scores, key) + Share(arm.weight, i + 1)];
      i := i + 1;
    }
    assert arm.keys[..i] == arm.keys;
  }

  lemma SeenSoFar(scores0: map<int, real>, order0: seq<int>, arm: Arm, i: nat)
    requires NoDup(arm.keys) && NoDup(order0) && Elems(order0) == scores0.Keys && i < |arm.keys|
    ensures arm.keys[i] in TableAfter(scores0, arm.keys[..i], arm.weight) <==> arm.keys[i] in OrderAfter(order0, arm.keys[..i])
  {
    PrefixNoDup(arm.keys, i);
    TableFacts(scores0, arm.keys[..i], arm.weight);
    OrderFacts(order0, arm.keys[..i]);
    assert arm.keys[i] in OrderAfter(order0, arm.keys[..i]) <==> arm.keys[i] in Elems(OrderAfter(order0, arm.keys[..i]));
  }

  /** The keys of all lists by fused score, ties in the order the keys were first seen. */
  method Fuse(arms: seq<Arm>) returns (ranked: seq<int>, scores: map<int, real>)
    requires Listed(arms)
    ensures scores.Keys == Pool(arms) && forall key :: ScoreOf(scores, key) == Score(arms, key)
    ensures Elems(ranked) == Pool(arms) && |ranked| == |Pool(arms)|
    ensures forall i, j | 0 <= i < j < |ranked| :: Score(arms, ranked[i]) >= Score(arms, ranked[j])
  {
    scores := map[];
    var order: seq<int> := [];
    var i := 0;
    while i < |arms|
      invariant 0 <= i <= |arms|
      invariant NoDup(order) && Elems(order) == scores.Keys == Pool(arms[..i])
      invariant forall key :: ScoreOf(scores, key) == Score(arms[..i], key)
    {
      assert arms[..i + 1][..i] == arms[..i];
      TableFacts(scores, arms[i].keys, arms[i].weight);
      OrderFacts(order, arms[i].keys);
      scores, order := AddArm(scores, order, arms[i]);
      i := i + 1;
    }
    assert arms[..i] == arms;
    ranked := SortBy(HigherFirst(scores), order);
    RankedFacts(scores, order);
  }

  lemma RankedFacts(scores: map<int, real>, order: seq<int>)
    requires NoDup(order)
    ensures var ranked := SortBy(HigherFirst(scores), order);
      && Elems(ranked) == Elems(order) && |ranked| == |Elems(order)|
      && forall i, j | 0 <= i < j < |ranked| :: ScoreOf(scores, ranked[i]) >= ScoreOf(scores, ranked[j])
  {
    SortElems(HigherFirst(scores), order);
    SortOrdered(HigherFirst(scores), order);
    SortLength(HigherFirst(scores), order);
    NoDupSize(order);
    var ranked := SortBy(HigherFirst(scores), order);
    forall i, j | 0 <= i < j < |ranked| ensures ScoreOf(scores, ranked[i]) >= ScoreOf(scores, ranked[j]) {
      SortedAt(HigherFirst(scores), ranked, i, j);
    }
  }

  // ---- what fusion preserves ----

  // `x` stands at least as well as `y` in every list that has `y`.
  predicate Dominates(arms: seq<Arm>, x: int, y: int) {
    forall i | 0 <= i < |arms| && y in arms[i].keys :: x in arms[i].keys && Rank(arms[i].keys, x) <= Rank(arms[i].keys, y)
  }

  lemma ShareFalls(weight: real, a: nat, b: nat)
    requires weight >= 0.0 && a <= b
    ensures Share(weight, a) >= Share(weight, b) >= 0.0
  {
    var p, q := K + a as real, K + b as real;
    Quotients(weight, p, q);
  }

  lemma Quotients(w: real, p: real, q: real)
    requires w >= 0.0 && 0.0 < p <= q
    ensures w / p >= w / q >= 0.0
  {
  }

  /** A document that does at least as well as another wherever the other appears never ends with a lower
      score, the weights not being negative. */
  lemma {:induction false} DominanceKept(arms: seq<Arm>, x: int, y: int)
    requires Dominates(arms, x, y) && forall i | 0 <= i < |arms| :: arms[i].weight >= 0.0
    ensures Score(arms, x) >= Score(arms, y)
  {
    if arms != [] {
      var p, arm := arms[..|arms| - 1], arms[|arms| - 1];
      assert forall i | 0 <= i < |p| :: p[i] == arms[i];
      DominanceKept(p, x, y);
      assert arm.weight >= 0.0;
      if y in arm.keys {
        assert y in arms[|arms| - 1].keys;
        ShareFalls(arm.weight, Rank(arm.keys, x), Rank(arm.keys, y));
      } else {
        ShareFalls(arm.weight, Rank(arm.keys, x), Rank(arm.keys, x));
      }
    }
  }

  /** Fusing more lists beside one loses none of its keys: the multi-hop pool contains the single-shot pool. */
  lemma {:induction false} PoolGrows(arms: seq<Arm>, i: nat)
    requires i < |arms|
    ensures Elems(arms[i].keys) <= Pool(arms)
  {
    if i < |arms| - 1 {
      PoolGrows(arms[..|arms| - 1], i);
    }
  }

  /** A document at place `i` of one list, counted from 0, earns the weight over 61 + i from it; one that no list
      has earns nothing; and what it earns from several lists adds up. */
  lemma ScoreExactly(arms: seq<Arm>, arm: Arm, key: int, i: nat)
    requires NoDup(arm.keys)
    ensures i < |arm.keys| && arm.keys[i] == key ==> Score(arms + [arm], key) == Score(arms, key) + arm.weight / (61 + i) as real
    ensures key !in arm.keys ==> Score(arms + [arm], key) == Score(arms, key)
    ensures Score([], key) == 0.0
  {
    assert (arms + [arm])[..|arms|] == arms;
    if i < |arm.keys| && arm.keys[i] == key {
      NoDupSame(arm.keys, i, Rank(arm.keys, key) - 1);
    }
  }
}
