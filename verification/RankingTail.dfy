/** The end of ranking: the re-scored head above the tail, and the diverse selection from it. */
module RankingTail {
  import opened Common
  import opened Sorting

  const STEP: real := 0.000001

  datatype Item = Item(key: int, score: real)

  // ---- rerank ----

  function HigherFirst(a: Item, b: Item): bool {
    a.score >= b.score
  }

  const BY_SCORE: (Item, Item) -> bool := (a, b) => HigherFirst(a, b)

  function Rescored(head: seq<Item>, scores: seq<real>): (r: seq<Item>)
    requires |head| == |scores|
    ensures |r| == |head|
    ensures forall i | 0 <= i < |head| :: r[i] == Item(head[i].key, scores[i])
  {
    if head == [] then []
    else Rescored(head[..|head| - 1], scores[..|scores| - 1]) + [Item(head[|head| - 1].key, scores[|scores| - 1])]
  }

  // The tail just under `floor`, a step apart.
  function Lowered(tail: seq<Item>, floor: real): (r: seq<Item>)
    ensures |r| == |tail|
  {
    if tail == [] then []
    else Lowered(tail[..|tail| - 1], floor) + [Item(tail[|tail| - 1].key, floor - |tail| as real * STEP)]
  }

  lemma {:induction false} LoweredAt(tail: seq<Item>, floor: real, i: nat)
    requires i < |tail|
    ensures Lowered(tail, floor)[i] == Item(tail[i].key, floor - (i + 1) as real * STEP)
  {
    if i < |tail| - 1 {
      LoweredAt(tail[..|tail| - 1], floor, i);
    }
  }

  // `replies` is what scoring the head gives, or nothing when it failed.
  predicate Usable(items: seq<Item>, topN: nat, replies: Option<seq<real>>) {
    items != [] && topN > 0 && replies.Some? && |replies.value| == |items[..Least(topN, |items|)]|
  }

  function Least(a: nat, b: nat): nat {
    if a <= b then a else b
  }

  function Head(items: seq<Item>, n: nat, replies: seq<real>): seq<Item>
    requires n <= |items| && |replies| == n
  {
    SortBy(BY_SCORE, Rescored(items[..n], replies))
  }

  function Tail(items: seq<Item>, n: nat, replies: seq<real>): seq<Item>
    requires n <= |items| && |replies| == n
  {
    var head := Head(items, n, replies);
    if head == [] then [] else Lowered(items[n..], head[|head| - 1].score)
  }

  function Reranked(items: seq<Item>, topN: nat, replies: Option<seq<real>>): seq<Item> {
    if !Usable(items, topN, replies) then items
    else
      var n := Least(topN, |items|);
      Head(items, n, replies.value) + Tail(items, n, replies.value)
  }

  lemma {:induction false} HeadSorted(rescored: seq<Item>)
    requires rescored != []
    ensures var head := SortBy(BY_SCORE, rescored);
      && |head| == |rescored| && multiset(head) == multiset(rescored)
      && (forall i, j | 0 <= i < j < |head| :: head[i].score >= head[j].score)
      && (forall i | 0 <= i < |head| :: head[i].score >= head[|head| - 1].score)
  {
    SortMany(BY_SCORE, rescored);
    SortLength(BY_SCORE, rescored);
    SortOrdered(BY_SCORE, rescored);
    var head := SortBy(BY_SCORE, rescored);
    forall i, j | 0 <= i < j < |head| ensures head[i].score >= head[j].score {
      SortedAt(BY_SCORE, head, i, j);
    }
  }

  lemma TailBelow(tail: seq<Item>, floor: real)
    ensures var r := Lowered(tail, floor);
      && (forall j | 0 <= j < |r| :: r[j].key == tail[j].key)
      && (forall j | 0 <= j < |r| :: r[j].score < floor)
      && (forall i, j | 0 <= i < j < |r| :: r[i].score > r[j].score)
  {
    var r := Lowered(tail, floor);
    forall j | 0 <= j < |r| ensures r[j].key == tail[j].key && r[j].score < floor {
      LoweredAt(tail, floor, j);
    }
    forall i, j | 0 <= i < j < |r| ensures r[i].score > r[j].score {
      LoweredAt(tail, floor, i);
      LoweredAt(tail, floor, j);
    }
  }

  /** Otherwise the head keeps its candidates, each with its new score, and is sorted by them ... */
  lemma {:induction false} RerankHead(items: seq<Item>, topN: nat, replies: seq<real>)
    requires items != [] && topN > 0 && |replies| == Least(topN, |items|)
    ensures var n := Least(topN, |items|);
      var head := Head(items, n, replies);
      && Reranked(items, topN, Some(replies)) == head + Tail(items, n, replies)
      && |head| == n && multiset(head) == multiset(Rescored(items[..n], replies))
      && (forall i, j | 0 <= i < j < |head| :: head[i].score >= head[j].score)
  {
    HeadSorted(Rescored(items[..Least(topN, |items|)], replies));
  }

  /** ... and the tail follows in the order it had, every one of it strictly below the whole head. */
  lemma {:induction false} RerankTail(items: seq<Item>, topN: nat, replies: seq<real>)
    requires items != [] && topN > 0 && |replies| == Least(topN, |items|)
    ensures var n := Least(topN, |items|);
      var head, tail := Head(items, n, replies), Tail(items, n, replies);
      && |tail| == |items| - n
      && (forall j | 0 <= j < |tail| :: tail[j].key == items[n..][j].key)
      && (forall i, j | 0 <= i < |head| && 0 <= j < |tail| :: head[i].score > tail[j].score)
      && (forall i, j | 0 <= i < j < |tail| :: tail[i].score > tail[j].score)
  {
    var n := Least(topN, |items|);
    var head := Head(items, n, replies);
    HeadSorted(Rescored(items[..n], replies));
    TailBelow(items[n..], head[n - 1].score);
  }

  function KeysOf(items: seq<Item>): (ks: seq<int>)
    ensures |ks| == |items| && forall i | 0 <= i < |items| :: ks[i] == items[i].key
  {
    seq(|items|, i requires 0 <= i < |items| => items[i].key)
  }

  lemma {:induction false} SortKeys(s: seq<Item>)
    ensures multiset(KeysOf(SortBy(BY_SCORE, s))) == multiset(KeysOf(s))
  {
    if s != [] {
      var p, last := s[..|s| - 1], s[|s| - 1];
      SortKeys(p);
      InsertKeys(SortBy(BY_SCORE, p), last);
      assert KeysOf(s) == KeysOf(p) + [last.key];
    }
  }

  lemma {:induction false} InsertKeys(s: seq<Item>, x: Item)
    ensures multiset(KeysOf(InsertBy(BY_SCORE, s, x))) == multiset(KeysOf(s)) + multiset{x.key}
  {
    if s != [] && !BY_SCORE(s[|s| - 1], x) {
      var p, last := s[..|s| - 1], s[|s| - 1];
      InsertKeys(p, x);
      assert KeysOf(InsertBy(BY_SCORE, s, x)) == KeysOf(InsertBy(BY_SCORE, p, x)) + [last.key];
      assert KeysOf(s) == KeysOf(p) + [last.key];
    } else {
      assert KeysOf(s + [x]) == KeysOf(s) + [x.key];
    }
  }

  /** Whatever scoring answers, reranking keeps the candidates; with nothing to score, or an answer that failed or
      is of the wrong length, it keeps the list. */
  lemma {:induction false} RerankKeeps(items: seq<Item>, topN: nat, replies: Option<seq<real>>)
    ensures multiset(KeysOf(Reranked(items, topN, replies))) == multiset(KeysOf(items))
    ensures topN == 0 || replies.None? || |replies.value| != Least(topN, |items|) ==> Reranked(items, topN, replies) == items
  {
    if Usable(items, topN, replies) {
      var n := Least(topN, |items|);
      var head, tail := Head(items, n, replies.value), Tail(items, n, replies.value);
      var rescored := Rescored(items[..n], replies.value);
      RerankTail(items, topN, replies.value);
      SortKeys(rescored);
      assert KeysOf(rescored) == KeysOf(items[..n]);
      assert KeysOf(tail) == KeysOf(items[n..]);
      assert KeysOf(head + tail) == KeysOf(head) + KeysOf(tail);
      assert KeysOf(items) == KeysOf(items[..n]) + KeysOf(items[n..]);
    }
  }

  // ---- diverse selection ----

  // Closeness of two candidates by their embeddings; the score range relevance is scaled by.
  datatype Mmr = Mmr(lambda: real, close: (int, int) -> real, low: real, span: real)

  function Relevance(m: Mmr, c: Item): real
    requires m.span != 0.0
  {
    (c.score - m.low) / m.span
  }

  function Closest(m: Mmr, c: Item, selected: seq<Item>): real {
    if selected == [] then 0.0
    else if |selected| == 1 then m.close(c.key, selected[0].key)
    else
      var before, last := Closest(m, c, selected[..|selected| - 1]), m.close(c.key, selected[|selected| - 1].key);
      if last > before then last else before
  }

  function Value(m: Mmr, c: Item, selected: seq<Item>): real
    requires m.span != 0.0
  {
    m.lambda * Relevance(m, c) - (1.0 - m.lambda) * Closest(m, c, selected)
  }

  // The first of the candidates with the greatest value.
  method Pick(m: Mmr, remaining: seq<Item>, selected: seq<Item>) returns (b: nat)
    requires m.span != 0.0 && remaining != []
    ensures b < |remaining|
    ensures forall i | 0 <= i < |remaining| :: Value(m, remaining[i], selected) <= Value(m, remaining[b], selected)
    ensures forall i | 0 <= i < b :: Value(m, remaining[i], selected) < Value(m, remaining[b], selected)
  {
    b := 0;
    var i := 1;
    while i < |remaining|
      invariant 0 <= b < i <= |remaining|
      invariant forall j | 0 <= j < i :: Value(m, remaining[j], selected) <= Value(m, remaining[b], selected)
      invariant forall j | 0 <= j < b :: Value(m, remaining[j], selected) < Value(m, remaining[b], selected)
    {
      if Value(m, remaining[i], selected) > Value(m, remaining[b], selected) {
        b := i;
      }
      i := i + 1;
    }
  }

  function Without(s: seq<Item>, i: nat): seq<Item>
    requires i < |s|
  {
    s[..i] + s[i + 1..]
  }

  function LowOf(items: seq<Item>): (r: real)
    requires items != []
    ensures forall i | 0 <= i < |items| :: r <= items[i].score
    ensures exists i | 0 <= i < |items| :: r == items[i].score
  {
    if |items| == 1 then items[0].score
    else
      var before, last := LowOf(items[..|items| - 1]), items[|items| - 1].score;
      assert forall i | 0 <= i < |items| - 1 :: items[..|items| - 1][i] == items[i];
      if last < before then last else before
  }

  function HighOf(items: seq<Item>): (r: real)
    requires items != []
    ensures forall i | 0 <= i < |items| :: r >= items[i].score
    ensures exists i | 0 <= i < |items| :: r == items[i].score
  {
    if |items| == 1 then items[0].score
    else
      var before, last := HighOf(items[..|items| - 1]), items[|items| - 1].score;
      assert forall i | 0 <= i < |items| - 1 :: items[..|items| - 1][i] == items[i];
      if last > before then last else before
  }

  function Scale(items: seq<Item>, lambda: real, close: (int, int) -> real): (m: Mmr)
    requires items != []
    ensures m.span > 0.0 && m.lambda == lambda && m.close == close
  {
    var low, high := LowOf(items), HighOf(items);
    assert items[0].score >= low && high >= items[0].score;
    Mmr(lambda, close, low, if high == low then 1.0 else high - low)
  }

  // `picks` are the places chosen in turn from what then remains of `items`.
  function Remaining(items: seq<Item>, picks: seq<nat>): (r: Option<seq<Item>>)
    ensures r.Some? ==> |r.value| + |picks| == |items|
  {
    if picks == [] then Some(items)
    else
      match Remaining(items, picks[..|picks| - 1])
      case None => None
      case Some(rest) =>
        if picks[|picks| - 1] < |rest| then Some(Without(rest, picks[|picks| - 1])) else None
  }

  // Each pick has the greatest value among what remained, the first of those that have it.
  ghost predicate Greedy(m: Mmr, items: seq<Item>, picks: seq<nat>, chosen: seq<Item>)
    requires m.span != 0.0
  {
    if picks == [] then chosen == []
    else
      && chosen != []
      && Greedy(m, items, picks[..|picks| - 1], chosen[..|chosen| - 1])
      && match Remaining(items, picks[..|picks| - 1])
         case None => false
         case Some(rest) =>
           var b := picks[|picks| - 1];
           && b < |rest| && rest[b] == chosen[|chosen| - 1]
           && Tops(m, rest, b, chosen[..|chosen| - 1])
  }

  ghost predicate Tops(m: Mmr, rest: seq<Item>, b: nat, selected: seq<Item>)
    requires m.span != 0.0 && b < |rest|
  {
    && (forall i | 0 <= i < |rest| :: Value(m, rest[i], selected) <= Value(m, rest[b], selected))
    && (forall i | 0 <= i < b :: Value(m, rest[i], selected) < Value(m, rest[b], selected))
  }

  /** Picks min(k, n) of the candidates, each of the greatest value among those left. */
  method Select(items: seq<Item>, k: nat, lambda: real, close: (int, int) -> real)
    returns (selected: seq<Item>, ghost picks: seq<nat>)
    ensures |selected| == Least(k, |items|) && |picks| == |selected|
    ensures multiset(selected) <= multiset(items)
    ensures items != [] ==> Greedy(Scale(items, lambda, close), items, picks, selected)
  {
    selected, picks := [], [];
    if items == [] {
      return;
    }
    var m := Scale(items, lambda, close);
    var remaining := items;
    while remaining != [] && |selected| < k
      invariant |picks| == |selected| && |selected| + |remaining| == |items| && |selected| <= k
      invariant Remaining(items, picks) == Some(remaining)
      invariant multiset(selected) + multiset(remaining) == multiset(items)
      invariant Greedy(m, items, picks, selected)
      decreases |remaining|
    {
      var b := Pick(m, remaining, selected);
      GreedyStep(m, items, picks, selected, remaining, b);
      WithoutMany(remaining, b);
      selected := selected + [remaining[b]];
      picks := picks + [b];
      remaining := Without(remaining, b);
    }
  }

  lemma WithoutMany(s: seq<Item>, i: nat)
    requires i < |s|
    ensures multiset(Without(s, i)) + multiset{s[i]} == multiset(s)
  {
    assert s == s[..i] + [s[i]] + s[i + 1..];
  }

  lemma GreedyStep(m: Mmr, items: seq<Item>, picks: seq<nat>, chosen: seq<Item>, rest: seq<Item>, b: nat)
    requires m.span != 0.0 && Greedy(m, items, picks, chosen) && Remaining(items, picks) == Some(rest)
    requires b < |rest| && Tops(m, rest, b, chosen)
    ensures Greedy(m, items, picks + [b], chosen + [rest[b]])
    ensures Remaining(items, picks + [b]) == Some(Without(rest, b))
  {
    assert (picks + [b])[..|picks|] == picks && (chosen + [rest[b]])[..|chosen|] == chosen;
  }

  /** At lambda 1 on a list already sorted by score, that is exactly its first k. */
  lemma {:induction false} PureRelevance(m: Mmr, items: seq<Item>, picks: seq<nat>, chosen: seq<Item>)
    requires m.span > 0.0 && m.lambda == 1.0 && Greedy(m, items, picks, chosen) && |picks| <= |items|
    requires forall i, j | 0 <= i < j < |items| :: items[i].score >= items[j].score
    ensures |chosen| == |picks| && chosen == items[..|picks|] && Remaining(items, picks) == Some(items[|picks|..])
  {
    if picks != [] {
      var n := |picks| - 1;
      PureRelevance(m, items, picks[..n], chosen[..|chosen| - 1]);
      var rest, b := items[n..], picks[n];
      assert rest[b] == items[n + b] && rest[0] == items[n];
      Scaled(m, rest[0], rest[b], chosen[..|chosen| - 1]);
      assert Without(rest, 0) == items[n + 1..];
      assert chosen == chosen[..|chosen| - 1] + [rest[0]];
    }
  }

  // Relevance keeps the order of scores.
  lemma Scaled(m: Mmr, a: Item, b: Item, selected: seq<Item>)
    requires m.span > 0.0 && m.lambda == 1.0
    ensures a.score >= b.score ==> Value(m, a, selected) >= Value(m, b, selected)
  {
    assert Value(m, a, selected) == Relevance(m, a) && Value(m, b, selected) == Relevance(m, b);
    if a.score >= b.score {
      Divided(a.score - m.low, b.score - m.low, m.span);
    }
  }

  lemma Divided(x: real, y: real, d: real)
    requires x >= y && d > 0.0
    ensures x / d >= y / d
  {
    assert (x - y) / d >= 0.0;
  }

  lemma InUnit(x: real, d: real)
    requires 0.0 <= x <= d && d > 0.0
    ensures 0.0 <= x / d <= 1.0
    ensures x == 0.0 ==> x / d == 0.0
    ensures x == d ==> x / d == 1.0
  {
    Divided(x, 0.0, d);
    Divided(d, x, d);
    assert d / d == 1.0;
  }

  // All scores are equal.
  predicate Level(items: seq<Item>) {
    forall i, j | 0 <= i < |items| && 0 <= j < |items| :: items[i].score == items[j].score
  }

  /** Relevance runs from 0 for the lowest score to 1 for the highest; it is 0 throughout when all are equal. */
  lemma RelevanceRange(items: seq<Item>, lambda: real, close: (int, int) -> real, i: nat)
    requires i < |items|
    ensures var m := Scale(items, lambda, close);
      && 0.0 <= Relevance(m, items[i]) <= 1.0
      && ((forall j | 0 <= j < |items| :: items[i].score <= items[j].score) ==> Relevance(m, items[i]) == 0.0)
      && ((forall j | 0 <= j < |items| :: items[j].score <= items[i].score)
          ==> Relevance(m, items[i]) == if Level(items) then 0.0 else 1.0)
  {
    var m := Scale(items, lambda, close);
    assert m.low <= items[i].score <= m.low + m.span;
    InUnit(items[i].score - m.low, m.span);
  }

  /** Closeness to what is chosen is that to the closest of it, and 0 when nothing is. */
  lemma {:induction false} ClosestIsMax(m: Mmr, c: Item, selected: seq<Item>)
    ensures forall i | 0 <= i < |selected| :: m.close(c.key, selected[i].key) <= Closest(m, c, selected)
    ensures selected != [] ==> exists i | 0 <= i < |selected| :: m.close(c.key, selected[i].key) == Closest(m, c, selected)
    ensures selected == [] ==> Closest(m, c, selected) == 0.0
  {
    if |selected| == 1 {
      assert m.close(c.key, selected[0].key) == Closest(m, c, selected);
    } else if |selected| > 1 {
      var p, n := selected[..|selected| - 1], |selected| - 1;
      ClosestIsMax(m, c, p);
      assert forall i | 0 <= i < |p| :: p[i] == selected[i];
      var i :| 0 <= i < |p| && m.close(c.key, p[i].key) == Closest(m, c, p);
      assert m.close(c.key, selected[i].key) == Closest(m, c, p);
      assert m.close(c.key, selected[n].key) == Closest(m, c, selected) || Closest(m, c, p) == Closest(m, c, selected);
    }
  }

  lemma Trade(l: real, r: real, r': real, c: real, c': real)
    requires l * r - (1.0 - l) * c >= l * r' - (1.0 - l) * c'
    ensures l * (r - r') >= (1.0 - l) * (c - c')
  {
    assert l * (r - r') == l * r - l * r';
    assert (1.0 - l) * (c - c') == (1.0 - l) * c - (1.0 - l) * c';
  }

  lemma ValueParts(m: Mmr, c: Item, selected: seq<Item>, r: real, near: real)
    requires m.span != 0.0 && r == Relevance(m, c) && near == Closest(m, c, selected)
    ensures Value(m, c, selected) == m.lambda * r - (1.0 - m.lambda) * near
  {
  }

  /** What is picked gives up relevance only for diversity: against any other candidate left, the part lambda of
      what it is ahead in relevance is at least the part 1 - lambda of what it is closer to the chosen. */
  lemma TradesOff(m: Mmr, rest: seq<Item>, b: nat, selected: seq<Item>, i: nat, r: real, r': real, c: real, c': real)
    requires m.span > 0.0 && b < |rest| && i < |rest| && Tops(m, rest, b, selected)
    requires r == Relevance(m, rest[b]) && r' == Relevance(m, rest[i])
    requires c == Closest(m, rest[b], selected) && c' == Closest(m, rest[i], selected)
    ensures m.lambda * (r - r') >= (1.0 - m.lambda) * (c - c')
  {
    ValueParts(m, rest[b], selected, r, c);
    ValueParts(m, rest[i], selected, r', c');
    assert Value(m, rest[i], selected) <= Value(m, rest[b], selected);
    Trade(m.lambda, r, r', c, c');
  }

  /** At lambda 0 only diversity counts: none left is less close to the chosen. */
  lemma PureDiversity(m: Mmr, rest: seq<Item>, b: nat, selected: seq<Item>, i: nat)
    requires m.span > 0.0 && m.lambda == 0.0 && b < |rest| && i < |rest| && Tops(m, rest, b, selected)
    ensures Closest(m, rest[b], selected) <= Closest(m, rest[i], selected)
  {
    TradesOff(m, rest, b, selected, i, Relevance(m, rest[b]), Relevance(m, rest[i]),
              Closest(m, rest[b], selected), Closest(m, rest[i], selected));
  }
}
