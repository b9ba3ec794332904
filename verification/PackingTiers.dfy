/** The shares of the tiers, the order they are filled in, and what the first pass leaves out. */
module PackingTiers {
  import opened Common
  import opened Sorting
  import opened Packing

  // `c` is `x` without its fraction.
  predicate Truncates(c: int, x: real) {
    if x >= 0.0 then c as real <= x < c as real + 1.0 else c as real - 1.0 < x <= c as real
  }

  /** The shares are 26.7, 46.7, 20 and 6.7 percent of the budget, in whole tokens. */
  lemma CapsExactly(max: int)
    ensures Truncates(Cap(Working, max), 0.267 * max as real) && Truncates(Cap(Episodic, max), 0.467 * max as real)
    ensures Truncates(Cap(Semantic, max), 0.2 * max as real) && Truncates(Cap(Reasoning, max), 0.067 * max as real)
  {
    WholeTruncates(0.267 * max as real);
    WholeTruncates(0.467 * max as real);
    WholeTruncates(0.2 * max as real);
    WholeTruncates(0.067 * max as real);
  }

  lemma WholeTruncates(x: real)
    ensures Truncates(Whole(x), x)
  {
  }

  // Working memories come first, then episodic, semantic and reasoning ones.
  predicate Precedes(t: Tier, u: Tier) {
    match t
    case Working => !u.Working?
    case Episodic => u.Semantic? || u.Reasoning?
    case Semantic => u.Reasoning?
    case Reasoning => false
  }

  lemma TierOrderTotal()
    ensures TotalPreorder(BY_TIER) && TotalPreorder(BY_SCORE)
  {
  }

  /** The first pass goes tier by tier and, within one, from the highest score down; what is returned goes by score
      alone. */
  lemma TiersInOrder(hits: seq<Hit>, i: nat, j: nat)
    requires i < j < |hits|
    ensures var s := SortBy(BY_TIER, hits);
      && |s| == |hits| && !Precedes(s[j].tier, s[i].tier) && (s[i].tier == s[j].tier ==> s[i].score >= s[j].score)
    ensures |SortBy(BY_SCORE, hits)| == |hits| && SortBy(BY_SCORE, hits)[i].score >= SortBy(BY_SCORE, hits)[j].score
  {
    TierOrderTotal();
    SortLength(BY_TIER, hits);
    SortLength(BY_SCORE, hits);
    SortOrdered(BY_TIER, hits);
    SortOrdered(BY_SCORE, hits);
    SortedAt(BY_TIER, SortBy(BY_TIER, hits), i, j);
    SortedAt(BY_SCORE, SortBy(BY_SCORE, hits), i, j);
  }

  /** What the first pass leaves out would exceed the budget, or the share of its tier, beside what it took. */
  lemma {:induction false} FirstPassFull(hits: seq<Hit>, max: int, h: Hit)
    requires h in Elems(hits) && h !in Elems(FirstPass(hits, max))
    ensures var s := FirstPass(hits, max); Cost(s) + h.cost > max || TierCost(s, h.tier) + h.cost > Cap(h.tier, max)
  {
    var p, last := hits[..|hits| - 1], hits[|hits| - 1];
    LastElems(hits);
    var s := FirstPass(p, max);
    CostSnoc(s, last);
    SnocElems(s, last);
    if h in Elems(p) {
      FirstPassFull(p, max, h);
    }
  }

  /** Summed line by line. */
  lemma SumExactly(costs: seq<nat>, n: nat)
    requires n < |costs|
    ensures Sum(costs[..0]) == 0 && Sum(costs[..n + 1]) == Sum(costs[..n]) + costs[n]
  {
    assert costs[..n + 1][..n] == costs[..n];
  }

  /** Token counts add up over what was chosen, and over a tier of it. */
  lemma CostExactly(s: seq<Hit>, h: Hit, t: Tier)
    ensures Cost([]) == 0 && Cost(s + [h]) == Cost(s) + h.cost
    ensures TierCost([], t) == 0 && TierCost(s + [h], t) == TierCost(s, t) + if h.tier == t then h.cost else 0
  {
    CostSnoc(s, h);
  }
}
