/** Packing memories and entity summaries into the token budget. */
module Packing {
  import opened Common
  import opened Sorting

  datatype Tier = Working | Episodic | Semantic | Reasoning

  // `cost` is the token count of the text, `line` the memory's place among the candidates.
  datatype Hit = Hit(line: nat, tier: Tier, cost: nat, score: real)

  function Place(t: Tier): nat {
    match t
    case Working => 0
    case Episodic => 1
    case Semantic => 2
    case Reasoning => 3
  }

  function Fraction(t: Tier): real {
    match t
    case Working => 0.267
    case Episodic => 0.467
    case Semantic => 0.20
    case Reasoning => 0.067
  }

  // Truncation toward zero.
  function Whole(x: real): int {
    if x >= 0.0 then x.Floor else -(-x).Floor
  }

  function Cap(t: Tier, max: int): int {
    Whole(Fraction(t) * max as real)
  }

  const BY_TIER: (Hit, Hit) -> bool :=
    (a: Hit, b: Hit) => Place(a.tier) < Place(b.tier) || (Place(a.tier) == Place(b.tier) && a.score >= b.score)

  const BY_SCORE: (Hit, Hit) -> bool := (a: Hit, b: Hit) => a.score >= b.score

  function Cost(s: seq<Hit>): nat {
    if s == [] then 0 else Cost(s[..|s| - 1]) + s[|s| - 1].cost
  }

  function TierCost(s: seq<Hit>, t: Tier): nat {
    if s == [] then 0 else TierCost(s[..|s| - 1], t) + if s[|s| - 1].tier == t then s[|s| - 1].cost else 0
  }

  // ---- the two passes ----

  function FirstPass(hits: seq<Hit>, max: int): seq<Hit> {
    if hits == [] then []
    else
      var s, h := FirstPass(hits[..|hits| - 1], max), hits[|hits| - 1];
      if Cost(s) + h.cost <= max && TierCost(s, h.tier) + h.cost <= Cap(h.tier, max) then s + [h] else s
  }

  function SecondPass(chosen: seq<Hit>, hits: seq<Hit>, max: int): seq<Hit> {
    if hits == [] then chosen
    else
      var s, h := SecondPass(chosen, hits[..|hits| - 1], max), hits[|hits| - 1];
      if h !in s && Cost(s) + h.cost <= max then s + [h] else s
  }

  function Packed(hits: seq<Hit>, max: int): seq<Hit> {
    SecondPass(FirstPass(SortBy(BY_TIER, hits), max), SortBy(BY_SCORE, hits), max)
  }

  lemma CostSnoc(s: seq<Hit>, h: Hit)
    ensures Cost(s + [h]) == Cost(s) + h.cost
    ensures forall t :: TierCost(s + [h], t) == TierCost(s, t) + if h.tier == t then h.cost else 0
  {
    assert (s + [h])[..|s|] == s;
  }

  lemma {:induction false} CostReordered(s: seq<Hit>, less: (Hit, Hit) -> bool)
    ensures Cost(SortBy(less, s)) == Cost(s)
  {
    if s != [] {
      CostReordered(s[..|s| - 1], less);
      CostInserted(SortBy(less, s[..|s| - 1]), less, s[|s| - 1]);
    }
  }

  lemma {:induction false} CostInserted(s: seq<Hit>, less: (Hit, Hit) -> bool, h: Hit)
    ensures Cost(InsertBy(less, s, h)) == Cost(s) + h.cost
  {
    if s != [] && !less(s[|s| - 1], h) {
      CostInserted(s[..|s| - 1], less, h);
      CostSnoc(InsertBy(less, s[..|s| - 1], h), s[|s| - 1]);
    } else {
      CostSnoc(s, h);
    }
  }

  // ---- what packing guarantees ----

  function Budget(max: int): nat {
    if max > 0 then max else 0
  }

  lemma {:induction false} FirstPassFits(hits: seq<Hit>, max: int, t: Tier)
    requires NoDup(hits)
    ensures var s := FirstPass(hits, max);
      && Cost(s) <= Budget(max) && (TierCost(s, t) == 0 || TierCost(s, t) <= Cap(t, max))
      && NoDup(s) && Elems(s) <= Elems(hits)
  {
    if hits != [] {
      var p, h := hits[..|hits| - 1], hits[|hits| - 1];
      FirstPassFits(p, max, t);
      LastElems(hits);
      assert h !in Elems(p);
      assert h !in Elems(FirstPass(p, max));
      CostSnoc(FirstPass(p, max), h);
      SnocElems(FirstPass(p, max), h);
    }
  }

  lemma {:induction false} SecondPassFits(chosen: seq<Hit>, hits: seq<Hit>, max: int)
    requires NoDup(chosen) && Cost(chosen) <= Budget(max)
    ensures var s := SecondPass(chosen, hits, max);
      && Cost(s) <= Budget(max) && Cost(chosen) <= Cost(s) && NoDup(s)
      && Elems(chosen) <= Elems(s) <= Elems(chosen) + Elems(hits)
  {
    if hits != [] {
      var p, h := hits[..|hits| - 1], hits[|hits| - 1];
      SecondPassFits(chosen, p, max);
      LastElems(hits);
      var s := SecondPass(chosen, p, max);
      CostSnoc(s, h);
      SnocElems(s, h);
    }
  }

  // Whatever the second pass leaves out would not fit beside what it has at the end.
  lemma {:induction false} SecondPassFull(chosen: seq<Hit>, hits: seq<Hit>, max: int, h: Hit)
    requires NoDup(chosen) && Cost(chosen) <= Budget(max)
    requires h in Elems(hits) && h !in Elems(SecondPass(chosen, hits, max))
    ensures Cost(SecondPass(chosen, hits, max)) + h.cost > max
  {
    var p, last := hits[..|hits| - 1], hits[|hits| - 1];
    LastElems(hits);
    var s := SecondPass(chosen, p, max);
    CostSnoc(s, last);
    SnocElems(s, last);
    if h in Elems(p) {
      SecondPassFull(chosen, p, max, h);
    }
  }

  /** The packed memories cost at most the budget, none is chosen twice, and none was left out that would
      still have fitted. */
  lemma PackedExactly(hits: seq<Hit>, max: int)
    requires NoDup(hits)
    ensures var s := Packed(hits, max);
      && Cost(s) <= Budget(max) && NoDup(s) && Elems(s) <= Elems(hits)
      && forall h | h in Elems(hits) && h !in Elems(s) :: Cost(s) + h.cost > max
  {
    SortKeepsNoDup(BY_TIER, hits);
    SortElems(BY_TIER, hits);
    SortElems(BY_SCORE, hits);
    var first := FirstPass(SortBy(BY_TIER, hits), max);
    FirstPassFits(SortBy(BY_TIER, hits), max, Working);
    SecondPassFits(first, SortBy(BY_SCORE, hits), max);
    forall h | h in Elems(hits) && h !in Elems(Packed(hits, max)) ensures Cost(Packed(hits, max)) + h.cost > max {
      SecondPassFull(first, SortBy(BY_SCORE, hits), max, h);
    }
  }

  /** The first pass keeps every tier within its share. */
  lemma TierCapsHold(hits: seq<Hit>, max: int, t: Tier)
    requires NoDup(hits)
    ensures var s := FirstPass(SortBy(BY_TIER, hits), max); TierCost(s, t) == 0 || TierCost(s, t) <= Cap(t, max)
  {
    SortKeepsNoDup(BY_TIER, hits);
    FirstPassFits(SortBy(BY_TIER, hits), max, t);
  }

  // ---- the loops ----

  // Within each tier's share.
  method FillTiers(ordered: seq<Hit>, max: int) returns (chosen: seq<Hit>, total: nat)
    ensures chosen == FirstPass(ordered, max) && total == Cost(chosen)
  {
    var used := map[Working := 0, Episodic := 0, Semantic := 0, Reasoning := 0];
    chosen, total := [], 0;
    forall t: Tier ensures t in used && used[t] == 0 {
      assert t.Working? || t.Episodic? || t.Semantic? || t.Reasoning?;
    }
    var i := 0;
    while i < |ordered|
      invariant 0 <= i <= |ordered|
      invariant chosen == FirstPass(ordered[..i], max) && total == Cost(chosen)
      invariant forall t: Tier :: t in used && used[t] == TierCost(chosen, t)
    {
      var h := ordered[i];
      assert ordered[..i + 1][..i] == ordered[..i];
      CostSnoc(chosen, h);
      if total + h.cost <= max && used[h.tier] + h.cost <= Cap(h.tier, max) {
        chosen := chosen + [h];
        used := used[h.tier := used[h.tier] + h.cost];
        total := total + h.cost;
      }
      i := i + 1;
    }
    assert ordered[..i] == ordered;
  }

  method AssembleTiered(hits: seq<Hit>, max: int) returns (chosen: seq<Hit>, total: nat)
    requires NoDup(hits)
    ensures chosen == SortBy(BY_SCORE, Packed(hits, max)) && total == Cost(chosen)
    ensures if max > 0 then total <= max else total == 0
  {
    chosen, total := FillTiers(SortBy(BY_TIER, hits), max);
    chosen, total := RollUp(chosen, total, SortBy(BY_SCORE, hits), max);
    PackedExactly(hits, max);
    CostReordered(chosen, BY_SCORE);
    chosen := SortBy(BY_SCORE, chosen);
  }

  // What budget is left goes to the rest, best first.
  method RollUp(first: seq<Hit>, total0: nat, byScore: seq<Hit>, max: int) returns (chosen: seq<Hit>, total: nat)
    requires total0 == Cost(first)
    ensures chosen == SecondPass(first, byScore, max) && total == Cost(chosen)
  {
    chosen, total := first, total0;
    var i := 0;
    while i < |byScore|
      invariant 0 <= i <= |byScore|
      invariant chosen == SecondPass(first, byScore[..i], max) && total == Cost(chosen)
    {
      var h := byScore[i];
      assert byScore[..i + 1][..i] == byScore[..i];
      CostSnoc(chosen, h);
      if h !in chosen && total + h.cost <= max {
        chosen := chosen + [h];
        total := total + h.cost;
      }
      i := i + 1;
    }
    assert byScore[..i] == byScore;
  }

  function Sum(costs: seq<nat>): nat {
    if costs == [] then 0 else Sum(costs[..|costs| - 1]) + costs[|costs| - 1]
  }

  /** Entity summaries, best first, up to the first that does not fit; nothing at all when none does. */
  method EntityBlock(header: nat, costs: seq<nat>, budget: int) returns (lines: nat, used: nat)
    ensures lines <= |costs| && used <= Budget(budget)
    ensures lines > 0 ==> used == header + Sum(costs[..lines])
    ensures lines == 0 ==> used == 0
    ensures lines < |costs| && (lines > 0 || budget > 0) ==> header + Sum(costs[..lines + 1]) > budget
  {
    if budget <= 0 {
      return 0, 0;
    }
    lines, used := 0, header;
    while lines < |costs|
      invariant 0 <= lines <= |costs| && used == header + Sum(costs[..lines])
      invariant lines > 0 ==> used <= budget
    {
      assert costs[..lines + 1][..lines] == costs[..lines];
      if used + costs[lines] > budget {
        break;
      }
      used := used + costs[lines];
      lines := lines + 1;
    }
    if lines == 0 {
      used := 0;
    }
  }

  /** Entity block and memories together stay within the budget of the whole context. */
  method Assemble(hits: seq<Hit>, header: nat, costs: seq<nat>, max: int) returns (chosen: seq<Hit>, used: nat, tokens: nat)
    requires NoDup(hits)
    ensures used <= Budget(Cap(Semantic, max)) && tokens == used + Cost(chosen)
    ensures if max > 0 then tokens <= max else tokens == 0
    ensures chosen == SortBy(BY_SCORE, Packed(hits, max - used))
  {
    var lines;
    lines, used := EntityBlock(header, costs, Cap(Semantic, max));
    var total;
    chosen, total := AssembleTiered(hits, max - used);
    tokens := total + used;
    ShareFits(max);
  }

  lemma ShareFits(max: int)
    ensures Budget(Cap(Semantic, max)) <= Budget(max)
  {
    if max > 0 {
      assert 0.20 * max as real <= max as real;
    }
  }
}
