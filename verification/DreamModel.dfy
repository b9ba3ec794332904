/** Dream State over one tenant's entity graph: a pass decides everything first, then applies it
    unless the circuit breaker trips. Entity writes and community labels may fall between the
    two. */
module DreamModel {
  import opened Common
  import opened GraphModel

  // `invalid` of an entity stands for a set `invalid_at`; `supersedes` holds the edges
  // (winner, loser).
  datatype Plan = Plan(reviewed: nat, supersessions: seq<(Key, Key)>, clears: seq<Key>, summaries: seq<(Key, string)>)

  // What the language model would answer for each reviewed entity, and the pass's settings.
  datatype Review = Review(contradicts: Key -> bool, distill: Key -> string, threshold: nat, breaker: real)

  const NOTHING := Plan(0, [], [], [])

  predicate IsCandidate(e: Entity, threshold: nat) {
    !e.invalid && (e.needsReview || e.mentionCount >= threshold)
  }

  predicate DifferentCommunity(a: Entity, b: Entity) {
    a.community.Some? && b.community.Some? && a.community != b.community
  }

  // Belief first, then mentions.
  predicate Outscores(t: Entity, e: Entity) {
    var tb, eb := t.belief.GetOr(0.0), e.belief.GetOr(0.0);
    tb > eb || (tb == eb && t.mentionCount > e.mentionCount)
  }

  datatype Outcome = Leave | Clear | Supersede(winner: Key, loser: Key)

  /** The review of one flagged entity against the one it conflicts with. */
  function OutcomeOf(entities: map<Key, Entity>, k: Key, contradicts: Key -> bool): Outcome
    requires k in entities
  {
    var e := entities[k];
    if !e.needsReview || e.conflictWith.None? then Leave
    else
      var t := e.conflictWith.value;
      if t !in entities || entities[t].invalid then Clear
      else if DifferentCommunity(e, entities[t]) then Leave
      else if !contradicts(k) then Clear
      else if Outscores(entities[t], e) then Supersede(t, k)
      else Supersede(k, t)
  }

  function Extend(plan: Plan, entities: map<Key, Entity>, k: Key, r: Review): Plan
    requires k in entities
  {
    var o := OutcomeOf(entities, k, r.contradicts);
    var s := if entities[k].mentionCount >= r.threshold then r.distill(k) else "";
    Plan(plan.reviewed + 1,
         if o.Supersede? then plan.supersessions + [(o.winner, o.loser)] else plan.supersessions,
         if o.Clear? then plan.clears + [k] else plan.clears,
         if s != "" then plan.summaries + [(k, s)] else plan.summaries)
  }

  // The decisions for the candidates among `keys`, in order.
  function PlanOver(entities: map<Key, Entity>, keys: seq<Key>, r: Review): Plan
    requires Stored(keys, entities)
  {
    if keys == [] then NOTHING
    else
      var before, k := PlanOver(entities, keys[..|keys| - 1], r), keys[|keys| - 1];
      if IsCandidate(entities[k], r.threshold) then Extend(before, entities, k, r) else before
  }

  predicate Tripped(plan: Plan, breaker: real) {
    plan.reviewed > 0 && |plan.supersessions| as real / plan.reviewed as real > breaker
  }

  function Winners(s: seq<(Key, Key)>): set<Key> {
    set p | p in s :: p.0
  }

  function Losers(s: seq<(Key, Key)>): set<Key> {
    set p | p in s :: p.1
  }

  function LastSummary(s: seq<(Key, string)>, k: Key): Option<string> {
    if s == [] then None
    else if s[|s| - 1].0 == k then Some(s[|s| - 1].1)
    else LastSummary(s[..|s| - 1], k)
  }

  /** An entity after the plan: losers are soft-deprecated, winners and cleared ones need no
      review any more, and a distilled one carries its summary. */
  function Applied(plan: Plan, k: Key, e: Entity): Entity {
    e.(invalid := e.invalid || k in Losers(plan.supersessions),
       needsReview := e.needsReview && k !in Winners(plan.supersessions) && k !in plan.clears,
       summary := LastSummary(plan.summaries, k).GetOr(e.summary))
  }

  function ApplyPlan(entities: map<Key, Entity>, plan: Plan): map<Key, Entity> {
    map k | k in entities :: Applied(plan, k, entities[k])
  }
}
