/** The pass as it runs, on the collections it updates. */
module DreamPass {
  import opened Common
  import opened GraphModel
  import opened DreamModel

  datatype DreamResult = DreamResult(reviewed: nat, superseded: nat, consolidated: nat, cleared: nat, tripped: bool)

  class DreamGraph {
    var entities: map<Key, Entity>
    var order: seq<Key>
    var supersedes: set<(Key, Key)>

    // `supersede` and the flag of the winner.
    method Supersede(winner: Key, loser: Key)
      requires winner in entities && loser in entities
      modifies this`entities, this`supersedes
      ensures supersedes == old(supersedes) + {(winner, loser)}
      ensures entities == map k | k in old(entities) ::
                old(entities)[k].(invalid := old(entities)[k].invalid || k == loser,
                                  needsReview := old(entities)[k].needsReview && k != winner)
    {
      supersedes := supersedes + {(winner, loser)};
      entities := entities[loser := entities[loser].(invalid := true)];
      entities := entities[winner := entities[winner].(needsReview := false)];
    }

    // Phase 1: decide for every candidate; nothing is written.
    method Decide(r: Review) returns (plan: Plan)
      requires Stored(order, entities)
      ensures plan == PlanOver(entities, order, r)
    {
      plan := NOTHING;
      for i := 0 to |order|
        invariant Stored(order[..i], entities) && plan == PlanOver(entities, order[..i], r)
      {
        assert order[..i + 1][..i] == order[..i];
        var k := order[i];
        if IsCandidate(entities[k], r.threshold) {
          var e := entities[k];
          var supersessions, clears, summaries := plan.supersessions, plan.clears, plan.summaries;
          if e.needsReview && e.conflictWith.Some? {
            var t := e.conflictWith.value;
            if t !in entities || entities[t].invalid {
              clears := clears + [k];
            } else if !DifferentCommunity(e, entities[t]) {
              if r.contradicts(k) {
                if Outscores(entities[t], e) {
                  supersessions := supersessions + [(t, k)];
                } else {
                  supersessions := supersessions + [(k, t)];
                }
              } else {
                clears := clears + [k];
              }
            }
          }
          if e.mentionCount >= r.threshold {
            var s := r.distill(k);
            if s != "" {
              summaries := summaries + [(k, s)];
            }
          }
          plan := Plan(plan.reviewed + 1, supersessions, clears, summaries);
        }
      }
      assert order[..|order|] == order;
    }

    // Phase 2: the writes, in the order the pass makes them.
    method ApplySupersessions(s: seq<(Key, Key)>)
      requires forall p | p in s :: p.0 in entities && p.1 in entities
      modifies this`entities, this`supersedes
      ensures entities == ApplyPlan(old(entities), Plan(0, s, [], []))
      ensures supersedes == old(supersedes) + Elems(s)
    {
      for i := 0 to |s|
        invariant entities == ApplyPlan(old(entities), Plan(0, s[..i], [], []))
        invariant supersedes == old(supersedes) + Elems(s[..i])
      {
        assert s[i] in s;
        SupersededSnoc(old(entities), s[..i], s[i]);
        SnocElems(s[..i], s[i]);
        assert s[..i + 1] == s[..i] + [s[i]];
        Supersede(s[i].0, s[i].1);
      }
      assert s[..|s|] == s;
    }

    method ApplyClears(c: seq<Key>, ghost rows: map<Key, Entity>, ghost s: seq<(Key, Key)>)
      requires entities == ApplyPlan(rows, Plan(0, s, [], []))
      requires forall k | k in c :: k in rows
      modifies this`entities
      ensures entities == ApplyPlan(rows, Plan(0, s, c, []))
    {
      for i := 0 to |c|
        invariant entities == ApplyPlan(rows, Plan(0, s, c[..i], []))
      {
        assert c[i] in c;
        ClearedSnoc(rows, s, c[..i], c[i]);
        assert c[..i + 1] == c[..i] + [c[i]];
        entities := entities[c[i] := entities[c[i]].(needsReview := false)];
      }
      assert c[..|c|] == c;
    }

    method ApplySummaries(d: seq<(Key, string)>, ghost rows: map<Key, Entity>, ghost s: seq<(Key, Key)>, ghost c: seq<Key>)
      requires entities == ApplyPlan(rows, Plan(0, s, c, []))
      requires forall p | p in d :: p.0 in rows
      modifies this`entities
      ensures entities == ApplyPlan(rows, Plan(0, s, c, d))
    {
      for i := 0 to |d|
        invariant entities == ApplyPlan(rows, Plan(0, s, c, d[..i]))
      {
        assert d[i] in d;
        SummarySnoc(rows, s, c, d[..i], d[i]);
        assert d[..i + 1] == d[..i] + [d[i]];
        entities := entities[d[i].0 := entities[d[i].0].(summary := d[i].1)];
      }
      assert d[..|d|] == d;
    }

    method Apply(plan: Plan)
      requires forall p | p in plan.supersessions :: p.0 in entities && p.1 in entities
      requires forall k | k in plan.clears :: k in entities
      requires forall p | p in plan.summaries :: p.0 in entities
      modifies this`entities, this`supersedes
      ensures entities == ApplyPlan(old(entities), plan)
      ensures supersedes == old(supersedes) + Elems(plan.supersessions)
    {
      ghost var rows := entities;
      ApplySupersessions(plan.supersessions);
      ApplyClears(plan.clears, rows, plan.supersessions);
      ApplySummaries(plan.summaries, rows, plan.supersessions, plan.clears);
      assert ApplyPlan(rows, Plan(0, plan.supersessions, plan.clears, plan.summaries)) == ApplyPlan(rows, plan);
    }

    /** `run_dream_state`: every candidate is decided before anything is written; a tripped
        breaker writes nothing. */
    method RunDreamState(r: Review) returns (result: DreamResult)
      requires Stored(order, entities)
      modifies this`entities, this`supersedes
      ensures
        var plan := PlanOver(old(entities), order, r);
        && result.reviewed == plan.reviewed
        && result.tripped == Tripped(plan, r.breaker)
        && (if result.tripped then entities == old(entities) && supersedes == old(supersedes)
            else entities == ApplyPlan(old(entities), plan)
                 && supersedes == old(supersedes) + Elems(plan.supersessions)
                 && result == DreamResult(plan.reviewed, |plan.supersessions|, |plan.summaries|, |plan.clears|, false))
    {
      var plan := Decide(r);
      PlanKeys(entities, order, r);
      if Tripped(plan, r.breaker) {
        result := DreamResult(plan.reviewed, 0, 0, 0, true);
      } else {
        Apply(plan);
        result := DreamResult(plan.reviewed, |plan.supersessions|, |plan.summaries|, |plan.clears|, false);
      }
    }
  }

  lemma SupersededSnoc(rows: map<Key, Entity>, s: seq<(Key, Key)>, p: (Key, Key))
    ensures
      var before := ApplyPlan(rows, Plan(0, s, [], []));
      ApplyPlan(rows, Plan(0, s + [p], [], [])) == map k | k in before ::
        before[k].(invalid := before[k].invalid || k == p.1, needsReview := before[k].needsReview && k != p.0)
  {
    assert forall q :: q in s + [p] <==> q in s || q == p;
    assert Winners(s + [p]) == Winners(s) + {p.0};
    assert Losers(s + [p]) == Losers(s) + {p.1};
  }

  lemma ClearedSnoc(rows: map<Key, Entity>, s: seq<(Key, Key)>, c: seq<Key>, k: Key)
    requires k in rows
    ensures
      var before := ApplyPlan(rows, Plan(0, s, c, []));
      ApplyPlan(rows, Plan(0, s, c + [k], [])) == before[k := before[k].(needsReview := false)]
  {
    assert forall x :: x in c + [k] <==> x in c || x == k;
  }

  lemma SummarySnoc(rows: map<Key, Entity>, s: seq<(Key, Key)>, c: seq<Key>, d: seq<(Key, string)>, p: (Key, string))
    requires p.0 in rows
    ensures
      var before := ApplyPlan(rows, Plan(0, s, c, d));
      ApplyPlan(rows, Plan(0, s, c, d + [p])) == before[p.0 := before[p.0].(summary := p.1)]
  {
    assert (d + [p])[..|d|] == d;
  }

  /** A plan only names stored entities. */
  lemma {:induction false} PlanKeys(entities: map<Key, Entity>, keys: seq<Key>, r: Review)
    requires Stored(keys, entities)
    ensures
      var plan := PlanOver(entities, keys, r);
      && (forall p | p in plan.supersessions :: p.0 in entities && p.1 in entities)
      && (forall k | k in plan.clears :: k in entities)
      && (forall p | p in plan.summaries :: p.0 in entities)
  {
    if keys != [] {
      PlanKeys(entities, keys[..|keys| - 1], r);
    }
  }
}
