/** What a pass decides, read off the entities: who supersedes whom, which flags are cleared, what is distilled. */
module DreamVerdicts {
  import opened Common
  import opened GraphModel
  import opened DreamModel

  // `k` is flagged against `t`, both are live and not in communities known to differ, and the verdict is that
  // they contradict.
  predicate Contested(rows: map<Key, Entity>, k: Key, t: Key, r: Review) {
    && k in rows && t in rows && !rows[k].invalid && !rows[t].invalid
    && rows[k].needsReview && rows[k].conflictWith == Some(t)
    && (rows[k].community.None? || rows[t].community.None? || rows[k].community == rows[t].community)
    && r.contradicts(k)
  }

  // `a` has the higher belief, or the same and more mentions.
  predicate Ahead(rows: map<Key, Entity>, a: Key, b: Key)
    requires a in rows && b in rows
  {
    var x, y := rows[a].belief.GetOr(0.0), rows[b].belief.GetOr(0.0);
    x > y || (x == y && rows[a].mentionCount > rows[b].mentionCount)
  }

  /** The supersessions of a plan are the contested conflicts, each won by the entity that is ahead, and on a tie by
      the flagged one. */
  lemma {:induction false} SupersededExactly(rows: map<Key, Entity>, keys: seq<Key>, r: Review, winner: Key, loser: Key)
    requires Stored(keys, rows)
    ensures (winner, loser) in PlanOver(rows, keys, r).supersessions <==>
      || (loser in keys && Contested(rows, loser, winner, r) && Ahead(rows, winner, loser))
      || (winner in keys && Contested(rows, winner, loser, r) && !Ahead(rows, loser, winner))
  {
    if keys != [] {
      SupersededExactly(rows, keys[..|keys| - 1], r, winner, loser);
      assert keys == keys[..|keys| - 1] + [keys[|keys| - 1]];
    }
  }

  /** So no winner has a lower belief than its loser, nor fewer mentions at the same belief, nor both the same
      without being the flagged one. */
  lemma WinnerIsBetter(rows: map<Key, Entity>, keys: seq<Key>, r: Review, p: (Key, Key))
    requires Stored(keys, rows) && p in PlanOver(rows, keys, r).supersessions
    ensures p.0 in rows && p.1 in rows && !rows[p.0].invalid && !rows[p.1].invalid
    ensures rows[p.0].belief.GetOr(0.0) >= rows[p.1].belief.GetOr(0.0)
    ensures rows[p.0].belief.GetOr(0.0) == rows[p.1].belief.GetOr(0.0) ==> rows[p.0].mentionCount >= rows[p.1].mentionCount
    ensures rows[p.0].belief.GetOr(0.0) == rows[p.1].belief.GetOr(0.0) && rows[p.0].mentionCount == rows[p.1].mentionCount
      ==> rows[p.0].needsReview && rows[p.0].conflictWith == Some(p.1)
  {
    SupersededExactly(rows, keys, r, p.0, p.1);
  }

  /** A flag is cleared when what it points to is gone or deprecated, or the verdict is that there is no
      contradiction; not when the two are in different communities. */
  lemma {:induction false} ClearedExactly(rows: map<Key, Entity>, keys: seq<Key>, r: Review, k: Key)
    requires Stored(keys, rows)
    ensures k in PlanOver(rows, keys, r).clears <==>
      && k in keys && !rows[k].invalid && rows[k].needsReview && rows[k].conflictWith.Some?
      && var t := rows[k].conflictWith.value;
         || t !in rows || rows[t].invalid
         || (!r.contradicts(k) && (rows[k].community.None? || rows[t].community.None? || rows[k].community == rows[t].community))
  {
    if keys != [] {
      ClearedExactly(rows, keys[..|keys| - 1], r, k);
      assert keys == keys[..|keys| - 1] + [keys[|keys| - 1]];
    }
  }

  /** A live entity with enough mentions gets what the model distils, unless that is nothing. */
  lemma {:induction false} SummarizedExactly(rows: map<Key, Entity>, keys: seq<Key>, r: Review, k: Key, text: string)
    requires Stored(keys, rows)
    ensures (k, text) in PlanOver(rows, keys, r).summaries <==>
      k in keys && !rows[k].invalid && rows[k].mentionCount >= r.threshold && text == r.distill(k) && text != ""
  {
    if keys != [] {
      SummarizedExactly(rows, keys[..|keys| - 1], r, k, text);
      assert keys == keys[..|keys| - 1] + [keys[|keys| - 1]];
    }
  }

  // Flagged or often mentioned.
  function Reviewable(rows: map<Key, Entity>, keys: seq<Key>, threshold: nat): nat
    requires Stored(keys, rows)
  {
    if keys == [] then 0
    else
      var e := rows[keys[|keys| - 1]];
      Reviewable(rows, keys[..|keys| - 1], threshold) + if !e.invalid && (e.needsReview || e.mentionCount >= threshold) then 1 else 0
  }

  /** The breaker trips exactly when more than that share of the entities reviewed would be superseded. */
  lemma {:induction false} TrippedExactly(rows: map<Key, Entity>, keys: seq<Key>, r: Review)
    requires Stored(keys, rows)
    ensures var plan, n := PlanOver(rows, keys, r), Reviewable(rows, keys, r.threshold);
      plan.reviewed == n && (n > 0 ==> (Tripped(plan, r.breaker) <==> |plan.supersessions| as real > r.breaker * n as real))
      && (n == 0 ==> !Tripped(plan, r.breaker))
  {
    ReviewedCounts(rows, keys, r);
    var plan := PlanOver(rows, keys, r);
    if plan.reviewed > 0 {
      ShareAbove(|plan.supersessions| as real, plan.reviewed as real, r.breaker);
    }
  }

  lemma {:induction false} ReviewedCounts(rows: map<Key, Entity>, keys: seq<Key>, r: Review)
    requires Stored(keys, rows)
    ensures PlanOver(rows, keys, r).reviewed == Reviewable(rows, keys, r.threshold)
  {
    if keys != [] {
      ReviewedCounts(rows, keys[..|keys| - 1], r);
    }
  }

  lemma ShareAbove(a: real, n: real, b: real)
    requires n > 0.0
    ensures a / n > b <==> a > b * n
  {
    var q := a / n;
    assert q * n == a;
    if q > b {
      assert (q - b) * n > 0.0;
    } else {
      assert (b - q) * n >= 0.0;
    }
  }

  /** What the pass then does to an entity: deprecated exactly when it lost a contested conflict, its flag gone
      exactly when it won one or was cleared, its summary the distilled one, and nothing else touched. */
  lemma PassExactly(rows: map<Key, Entity>, keys: seq<Key>, r: Review, k: Key)
    requires Stored(keys, rows) && k in rows
    ensures var plan := PlanOver(rows, keys, r);
      var e, e' := rows[k], ApplyPlan(rows, plan)[k];
      && (e'.invalid <==> e.invalid || exists w :: (w, k) in plan.supersessions)
      && (e'.needsReview <==> e.needsReview && k !in plan.clears && forall l :: (k, l) !in plan.supersessions)
      && e'.summary == (if k in keys && !e.invalid && e.mentionCount >= r.threshold && r.distill(k) != "" then r.distill(k) else e.summary)
      && e'.(invalid := e.invalid, needsReview := e.needsReview, summary := e.summary) == e
  {
    var plan := PlanOver(rows, keys, r);
    if exists w :: (w, k) in plan.supersessions {
      var w :| (w, k) in plan.supersessions;
      assert (w, k).1 in Losers(plan.supersessions);
    }
    if exists l :: (k, l) in plan.supersessions {
      var l :| (k, l) in plan.supersessions;
      assert (k, l).0 in Winners(plan.supersessions);
    }
    assert forall p | p in plan.supersessions :: (p.0, p.1) in plan.supersessions;
    LastIsDistilled(rows, keys, r, k);
  }

  lemma {:induction false} LastIsDistilled(rows: map<Key, Entity>, keys: seq<Key>, r: Review, k: Key)
    requires Stored(keys, rows) && k in rows
    ensures LastSummary(PlanOver(rows, keys, r).summaries, k)
      == if k in keys && !rows[k].invalid && rows[k].mentionCount >= r.threshold && r.distill(k) != "" then Some(r.distill(k)) else None
  {
    if keys != [] {
      var p, last := keys[..|keys| - 1], keys[|keys| - 1];
      LastIsDistilled(rows, p, r, k);
      assert keys == p + [last];
      var before := PlanOver(rows, p, r).summaries;
      var now := PlanOver(rows, keys, r).summaries;
      assert now == before || now[..|now| - 1] == before;
    }
  }
}
