/** The rank repair as loops over a growing table of candidates. */
module RankRepairPass {
  import opened Common
  import opened Sorting
  import opened RankRepair
  import opened Scores
  import opened RankRepairLaws

  predicate Keyed(v: View) {
    forall k | k in v.chosen :: v.chosen[k].key == k
  }

  function ScoreIn(byKey: map<int, Candidate>, key: int): real {
    if key in byKey then byKey[key].score else 0.0
  }

  // The memory under `key` as the view has it, with the score the table gives it.
  predicate IsNode(v: View, byKey: map<int, Candidate>, key: int, c: Candidate) {
    Lookup(v, key).Some? && c == Lookup(v, key).value.(score := ScoreIn(byKey, key))
  }

  // The table holds the selected candidates and pulled-in ones, as the view has them.
  predicate Mirrors(v: View, byKey: map<int, Candidate>) {
    v.chosen.Keys <= byKey.Keys && forall key | key in byKey :: IsNode(v, byKey, key, byKey[key])
  }

  method Find(v: View, byKey: map<int, Candidate>, key: int) returns (r: Option<Candidate>)
    requires Mirrors(v, byKey)
    ensures r.Some? <==> Lookup(v, key).Some?
    ensures r.Some? ==> IsNode(v, byKey, key, r.value)
  {
    if key in byKey {
      assert IsNode(v, byKey, key, byKey[key]);
      return Some(byKey[key]);
    }
    if key in v.rows && v.rows[key].readable {
      return Some(Fetched(key, v.rows[key]));
    }
    return None;
  }

  // Follows the links from a superseded candidate, at most `HOPS` of them.
  method Follow(v: View, byKey: map<int, Candidate>, cand: Candidate) returns (current: Option<Candidate>)
    requires Keyed(v) && Mirrors(v, byKey)
    requires cand.key in byKey && byKey[cand.key] == cand
    requires cand.supersededBy.Some? && InView(v.asOf, cand.validTo)
    ensures match current
            case None => CurrentOf(v, cand.key).None?
            case Some(c) => CurrentOf(v, cand.key) == Some(c.key) && IsNode(v, byKey, c.key, c)
  {
    current := None;
    var nxt := cand.supersededBy.value;
    var hop := 0;
    ghost var at := cand.key;
    assert IsNode(v, byKey, cand.key, cand);
    while hop < HOPS
      invariant 0 <= hop <= HOPS
      invariant match current
                case None => hop == 0 && at == cand.key
                case Some(c) => hop > 0 && at == c.key && Successor(v, cand.key).Some? && IsNode(v, byKey, at, c)
      invariant Lookup(v, at).Some? && Lookup(v, at).value.supersededBy == Some(nxt)
      invariant InView(v.asOf, Lookup(v, at).value.validTo)
      invariant Chase(v, cand.key, HOPS) == Chase(v, at, HOPS - hop)
    {
      var succ := Find(v, byKey, nxt);
      if succ.None? || !InView(v.asOf, succ.value.time) {
        break;
      }
      current := Some(succ.value);
      at := nxt;
      hop := hop + 1;
      if succ.value.supersededBy.None? || !InView(v.asOf, succ.value.validTo) {
        break;
      }
      nxt := succ.value.supersededBy.value;
    }
  }

  // The table and the key order stand for a state of the repair.
  predicate Stands(v: View, byKey: map<int, Candidate>, order: seq<int>, stale: set<int>, r: Repair) {
    Mirrors(v, byKey) && order == r.order && stale == r.stale && byKey.Keys == r.scores.Keys
    && forall key | key in byKey :: byKey[key].score == r.scores[key]
  }

  method TakeTurn(v: View, byKey: map<int, Candidate>, order: seq<int>, stale: set<int>, key: int, ghost r: Repair)
    returns (table: map<int, Candidate>, keys: seq<int>, marked: set<int>)
    requires Keyed(v) && Stands(v, byKey, order, stale, r) && key in byKey
    ensures Stands(v, table, keys, marked, Turn(v, r, key))
  {
    table, keys, marked := byKey, order, stale;
    var cand := byKey[key];
    assert IsNode(v, byKey, key, cand);
    assert cand.key == key;
    if cand.supersededBy.None? || !InView(v.asOf, cand.validTo) {
      return;
    }
    var current := Follow(v, byKey, cand);
    if current.None? {
      return;
    }
    var c := current.value;
    marked := stale + {key};
    if c.key !in byKey {
      keys := order + [c.key];
    }
    var raised := c.(score := Max(c.score, cand.score + STEP));
    table := byKey[c.key := raised];
    forall k | k in table ensures IsNode(v, table, k, table[k]) {
      if k in byKey {
        assert IsNode(v, byKey, k, byKey[k]);
      }
    }
  }

  // The selected candidates by key, with their links as the collection has them now.
  method Overlay(rows: map<int, Row>, selected: seq<Candidate>) returns (byKey: map<int, Candidate>, order: seq<int>)
    ensures byKey == Chosen(rows, selected) && order == KeysOf(selected)
  {
    byKey, order := map[], [];
    var i := 0;
    while i < |selected|
      invariant 0 <= i <= |selected|
      invariant byKey == Chosen(rows, selected[..i]) && order == KeysOf(selected[..i])
    {
      var c := selected[i];
      assert selected[..i + 1][..i] == selected[..i];
      if c.key in rows {
        c := c.(supersededBy := rows[c.key].supersededBy, validTo := rows[c.key].validTo);
      }
      byKey := byKey[c.key := c];
      order := order + [c.key];
      i := i + 1;
    }
    assert selected[..i] == selected;
  }

  lemma {:induction false} ChosenFacts(rows: map<int, Row>, selected: seq<Candidate>)
    ensures Chosen(rows, selected).Keys == ScoresOf(selected).Keys
    ensures forall k | k in Chosen(rows, selected) ::
      Chosen(rows, selected)[k].key == k && Chosen(rows, selected)[k].score == ScoresOf(selected)[k]
  {
    if selected != [] {
      ChosenFacts(rows, selected[..|selected| - 1]);
    }
  }

  method CutTo(ranked: seq<int>, pulled: set<int>, k: nat) returns (kept: seq<int>)
    ensures kept == Trim(ranked, pulled, k)
  {
    kept := ranked;
    while |kept| > k
      invariant Trim(kept, pulled, k) == Trim(ranked, pulled, k)
      decreases |kept|
    {
      var drop := LastOutside(kept, pulled);
      if drop.None? {
        break;
      }
      kept := kept[..drop.value] + kept[drop.value + 1..];
    }
  }

  method TakeTurns(v: View, keys: seq<int>, byKey: map<int, Candidate>, ghost start: Repair)
    returns (table: map<int, Candidate>, order: seq<int>, stale: set<int>)
    requires Keyed(v) && Stands(v, byKey, keys, {}, start)
    requires forall i | 0 <= i < |keys| :: keys[i] in byKey
    ensures Stands(v, table, order, stale, Turns(v, start, keys))
    ensures keys <= order
  {
    table, order, stale := byKey, keys, {};
    var i := 0;
    while i < |keys|
      invariant 0 <= i <= |keys|
      invariant Stands(v, table, order, stale, Turns(v, start, keys[..i]))
      invariant keys <= order && byKey.Keys <= table.Keys
    {
      assert keys[..i + 1][..i] == keys[..i];
      ghost var was := Turns(v, start, keys[..i]);
      table, order, stale := TakeTurn(v, table, order, stale, keys[i], was);
      i := i + 1;
    }
    assert keys[..i] == keys;
  }

  lemma SameScores(v: View, byKey: map<int, Candidate>, order: seq<int>, stale: set<int>, r: Repair, scores: map<int, real>)
    requires Stands(v, byKey, order, stale, r)
    requires scores == map key | key in byKey :: byKey[key].score
    ensures scores == r.scores
  {
    assert scores.Keys == r.scores.Keys;
    forall key | key in scores ensures scores[key] == r.scores[key] {
    }
  }

  /** The keys of the repaired selection in rank order, their scores, and the ones marked stale. */
  method Supersession(rows: map<int, Row>, selected: seq<Candidate>, k: nat, asOf: Option<int>)
    returns (ranked: seq<int>, scores: map<int, real>, stale: set<int>)
    ensures var v := View(rows, Chosen(rows, selected), asOf);
      && ranked == RankedKeys(v, selected, k)
      && scores == Repaired(v, selected).scores && stale == Repaired(v, selected).stale
  {
    var byKey, keys := Overlay(rows, selected);
    var v := View(rows, byKey, asOf);
    ChosenFacts(rows, selected);
    ScoresKeys(selected);
    forall i | 0 <= i < |keys| ensures keys[i] in byKey {
      assert keys[i] in Elems(keys);
    }
    var table, order;
    table, order, stale := TakeTurns(v, keys, byKey, Repair(keys, ScoresOf(selected), {}));
    scores := map key | key in table :: table[key].score;
    SameScores(v, table, order, stale, Repaired(v, selected), scores);
    ranked := CutTo(SortBy(HigherFirst(scores), order), Elems(order[|selected|..]), k);
  }
}
