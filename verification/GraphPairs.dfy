/** Which pairs a memory asserts, and as what: its last relation between the two, or else that they occur together. */
module GraphPairs {
  import opened Common
  import opened GraphModel

  // The entities a relation is about, when both its names are known and mean different ones.
  function Between(byName: map<string, Key>, r: Relation): Option<set<Key>> {
    if r.source in byName && r.target in byName && byName[r.source] != byName[r.target]
    then Some({byName[r.source], byName[r.target]}) else None
  }

  // The kind of the last relation about a pair.
  function LastRelation(byName: map<string, Key>, rels: seq<Relation>, p: set<Key>): Option<string> {
    if rels == [] then None
    else if Between(byName, rels[|rels| - 1]) == Some(p) then Some(rels[|rels| - 1].kind)
    else LastRelation(byName, rels[..|rels| - 1], p)
  }

  // Two different entities that occur together make a pair.
  predicate Meets(home: Key -> Key, c: (Key, Key), p: set<Key>) {
    home(c.0) != home(c.1) && p == {home(c.0), home(c.1)}
  }

  ghost predicate Together(home: Key -> Key, co: seq<(Key, Key)>, p: set<Key>) {
    exists c | c in co :: Meets(home, c, p)
  }

  lemma {:induction false} TypedExactly(byName: map<string, Key>, rels: seq<Relation>, p: set<Key>)
    ensures Lookup(TypedPairs(byName, rels), p) == LastRelation(byName, rels, p)
  {
    if rels != [] {
      TypedExactly(byName, rels[..|rels| - 1], p);
    }
  }

  lemma {:induction false} BackfillExactly(home: Key -> Key, pairs: map<set<Key>, string>, co: seq<(Key, Key)>, p: set<Key>)
    ensures Lookup(BackfillPairs(home, pairs, co), p)
      == if p in pairs then Some(pairs[p]) else if Together(home, co, p) then Some("associated_with") else None
  {
    if co != [] {
      var q, c := co[..|co| - 1], co[|co| - 1];
      BackfillExactly(home, pairs, q, p);
      assert co == q + [c];
      TogetherNext(home, q, c, p);
    }
  }

  lemma TogetherNext(home: Key -> Key, q: seq<(Key, Key)>, c: (Key, Key), p: set<Key>)
    ensures Together(home, q + [c], p) <==> Together(home, q, p) || Meets(home, c, p)
  {
    if Together(home, q, p) {
      var d :| d in q && Meets(home, d, p);
      assert d in q + [c];
    }
    if Meets(home, c, p) {
      assert c in q + [c];
    }
  }

  /** A memory asserts a pair as the last relation that resolves to it, else as going together when two of its capped
      co-occurrences resolve to it, else not at all; and never an entity with itself. */
  lemma PairsExactly(cfg: Config, byName: map<string, Key>, home: Key -> Key, m: Memory, p: set<Key>)
    ensures Lookup(PairsOf(cfg, byName, home, m), p)
      == if LastRelation(byName, m.relations, p).Some? then LastRelation(byName, m.relations, p)
         else if Together(home, CoPairs(m.entities, cfg.maxPairs), p) then Some("associated_with") else None
    ensures p in PairsOf(cfg, byName, home, m) ==> |p| == 2
  {
    TypedExactly(byName, m.relations, p);
    BackfillExactly(home, TypedPairs(byName, m.relations), CoPairs(m.entities, cfg.maxPairs), p);
    if LastRelation(byName, m.relations, p).Some? {
      RelationTwo(byName, m.relations, p);
    }
  }

  lemma {:induction false} RelationTwo(byName: map<string, Key>, rels: seq<Relation>, p: set<Key>)
    requires LastRelation(byName, rels, p).Some?
    ensures |p| == 2
  {
    if Between(byName, rels[|rels| - 1]) != Some(p) {
      RelationTwo(byName, rels[..|rels| - 1], p);
    }
  }

  // The first entity of a name, as what it was written to.
  function FirstNamed(home: Key -> Key, keys: seq<Key>, n: string): Option<Key> {
    if keys == [] then None
    else if FirstNamed(home, keys[..|keys| - 1], n).Some? then FirstNamed(home, keys[..|keys| - 1], n)
    else if keys[|keys| - 1].name == n then Some(home(keys[|keys| - 1])) else None
  }

  /** A name means the first entity extracted under it. */
  lemma {:induction false} NamesExactly(home: Key -> Key, keys: seq<Key>, n: string)
    ensures Lookup(NamesOf(home, keys), n) == FirstNamed(home, keys, n)
  {
    if keys != [] {
      NamesExactly(home, keys[..|keys| - 1], n);
    }
  }

  /** A new entity has the embedding of its name, full confidence, no community and no summary; it is flagged
      exactly when it points to another. */
  lemma BornFields(cfg: Config, g: Graph, o: Mention, d: Decision)
    requires d.Merge? ==> d.into in g.entities
    requires d.Own? && o.key !in g.entities
    ensures var e := WriteMention(cfg, g, o, d).entities[o.key];
      && e.embedding == cfg.embed(o.key.name) && e.mentionCount == 1 && e.confidence == 1.0
      && e.reliabilitySum == Some(o.reliability) && e.validTime == o.validTime
      && (e.needsReview <==> d.conflict.Some?) && e.conflictWith == d.conflict
      && !e.invalid && e.community.None? && e.summary == ""
  {
  }

  /** Another mention of a stored one adds to its count, reliability and belief, and leaves the rest. */
  lemma BumpedFields(cfg: Config, g: Graph, o: Mention, d: Decision)
    requires d.Merge? ==> d.into in g.entities
    requires Target(o.key, d) in g.entities
    ensures var t := Target(o.key, d);
      var e, e' := g.entities[t], WriteMention(cfg, g, o, d).entities[t];
      && e'.(mentionCount := e.mentionCount, reliabilitySum := e.reliabilitySum, belief := e.belief) == e
      && e'.mentionCount == e.mentionCount + 1
      && e'.reliabilitySum == Some(e.reliabilitySum.GetOr(0.0) + o.reliability)
  {
  }
}
