/** The batched pass against the memory-by-memory one. */
module GraphRefinement {
  import opened Common
  import opened GraphModel
  import opened GraphBatch

  // ---- the mention part: folding mention by mention equals adding totals ----

  lemma {:induction false} ZeroSum(cfg: Config, g: Graph, os: seq<Mention>, t: Key)
    requires Stored(g.order, g.entities)
    ensures HomeSum(cfg, g, os, t).count == 0 ==> HomeSum(cfg, g, os, t) == ZERO
    ensures t !in g.entities && t !in NewKeys(cfg, g, os) ==> HomeSum(cfg, g, os, t) == ZERO
  {
    if os != [] {
      ZeroSum(cfg, g, os[..|os| - 1], t);
    }
  }

  lemma {:induction false} NewKeysFacts(cfg: Config, g: Graph, os: seq<Mention>)
    requires Stored(g.order, g.entities)
    ensures NoDup(NewKeys(cfg, g, os))
    ensures forall k | k in NewKeys(cfg, g, os) ::
              k !in g.entities && Decide(cfg, g, k).Own? && HomeSum(cfg, g, os, k).count > 0
  {
    if os != [] {
      var before, k := NewKeys(cfg, g, os[..|os| - 1]), os[|os| - 1].key;
      NewKeysFacts(cfg, g, os[..|os| - 1]);
      SnocElems(before, k);
      forall x | x in NewKeys(cfg, g, os)
        ensures x !in g.entities && Decide(cfg, g, x).Own? && HomeSum(cfg, g, os, x).count > 0
      {
        assert x in before || x == k;
      }
    }
  }

  lemma {:induction false} OwnSum(cfg: Config, g: Graph, os: seq<Mention>, k: Key)
    requires Stored(g.order, g.entities)
    requires k !in g.entities && Decide(cfg, g, k).Own?
    ensures KeySum(os, k) == HomeSum(cfg, g, os, k)
  {
    if os != [] {
      OwnSum(cfg, g, os[..|os| - 1], k);
    }
  }

  // The last mention moves exactly the row it resolves to.
  lemma BatchRowStep(cfg: Config, g: Graph, os: seq<Mention>, u: Key)
    requires Stored(g.order, g.entities) && os != []
    requires u in g.entities || u in NewKeys(cfg, g, os)
    ensures
      var p, o := os[..|os| - 1], os[|os| - 1];
      var d := Decide(cfg, g, o.key);
      BatchRow(cfg, g, os, u) ==
      if u != Target(o.key, d) then BatchRow(cfg, g, p, u)
      else if u in g.entities || u in NewKeys(cfg, g, p) then Bump(cfg, BatchRow(cfg, g, p, u), 1, o.reliability)
      else NewEntity(cfg, u, ConflictOf(d), o.validTime, 1, o.reliability)
  {
    if u in g.entities {
      ZeroSum(cfg, g, os[..|os| - 1], u);
    } else {
      NewRowStep(cfg, g, os, u);
    }
  }

  lemma NewRowStep(cfg: Config, g: Graph, os: seq<Mention>, u: Key)
    requires Stored(g.order, g.entities) && os != []
    requires u !in g.entities && u in NewKeys(cfg, g, os)
    ensures
      var p, o := os[..|os| - 1], os[|os| - 1];
      var d := Decide(cfg, g, o.key);
      BatchRow(cfg, g, os, u) ==
      if u != Target(o.key, d) then BatchRow(cfg, g, p, u)
      else if u in NewKeys(cfg, g, p) then Bump(cfg, BatchRow(cfg, g, p, u), 1, o.reliability)
      else NewEntity(cfg, u, ConflictOf(d), o.validTime, 1, o.reliability)
  {
    var p, o := os[..|os| - 1], os[|os| - 1];
    assert Decide(cfg, g, u).Own? by {
      NewKeysFacts(cfg, g, os);
    }
    assert KeySum(p, u) == HomeSum(cfg, g, p, u) by {
      OwnSum(cfg, g, p, u);
    }
    assert Home(cfg, g, o.key) == u <==> o.key == u;
    if u in NewKeys(cfg, g, p) {
      assert HomeSum(cfg, g, p, u).count > 0 by {
        NewKeysFacts(cfg, g, p);
      }
      assert FirstTime(os, u) == FirstTime(p, u);
    } else {
      assert HomeSum(cfg, g, p, u) == ZERO by {
        ZeroSum(cfg, g, p, u);
      }
      assert o.key == u;
      assert FirstTime(os, u) == o.validTime;
    }
  }

  lemma NewKeysStep(cfg: Config, g: Graph, os: seq<Mention>)
    requires Stored(g.order, g.entities) && os != []
    ensures
      var before, t := NewKeys(cfg, g, os[..|os| - 1]), Home(cfg, g, os[|os| - 1].key);
      && NewKeys(cfg, g, os) == (if t in g.entities || t in before then before else before + [t])
      && Elems(NewKeys(cfg, g, os)) + g.entities.Keys == Elems(before) + g.entities.Keys + {t}
  {
    SnocElems(NewKeys(cfg, g, os[..|os| - 1]), Home(cfg, g, os[|os| - 1].key));
  }

  lemma EdgesStep(cfg: Config, g: Graph, os: seq<Mention>)
    requires Stored(g.order, g.entities) && os != []
    ensures
      var p, o := os[..|os| - 1], os[|os| - 1];
      && MentionEdges(cfg, g, os) == MentionEdges(cfg, g, p) + {(o.memoryKey, Home(cfg, g, o.key))}
      && ProducedEdges(cfg, g, os) == ProducedEdges(cfg, g, p) + {(Home(cfg, g, o.key), o.episodeKey)}
  {
    LastMember(os);
  }

  lemma LastMember<T>(s: seq<T>)
    requires s != []
    ensures forall x :: x in s <==> x in s[..|s| - 1] || x == s[|s| - 1]
  {
    assert s == s[..|s| - 1] + [s[|s| - 1]];
  }

  lemma {:induction false} FoldIsBatch(cfg: Config, g: Graph, os: seq<Mention>)
    requires Stored(g.order, g.entities)
    ensures WriteMentions(cfg, g, g, os) == BatchMentions(cfg, g, os)
  {
    if os == [] {
      assert BatchMentions(cfg, g, os).entities == g.entities;
    } else {
      FoldIsBatch(cfg, g, os[..|os| - 1]);
      MentionStep(cfg, g, os);
    }
  }

  // One row of the entity map, written by the last mention.
  function WriteRow(cfg: Config, rows: map<Key, Entity>, t: Key, o: Mention, conflict: Option<Key>): map<Key, Entity> {
    rows[t := if t in rows then Bump(cfg, rows[t], 1, o.reliability)
              else NewEntity(cfg, t, conflict, o.validTime, 1, o.reliability)]
  }

  lemma EntitiesStep(cfg: Config, g: Graph, os: seq<Mention>)
    requires Stored(g.order, g.entities) && os != []
    ensures
      var o := os[|os| - 1];
      var d := Decide(cfg, g, o.key);
      BatchEntities(cfg, g, os)
      == WriteRow(cfg, BatchEntities(cfg, g, os[..|os| - 1]), Target(o.key, d), o, ConflictOf(d))
  {
    var o := os[|os| - 1];
    var d := Decide(cfg, g, o.key);
    var t := Target(o.key, d);
    var before, after := BatchEntities(cfg, g, os[..|os| - 1]), BatchEntities(cfg, g, os);
    NewKeysStep(cfg, g, os);
    assert after.Keys == before.Keys + {t};
    forall u | u in after ensures after[u] == WriteRow(cfg, before, t, o, ConflictOf(d))[u] {
      BatchRowStep(cfg, g, os, u);
    }
  }

  lemma OrderStep(cfg: Config, g: Graph, os: seq<Mention>)
    requires Stored(g.order, g.entities) && os != []
    ensures
      var p, t := os[..|os| - 1], Home(cfg, g, os[|os| - 1].key);
      var before := g.order + NewKeys(cfg, g, p);
      && g.order + NewKeys(cfg, g, os) == (if t in BatchEntities(cfg, g, p) then before else before + [t])
  {
    NewKeysStep(cfg, g, os);
    AppendAssoc(g.order, NewKeys(cfg, g, os[..|os| - 1]), [Home(cfg, g, os[|os| - 1].key)]);
  }

  lemma {:induction false} MentionStep(cfg: Config, g: Graph, os: seq<Mention>)
    requires Stored(g.order, g.entities) && os != []
    ensures
      var p, o := os[..|os| - 1], os[|os| - 1];
      WriteMention(cfg, BatchMentions(cfg, g, p), o, Decide(cfg, g, o.key)) == BatchMentions(cfg, g, os)
  {
    EntitiesStep(cfg, g, os);
    OrderStep(cfg, g, os);
    EdgesStep(cfg, g, os);
    SetAssoc(g.mentions, MentionEdges(cfg, g, os[..|os| - 1]), MentionEdges(cfg, g, os));
    SetAssoc(g.producedBy, ProducedEdges(cfg, g, os[..|os| - 1]), ProducedEdges(cfg, g, os));
  }

  lemma SetAssoc<T>(a: set<T>, b: set<T>, c: set<T>)
    ensures forall x {:trigger b + {x}} :: c == b + {x} ==> a + c == a + b + {x}
  {
  }

  // ---- the relation part ----

  function RelateFold(cfg: Config, edges: map<set<Key>, Edge>, votes: seq<Vote>): map<set<Key>, Edge> {
    if votes == [] then edges
    else RelateAll(cfg, RelateFold(cfg, edges, votes[..|votes| - 1]), votes[|votes| - 1])
  }

  lemma {:induction false} EdgeFold(cfg: Config, edges: map<set<Key>, Edge>, votes: seq<Vote>, p: set<Key>)
    ensures Lookup(RelateFold(cfg, edges, votes), p) == BatchEdge(cfg, Lookup(edges, p), VoteTally(votes, p))
  {
    if votes != [] {
      EdgeFold(cfg, edges, votes[..|votes| - 1], p);
    }
  }

  lemma RelateFoldIsBatch(cfg: Config, edges: map<set<Key>, Edge>, votes: seq<Vote>)
    ensures RelateFold(cfg, edges, votes) == BatchEdges(cfg, edges, votes)
  {
    var f, b := RelateFold(cfg, edges, votes), BatchEdges(cfg, edges, votes);
    forall p ensures Lookup(f, p) == Lookup(b, p) {
      EdgeFold(cfg, edges, votes, p);
      TalliedIffVoted(votes, p);
    }
    forall p ensures p in f <==> p in b {
      assert Lookup(f, p) == Lookup(b, p);
    }
    forall p | p in f ensures f[p] == b[p] {
      assert Lookup(f, p) == Lookup(b, p);
    }
  }

  // ---- resolution: when do rows added by the batch change a decision? ----

  // The rows of `g` with the same embeddings, and others after them.
  ghost predicate Extends(cfg: Config, g: Graph, h: Graph, extra: seq<Key>) {
    && Stored(g.order, g.entities)
    && Stored(h.order, h.entities)
    && h.order == g.order + extra
    && (forall k | k in g.order :: h.entities[k].embedding == g.entities[k].embedding)
    && (forall k | k in extra :: k !in g.order && h.entities[k].embedding == cfg.embed(k.name))
  }

  predicate Draws(cfg: Config, g: Graph, q: Key, r: Key)
    requires Stored(g.order, g.entities)
  {
    r != q && cfg.sim(cfg.embed(q.name), cfg.embed(r.name)) > BestMatch(cfg, g.order, g.entities, q).sim
  }

  // Row `r`, created while the batch runs, leaves the effect of `q` as `g` decides it: it is no
  // better match, or too weak to merge, and too weak to flag unless `q` has its document already.
  predicate Harmless(cfg: Config, g: Graph, known: bool, q: Key, r: Key)
    requires Stored(g.order, g.entities)
  {
    var s := cfg.sim(cfg.embed(q.name), cfg.embed(r.name));
    Draws(cfg, g, q, r) ==> s < cfg.mergeThreshold && (known || s < cfg.flagThreshold)
  }

  // Two decisions that write the same: the conflict pointer only matters at creation.
  predicate SameEffect(known: bool, d: Decision, d': Decision) {
    d == d' || (known && d.Own? && d'.Own?)
  }

  lemma {:induction false} BestOfPrefix(cfg: Config, pool: seq<Key>, rows: map<Key, Entity>, rows': map<Key, Entity>, q: Key)
    requires Stored(pool, rows) && Stored(pool, rows')
    requires forall k | k in pool :: rows'[k].embedding == rows[k].embedding
    ensures BestMatch(cfg, pool, rows', q) == BestMatch(cfg, pool, rows, q)
  {
    if pool != [] {
      BestOfPrefix(cfg, pool[..|pool| - 1], rows, rows', q);
    }
  }

  lemma {:induction false} BestOfExtended(cfg: Config, pool: seq<Key>, extra: seq<Key>, rows: map<Key, Entity>, q: Key)
    requires Stored(pool + extra, rows)
    requires Stored(pool, rows)
    ensures
      var b, b' := BestMatch(cfg, pool, rows, q), BestMatch(cfg, pool + extra, rows, q);
      b' == b || (b'.key.Some? && b'.key.value in extra && b'.sim > b.sim)
  {
    if extra == [] {
      assert pool + extra == pool;
    } else {
      assert (pool + extra)[..|pool + extra| - 1] == pool + extra[..|extra| - 1];
      BestOfExtended(cfg, pool, extra[..|extra| - 1], rows, q);
    }
  }

  /** The effect of `q` survives the new rows exactly when every one of them is harmless; when it
      does not, the row it is drawn to is one of them. */
  lemma DecisionStable(cfg: Config, g: Graph, h: Graph, extra: seq<Key>, known: bool, q: Key)
    requires Extends(cfg, g, h, extra)
    ensures SameEffect(known, Decide(cfg, h, q), Decide(cfg, g, q))
       <==> forall r | r in extra :: Harmless(cfg, g, known, q, r)
    ensures !SameEffect(known, Decide(cfg, h, q), Decide(cfg, g, q)) ==>
              exists x | x in extra && Draws(cfg, g, q, x) ::
                || (Decide(cfg, h, q) == Merge(x)
                    && cfg.sim(cfg.embed(q.name), cfg.embed(x.name)) >= cfg.mergeThreshold)
                || (!known && Decide(cfg, h, q) == Own(Some(x)) && Decide(cfg, g, q).Own?)
  {
    var b := BestMatch(cfg, g.order, g.entities, q);
    var b' := BestMatch(cfg, h.order, h.entities, q);
    BestOfPrefix(cfg, g.order, g.entities, h.entities, q);
    BestOfExtended(cfg, g.order, extra, h.entities, q);
    forall r | r in extra && r != q
      ensures cfg.sim(cfg.embed(q.name), cfg.embed(r.name)) <= b'.sim
    {
      assert r in h.order;
    }
    if b' != b {
      assert b'.key.value in extra && Draws(cfg, g, q, b'.key.value);
    }
  }

  // ---- the sequential pass, with every decision taken against the graph it started from ----

  function WriteAll(cfg: Config, g: Graph, ms: seq<Memory>): (r: Graph)
    requires Valid(g)
    ensures Valid(r)
  {
    if ms == [] then g
    else
      var before := WriteAll(cfg, g, ms[..|ms| - 1]);
      WriteOneValid(cfg, before, ms[|ms| - 1]);
      WriteOne(cfg, before, ms[|ms| - 1])
  }

  lemma WriteOneValid(cfg: Config, g: Graph, m: Memory)
    requires Valid(g)
    ensures Valid(WriteOne(cfg, g, m))
  {
    var os := MentionsOf(m, m.entities);
    FoldIsBatch(cfg, g, os);
    BatchValid(cfg, g, os);
  }

  lemma BatchValid(cfg: Config, g: Graph, os: seq<Mention>)
    requires Valid(g)
    ensures Valid(BatchMentions(cfg, g, os))
  {
    NewKeysFacts(cfg, g, os);
    var born := NewKeys(cfg, g, os);
    assert forall x | x in g.order :: x in Elems(g.order);
    AppendNoDup(g.order, born);
    AppendElems(g.order, born);
  }

  function WriteAllFixed(cfg: Config, g: Graph, ms: seq<Memory>): (r: Graph)
    requires Stored(g.order, g.entities)
    ensures g.entities.Keys <= r.entities.Keys
  {
    if ms == [] then g
    else WriteMemory(cfg, g, WriteAllFixed(cfg, g, ms[..|ms| - 1]), ms[|ms| - 1])
  }

  function MentionList(ms: seq<Memory>): seq<Mention> {
    if ms == [] then []
    else MentionList(ms[..|ms| - 1]) + MentionsOf(ms[|ms| - 1], ms[|ms| - 1].entities)
  }

  function Votes(cfg: Config, g: Graph, ms: seq<Memory>): seq<Vote>
    requires Stored(g.order, g.entities)
  {
    seq(|ms|, i requires 0 <= i < |ms| => VoteOf(cfg, g, ms[i]))
  }

  lemma {:induction false} MentionsCompose(cfg: Config, base: Graph, g: Graph, a: seq<Mention>, b: seq<Mention>)
    requires Stored(base.order, base.entities)
    requires base.entities.Keys <= g.entities.Keys
    ensures WriteMentions(cfg, base, g, a + b) == WriteMentions(cfg, base, WriteMentions(cfg, base, g, a), b)
  {
    if b == [] {
      assert a + b == a;
    } else {
      assert (a + b)[..|a + b| - 1] == a + b[..|b| - 1];
      MentionsCompose(cfg, base, g, a, b[..|b| - 1]);
    }
  }

  lemma {:induction false} MentionsIgnoreEdges(cfg: Config, base: Graph, g: Graph, edges: map<set<Key>, Edge>, os: seq<Mention>)
    requires Stored(base.order, base.entities)
    requires base.entities.Keys <= g.entities.Keys
    ensures WriteMentions(cfg, base, g.(relatesTo := edges), os)
         == WriteMentions(cfg, base, g, os).(relatesTo := edges)
    ensures WriteMentions(cfg, base, g, os).relatesTo == g.relatesTo
  {
    if os != [] {
      MentionsIgnoreEdges(cfg, base, g, edges, os[..|os| - 1]);
    }
  }

  lemma NoEntitiesNoPairs(cfg: Config, g: Graph, m: Memory)
    requires Stored(g.order, g.entities) && m.entities == []
    ensures VoteOf(cfg, g, m).pairs == map[]
  {
    NoNamesNoPairs(m.relations);
  }

  lemma {:induction false} NoNamesNoPairs(rels: seq<Relation>)
    ensures TypedPairs(map[], rels) == map[]
  {
    if rels != [] {
      NoNamesNoPairs(rels[..|rels| - 1]);
    }
  }

  lemma EmptyVote(cfg: Config, edges: map<set<Key>, Edge>, v: Vote)
    requires v.pairs == map[]
    ensures RelateAll(cfg, edges, v) == edges
  {
  }

  lemma {:induction false} FixedIsBatch(cfg: Config, g: Graph, ms: seq<Memory>)
    requires Stored(g.order, g.entities)
    ensures WriteAllFixed(cfg, g, ms)
         == BatchMentions(cfg, g, MentionList(ms)).(relatesTo := RelateFold(cfg, g.relatesTo, Votes(cfg, g, ms)))
  {
    FixedIsMentions(cfg, g, ms);
    FoldIsBatch(cfg, g, MentionList(ms));
  }

  lemma {:induction false} FixedIsMentions(cfg: Config, g: Graph, ms: seq<Memory>)
    requires Stored(g.order, g.entities)
    ensures WriteAllFixed(cfg, g, ms)
         == WriteMentions(cfg, g, g, MentionList(ms)).(relatesTo := RelateFold(cfg, g.relatesTo, Votes(cfg, g, ms)))
  {
    if ms == [] {
    } else {
      var p, m := ms[..|ms| - 1], ms[|ms| - 1];
      FixedIsMentions(cfg, g, p);
      assert Votes(cfg, g, ms)[..|ms| - 1] == Votes(cfg, g, p);
      FixedStep(cfg, g, WriteMentions(cfg, g, g, MentionList(p)), RelateFold(cfg, g.relatesTo, Votes(cfg, g, p)), m);
      MentionsCompose(cfg, g, g, MentionList(p), MentionsOf(m, m.entities));
    }
  }

  // One more memory, written into `h` with its edges replaced.
  lemma FixedStep(cfg: Config, g: Graph, h: Graph, edges: map<set<Key>, Edge>, m: Memory)
    requires Stored(g.order, g.entities) && g.entities.Keys <= h.entities.Keys
    ensures WriteMemory(cfg, g, h.(relatesTo := edges), m)
         == WriteMentions(cfg, g, h, MentionsOf(m, m.entities)).(relatesTo := RelateAll(cfg, edges, VoteOf(cfg, g, m)))
  {
    MentionsIgnoreEdges(cfg, g, h, edges, MentionsOf(m, m.entities));
    if m.entities == [] {
      NoEntitiesNoPairs(cfg, g, m);
      EmptyVote(cfg, edges, VoteOf(cfg, g, m));
    }
  }
}
