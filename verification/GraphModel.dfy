/** One tenant's entity graph and what one write does to it.

    An entity document is named by its natural key (name, label; `tag` here): the unique index on
    (tenant, name, label) makes that a faithful stand-in for the generated `_key`. `order` is the
    order in which the documents were created, which is the order of the tenant scan. A
    `relates_to` document is named by its unordered pair of entities. */
module GraphModel {
  import opened Common

  type Vec = seq<real>

  datatype Key = Key(name: string, tag: string)

  datatype Relation = Relation(source: string, target: string, kind: string)

  // One recorded memory after extraction: `entities` and `relations` are the extractor's replies,
  // `validTime` is the explicit date parsed from the text.
  datatype Memory = Memory(memoryKey: string, episodeKey: string, entities: seq<Key>,
                           relations: seq<Relation>, reliability: real, validTime: Option<int>)

  datatype Entity = Entity(embedding: Vec, mentionCount: nat, confidence: real,
                           reliabilitySum: Option<real>, belief: Option<real>,
                           validTime: Option<int>, needsReview: bool, conflictWith: Option<Key>,
                           invalid: bool, community: Option<int>, summary: string)

  datatype Edge = Edge(corroboration: Option<nat>, reliabilitySum: Option<real>, belief: real,
                       relationship: string, validTime: Option<int>)

  datatype Graph = Graph(entities: map<Key, Entity>, order: seq<Key>,
                         mentions: set<(string, Key)>, producedBy: set<(Key, string)>,
                         relatesTo: map<set<Key>, Edge>)

  // Settings, and the three functions the code takes from outside: the embedder, the cosine
  // similarity of two vectors, and real exponentiation.
  datatype Config = Config(base: real, mergeThreshold: real, flagThreshold: real, maxPairs: nat,
                           embed: string -> Vec, sim: (Vec, Vec) -> real, pow: (real, real) -> real)

  ghost predicate Valid(g: Graph) {
    && NoDup(g.order)
    && Elems(g.order) == g.entities.Keys
  }

  // ---- resolution of one extracted entity against the stored ones ----

  datatype Match = Match(key: Option<Key>, sim: real)

  datatype Decision = Merge(into: Key) | Own(conflict: Option<Key>)

  predicate Stored(pool: seq<Key>, rows: map<Key, Entity>) {
    forall k | k in pool :: k in rows
  }

  function Similarity(cfg: Config, rows: map<Key, Entity>, k: Key, row: Key): real
    requires row in rows
  {
    cfg.sim(cfg.embed(k.name), rows[row].embedding)
  }

  /** The best stored match of `k`: the earliest row of greatest similarity among the other rows,
      provided some row is above -1. */
  function BestMatch(cfg: Config, pool: seq<Key>, rows: map<Key, Entity>, k: Key): (m: Match)
    requires Stored(pool, rows)
    ensures m.sim >= -1.0
    ensures m.key.Some? ==> m.key.value in pool && m.key.value != k
    ensures m.key.Some? ==> m.sim == Similarity(cfg, rows, k, m.key.value)
    ensures forall r | r in pool && r != k :: Similarity(cfg, rows, k, r) <= m.sim
    ensures m.key.None? ==> m.sim == -1.0
  {
    if pool == [] then Match(None, -1.0)
    else
      var rest := BestMatch(cfg, pool[..|pool| - 1], rows, k);
      var row := pool[|pool| - 1];
      if row == k then rest
      else
        var s := Similarity(cfg, rows, k, row);
        if s > rest.sim then Match(Some(row), s) else rest
  }

  function DecisionOf(cfg: Config, m: Match): Decision {
    if m.key.Some? && m.sim >= cfg.mergeThreshold then Merge(m.key.value)
    else Own(if m.key.Some? && m.sim >= cfg.flagThreshold then m.key else None)
  }

  function Decide(cfg: Config, g: Graph, k: Key): Decision
    requires Stored(g.order, g.entities)
  {
    DecisionOf(cfg, BestMatch(cfg, g.order, g.entities, k))
  }

  function Target(k: Key, d: Decision): Key {
    if d.Merge? then d.into else k
  }

  // The entity an extracted key is written to.
  function Home(cfg: Config, g: Graph, k: Key): Key
    requires Stored(g.order, g.entities)
  {
    Target(k, Decide(cfg, g, k))
  }

  // ---- documents ----

  function Belief(cfg: Config, confidence: real, sum: real): real {
    confidence * (1.0 - cfg.pow(1.0 - cfg.base, sum))
  }

  // `count` more mentions carrying `rel` more reliability.
  function Bump(cfg: Config, e: Entity, count: nat, rel: real): Entity {
    var sum := e.reliabilitySum.GetOr(0.0) + rel;
    e.(mentionCount := e.mentionCount + count,
       reliabilitySum := Some(sum),
       belief := Some(Belief(cfg, e.confidence, sum)))
  }

  function NewEntity(cfg: Config, k: Key, conflict: Option<Key>, vt: Option<int>, count: nat, rel: real): Entity {
    Entity(cfg.embed(k.name), count, 1.0, Some(rel), Some(Belief(cfg, 1.0, rel)), vt,
           conflict.Some?, conflict, false, None, "")
  }

  // One extracted entity of one memory.
  datatype Mention = Mention(key: Key, reliability: real, validTime: Option<int>,
                             memoryKey: string, episodeKey: string)

  function MentionsOf(m: Memory, keys: seq<Key>): seq<Mention> {
    seq(|keys|, i requires 0 <= i < |keys| =>
      Mention(keys[i], m.reliability, m.validTime, m.memoryKey, m.episodeKey))
  }

  /** What one extracted entity does to the graph `g`, its decision `d` being taken already. */
  function WriteMention(cfg: Config, g: Graph, o: Mention, d: Decision): Graph
    requires d.Merge? ==> d.into in g.entities
  {
    var t := Target(o.key, d);
    var g1 :=
      if t in g.entities then
        g.(entities := g.entities[t := Bump(cfg, g.entities[t], 1, o.reliability)])
      else
        g.(entities := g.entities[t := NewEntity(cfg, t, d.conflict, o.validTime, 1, o.reliability)],
           order := g.order + [t]);
    g1.(mentions := g1.mentions + {(o.memoryKey, t)}, producedBy := g1.producedBy + {(t, o.episodeKey)})
  }

  // All mentions of a list, each resolved against the graph `base`.
  function WriteMentions(cfg: Config, base: Graph, g: Graph, os: seq<Mention>): (r: Graph)
    requires Stored(base.order, base.entities)
    requires base.entities.Keys <= g.entities.Keys
    ensures g.entities.Keys <= r.entities.Keys
  {
    if os == [] then g
    else
      var o := os[|os| - 1];
      WriteMention(cfg, WriteMentions(cfg, base, g, os[..|os| - 1]), o, Decide(cfg, base, o.key))
  }

  // ---- relations ----

  const CO_OCCURRENCE := "associated_with"

  /** The first `max` index pairs of a list of `n`, row by row, starting after `got` of them. */
  function CoPairs(keys: seq<Key>, max: nat): seq<(Key, Key)> {
    CoPairsFrom(keys, 0, 1, max)
  }

  function CoPairsFrom(keys: seq<Key>, i: nat, j: nat, max: nat): seq<(Key, Key)>
    requires i < j
    decreases |keys| - i, |keys| - j
  {
    if i >= |keys| then []
    else if j >= |keys| then CoPairsFrom(keys, i + 1, i + 2, max)
    else [(keys[i], keys[j])] + if max <= 1 then [] else CoPairsFrom(keys, i, j + 1, max - 1)
  }

  function TypedPairs(byName: map<string, Key>, rels: seq<Relation>): map<set<Key>, string> {
    if rels == [] then map[]
    else
      var before := TypedPairs(byName, rels[..|rels| - 1]);
      var r := rels[|rels| - 1];
      if r.source !in byName || r.target !in byName || byName[r.source] == byName[r.target] then before
      else before[{byName[r.source], byName[r.target]} := r.kind]
  }

  function BackfillPairs(home: Key -> Key, pairs: map<set<Key>, string>, co: seq<(Key, Key)>): map<set<Key>, string> {
    if co == [] then pairs
    else
      var before := BackfillPairs(home, pairs, co[..|co| - 1]);
      var (l, r) := co[|co| - 1];
      if home(l) == home(r) || {home(l), home(r)} in before then before
      else before[{home(l), home(r)} := CO_OCCURRENCE]
  }

  // The relation one memory asserts for each pair: typed relations first, the last one winning;
  // then plain co-occurrence for pairs without one.
  function PairsOf(cfg: Config, byName: map<string, Key>, home: Key -> Key, m: Memory): map<set<Key>, string> {
    BackfillPairs(home, TypedPairs(byName, m.relations), CoPairs(m.entities, cfg.maxPairs))
  }

  // What one memory, or a batch, says about a pair.
  datatype Vote = Vote(pairs: map<set<Key>, string>, reliability: real, validTime: Option<int>)

  datatype PairTally = PairTally(count: nat, rel: real, kind: string, validTime: Option<int>)

  function EdgeBelief(cfg: Config, sum: real): real {
    1.0 - cfg.pow(1.0 - cfg.base, sum)
  }

  /** The `relates_to` upsert: insert the totals, or add them to the stored edge. */
  function Corroborate(cfg: Config, stored: Option<Edge>, t: PairTally): Edge {
    match stored
    case None => Edge(Some(t.count), Some(t.rel), EdgeBelief(cfg, t.rel), t.kind, t.validTime)
    case Some(e) =>
      var sum := e.reliabilitySum.GetOr(0.0) + t.rel;
      Edge(Some(e.corroboration.GetOr(1) + t.count), Some(sum), EdgeBelief(cfg, sum), t.kind, e.validTime)
  }

  function Lookup<K, V>(m: map<K, V>, k: K): Option<V> {
    if k in m then Some(m[k]) else None
  }

  function RelateAll(cfg: Config, edges: map<set<Key>, Edge>, v: Vote): map<set<Key>, Edge> {
    map p | p in edges.Keys + v.pairs.Keys ::
      if p in v.pairs then
        Corroborate(cfg, Lookup(edges, p), PairTally(1, v.reliability, v.pairs[p], v.validTime))
      else edges[p]
  }

  // ---- one memory ----

  // The first entity extracted under each name, by the entity it was written to.
  function NamesOf(home: Key -> Key, keys: seq<Key>): map<string, Key> {
    if keys == [] then map[]
    else
      var before := NamesOf(home, keys[..|keys| - 1]);
      var k := keys[|keys| - 1];
      if k.name in before then before else before[k.name := home(k)]
  }

  function VoteOf(cfg: Config, base: Graph, m: Memory): Vote
    requires Stored(base.order, base.entities)
  {
    var home := k => Home(cfg, base, k);
    Vote(PairsOf(cfg, NamesOf(home, m.entities), home, m), m.reliability, m.validTime)
  }

  /** One memory written into `g` with every entity resolved against `base`. */
  function WriteMemory(cfg: Config, base: Graph, g: Graph, m: Memory): (r: Graph)
    requires Stored(base.order, base.entities)
    requires base.entities.Keys <= g.entities.Keys
    ensures g.entities.Keys <= r.entities.Keys
  {
    if m.entities == [] then g
    else
      var g1 := WriteMentions(cfg, base, g, MentionsOf(m, m.entities));
      g1.(relatesTo := RelateAll(cfg, g1.relatesTo, VoteOf(cfg, base, m)))
  }

  /** `write_entities`: the memory resolves against the graph as it finds it. */
  function WriteOne(cfg: Config, g: Graph, m: Memory): Graph
    requires Stored(g.order, g.entities)
  {
    WriteMemory(cfg, g, g, m)
  }
}
