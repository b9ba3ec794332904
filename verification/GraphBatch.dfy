/** What the batched graph pass leaves behind, stated by totals: every stored entity moves by the
    sum of the mentions that resolve to it, every new one is born with its sum, and every pair of
    entities by the sum of the memories that assert it. */
module GraphBatch {
  import opened Common
  import opened GraphModel

  datatype Sum = Sum(count: nat, rel: real) {
    function Add(moreCount: nat, moreRel: real): Sum {
      Sum(count + moreCount, rel + moreRel)
    }
  }

  predicate IsSum(s: Sum, a: Sum, b: Sum) {
    s.count == a.count + b.count && s.rel == a.rel + b.rel
  }

  const ZERO := Sum(0, 0.0)

  // Mentions of `k` under its own name.
  function KeySum(os: seq<Mention>, k: Key): Sum {
    if os == [] then ZERO
    else
      var before, o := KeySum(os[..|os| - 1], k), os[|os| - 1];
      if o.key == k then before.Add(1, o.reliability) else before
  }

  // Mentions that `g` resolves to `t`.
  function HomeSum(cfg: Config, g: Graph, os: seq<Mention>, t: Key): Sum
    requires Stored(g.order, g.entities)
  {
    if os == [] then ZERO
    else
      var before, o := HomeSum(cfg, g, os[..|os| - 1], t), os[|os| - 1];
      if Home(cfg, g, o.key) == t then before.Add(1, o.reliability) else before
  }

  function FirstTime(os: seq<Mention>, k: Key): Option<int> {
    if os == [] then None
    else
      var before := os[..|os| - 1];
      if KeySum(before, k).count > 0 then FirstTime(before, k)
      else if os[|os| - 1].key == k then os[|os| - 1].validTime
      else None
  }

  // The keys of a list of mentions, in the order they first appear.
  function FirstSeen(os: seq<Mention>): seq<Key> {
    if os == [] then []
    else
      var before, k := FirstSeen(os[..|os| - 1]), os[|os| - 1].key;
      if k in before then before else before + [k]
  }

  // The keys that get a document of their own, in creation order.
  function NewKeys(cfg: Config, g: Graph, os: seq<Mention>): seq<Key>
    requires Stored(g.order, g.entities)
  {
    if os == [] then []
    else
      var k := os[|os| - 1].key;
      var before := NewKeys(cfg, g, os[..|os| - 1]);
      if k in g.entities || k in before || Decide(cfg, g, k).Merge? then before else before + [k]
  }

  function ConflictOf(d: Decision): Option<Key> {
    if d.Own? then d.conflict else None
  }

  function BatchRow(cfg: Config, g: Graph, os: seq<Mention>, t: Key): Entity
    requires Stored(g.order, g.entities)
  {
    var sum := HomeSum(cfg, g, os, t);
    if t in g.entities then
      if sum.count == 0 then g.entities[t] else Bump(cfg, g.entities[t], sum.count, sum.rel)
    else NewEntity(cfg, t, ConflictOf(Decide(cfg, g, t)), FirstTime(os, t), sum.count, sum.rel)
  }

  function BatchEntities(cfg: Config, g: Graph, os: seq<Mention>): map<Key, Entity>
    requires Stored(g.order, g.entities)
  {
    map t | t in g.entities.Keys + Elems(NewKeys(cfg, g, os)) :: BatchRow(cfg, g, os, t)
  }

  function MentionEdges(cfg: Config, g: Graph, os: seq<Mention>): set<(string, Key)>
    requires Stored(g.order, g.entities)
  {
    set o | o in os :: (o.memoryKey, Home(cfg, g, o.key))
  }

  function ProducedEdges(cfg: Config, g: Graph, os: seq<Mention>): set<(Key, string)>
    requires Stored(g.order, g.entities)
  {
    set o | o in os :: (Home(cfg, g, o.key), o.episodeKey)
  }

  function BatchMentions(cfg: Config, g: Graph, os: seq<Mention>): Graph
    requires Stored(g.order, g.entities)
  {
    Graph(BatchEntities(cfg, g, os), g.order + NewKeys(cfg, g, os),
          g.mentions + MentionEdges(cfg, g, os), g.producedBy + ProducedEdges(cfg, g, os), g.relatesTo)
  }

  // ---- relations ----

  function VoteTally(votes: seq<Vote>, p: set<Key>): Option<PairTally> {
    if votes == [] then None
    else
      var v := votes[|votes| - 1];
      var before := VoteTally(votes[..|votes| - 1], p);
      if p !in v.pairs then before
      else
        match before
        case None => Some(PairTally(1, v.reliability, v.pairs[p], v.validTime))
        case Some(t) => Some(PairTally(t.count + 1, t.rel + v.reliability, v.pairs[p], t.validTime))
  }

  function VotedPairs(votes: seq<Vote>): set<set<Key>> {
    if votes == [] then {}
    else VotedPairs(votes[..|votes| - 1]) + votes[|votes| - 1].pairs.Keys
  }

  lemma {:induction false} TalliedIffVoted(votes: seq<Vote>, p: set<Key>)
    ensures p in VotedPairs(votes) <==> VoteTally(votes, p).Some?
  {
    if votes != [] {
      TalliedIffVoted(votes[..|votes| - 1], p);
    }
  }

  function BatchEdge(cfg: Config, stored: Option<Edge>, tally: Option<PairTally>): Option<Edge> {
    match tally
    case None => stored
    case Some(t) => Some(Corroborate(cfg, stored, t))
  }

  function BatchEdges(cfg: Config, edges: map<set<Key>, Edge>, votes: seq<Vote>): map<set<Key>, Edge> {
    map p | p in edges.Keys + VotedPairs(votes) && BatchEdge(cfg, Lookup(edges, p), VoteTally(votes, p)).Some? ::
      BatchEdge(cfg, Lookup(edges, p), VoteTally(votes, p)).value
  }

  // ---- a whole batch ----

  function BatchMentionList(ms: seq<Memory>): seq<Mention> {
    if ms == [] then []
    else
      var m := ms[|ms| - 1];
      BatchMentionList(ms[..|ms| - 1]) + MentionsOf(m, Distinct(m.entities))
  }

  function Chosen(cfg: Config, g: Graph, keys: seq<Key>, merged: bool): seq<Key>
    requires Stored(g.order, g.entities)
  {
    if keys == [] then []
    else
      var before := Chosen(cfg, g, keys[..|keys| - 1], merged);
      var k := keys[|keys| - 1];
      if Decide(cfg, g, k).Merge? == merged then before + [k] else before
  }

  // The name table of the batch: merged keys were filled in first, then those of their own.
  function BatchNames(cfg: Config, g: Graph, os: seq<Mention>): map<string, Key>
    requires Stored(g.order, g.entities)
  {
    var keys := FirstSeen(os);
    NamesOf(k => Home(cfg, g, k), Chosen(cfg, g, keys, true) + Chosen(cfg, g, keys, false))
  }

  function BatchVotes(cfg: Config, g: Graph, byName: map<string, Key>, ms: seq<Memory>): seq<Vote>
    requires Stored(g.order, g.entities)
  {
    seq(|ms|, i requires 0 <= i < |ms| =>
      Vote(PairsOf(cfg, byName, k => Home(cfg, g, k), ms[i]), ms[i].reliability, ms[i].validTime))
  }

  /** `write_entities_many`, by totals. */
  function WriteBatch(cfg: Config, g: Graph, ms: seq<Memory>): Graph
    requires Stored(g.order, g.entities)
  {
    var os := BatchMentionList(ms);
    BatchMentions(cfg, g, os).(
      relatesTo := BatchEdges(cfg, g.relatesTo, BatchVotes(cfg, g, BatchNames(cfg, g, os), ms)))
  }
}
