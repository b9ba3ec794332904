/** How the entity graph hangs together with the records: its edges lead to stored memories and episodes, and it
    holds what was extracted from redacted text. */
module StoreGraph {
  import opened GraphModel
  import opened GraphRefinement
  import opened GraphTotals
  import opened StoreModel
  import opened StoreReplay

  // Mention edges leave stored memories, provenance edges reach stored episodes.
  predicate Anchored(s: Store) {
    && (forall e | e in s.graph.mentions :: e.0 in s.memories)
    && (forall e | e in s.graph.producedBy :: e.1 in s.episodes)
  }

  lemma WriteOneEdges(cfg: Config, g: Graph, m: Memory)
    requires Valid(g)
    ensures Stored(g.order, g.entities)
    ensures var r := WriteOne(cfg, g, m);
      && (forall e | e in r.mentions :: e in g.mentions || e.0 == m.memoryKey)
      && (forall e | e in r.producedBy :: e in g.producedBy || e.1 == m.episodeKey)
  {
    var os := MentionsOf(m, m.entities);
    FoldIsBatch(cfg, g, os);
    forall o | o in os ensures o.memoryKey == m.memoryKey && o.episodeKey == m.episodeKey {
    }
  }

  lemma {:induction false} GraphStage(cfg: Setup, p: Store, t: Turn, now: int, first: bool, n: nat)
    requires Valid(p.graph) && Anchored(p)
    requires n == 5 ==> MemoryKey(cfg, t) in p.memories && EpisodeKey(cfg, t) in p.episodes
    ensures Anchored(Stage(cfg, p, t, now, first, n))
  {
    StageKeeps(cfg, p, t, now, first, n);
    if n == 5 && first && !t.working {
      WriteOneEdges(cfg.graph, p.graph, GraphMemory(cfg, t));
    }
  }

  lemma {:induction false} GraphStages(cfg: Setup, s: Store, t: Turn, now: int, first: bool, n: nat)
    requires Valid(s.graph) && Anchored(s)
    ensures Anchored(Stages(cfg, s, t, now, first, n))
  {
    if n > 0 {
      GraphStages(cfg, s, t, now, first, n - 1);
      StagesKeep(cfg, s, t, now, first, n - 1);
      GraphStage(cfg, Stages(cfg, s, t, now, first, n - 1), t, now, first, n);
    }
  }

  /** Through any deliveries, cut short anywhere, no edge of the graph dangles. */
  lemma {:induction false} EdgesAnchored(cfg: Setup, s: Store, ds: seq<Delivery>)
    requires Valid(s.graph) && Anchored(s)
    ensures Anchored(DeliverAll(cfg, s, ds))
  {
    if ds != [] {
      var p, d := ds[..|ds| - 1], ds[|ds| - 1];
      EdgesAnchored(cfg, s, p);
      GraphStages(cfg, DeliverAll(cfg, s, p), d.turn, d.now, First(cfg, DeliverAll(cfg, s, p), d.turn), d.stages);
    }
  }

  lemma {:induction false} MemoryAt(cfg: Setup, ts: seq<Turn>, i: nat)
    requires i < |ts|
    ensures |MemoriesOf(cfg, ts)| == |ts| && MemoriesOf(cfg, ts)[i] == GraphMemory(cfg, ts[i])
  {
    MemoriesLength(cfg, ts);
    MemoriesLength(cfg, ts[..|ts| - 1]);
    if i < |ts| - 1 {
      MemoryAt(cfg, ts[..|ts| - 1], i);
    }
  }

  lemma {:induction false} MemoriesLength(cfg: Setup, ts: seq<Turn>)
    ensures |MemoriesOf(cfg, ts)| == |ts|
  {
    if ts != [] {
      MemoriesLength(cfg, ts[..|ts| - 1]);
    }
  }

  /** What a fed turn brings to the graph is what the extractor finds in its redacted text, under the keys of its own
      memory and episode and with its reliability. */
  lemma FedExtracts(cfg: Setup, ts: seq<Turn>, i: nat)
    requires i < |ts|
    ensures |MemoriesOf(cfg, ts)| == |ts|
    ensures var t, text, m := ts[i], cfg.redact(ts[i].content), MemoriesOf(cfg, ts)[i];
      && m.episodeKey == cfg.hash(t.(content := text)) && m.memoryKey == m.episodeKey + "-mem"
      && m.entities == cfg.extract(text).entities && m.relations == cfg.extract(text).relations
      && m.validTime == cfg.extract(text).validTime && m.reliability == t.reliability
  {
    MemoryAt(cfg, ts, i);
  }

  /** The reliability in the graph is that of the turns fed, once per entity extracted. */
  lemma ReliabilityCounted(cfg: Setup, s: Store, ds: seq<Delivery>)
    requires Valid(s.graph)
    ensures Stored(DeliverAll(cfg, s, ds).graph.order, DeliverAll(cfg, s, ds).graph.entities)
    ensures Stored(s.graph.order, s.graph.entities)
    ensures Total(DeliverAll(cfg, s, ds).graph).rel == Total(s.graph).rel + ReliabilityOf(MemoriesOf(cfg, FedBy(cfg, s, ds)))
  {
    GraphIsFed(cfg, s, ds);
    WriteAllReliability(cfg.graph, s.graph, MemoriesOf(cfg, FedBy(cfg, s, ds)));
  }
}
