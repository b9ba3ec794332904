/** Redeliveries change nothing, and crashes never feed the graph twice. */
module StoreReplay {
  import opened Common
  import opened GraphModel
  import opened GraphRefinement
  import opened GraphTotals
  import opened StoreModel

  // ---- what each stage leaves alone ----

  lemma {:induction false} StageKeeps(cfg: Setup, s: Store, t: Turn, now: int, first: bool, n: nat)
    requires Valid(s.graph)
    ensures var r := Stage(cfg, s, t, now, first, n);
      && r.episodes == (if n == 1 then InsertEpisode(cfg, s, t, now).episodes else s.episodes)
      && r.memories.Keys == (if n == 3 then s.memories.Keys + {MemoryKey(cfg, t)} else s.memories.Keys)
      && r.graph == (if n == 5 && first && !t.working then FeedGraph(cfg, s, t).graph else s.graph)
  {
  }

  lemma {:induction false} StagesKeep(cfg: Setup, s: Store, t: Turn, now: int, first: bool, n: nat)
    requires Valid(s.graph)
    ensures var r := Stages(cfg, s, t, now, first, n);
      && r.episodes == (if n >= 1 then InsertEpisode(cfg, s, t, now).episodes else s.episodes)
      && r.memories.Keys == (if n >= 3 then s.memories.Keys + {MemoryKey(cfg, t)} else s.memories.Keys)
      && r.graph == (if n >= 5 && first && !t.working then FeedGraph(cfg, s, t).graph else s.graph)
  {
    if n > 0 {
      StagesKeep(cfg, s, t, now, first, n - 1);
      StageKeeps(cfg, Stages(cfg, s, t, now, first, n - 1), t, now, first, n);
    }
  }

  // ---- replays ----

  // Every committed episode has its memory.
  ghost predicate Recorded(cfg: Setup, s: Store) {
    forall k | k in s.episodes :: k + "-mem" in s.memories
  }

  lemma {:induction false} StagesIdle(cfg: Setup, s: Store, t: Turn, now: int, n: nat)
    requires Valid(s.graph) && EpisodeKey(cfg, t) in s.episodes && MemoryKey(cfg, t) in s.memories
    ensures Stages(cfg, s, t, now, false, n) == s
  {
    if n > 0 {
      StagesIdle(cfg, s, t, now, n - 1);
    }
  }

  /** Committing a turn whose key was committed before changes nothing. */
  lemma ReplayIdle(cfg: Setup, s: Store, t: Turn, now: int)
    requires Valid(s.graph) && Recorded(cfg, s) && !First(cfg, s, t)
    ensures Commit(cfg, s, t, now) == s
  {
    StagesIdle(cfg, s, t, now, STAGES);
  }

  lemma CommitRecords(cfg: Setup, s: Store, t: Turn, now: int)
    requires Valid(s.graph) && Recorded(cfg, s)
    ensures Recorded(cfg, Commit(cfg, s, t, now))
    ensures Commit(cfg, s, t, now).episodes.Keys == s.episodes.Keys + {EpisodeKey(cfg, t)}
  {
    StagesKeep(cfg, s, t, now, First(cfg, s, t), STAGES);
  }

  predicate Complete(ds: seq<Delivery>) {
    forall i | 0 <= i < |ds| :: ds[i].stages == STAGES
  }

  // The first delivery of each key, leaving out keys in `known`.
  function FirstDeliveries(cfg: Setup, known: set<string>, ds: seq<Delivery>): seq<Delivery> {
    if ds == [] then []
    else
      var before, d := FirstDeliveries(cfg, known, ds[..|ds| - 1]), ds[|ds| - 1];
      if EpisodeKey(cfg, d.turn) in known + DeliveredKeys(cfg, ds[..|ds| - 1]) then before else before + [d]
  }

  function DeliveredKeys(cfg: Setup, ds: seq<Delivery>): set<string> {
    if ds == [] then {} else DeliveredKeys(cfg, ds[..|ds| - 1]) + {EpisodeKey(cfg, ds[|ds| - 1].turn)}
  }

  lemma {:induction false} AllRecorded(cfg: Setup, s: Store, ds: seq<Delivery>)
    requires Valid(s.graph) && Recorded(cfg, s) && Complete(ds)
    ensures Recorded(cfg, DeliverAll(cfg, s, ds))
    ensures DeliverAll(cfg, s, ds).episodes.Keys == s.episodes.Keys + DeliveredKeys(cfg, ds)
  {
    if ds != [] {
      AllRecorded(cfg, s, ds[..|ds| - 1]);
      CommitRecords(cfg, DeliverAll(cfg, s, ds[..|ds| - 1]), ds[|ds| - 1].turn, ds[|ds| - 1].now);
    }
  }

  /** Any sequence of complete deliveries, with repeats, leaves what delivering each distinct key once
      leaves, in the order of the first deliveries. */
  lemma {:induction false} ReplaysDoNotCount(cfg: Setup, s: Store, ds: seq<Delivery>)
    requires Valid(s.graph) && Recorded(cfg, s) && Complete(ds)
    ensures DeliverAll(cfg, s, ds) == DeliverAll(cfg, s, FirstDeliveries(cfg, s.episodes.Keys, ds))
  {
    if ds != [] {
      var p, d := ds[..|ds| - 1], ds[|ds| - 1];
      ReplaysDoNotCount(cfg, s, p);
      AllRecorded(cfg, s, p);
      var firsts := FirstDeliveries(cfg, s.episodes.Keys, p);
      if First(cfg, DeliverAll(cfg, s, p), d.turn) {
        assert FirstDeliveries(cfg, s.episodes.Keys, ds)[..|firsts|] == firsts;
      } else {
        ReplayIdle(cfg, DeliverAll(cfg, s, p), d.turn, d.now);
      }
    }
  }

  lemma {:induction false} FirstDeliveriesDistinct(cfg: Setup, known: set<string>, ds: seq<Delivery>)
    ensures DeliveredKeys(cfg, FirstDeliveries(cfg, known, ds)) == DeliveredKeys(cfg, ds) - known
    ensures |FirstDeliveries(cfg, known, ds)| == |DeliveredKeys(cfg, ds) - known|
  {
    if ds != [] {
      var p, d := ds[..|ds| - 1], ds[|ds| - 1];
      FirstDeliveriesDistinct(cfg, known, p);
      var firsts, key := FirstDeliveries(cfg, known, p), EpisodeKey(cfg, d.turn);
      if key in known + DeliveredKeys(cfg, p) {
        assert DeliveredKeys(cfg, ds) - known == DeliveredKeys(cfg, p) - known;
      } else {
        assert (firsts + [d])[..|firsts|] == firsts;
        assert DeliveredKeys(cfg, ds) - known == (DeliveredKeys(cfg, p) - known) + {key};
      }
    }
  }

  // ---- crashes ----

  // Whether delivery `d` reaches the graph in state `s`.
  predicate Feeds(cfg: Setup, s: Store, d: Delivery) {
    First(cfg, s, d.turn) && !d.turn.working && d.stages >= STAGES
  }

  // The keys fed to the graph, one entry per pass, and the memories with them.
  function FedBy(cfg: Setup, s: Store, ds: seq<Delivery>): seq<Turn>
    requires Valid(s.graph)
  {
    if ds == [] then []
    else
      var p, d := ds[..|ds| - 1], ds[|ds| - 1];
      if Feeds(cfg, DeliverAll(cfg, s, p), d) then FedBy(cfg, s, p) + [d.turn] else FedBy(cfg, s, p)
  }

  function MemoriesOf(cfg: Setup, ts: seq<Turn>): seq<Memory> {
    if ts == [] then [] else MemoriesOf(cfg, ts[..|ts| - 1]) + [GraphMemory(cfg, ts[|ts| - 1])]
  }

  function KeysOf(cfg: Setup, ts: seq<Turn>): seq<string> {
    if ts == [] then [] else KeysOf(cfg, ts[..|ts| - 1]) + [EpisodeKey(cfg, ts[|ts| - 1])]
  }

  // The deliveries of a key that get as far as its episode.
  predicate Begins(cfg: Setup, d: Delivery, key: string) {
    EpisodeKey(cfg, d.turn) == key && d.stages >= 1
  }

  /** The graph after any deliveries, complete or cut short: one pass for each fed turn. */
  lemma {:induction false} GraphIsFed(cfg: Setup, s: Store, ds: seq<Delivery>)
    requires Valid(s.graph)
    ensures DeliverAll(cfg, s, ds).graph == WriteAll(cfg.graph, s.graph, MemoriesOf(cfg, FedBy(cfg, s, ds)))
  {
    if ds != [] {
      var p, d := ds[..|ds| - 1], ds[|ds| - 1];
      GraphIsFed(cfg, s, p);
      var t := DeliverAll(cfg, s, p);
      StagesKeep(cfg, t, d.turn, d.now, First(cfg, t, d.turn), d.stages);
      if Feeds(cfg, t, d) {
        var fed := FedBy(cfg, s, p);
        assert (fed + [d.turn])[..|fed|] == fed;
        var ms := MemoriesOf(cfg, fed);
        assert (ms + [GraphMemory(cfg, d.turn)])[..|ms|] == ms;
      }
    }
  }

  /** However deliveries are cut short and repeated, the graph is fed at most once per key. */
  lemma {:induction false} FedOnce(cfg: Setup, s: Store, ds: seq<Delivery>)
    requires Valid(s.graph)
    ensures NoDup(KeysOf(cfg, FedBy(cfg, s, ds)))
    ensures forall k | k in KeysOf(cfg, FedBy(cfg, s, ds)) :: k in DeliverAll(cfg, s, ds).episodes && k !in s.episodes
    ensures s.episodes.Keys <= DeliverAll(cfg, s, ds).episodes.Keys
  {
    if ds != [] {
      var p, d := ds[..|ds| - 1], ds[|ds| - 1];
      FedOnce(cfg, s, p);
      var t := DeliverAll(cfg, s, p);
      StagesKeep(cfg, t, d.turn, d.now, First(cfg, t, d.turn), d.stages);
      if Feeds(cfg, t, d) {
        var fed := FedBy(cfg, s, p);
        assert (fed + [d.turn])[..|fed|] == fed;
        SnocElems(KeysOf(cfg, fed), EpisodeKey(cfg, d.turn));
      }
    }
  }

  // The first delivery of a key that gets as far as its episode.
  function FirstBegin(cfg: Setup, ds: seq<Delivery>, key: string): (r: Option<Delivery>)
    ensures r.Some? ==> r.value in ds && Begins(cfg, r.value, key)
    ensures r.None? ==> forall i | 0 <= i < |ds| :: !Begins(cfg, ds[i], key)
  {
    if ds == [] then None
    else
      var before, d := FirstBegin(cfg, ds[..|ds| - 1], key), ds[|ds| - 1];
      if before.Some? then before else if Begins(cfg, d, key) then Some(d) else None
  }

  lemma {:induction false} EpisodesBegun(cfg: Setup, s: Store, ds: seq<Delivery>, key: string)
    requires Valid(s.graph)
    ensures key in DeliverAll(cfg, s, ds).episodes <==> key in s.episodes || FirstBegin(cfg, ds, key).Some?
  {
    if ds != [] {
      var p, d := ds[..|ds| - 1], ds[|ds| - 1];
      EpisodesBegun(cfg, s, p, key);
      var t := DeliverAll(cfg, s, p);
      StagesKeep(cfg, t, d.turn, d.now, First(cfg, t, d.turn), d.stages);
    }
  }

  /** A key reaches the graph exactly when the first delivery that stores its episode also gets through
      to the end, and is not a working memory: a delivery that fails after the episode (say, the
      embedder is down) leaves the entities out for good, whatever later deliveries do. */
  lemma {:induction false} FedExactly(cfg: Setup, s: Store, ds: seq<Delivery>, key: string)
    requires Valid(s.graph) && key !in s.episodes
    ensures key in KeysOf(cfg, FedBy(cfg, s, ds)) <==>
      match FirstBegin(cfg, ds, key)
      case None => false
      case Some(d) => d.stages >= STAGES && !d.turn.working
  {
    if ds != [] {
      var p, d := ds[..|ds| - 1], ds[|ds| - 1];
      FedExactly(cfg, s, p, key);
      EpisodesBegun(cfg, s, p, key);
      if Feeds(cfg, DeliverAll(cfg, s, p), d) {
        var fed := FedBy(cfg, s, p);
        assert (fed + [d.turn])[..|fed|] == fed;
      }
    }
  }

  /** So one failed try is enough: cut short after its episode, and then delivered whole, a new turn is never fed. */
  lemma CutShortUnfed(cfg: Setup, s: Store, t: Turn, now: int, later: int)
    requires Valid(s.graph) && First(cfg, s, t)
    ensures var ds := [Delivery(t, now, 1), Delivery(t, later, STAGES)];
      EpisodeKey(cfg, t) !in KeysOf(cfg, FedBy(cfg, s, ds)) && DeliverAll(cfg, s, ds).graph == s.graph
  {
    var d, e := Delivery(t, now, 1), Delivery(t, later, STAGES);
    assert [d, e][..1] == [d] && [d][..0] == [];
    assert FirstBegin(cfg, [d], EpisodeKey(cfg, t)) == Some(d);
    FedExactly(cfg, s, [d, e], EpisodeKey(cfg, t));
    StagesKeep(cfg, s, t, now, true, 1);
    StagesKeep(cfg, DeliverAll(cfg, s, [d]), t, later, false, STAGES);
  }

  lemma {:induction false} KeysLength(cfg: Setup, ts: seq<Turn>)
    ensures |KeysOf(cfg, ts)| == |ts|
  {
    if ts != [] {
      KeysLength(cfg, ts[..|ts| - 1]);
    }
  }

  /** The mentions counted in the graph are those of the turns fed, each distinct key once. */
  lemma MentionsCountedOnce(cfg: Setup, s: Store, ds: seq<Delivery>)
    requires Valid(s.graph)
    ensures Stored(DeliverAll(cfg, s, ds).graph.order, DeliverAll(cfg, s, ds).graph.entities)
    ensures Stored(s.graph.order, s.graph.entities)
    ensures Total(DeliverAll(cfg, s, ds).graph).count
      == Total(s.graph).count + |MentionList(MemoriesOf(cfg, FedBy(cfg, s, ds)))|
    ensures |FedBy(cfg, s, ds)| == |Elems(KeysOf(cfg, FedBy(cfg, s, ds)))|
  {
    GraphIsFed(cfg, s, ds);
    WriteAllCount(cfg.graph, s.graph, MemoriesOf(cfg, FedBy(cfg, s, ds)));
    FedOnce(cfg, s, ds);
    NoDupSize(KeysOf(cfg, FedBy(cfg, s, ds)));
    KeysLength(cfg, FedBy(cfg, s, ds));
  }
}
