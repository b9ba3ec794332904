/** Bulk ingestion of a batch of turns, and when it leaves what storing them one by one leaves. */
module StoreBulk {
  import opened Common
  import opened GraphModel
  import opened GraphBatch
  import opened GraphRefinement
  import opened GraphEquality
  import opened GraphNames
  import opened StoreModel
  import opened StoreReplay

  function InsertEpisodes(cfg: Setup, s: Store, ts: seq<Turn>, now: int): Store {
    if ts == [] then s else InsertEpisode(cfg, InsertEpisodes(cfg, s, ts[..|ts| - 1], now), ts[|ts| - 1], now)
  }

  function InsertMemories(cfg: Setup, s: Store, ts: seq<Turn>, now: int): Store {
    if ts == [] then s else InsertMemory(cfg, InsertMemories(cfg, s, ts[..|ts| - 1], now), ts[|ts| - 1], now)
  }

  // The turns that feed the graph: not working, the key neither stored before nor fed earlier in the batch.
  function Inputs(cfg: Setup, existing: set<string>, ts: seq<Turn>): seq<Turn> {
    if ts == [] then []
    else
      var before, t := Inputs(cfg, existing, ts[..|ts| - 1]), ts[|ts| - 1];
      if t.working || EpisodeKey(cfg, t) in existing || EpisodeKey(cfg, t) in KeysOf(cfg, before) then before
      else before + [t]
  }

  function Batch(cfg: Setup, s: Store, ts: seq<Turn>): seq<Memory> {
    MemoriesOf(cfg, Inputs(cfg, s.episodes.Keys, ts))
  }

  function StoreMany(cfg: Setup, s: Store, ts: seq<Turn>, now: int): Store
    requires Stored(s.graph.order, s.graph.entities)
  {
    InsertMemories(cfg, InsertEpisodes(cfg, s, ts, now), ts, now).(
      graph := if Batch(cfg, s, ts) == [] then s.graph else WriteBatch(cfg.graph, s.graph, Batch(cfg, s, ts)))
  }

  // One complete delivery per turn, all at one time.
  function OneByOne(ts: seq<Turn>, now: int): (ds: seq<Delivery>)
    ensures |ds| == |ts|
  {
    if ts == [] then [] else OneByOne(ts[..|ts| - 1], now) + [Delivery(ts[|ts| - 1], now, STAGES)]
  }

  lemma OneByOneSnoc(ts: seq<Turn>, now: int)
    requires ts != []
    ensures OneByOne(ts, now)[..|ts| - 1] == OneByOne(ts[..|ts| - 1], now)
    ensures OneByOne(ts, now)[|ts| - 1] == Delivery(ts[|ts| - 1], now, STAGES)
  {
  }

  lemma {:induction false} MemoriesIgnore(cfg: Setup, s: Store, ts: seq<Turn>, now: int, episodes: map<string, Episode>, g: Graph)
    ensures InsertMemories(cfg, s.(episodes := episodes, graph := g), ts, now)
      == InsertMemories(cfg, s, ts, now).(episodes := episodes, graph := g)
    ensures InsertMemories(cfg, s, ts, now).episodes == s.episodes && InsertMemories(cfg, s, ts, now).graph == s.graph
  {
    if ts != [] {
      MemoriesIgnore(cfg, s, ts[..|ts| - 1], now, episodes, g);
    }
  }

  lemma {:induction false} EpisodesIgnore(cfg: Setup, s: Store, ts: seq<Turn>, now: int)
    ensures InsertEpisodes(cfg, s, ts, now).(episodes := s.episodes) == s
  {
    if ts != [] {
      EpisodesIgnore(cfg, s, ts[..|ts| - 1], now);
    }
  }

  // ---- what agrees whatever the turns are ----

  lemma ArrivalNext(cfg: Setup, s: Store, t: Turn, now: int)
    requires Valid(s.graph)
    ensures Commit(cfg, s, t, now).arrival
      == if MemoryKey(cfg, t) in s.memories then s.arrival else s.arrival + [MemoryKey(cfg, t)]
  {
    var first := First(cfg, s, t);
    assert Stages(cfg, s, t, now, first, 0) == s;
    assert Stages(cfg, s, t, now, first, 1) == InsertEpisode(cfg, s, t, now);
    assert Stages(cfg, s, t, now, first, 2).arrival == s.arrival;
    assert Stages(cfg, s, t, now, first, 2).memories.Keys == s.memories.Keys;
    assert Stages(cfg, s, t, now, first, 4).arrival == Stages(cfg, s, t, now, first, 3).arrival;
  }

  function Bulk(cfg: Setup, s: Store, ts: seq<Turn>, now: int): Store {
    InsertMemories(cfg, InsertEpisodes(cfg, s, ts, now), ts, now)
  }

  lemma BulkNext(cfg: Setup, s: Store, ts: seq<Turn>, now: int)
    requires ts != []
    ensures var p, t := ts[..|ts| - 1], ts[|ts| - 1];
      Bulk(cfg, s, ts, now) == InsertMemory(cfg, InsertEpisode(cfg, Bulk(cfg, s, p, now), t, now), t, now)
  {
    var p, t := ts[..|ts| - 1], ts[|ts| - 1];
    var e := InsertEpisodes(cfg, s, p, now);
    var e1 := InsertEpisode(cfg, e, t, now);
    MemoriesIgnore(cfg, e, p, now, e1.episodes, e.graph);
    assert e1 == e.(episodes := e1.episodes, graph := e.graph);
  }

  /** Whatever the turns, working or in sessions: the same episodes, and the same memories in the same order of
      arrival, as storing them one by one. */
  lemma {:induction false} SameKeys(cfg: Setup, s: Store, ts: seq<Turn>, now: int)
    requires Valid(s.graph)
    ensures var a, b := Bulk(cfg, s, ts, now), DeliverAll(cfg, s, OneByOne(ts, now));
      a.episodes == b.episodes && a.memories.Keys == b.memories.Keys && a.arrival == b.arrival
  {
    if ts != [] {
      var p, t := ts[..|ts| - 1], ts[|ts| - 1];
      SameKeys(cfg, s, p, now);
      OneByOneSnoc(ts, now);
      BulkNext(cfg, s, ts, now);
      var before := DeliverAll(cfg, s, OneByOne(p, now));
      StagesKeep(cfg, before, t, now, First(cfg, before, t), STAGES);
      ArrivalNext(cfg, before, t, now);
    }
  }

  // ---- which turns feed the graph ----

  function FirstTurn(cfg: Setup, ts: seq<Turn>, key: string): Option<Turn> {
    if ts == [] then None
    else
      var before := FirstTurn(cfg, ts[..|ts| - 1], key);
      if before.Some? then before else if EpisodeKey(cfg, ts[|ts| - 1]) == key then Some(ts[|ts| - 1]) else None
  }

  // Of each new key with a turn that is not working, the first turn is not working.
  predicate FirstsPlain(cfg: Setup, existing: set<string>, ts: seq<Turn>) {
    forall i | 0 <= i < |ts| && !ts[i].working && EpisodeKey(cfg, ts[i]) !in existing :: FirstIsPlain(cfg, ts, EpisodeKey(cfg, ts[i]))
  }

  predicate FirstIsPlain(cfg: Setup, ts: seq<Turn>, key: string) {
    FirstTurn(cfg, ts, key).Some? && !FirstTurn(cfg, ts, key).value.working
  }

  lemma {:induction false} FirstTurnAt(cfg: Setup, ts: seq<Turn>, i: nat)
    requires i < |ts|
    ensures FirstTurn(cfg, ts, EpisodeKey(cfg, ts[i])).Some?
  {
    if i < |ts| - 1 {
      FirstTurnAt(cfg, ts[..|ts| - 1], i);
    }
  }

  lemma {:induction false} BeginIsFirst(cfg: Setup, ts: seq<Turn>, now: int, key: string)
    ensures FirstBegin(cfg, OneByOne(ts, now), key)
      == match FirstTurn(cfg, ts, key) case Some(t) => Some(Delivery(t, now, STAGES)) case None => None
  {
    if ts != [] {
      OneByOneSnoc(ts, now);
      BeginIsFirst(cfg, ts[..|ts| - 1], now, key);
    }
  }

  // One by one, a new key is fed exactly when its first turn is not working.
  lemma {:induction false} FedIffFirst(cfg: Setup, s: Store, ts: seq<Turn>, now: int, key: string)
    requires Valid(s.graph) && key !in s.episodes
    ensures key in KeysOf(cfg, FedBy(cfg, s, OneByOne(ts, now))) <==> FirstIsPlain(cfg, ts, key)
  {
    FedExactly(cfg, s, OneByOne(ts, now), key);
    BeginIsFirst(cfg, ts, now, key);
  }

  // In bulk, when any of its turns is not working.
  lemma {:induction false} InputIfPlain(cfg: Setup, existing: set<string>, ts: seq<Turn>, i: nat)
    requires i < |ts| && !ts[i].working && EpisodeKey(cfg, ts[i]) !in existing
    ensures EpisodeKey(cfg, ts[i]) in KeysOf(cfg, Inputs(cfg, existing, ts))
  {
    var p := ts[..|ts| - 1];
    var fed := Inputs(cfg, existing, p);
    if i < |ts| - 1 {
      InputIfPlain(cfg, existing, p, i);
    }
    assert (fed + [ts[|ts| - 1]])[..|fed|] == fed;
  }

  lemma {:induction false} InputPlain(cfg: Setup, existing: set<string>, ts: seq<Turn>, key: string) returns (i: nat)
    requires key in KeysOf(cfg, Inputs(cfg, existing, ts))
    ensures i < |ts| && !ts[i].working && EpisodeKey(cfg, ts[i]) == key && key !in existing
  {
    var p, t := ts[..|ts| - 1], ts[|ts| - 1];
    var fed := Inputs(cfg, existing, p);
    assert (fed + [t])[..|fed|] == fed;
    if key in KeysOf(cfg, fed) {
      i := InputPlain(cfg, existing, p, key);
    } else {
      i := |ts| - 1;
    }
  }

  lemma {:induction false} PlainBefore(cfg: Setup, existing: set<string>, ts: seq<Turn>)
    requires ts != [] && FirstsPlain(cfg, existing, ts)
    ensures FirstsPlain(cfg, existing, ts[..|ts| - 1])
  {
    var p := ts[..|ts| - 1];
    forall i | 0 <= i < |p| && !p[i].working && EpisodeKey(cfg, p[i]) !in existing ensures FirstIsPlain(cfg, p, EpisodeKey(cfg, p[i])) {
      FirstTurnAt(cfg, p, i);
      assert ts[i] == p[i];
    }
  }

  // A key met before, and fed so far exactly when its first turn is not working.
  lemma {:induction false} MetBefore(cfg: Setup, s: Store, p: seq<Turn>, now: int, key: string)
    requires Valid(s.graph) && key !in s.episodes
    ensures key in DeliverAll(cfg, s, OneByOne(p, now)).episodes <==> FirstTurn(cfg, p, key).Some?
  {
    EpisodesBegun(cfg, s, OneByOne(p, now), key);
    BeginIsFirst(cfg, p, now, key);
  }

  lemma {:induction false} PlainAgree(cfg: Setup, s: Store, ts: seq<Turn>, now: int)
    requires Valid(s.graph) && FirstsPlain(cfg, s.episodes.Keys, ts)
    ensures FedBy(cfg, s, OneByOne(ts, now)) == Inputs(cfg, s.episodes.Keys, ts)
  {
    if ts != [] {
      var p, t := ts[..|ts| - 1], ts[|ts| - 1];
      var key := EpisodeKey(cfg, t);
      PlainBefore(cfg, s.episodes.Keys, ts);
      PlainAgree(cfg, s, p, now);
      OneByOneSnoc(ts, now);
      if key in s.episodes {
        FedOnce(cfg, s, OneByOne(p, now));
      } else {
        MetBefore(cfg, s, p, now, key);
        FedIffFirst(cfg, s, p, now, key);
        if !t.working {
          assert FirstIsPlain(cfg, ts, EpisodeKey(cfg, ts[|ts| - 1]));
        }
      }
    }
  }

  /** Bulk and one-by-one ingestion feed the same turns to the graph exactly when the first turn of each new
      key that has a turn which is not working is itself not working. */
  lemma {:induction false} GatesAgreeIff(cfg: Setup, s: Store, ts: seq<Turn>, now: int)
    requires Valid(s.graph)
    ensures FedBy(cfg, s, OneByOne(ts, now)) == Inputs(cfg, s.episodes.Keys, ts) <==> FirstsPlain(cfg, s.episodes.Keys, ts)
  {
    if FirstsPlain(cfg, s.episodes.Keys, ts) {
      PlainAgree(cfg, s, ts, now);
    }
    if FedBy(cfg, s, OneByOne(ts, now)) == Inputs(cfg, s.episodes.Keys, ts) {
      forall i | 0 <= i < |ts| && !ts[i].working && EpisodeKey(cfg, ts[i]) !in s.episodes
        ensures FirstIsPlain(cfg, ts, EpisodeKey(cfg, ts[i]))
      {
        InputIfPlain(cfg, s.episodes.Keys, ts, i);
        FedIffFirst(cfg, s, ts, now, EpisodeKey(cfg, ts[i]));
      }
    }
  }

  /** They part on a new turn that comes once as working and once not, when its key leaves that out: in bulk the
      second feeds the graph, one by one neither does. */
  lemma WorkingTwinParts(cfg: Setup, s: Store, t: Turn, now: int)
    requires Valid(s.graph) && First(cfg, s, t) && !t.working && EpisodeKey(cfg, t.(working := true)) == EpisodeKey(cfg, t)
    ensures var ts := [t.(working := true), t];
      && !FirstsPlain(cfg, s.episodes.Keys, ts)
      && Inputs(cfg, s.episodes.Keys, ts) == [t] && FedBy(cfg, s, OneByOne(ts, now)) == []
  {
    var twin := t.(working := true);
    var ts := [twin, t];
    assert ts[..1] == [twin] && [twin][..0] == [];
    assert FirstTurn(cfg, [twin], EpisodeKey(cfg, t)) == Some(twin);
    assert !FirstIsPlain(cfg, ts, EpisodeKey(cfg, ts[1]));
    assert Inputs(cfg, s.episodes.Keys, [twin]) == [];
    OneByOneSnoc(ts, now);
    OneByOneSnoc([twin], now);
    assert OneByOne([twin], now)[..0] == [];
    assert FedBy(cfg, s, OneByOne([twin], now)) == [];
    assert DeliverAll(cfg, s, OneByOne([], now)) == s;
    StagesKeep(cfg, s, twin, now, true, STAGES);
  }

  // ---- what topic tracking changes ----

  predicate NoneWorking(ts: seq<Turn>) {
    forall i | 0 <= i < |ts| :: !ts[i].working
  }

  predicate HasTurn(ts: seq<Turn>, agent: string, session: Option<string>) {
    exists i | 0 <= i < |ts| :: ts[i].agent == agent && ts[i].session == session
  }

  // `b` is `a`, or `a` made episodic: a working memory of a session some turn belongs to.
  predicate FlushedAtMost(ts: seq<Turn>, a: Record, b: Record) {
    a == b || (a.working && b == Promoted(a) && a.session.Some? && HasTurn(ts, a.agent, a.session))
  }

  ghost predicate SameButFlushed(ts: seq<Turn>, a: Store, b: Store) {
    a.memories.Keys == b.memories.Keys && forall k | k in a.memories :: FlushedAtMost(ts, a.memories[k], b.memories[k])
  }

  // A commit of a turn that is not working puts in its memory and, at most, flushes its session's buffer.
  lemma {:induction false} CommitFlushes(cfg: Setup, s: Store, t: Turn, now: int, k: string)
    requires Valid(s.graph) && !t.working && k in s.memories
    ensures k in Commit(cfg, s, t, now).memories
    ensures var a, b := s.memories[k], Commit(cfg, s, t, now).memories[k];
      a == b || (InBuffer(a, t.agent, t.session) && t.session.Some? && b == Promoted(a))
  {
    var first := First(cfg, s, t);
    assert Stages(cfg, s, t, now, first, 0) == s;
    assert Stages(cfg, s, t, now, first, 1) == InsertEpisode(cfg, s, t, now);
    var s2 := Stages(cfg, s, t, now, first, 2);
    assert s2.memories[k] == s.memories[k]
      || (InBuffer(s.memories[k], t.agent, t.session) && t.session.Some?
          && s2.memories[k] == Promoted(s.memories[k]));
    assert Stages(cfg, s, t, now, first, 3) == InsertMemory(cfg, s2, t, now);
    assert Stages(cfg, s, t, now, first, 4) == Stages(cfg, s, t, now, first, 3);
  }

  lemma {:induction false} CommitAdds(cfg: Setup, s: Store, t: Turn, now: int)
    requires Valid(s.graph) && !t.working && MemoryKey(cfg, t) !in s.memories
    ensures MemoryKey(cfg, t) in Commit(cfg, s, t, now).memories
    ensures Commit(cfg, s, t, now).memories[MemoryKey(cfg, t)] == MemoryDoc(cfg, t, now)
  {
    var first := First(cfg, s, t);
    assert Stages(cfg, s, t, now, first, 0) == s;
    assert Stages(cfg, s, t, now, first, 1) == InsertEpisode(cfg, s, t, now);
    var s2 := Stages(cfg, s, t, now, first, 2);
    assert s2.memories.Keys == s.memories.Keys;
    assert Stages(cfg, s, t, now, first, 3) == InsertMemory(cfg, s2, t, now);
    assert Stages(cfg, s, t, now, first, 4) == Stages(cfg, s, t, now, first, 3);
  }

  lemma {:induction false} HasTurnLonger(ts: seq<Turn>, agent: string, session: Option<string>)
    requires ts != []
    ensures HasTurn(ts[..|ts| - 1], agent, session) ==> HasTurn(ts, agent, session)
    ensures HasTurn(ts, ts[|ts| - 1].agent, ts[|ts| - 1].session)
  {
    var p := ts[..|ts| - 1];
    if HasTurn(p, agent, session) {
      var i :| 0 <= i < |p| && p[i].agent == agent && p[i].session == session;
      assert ts[i] == p[i];
    }
  }

  lemma {:induction false} RecordNext(cfg: Setup, a: Store, b: Store, ts: seq<Turn>, now: int, k: string)
    requires Valid(b.graph) && ts != [] && !ts[|ts| - 1].working && SameButFlushed(ts[..|ts| - 1], a, b)
    requires k in InsertMemory(cfg, a, ts[|ts| - 1], now).memories && k in Commit(cfg, b, ts[|ts| - 1], now).memories
    ensures FlushedAtMost(ts, InsertMemory(cfg, a, ts[|ts| - 1], now).memories[k], Commit(cfg, b, ts[|ts| - 1], now).memories[k])
  {
    var t := ts[|ts| - 1];
    if k in a.memories {
      assert FlushedAtMost(ts[..|ts| - 1], a.memories[k], b.memories[k]);
      CommitFlushes(cfg, b, t, now, k);
      HasTurnLonger(ts, a.memories[k].agent, a.memories[k].session);
    } else {
      assert k == MemoryKey(cfg, t);
      CommitAdds(cfg, b, t, now);
    }
  }

  /** When no turn is working, each memory is the same as stored one by one, save that topic tracking may have
      made working memories of the turns' sessions episodic. */
  lemma {:induction false} SameRecords(cfg: Setup, s: Store, ts: seq<Turn>, now: int)
    requires Valid(s.graph) && NoneWorking(ts)
    ensures SameButFlushed(ts, Bulk(cfg, s, ts, now), DeliverAll(cfg, s, OneByOne(ts, now)))
  {
    if ts != [] {
      var p, t := ts[..|ts| - 1], ts[|ts| - 1];
      SameRecords(cfg, s, p, now);
      SameKeys(cfg, s, ts, now);
      OneByOneSnoc(ts, now);
      BulkNext(cfg, s, ts, now);
      var a, b := Bulk(cfg, s, p, now), DeliverAll(cfg, s, OneByOne(p, now));
      var a1 := InsertEpisode(cfg, a, t, now);
      assert SameButFlushed(p, a1, b);
      forall k | k in Bulk(cfg, s, ts, now).memories
        ensures FlushedAtMost(ts, Bulk(cfg, s, ts, now).memories[k], DeliverAll(cfg, s, OneByOne(ts, now)).memories[k])
      {
        RecordNext(cfg, a1, b, ts, now, k);
      }
    }
  }

  // The bulk graph pass agrees with the sequential one on the batch these turns form.
  ghost predicate GraphAgrees(cfg: Setup, s: Store, ts: seq<Turn>)
    requires Valid(s.graph)
  {
    var ms := Batch(cfg, s, ts);
    DistinctPerMemory(ms) && Separated(cfg.graph, s.graph, ms)
    && TalliesAgree(s.graph.relatesTo, Asserted(cfg.graph, s.graph, ms), Votes(cfg.graph, s.graph, ms))
  }

  lemma {:induction false} SameGraph(cfg: Setup, s: Store, ts: seq<Turn>, now: int)
    requires Valid(s.graph) && FirstsPlain(cfg, s.episodes.Keys, ts) && GraphAgrees(cfg, s, ts)
    ensures StoreMany(cfg, s, ts, now).graph == DeliverAll(cfg, s, OneByOne(ts, now)).graph
  {
    PlainAgree(cfg, s, ts, now);
    GraphIsFed(cfg, s, OneByOne(ts, now));
    if Batch(cfg, s, ts) != [] {
      BatchAgrees(cfg.graph, s.graph, Batch(cfg, s, ts));
    }
  }

  lemma {:induction false} NoneWorkingPlain(cfg: Setup, existing: set<string>, ts: seq<Turn>)
    requires NoneWorking(ts)
    ensures FirstsPlain(cfg, existing, ts)
  {
    forall i | 0 <= i < |ts| && !ts[i].working && EpisodeKey(cfg, ts[i]) !in existing
      ensures FirstIsPlain(cfg, ts, EpisodeKey(cfg, ts[i]))
    {
      FirstTurnAt(cfg, ts, i);
      FirstOne(cfg, ts, EpisodeKey(cfg, ts[i]));
    }
  }

  lemma {:induction false} FirstOne(cfg: Setup, ts: seq<Turn>, key: string)
    requires NoneWorking(ts)
    ensures FirstTurn(cfg, ts, key).Some? ==> !FirstTurn(cfg, ts, key).value.working
  {
    if ts != [] {
      assert forall i | 0 <= i < |ts| - 1 :: ts[..|ts| - 1][i] == ts[i];
      FirstOne(cfg, ts[..|ts| - 1], key);
    }
  }

  /** Bulk ingestion of turns that are not working, in any sessions, leaves the graph, the episodes and the
      memories that storing them one by one leaves, when the bulk graph pass agrees with the sequential one
      on their batch. What is left out is topic tracking: the session topics stay as they were, and
      working memories of the turns' sessions are not flushed. */
  lemma {:induction false} StoreManyIsOneByOne(cfg: Setup, s: Store, ts: seq<Turn>, now: int)
    requires Valid(s.graph) && NoneWorking(ts) && GraphAgrees(cfg, s, ts)
    ensures var a, b := StoreMany(cfg, s, ts, now), DeliverAll(cfg, s, OneByOne(ts, now));
      && a.graph == b.graph && a.episodes == b.episodes && a.arrival == b.arrival
      && SameButFlushed(ts, a, b) && a.sessions == s.sessions
  {
    NoneWorkingPlain(cfg, s.episodes.Keys, ts);
    SameGraph(cfg, s, ts, now);
    SameKeys(cfg, s, ts, now);
    SameRecords(cfg, s, ts, now);
    BulkSessions(cfg, s, ts, now);
  }

  lemma {:induction false} BulkSessions(cfg: Setup, s: Store, ts: seq<Turn>, now: int)
    ensures Bulk(cfg, s, ts, now).sessions == s.sessions
  {
    if ts != [] {
      BulkNext(cfg, s, ts, now);
      BulkSessions(cfg, s, ts[..|ts| - 1], now);
    }
  }

  predicate NoSessions(ts: seq<Turn>) {
    forall i | 0 <= i < |ts| :: ts[i].session.None?
  }

  lemma {:induction false} TopicsStay(cfg: Setup, s: Store, ts: seq<Turn>, now: int)
    requires Valid(s.graph) && NoSessions(ts)
    ensures DeliverAll(cfg, s, OneByOne(ts, now)).sessions == s.sessions
  {
    if ts != [] {
      assert forall i | 0 <= i < |ts| - 1 :: ts[..|ts| - 1][i] == ts[i];
      TopicsStay(cfg, s, ts[..|ts| - 1], now);
      OneByOneSnoc(ts, now);
      CommitTopics(cfg, DeliverAll(cfg, s, OneByOne(ts[..|ts| - 1], now)), ts[|ts| - 1], now);
    }
  }

  lemma {:induction false} CommitTopics(cfg: Setup, s: Store, t: Turn, now: int)
    requires Valid(s.graph) && t.session.None?
    ensures Commit(cfg, s, t, now).sessions == s.sessions
  {
    var first := First(cfg, s, t);
    assert Stages(cfg, s, t, now, first, 0) == s;
    assert Stages(cfg, s, t, now, first, 2).sessions == s.sessions;
    assert Stages(cfg, s, t, now, first, 4).sessions == s.sessions;
  }

  /** Outside sessions it leaves the very same store. */
  lemma {:induction false} StoreManyExactly(cfg: Setup, s: Store, ts: seq<Turn>, now: int)
    requires Valid(s.graph) && NoneWorking(ts) && NoSessions(ts) && GraphAgrees(cfg, s, ts)
    ensures StoreMany(cfg, s, ts, now) == DeliverAll(cfg, s, OneByOne(ts, now))
  {
    StoreManyIsOneByOne(cfg, s, ts, now);
    TopicsStay(cfg, s, ts, now);
    var a, b := StoreMany(cfg, s, ts, now), DeliverAll(cfg, s, OneByOne(ts, now));
    forall k | k in a.memories ensures a.memories[k] == b.memories[k] {
      assert FlushedAtMost(ts, a.memories[k], b.memories[k]);
    }
  }

  /** Storing a batch again, whole or in part, changes nothing. */
  lemma {:induction false} BatchAgainIdle(cfg: Setup, s: Store, ts: seq<Turn>, now: int)
    requires Valid(s.graph) && Recorded(cfg, s)
    requires forall i | 0 <= i < |ts| :: EpisodeKey(cfg, ts[i]) in s.episodes
    ensures StoreMany(cfg, s, ts, now) == s
    ensures Batch(cfg, s, ts) == []
  {
    if ts != [] {
      var p := ts[..|ts| - 1];
      assert forall i | 0 <= i < |p| :: p[i] == ts[i];
      BatchAgainIdle(cfg, s, p, now);
      EpisodesIgnore(cfg, s, p, now);
      EpisodesAgain(cfg, s, p, now);
      EpisodesAgain(cfg, s, ts, now);
    }
  }

  lemma {:induction false} EpisodesAgain(cfg: Setup, s: Store, ts: seq<Turn>, now: int)
    requires forall i | 0 <= i < |ts| :: EpisodeKey(cfg, ts[i]) in s.episodes
    ensures InsertEpisodes(cfg, s, ts, now) == s
  {
    if ts != [] {
      var p := ts[..|ts| - 1];
      assert forall i | 0 <= i < |p| :: p[i] == ts[i];
      EpisodesAgain(cfg, s, p, now);
    }
  }
}
