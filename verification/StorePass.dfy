/** The store as an object over its collections, each commit step by step. */
module StorePass {
  import opened Common
  import opened GraphModel
  import opened GraphResults
  import opened EntityWriter
  import opened StoreModel
  import opened StoreReplay
  import opened StoreBulk

  lemma EnforceByKeys(cfg: Setup, s: Store, agent: string, session: Option<string>, over: seq<string>)
    requires over == Overflow(cfg, s, agent, session)
    ensures Elems(over) <= s.memories.Keys
    ensures EnforceCapacity(cfg, s, agent, session).memories
      == map k | k in s.memories :: if k in Elems(over) then Promoted(s.memories[k]) else s.memories[k]
  {
    var b := Buffer(s.memories, s.arrival, agent, session);
    forall k | k in Elems(over) ensures k in s.memories {
      var j := PlaceOf(over, k);
      assert b[j] == k;
    }
    assert forall k :: k in Elems(over) <==> k in over;
  }

  // What is reported of one item of a batch: its documents, and the entities its memory was written to.
  datatype StoreResult = StoreResult(episode: string, memory: string, entities: seq<Key>)

  function ResultFor(cfg: Setup, byMemory: map<string, seq<Key>>, t: Turn): StoreResult {
    var key := MemoryKey(cfg, t);
    StoreResult(EpisodeKey(cfg, t), key, if key in byMemory then byMemory[key] else [])
  }

  /** What is reported of an item are the keys of its documents and exactly the entities that what its memory brought to
      the batch was written to, each once. */
  lemma ResultExactly(cfg: Setup, s: Store, ts: seq<Turn>, t: Turn, e: Key)
    requires Stored(s.graph.order, s.graph.entities)
    ensures var r := ResultFor(cfg, ReturnedKeys(cfg.graph, s.graph, Batch(cfg, s, ts)), t);
      && r.episode == cfg.hash(t.(content := cfg.redact(t.content))) && r.memory == r.episode + "-mem" && NoDup(r.entities)
      && (e in r.entities <==> exists m, k | m in Batch(cfg, s, ts) && k in m.entities ::
            m.memoryKey == r.memory && Home(cfg.graph, s.graph, k) == e)
  {
    ReturnedExactly(cfg.graph, s.graph, Batch(cfg, s, ts), MemoryKey(cfg, t), e);
  }

  method ReportAll(cfg: Setup, byMemory: map<string, seq<Key>>, ts: seq<Turn>) returns (results: seq<StoreResult>)
    ensures |results| == |ts| && forall i | 0 <= i < |ts| :: results[i] == ResultFor(cfg, byMemory, ts[i])
  {
    results := [];
    for i := 0 to |ts|
      invariant |results| == i && forall j | 0 <= j < i :: results[j] == ResultFor(cfg, byMemory, ts[j])
    {
      results := results + [ResultFor(cfg, byMemory, ts[i])];
    }
  }

  class RecordStore {
    var episodes: map<string, Episode>
    var memories: map<string, Record>
    var arrival: seq<string>
    var sessions: map<(string, string), Session>
    const graph: EntityGraph

    ghost function State(): Store
      reads this, graph
    {
      Store(episodes, memories, arrival, sessions, graph.State())
    }

    constructor (graph: EntityGraph)
      ensures this.graph == graph
      ensures State() == Store(map[], map[], [], map[], graph.State())
    {
      this.graph := graph;
      episodes, memories, arrival, sessions := map[], map[], [], map[];
    }

    method AddEpisode(cfg: Setup, t: Turn, now: int) returns (isNew: bool)
      modifies this
      ensures State() == InsertEpisode(cfg, old(State()), t, now)
      ensures isNew <==> First(cfg, old(State()), t)
    {
      var key := EpisodeKey(cfg, t);
      isNew := key !in episodes;
      if isNew {
        episodes := episodes[key := EpisodeDoc(cfg, t, now)];
      }
    }

    method AddMemory(cfg: Setup, t: Turn, now: int)
      modifies this
      ensures State() == InsertMemory(cfg, old(State()), t, now)
    {
      var key := MemoryKey(cfg, t);
      if key !in memories {
        memories := memories[key := MemoryDoc(cfg, t, now)];
        arrival := arrival + [key];
      }
    }

    // Makes the named memories episodic.
    method Promote(keys: set<string>)
      requires keys <= memories.Keys
      modifies this`memories
      ensures memories == map k | k in old(memories) :: if k in keys then Promoted(old(memories)[k]) else old(memories)[k]
    {
      var rest := keys;
      while rest != {}
        invariant rest <= keys && memories.Keys == old(memories).Keys
        invariant forall k | k in memories ::
          memories[k] == if k in keys - rest then Promoted(old(memories)[k]) else old(memories)[k]
        decreases rest
      {
        var k :| k in rest;
        memories := memories[k := Promoted(memories[k])];
        rest := rest - {k};
      }
    }

    // Moves the session's topic; a shift makes its working buffer episodic first.
    method Track(cfg: Setup, agent: string, session: string, vec: Vec) returns (shifted: bool)
      modifies this
      ensures State() == TrackTopic(cfg, old(State()), agent, session, vec)
      ensures shifted <==> (agent, session) in old(sessions) && cfg.graph.sim(vec, old(sessions)[(agent, session)].topic) < cfg.shift
    {
      var key := (agent, session);
      if key !in sessions {
        sessions := sessions[key := Session(vec, false)];
        return false;
      }
      var prior := sessions[key];
      shifted := cfg.graph.sim(vec, prior.topic) < cfg.shift;
      if shifted {
        var buffer := set k | k in memories && InBuffer(memories[k], agent, Some(session));
        Promote(buffer);
        assert memories == Flush(old(State()), agent, Some(session)).memories;
        sessions := sessions[key := Session(vec, true)];
      } else {
        sessions := sessions[key := prior.(topic := cfg.blend(vec, prior.topic))];
      }
    }

    // The session's working memories, oldest first.
    method WorkingBuffer(agent: string, session: Option<string>) returns (buffer: seq<string>)
      ensures buffer == Buffer(memories, arrival, agent, session)
    {
      buffer := [];
      var i := 0;
      while i < |arrival|
        invariant 0 <= i <= |arrival|
        invariant buffer == Buffer(memories, arrival[..i], agent, session)
      {
        var k := arrival[i];
        assert arrival[..i + 1][..i] == arrival[..i];
        if k in memories && InBuffer(memories[k], agent, session) {
          buffer := buffer + [k];
        }
        i := i + 1;
      }
      assert arrival[..i] == arrival;
    }

    // Promotes all but the newest `capacity` working memories of the session.
    method Enforce(cfg: Setup, agent: string, session: Option<string>) returns (promoted: nat)
      modifies this
      ensures State() == EnforceCapacity(cfg, old(State()), agent, session)
      ensures promoted == |Overflow(cfg, old(State()), agent, session)|
    {
      var buffer := WorkingBuffer(agent, session);
      var over := if |buffer| <= cfg.capacity then [] else buffer[..|buffer| - cfg.capacity];
      promoted := |over|;
      EnforceByKeys(cfg, State(), agent, session, over);
      Promote(Elems(over));
    }

    /** Stores one turn; a turn whose episode is already there only fills in what is missing. */
    method StoreTurn(cfg: Setup, t: Turn, now: int) returns (keys: seq<Key>)
      requires Valid(graph.State())
      modifies this, graph
      ensures State() == Commit(cfg, old(State()), t, now) && Valid(graph.State())
      ensures Stored(old(graph.order), old(graph.entities))
      ensures keys == if First(cfg, old(State()), t) && !t.working
                      then Distinct(Homes(cfg.graph, old(graph.State()), GraphMemory(cfg, t).entities)) else []
    {
      ghost var s := State();
      StoredWhenValid(graph.State());
      var isNew := AddEpisode(cfg, t, now);
      assert Stages(cfg, s, t, now, isNew, 0) == s;
      assert State() == Stages(cfg, s, t, now, isNew, 1);
      var vec := cfg.graph.embed(cfg.redact(t.content));
      if isNew && t.session.Some? {
        var _ := Track(cfg, t.agent, t.session.value, vec);
      }
      assert State() == Stages(cfg, s, t, now, isNew, 2);
      AddMemory(cfg, t, now);
      assert State() == Stages(cfg, s, t, now, isNew, 3);
      if isNew && t.working {
        var _ := Enforce(cfg, t.agent, t.session);
      }
      assert State() == Stages(cfg, s, t, now, isNew, 4);
      keys := [];
      if isNew && !t.working {
        keys := graph.WriteEntities(cfg.graph, GraphMemory(cfg, t));
      }
    }

    /** Stores a batch: all episodes, then all memories, then one bulk pass over what is new. */
    method StoreBatch(cfg: Setup, ts: seq<Turn>, now: int) returns (results: seq<StoreResult>)
      requires Valid(graph.State())
      requires cfg.graph.mergeThreshold > -1.0 && cfg.graph.flagThreshold > -1.0
      modifies this, graph
      ensures Stored(old(graph.order), old(graph.entities))
      ensures State() == StoreMany(cfg, old(State()), ts, now)
      ensures |results| == |ts|
      ensures forall i | 0 <= i < |ts| ::
        results[i] == ResultFor(cfg, ReturnedKeys(cfg.graph, old(graph.State()), Batch(cfg, old(State()), ts)), ts[i])
    {
      ghost var s := State();
      StoredWhenValid(graph.State());
      var inputs := GraphInputs(cfg, ts);
      AddEpisodes(cfg, ts, now);
      AddMemories(cfg, ts, now);
      MemoriesIgnore(cfg, InsertEpisodes(cfg, s, ts, now), ts, now, s.episodes, s.graph);
      EpisodesIgnore(cfg, s, ts, now);
      var byMemory: map<string, seq<Key>> := map[];
      if inputs != [] {
        byMemory := graph.WriteEntitiesMany(cfg.graph, inputs);
      }
      results := ReportAll(cfg, byMemory, ts);
    }

    method GraphInputs(cfg: Setup, ts: seq<Turn>) returns (inputs: seq<Memory>)
      ensures inputs == Batch(cfg, State(), ts)
    {
      inputs := [];
      var existing := episodes.Keys;
      ghost var turns: seq<Turn> := [];
      var i := 0;
      while i < |ts|
        invariant 0 <= i <= |ts|
        invariant turns == Inputs(cfg, episodes.Keys, ts[..i])
        invariant inputs == MemoriesOf(cfg, turns)
        invariant existing == episodes.Keys + Elems(KeysOf(cfg, turns))
      {
        var t := ts[i];
        assert ts[..i + 1][..i] == ts[..i];
        assert EpisodeKey(cfg, t) in KeysOf(cfg, turns) <==> EpisodeKey(cfg, t) in Elems(KeysOf(cfg, turns));
        if !t.working && EpisodeKey(cfg, t) !in existing {
          existing := existing + {EpisodeKey(cfg, t)};
          SnocElems(KeysOf(cfg, turns), EpisodeKey(cfg, t));
          assert (turns + [t])[..|turns|] == turns;
          turns := turns + [t];
          inputs := inputs + [GraphMemory(cfg, t)];
        }
        i := i + 1;
      }
      assert ts[..i] == ts;
    }

    method AddEpisodes(cfg: Setup, ts: seq<Turn>, now: int)
      modifies this
      ensures State() == InsertEpisodes(cfg, old(State()), ts, now)
    {
      var i := 0;
      while i < |ts|
        invariant 0 <= i <= |ts|
        invariant State() == InsertEpisodes(cfg, old(State()), ts[..i], now)
      {
        assert ts[..i + 1][..i] == ts[..i];
        var _ := AddEpisode(cfg, ts[i], now);
        i := i + 1;
      }
      assert ts[..i] == ts;
    }

    method AddMemories(cfg: Setup, ts: seq<Turn>, now: int)
      modifies this
      ensures State() == InsertMemories(cfg, old(State()), ts, now)
    {
      var i := 0;
      while i < |ts|
        invariant 0 <= i <= |ts|
        invariant State() == InsertMemories(cfg, old(State()), ts[..i], now)
      {
        assert ts[..i + 1][..i] == ts[..i];
        AddMemory(cfg, ts[i], now);
        i := i + 1;
      }
      assert ts[..i] == ts;
    }
  }
}
