/** Committing one turn: episode, session topic, memory, working buffer, entity graph, in that order. */
module StoreModel {
  import opened Common
  import opened GraphModel
  import opened GraphRefinement

  // What a write intent carries.
  datatype Turn = Turn(agent: string, session: Option<string>, content: string, number: nat,
                       reliability: real, working: bool, eventTime: Option<string>)

  datatype Episode = Episode(agent: string, session: Option<string>, content: string, reliability: real, at: int)

  datatype Record = Record(agent: string, session: Option<string>, text: string, embedding: Vec, working: bool,
                           expires: Option<int>, eventTime: Option<string>, at: int)

  datatype Session = Session(topic: Vec, consolidationDue: bool)

  // `arrival` lists the memories in the order they were inserted. The clock does not run backwards, so
  // that is also the order of their creation times.
  datatype Store = Store(episodes: map<string, Episode>, memories: map<string, Record>, arrival: seq<string>,
                         sessions: map<(string, string), Session>, graph: Graph)

  // What the extractor finds in a text.
  datatype Extraction = Extraction(entities: seq<Key>, relations: seq<Relation>, validTime: Option<int>)

  // `redact` and `hash` are the redactor and the idempotency key of a turn with redacted content;
  // `blend` is the running mean of the session topic.
  datatype Setup = Setup(graph: Config, redact: string -> string, hash: Turn -> string, extract: string -> Extraction,
                         blend: (Vec, Vec) -> Vec, shift: real, capacity: nat, ttl: nat)

  function Redacted(cfg: Setup, t: Turn): Turn {
    t.(content := cfg.redact(t.content))
  }

  function EpisodeKey(cfg: Setup, t: Turn): string {
    cfg.hash(Redacted(cfg, t))
  }

  function MemoryKey(cfg: Setup, t: Turn): string {
    EpisodeKey(cfg, t) + "-mem"
  }

  function EpisodeDoc(cfg: Setup, t: Turn, now: int): Episode {
    Episode(t.agent, t.session, cfg.redact(t.content), t.reliability, now)
  }

  function MemoryDoc(cfg: Setup, t: Turn, now: int): Record {
    var text := cfg.redact(t.content);
    Record(t.agent, t.session, text, cfg.graph.embed(text), t.working,
           if t.working then Some(now + cfg.ttl) else None, t.eventTime, now)
  }

  // The memory as the graph pass gets it.
  function GraphMemory(cfg: Setup, t: Turn): Memory {
    var x := cfg.extract(cfg.redact(t.content));
    Memory(MemoryKey(cfg, t), EpisodeKey(cfg, t), x.entities, x.relations, t.reliability, x.validTime)
  }

  // ---- the stages ----

  function InsertEpisode(cfg: Setup, s: Store, t: Turn, now: int): Store {
    var key := EpisodeKey(cfg, t);
    if key in s.episodes then s else s.(episodes := s.episodes[key := EpisodeDoc(cfg, t, now)])
  }

  function Promoted(r: Record): Record {
    r.(working := false, expires := None)
  }

  predicate InBuffer(r: Record, agent: string, session: Option<string>) {
    r.working && r.agent == agent && r.session == session
  }

  // The whole working buffer of a session made episodic.
  function Flush(s: Store, agent: string, session: Option<string>): Store {
    s.(memories := map k | k in s.memories ::
         if InBuffer(s.memories[k], agent, session) then Promoted(s.memories[k]) else s.memories[k])
  }

  function TrackTopic(cfg: Setup, s: Store, agent: string, session: string, vec: Vec): Store {
    var key := (agent, session);
    if key !in s.sessions then s.(sessions := s.sessions[key := Session(vec, false)])
    else
      var prior := s.sessions[key];
      if cfg.graph.sim(vec, prior.topic) < cfg.shift then
        Flush(s, agent, Some(session)).(sessions := s.sessions[key := Session(vec, true)])
      else s.(sessions := s.sessions[key := prior.(topic := cfg.blend(vec, prior.topic))])
  }

  function InsertMemory(cfg: Setup, s: Store, t: Turn, now: int): Store {
    var key := MemoryKey(cfg, t);
    if key in s.memories then s
    else s.(memories := s.memories[key := MemoryDoc(cfg, t, now)], arrival := s.arrival + [key])
  }

  // The working memories of a session among `arrival`, oldest first.
  function Buffer(memories: map<string, Record>, arrival: seq<string>, agent: string, session: Option<string>): (b: seq<string>)
    ensures forall i | 0 <= i < |b| :: b[i] in memories && InBuffer(memories[b[i]], agent, session) && b[i] in arrival
    ensures NoDup(arrival) ==> NoDup(b)
  {
    if arrival == [] then []
    else
      var before, k := Buffer(memories, arrival[..|arrival| - 1], agent, session), arrival[|arrival| - 1];
      if k in memories && InBuffer(memories[k], agent, session) then
        SnocElems(before, k);
        before + [k]
      else before
  }

  // All but the newest `capacity` of a session's working memories.
  function Overflow(cfg: Setup, s: Store, agent: string, session: Option<string>): seq<string> {
    var b := Buffer(s.memories, s.arrival, agent, session);
    if |b| <= cfg.capacity then [] else b[..|b| - cfg.capacity]
  }

  function EnforceCapacity(cfg: Setup, s: Store, agent: string, session: Option<string>): Store {
    var over := Overflow(cfg, s, agent, session);
    s.(memories := map k | k in s.memories :: if k in over then Promoted(s.memories[k]) else s.memories[k])
  }

  function FeedGraph(cfg: Setup, s: Store, t: Turn): (r: Store)
    requires Valid(s.graph)
    ensures Valid(r.graph)
  {
    WriteOneValid(cfg.graph, s.graph, GraphMemory(cfg, t));
    s.(graph := WriteOne(cfg.graph, s.graph, GraphMemory(cfg, t)))
  }

  // ---- a commit, cut short after some of its stages ----

  const STAGES: nat := 5

  // Stage `n` of committing `t`; `first` is whether its episode was absent at the start.
  function Stage(cfg: Setup, p: Store, t: Turn, now: int, first: bool, n: nat): (r: Store)
    requires Valid(p.graph)
    ensures Valid(r.graph)
  {
    if n == 1 then InsertEpisode(cfg, p, t, now)
    else if n == 2 then
      if first && t.session.Some? then
        TrackTopic(cfg, p, t.agent, t.session.value, cfg.graph.embed(cfg.redact(t.content)))
      else p
    else if n == 3 then InsertMemory(cfg, p, t, now)
    else if n == 4 then
      if first && t.working then EnforceCapacity(cfg, p, t.agent, t.session) else p
    else if n == 5 then
      if first && !t.working then FeedGraph(cfg, p, t) else p
    else p
  }

  // The first `n` stages of committing `t`.
  function Stages(cfg: Setup, s: Store, t: Turn, now: int, first: bool, n: nat): (r: Store)
    requires Valid(s.graph)
    ensures Valid(r.graph)
  {
    if n == 0 then s
    else Stage(cfg, Stages(cfg, s, t, now, first, n - 1), t, now, first, n)
  }

  // A delivery of an intent: when, and how many stages it gets through.
  datatype Delivery = Delivery(turn: Turn, now: int, stages: nat)

  predicate First(cfg: Setup, s: Store, t: Turn) {
    EpisodeKey(cfg, t) !in s.episodes
  }

  function Deliver(cfg: Setup, s: Store, d: Delivery): (r: Store)
    requires Valid(s.graph)
    ensures Valid(r.graph)
  {
    Stages(cfg, s, d.turn, d.now, First(cfg, s, d.turn), d.stages)
  }

  function DeliverAll(cfg: Setup, s: Store, ds: seq<Delivery>): (r: Store)
    requires Valid(s.graph)
    ensures Valid(r.graph)
  {
    if ds == [] then s else Deliver(cfg, DeliverAll(cfg, s, ds[..|ds| - 1]), ds[|ds| - 1])
  }

  function Commit(cfg: Setup, s: Store, t: Turn, now: int): (r: Store)
    requires Valid(s.graph)
    ensures Valid(r.graph)
  {
    Deliver(cfg, s, Delivery(t, now, STAGES))
  }
}
