/** The working buffer of a session holds no more than its capacity, and exactly which commits cut short
    break that. */
module StoreBuffer {
  import opened Common
  import opened GraphModel
  import opened StoreModel
  import opened StoreReplay

  // `arrival` lists the stored memories, each once.
  ghost predicate Arrived(s: Store) {
    NoDup(s.arrival) && Elems(s.arrival) == s.memories.Keys
  }

  function BufferOf(s: Store, agent: string, session: Option<string>): seq<string> {
    Buffer(s.memories, s.arrival, agent, session)
  }

  ghost predicate Bounded(cfg: Setup, s: Store) {
    forall agent, session :: |BufferOf(s, agent, session)| <= cfg.capacity
  }

  // Membership of a buffer, and nothing else about the memories, decides what the buffer is.
  lemma {:induction false} BufferShrinks(a: map<string, Record>, b: map<string, Record>, arrival: seq<string>,
                                         agent: string, session: Option<string>)
    requires forall k | k in b && InBuffer(b[k], agent, session) :: k in a && InBuffer(a[k], agent, session)
    ensures |Buffer(b, arrival, agent, session)| <= |Buffer(a, arrival, agent, session)|
  {
    if arrival != [] {
      BufferShrinks(a, b, arrival[..|arrival| - 1], agent, session);
    }
  }

  predicate Buffered(memories: map<string, Record>, k: string, agent: string, session: Option<string>) {
    k in memories && InBuffer(memories[k], agent, session)
  }

  lemma {:induction false} BufferSame(a: map<string, Record>, b: map<string, Record>, arrival: seq<string>,
                                      agent: string, session: Option<string>)
    requires forall i | 0 <= i < |arrival| ::
      Buffered(a, arrival[i], agent, session) == Buffered(b, arrival[i], agent, session)
    ensures Buffer(a, arrival, agent, session) == Buffer(b, arrival, agent, session)
  {
    if arrival != [] {
      var p := arrival[..|arrival| - 1];
      forall i | 0 <= i < |p| ensures Buffered(a, p[i], agent, session) == Buffered(b, p[i], agent, session) {
        assert p[i] == arrival[i];
      }
      BufferSame(a, b, p, agent, session);
      assert Buffered(a, arrival[|arrival| - 1], agent, session) == Buffered(b, arrival[|arrival| - 1], agent, session);
    }
  }

  // The memories of a buffer, with those in `gone` left out.
  function Less(b: seq<string>, gone: seq<string>): (r: seq<string>)
  {
    if b == [] then []
    else if b[|b| - 1] in gone then Less(b[..|b| - 1], gone)
    else Less(b[..|b| - 1], gone) + [b[|b| - 1]]
  }

  lemma {:induction false} BufferLess(a: map<string, Record>, b: map<string, Record>, arrival: seq<string>,
                                      agent: string, session: Option<string>, gone: seq<string>)
    requires a.Keys == b.Keys
    requires forall k | k in a :: InBuffer(b[k], agent, session) <==> InBuffer(a[k], agent, session) && k !in gone
    ensures Buffer(b, arrival, agent, session) == Less(Buffer(a, arrival, agent, session), gone)
  {
    if arrival != [] {
      var p, k := arrival[..|arrival| - 1], arrival[|arrival| - 1];
      BufferLess(a, b, p, agent, session, gone);
      var before := Buffer(a, p, agent, session);
      assert (before + [k])[..|before|] == before;
    }
  }

  lemma {:induction false} LessPrefix(b: seq<string>, n: nat)
    requires NoDup(b) && n <= |b|
    ensures Less(b, b[..n]) == b[n..]
  {
    if n < |b| {
      var p := b[..|b| - 1];
      LessPrefix(p, n);
      assert p[..n] == b[..n];
      PrefixNoDup(b, |b| - 1);
      assert b[|b| - 1] !in b[..n];
      assert b[n..] == p[n..] + [b[|b| - 1]];
    } else {
      assert b[..n] == b;
      LessAll(b, b);
    }
  }

  lemma {:induction false} LessAll(b: seq<string>, gone: seq<string>)
    requires forall i | 0 <= i < |b| :: b[i] in gone
    ensures Less(b, gone) == []
  {
    if b != [] {
      assert b[|b| - 1] in gone;
      LessAll(b[..|b| - 1], gone);
    }
  }

  /** Enforcing the capacity promotes the oldest: the buffer keeps exactly its newest `capacity`. */
  lemma {:induction false} EnforceKeepsNewest(cfg: Setup, s: Store, agent: string, session: Option<string>)
    requires Arrived(s)
    ensures var b, after := BufferOf(s, agent, session), BufferOf(EnforceCapacity(cfg, s, agent, session), agent, session);
      after == if |b| <= cfg.capacity then b else b[|b| - cfg.capacity..]
  {
    var b, over := BufferOf(s, agent, session), Overflow(cfg, s, agent, session);
    BufferLess(s.memories, EnforceCapacity(cfg, s, agent, session).memories, s.arrival, agent, session, over);
    var n := if |b| <= cfg.capacity then 0 else |b| - cfg.capacity;
    assert over == b[..n];
    LessPrefix(b, n);
  }

  // Promoting memories of one session takes nothing into any buffer.
  lemma EnforceShrinks(cfg: Setup, s: Store, agent: string, session: Option<string>, a: string, x: Option<string>)
    ensures |BufferOf(EnforceCapacity(cfg, s, agent, session), a, x)| <= |BufferOf(s, a, x)|
  {
    BufferShrinks(s.memories, EnforceCapacity(cfg, s, agent, session).memories, s.arrival, a, x);
  }

  lemma TrackShrinks(cfg: Setup, s: Store, agent: string, session: string, vec: Vec, a: string, x: Option<string>)
    ensures |BufferOf(TrackTopic(cfg, s, agent, session, vec), a, x)| <= |BufferOf(s, a, x)|
    ensures TrackTopic(cfg, s, agent, session, vec).arrival == s.arrival
    ensures TrackTopic(cfg, s, agent, session, vec).memories.Keys == s.memories.Keys
  {
    BufferShrinks(s.memories, TrackTopic(cfg, s, agent, session, vec).memories, s.arrival, a, x);
  }

  lemma InsertKeepsOthers(memories: map<string, Record>, arrival: seq<string>, key: string, r: Record,
                          a: string, x: Option<string>)
    requires Elems(arrival) == memories.Keys && key !in memories
    ensures Buffer(memories[key := r], arrival, a, x) == Buffer(memories, arrival, a, x)
  {
    forall i | 0 <= i < |arrival|
      ensures Buffered(memories, arrival[i], a, x) == Buffered(memories[key := r], arrival[i], a, x)
    {
      assert arrival[i] in Elems(arrival);
    }
    BufferSame(memories, memories[key := r], arrival, a, x);
  }

  lemma BufferSnoc(memories: map<string, Record>, arrival: seq<string>, key: string, a: string, x: Option<string>)
    ensures Buffer(memories, arrival + [key], a, x)
      == Buffer(memories, arrival, a, x) + if Buffered(memories, key, a, x) then [key] else []
  {
    assert (arrival + [key])[..|arrival|] == arrival;
  }

  lemma InsertArrives(cfg: Setup, s: Store, t: Turn, now: int)
    requires Arrived(s)
    ensures Arrived(InsertMemory(cfg, s, t, now))
  {
    var key := MemoryKey(cfg, t);
    if key !in s.memories {
      assert key !in Elems(s.arrival);
      SnocElems(s.arrival, key);
    }
  }

  // A new memory joins at most its own session's buffer.
  lemma InsertGrows(cfg: Setup, s: Store, t: Turn, now: int, a: string, x: Option<string>)
    requires Arrived(s)
    ensures BufferOf(InsertMemory(cfg, s, t, now), a, x)
      == BufferOf(s, a, x)
         + (if MemoryKey(cfg, t) !in s.memories && t.working && a == t.agent && x == t.session then [MemoryKey(cfg, t)] else [])
  {
    var key := MemoryKey(cfg, t);
    if key !in s.memories {
      var r := MemoryDoc(cfg, t, now);
      InsertKeepsOthers(s.memories, s.arrival, key, r, a, x);
      BufferSnoc(s.memories[key := r], s.arrival, key, a, x);
    }
  }

  // What the first two, and the first three, stages of a commit leave.
  function Tracked(cfg: Setup, s: Store, t: Turn, now: int, first: bool): Store {
    var s1 := InsertEpisode(cfg, s, t, now);
    if first && t.session.Some? then TrackTopic(cfg, s1, t.agent, t.session.value, cfg.graph.embed(cfg.redact(t.content)))
    else s1
  }

  function Prepared(cfg: Setup, s: Store, t: Turn, now: int, first: bool): Store {
    InsertMemory(cfg, Tracked(cfg, s, t, now, first), t, now)
  }

  lemma StagesPrepare(cfg: Setup, s: Store, t: Turn, now: int, first: bool)
    requires Valid(s.graph)
    ensures Stages(cfg, s, t, now, first, 1) == InsertEpisode(cfg, s, t, now)
    ensures Stages(cfg, s, t, now, first, 2) == Tracked(cfg, s, t, now, first)
    ensures Stages(cfg, s, t, now, first, 3) == Prepared(cfg, s, t, now, first)
  {
    assert Stages(cfg, s, t, now, first, 0) == s;
  }

  // The stages after the memory touch the buffers by enforcing the capacity, if at all.
  lemma {:induction false} LateStages(cfg: Setup, s: Store, t: Turn, now: int, first: bool, n: nat)
    requires Valid(s.graph) && n >= 4
    ensures var p, r := Prepared(cfg, s, t, now, first), Stages(cfg, s, t, now, first, n);
      && r.arrival == p.arrival
      && r.memories == (if first && t.working then EnforceCapacity(cfg, p, t.agent, t.session).memories else p.memories)
  {
    StagesPrepare(cfg, s, t, now, first);
    if n > 4 {
      LateStages(cfg, s, t, now, first, n - 1);
    }
  }

  lemma TrackedShrinks(cfg: Setup, s: Store, t: Turn, now: int, first: bool, a: string, x: Option<string>)
    requires Arrived(s)
    ensures var r := Tracked(cfg, s, t, now, first);
      Arrived(r) && r.memories.Keys == s.memories.Keys && |BufferOf(r, a, x)| <= |BufferOf(s, a, x)|
  {
    if first && t.session.Some? {
      TrackShrinks(cfg, InsertEpisode(cfg, s, t, now), t.agent, t.session.value, cfg.graph.embed(cfg.redact(t.content)), a, x);
    }
  }

  // Enforcing fits the session's own buffer and no other buffer grows.
  lemma EnforceFits(cfg: Setup, p: Store, agent: string, session: Option<string>, a: string, x: Option<string>)
    requires Arrived(p)
    requires |BufferOf(p, a, x)| <= cfg.capacity || (a == agent && x == session)
    ensures |Buffer(EnforceCapacity(cfg, p, agent, session).memories, p.arrival, a, x)| <= cfg.capacity
  {
    if a == agent && x == session {
      EnforceKeepsNewest(cfg, p, agent, session);
    } else {
      EnforceShrinks(cfg, p, agent, session, a, x);
    }
  }

  // ---- one delivery ----

  // The delivery puts a new working memory into a buffer that is full after the topic was tracked, and
  // does not come to check the capacity: it ends there, or finds its episode there already.
  predicate Overfills(cfg: Setup, s: Store, d: Delivery) {
    && d.stages >= 3 && d.turn.working && MemoryKey(cfg, d.turn) !in s.memories
    && |BufferOf(Tracked(cfg, s, d.turn, d.now, First(cfg, s, d.turn)), d.turn.agent, d.turn.session)| >= cfg.capacity
    && (d.stages == 3 || !First(cfg, s, d.turn))
  }

  // The memories a delivery leaves, as those of a store.
  function Left(cfg: Setup, s: Store, d: Delivery): Store {
    var t, first := d.turn, First(cfg, s, d.turn);
    if d.stages < 2 then s
    else if d.stages == 2 then Tracked(cfg, s, t, d.now, first)
    else if d.stages > 3 && first && t.working then
      EnforceCapacity(cfg, Prepared(cfg, s, t, d.now, first), t.agent, t.session)
    else Prepared(cfg, s, t, d.now, first)
  }

  lemma {:induction false} DeliverLeaves(cfg: Setup, s: Store, d: Delivery)
    requires Valid(s.graph)
    ensures Deliver(cfg, s, d).memories == Left(cfg, s, d).memories
    ensures Deliver(cfg, s, d).arrival == Left(cfg, s, d).arrival
  {
    StagesPrepare(cfg, s, d.turn, d.now, First(cfg, s, d.turn));
    if d.stages >= 4 {
      LateStages(cfg, s, d.turn, d.now, First(cfg, s, d.turn), d.stages);
    }
  }

  lemma PreparedArrives(cfg: Setup, s: Store, t: Turn, now: int, first: bool)
    requires Arrived(s)
    ensures Arrived(Prepared(cfg, s, t, now, first)) && Arrived(Tracked(cfg, s, t, now, first))
  {
    TrackedShrinks(cfg, s, t, now, first, t.agent, t.session);
    InsertArrives(cfg, Tracked(cfg, s, t, now, first), t, now);
  }

  lemma {:induction false} LeftArrival(cfg: Setup, s: Store, d: Delivery)
    ensures Left(cfg, s, d).arrival
      == if d.stages < 3 || MemoryKey(cfg, d.turn) in s.memories then s.arrival else s.arrival + [MemoryKey(cfg, d.turn)]
  {
    assert Tracked(cfg, s, d.turn, d.now, First(cfg, s, d.turn)).memories.Keys == s.memories.Keys;
  }

  lemma ArrivedNext(s: Store, r: Store, k: string)
    requires Arrived(s) && r.arrival == (if k in s.memories then s.arrival else s.arrival + [k])
    requires r.memories.Keys == s.memories.Keys + {k}
    ensures Arrived(r)
  {
    SnocElems(s.arrival, k);
    assert k in s.memories <==> k in Elems(s.arrival);
  }

  lemma {:induction false} DeliverArrives(cfg: Setup, s: Store, d: Delivery)
    requires Valid(s.graph) && Arrived(s)
    ensures Arrived(Deliver(cfg, s, d))
  {
    DeliverLeaves(cfg, s, d);
    LeftArrival(cfg, s, d);
    StagesKeep(cfg, s, d.turn, d.now, First(cfg, s, d.turn), d.stages);
    if d.stages >= 3 {
      ArrivedNext(s, Deliver(cfg, s, d), MemoryKey(cfg, d.turn));
    }
  }

  // The buffers after the memory was inserted.
  lemma PreparedBuffer(cfg: Setup, s: Store, d: Delivery, a: string, x: Option<string>)
    requires Arrived(s) && |BufferOf(s, a, x)| <= cfg.capacity
    ensures var t := d.turn;
      var r := Tracked(cfg, s, t, d.now, First(cfg, s, t));
      |BufferOf(r, a, x)| <= cfg.capacity
      && |BufferOf(Prepared(cfg, s, t, d.now, First(cfg, s, t)), a, x)| == |BufferOf(r, a, x)| + (if Joins(cfg, s, d, a, x) then 1 else 0)
  {
    var t, first := d.turn, First(cfg, s, d.turn);
    TrackedShrinks(cfg, s, t, d.now, first, a, x);
    InsertGrows(cfg, Tracked(cfg, s, t, d.now, first), t, d.now, a, x);
  }

  function Enforced(cfg: Setup, s: Store, d: Delivery): Store {
    EnforceCapacity(cfg, Prepared(cfg, s, d.turn, d.now, First(cfg, s, d.turn)), d.turn.agent, d.turn.session)
  }

  lemma {:induction false} EnforcedFits(cfg: Setup, s: Store, d: Delivery, a: string, x: Option<string>)
    requires Arrived(s) && |BufferOf(s, a, x)| <= cfg.capacity
    ensures d.turn.working ==> |BufferOf(Enforced(cfg, s, d), a, x)| <= cfg.capacity
  {
    PreparedBuffer(cfg, s, d, a, x);
    PreparedArrives(cfg, s, d.turn, d.now, First(cfg, s, d.turn));
    if d.turn.working {
      EnforceFits(cfg, Prepared(cfg, s, d.turn, d.now, First(cfg, s, d.turn)), d.turn.agent, d.turn.session, a, x);
    }
  }

  // Whether this is the buffer a new memory joins.
  predicate Joins(cfg: Setup, s: Store, d: Delivery, a: string, x: Option<string>) {
    d.turn.working && a == d.turn.agent && x == d.turn.session && MemoryKey(cfg, d.turn) !in s.memories
  }

  lemma {:induction false} LeftFits(cfg: Setup, s: Store, d: Delivery, a: string, x: Option<string>)
    requires var r, p := Tracked(cfg, s, d.turn, d.now, First(cfg, s, d.turn)), Prepared(cfg, s, d.turn, d.now, First(cfg, s, d.turn));
      && |BufferOf(s, a, x)| <= cfg.capacity && |BufferOf(r, a, x)| <= cfg.capacity
      && |BufferOf(p, a, x)| == |BufferOf(r, a, x)| + (if Joins(cfg, s, d, a, x) then 1 else 0)
    requires d.turn.working ==> |BufferOf(Enforced(cfg, s, d), a, x)| <= cfg.capacity
    ensures if Overfills(cfg, s, d) && Joins(cfg, s, d, a, x) then |BufferOf(Left(cfg, s, d), a, x)| == cfg.capacity + 1
            else |BufferOf(Left(cfg, s, d), a, x)| <= cfg.capacity
  {
  }

  lemma {:induction false} BufferAfter(cfg: Setup, s: Store, d: Delivery, a: string, x: Option<string>)
    requires Valid(s.graph) && Arrived(s) && |BufferOf(s, a, x)| <= cfg.capacity
    ensures if Overfills(cfg, s, d) && Joins(cfg, s, d, a, x) then |BufferOf(Deliver(cfg, s, d), a, x)| == cfg.capacity + 1
            else |BufferOf(Deliver(cfg, s, d), a, x)| <= cfg.capacity
  {
    DeliverLeaves(cfg, s, d);
    PreparedBuffer(cfg, s, d, a, x);
    EnforcedFits(cfg, s, d, a, x);
    LeftFits(cfg, s, d, a, x);
  }

  /** One delivery, complete or cut short anywhere, keeps all buffers within the capacity exactly when it
      does not overfill its own. */
  lemma {:induction false} DeliverBoundedIff(cfg: Setup, s: Store, d: Delivery)
    requires Valid(s.graph) && Arrived(s) && Bounded(cfg, s)
    ensures Arrived(Deliver(cfg, s, d)) && (Bounded(cfg, Deliver(cfg, s, d)) <==> !Overfills(cfg, s, d))
  {
    DeliverArrives(cfg, s, d);
    forall a, x
      ensures if Overfills(cfg, s, d) && Joins(cfg, s, d, a, x) then |BufferOf(Deliver(cfg, s, d), a, x)| > cfg.capacity
              else |BufferOf(Deliver(cfg, s, d), a, x)| <= cfg.capacity
    {
      assert |BufferOf(s, a, x)| <= cfg.capacity;
      BufferAfter(cfg, s, d, a, x);
    }
    if Overfills(cfg, s, d) {
      assert Joins(cfg, s, d, d.turn.agent, d.turn.session);
    }
  }

  /** Delivering the same turn again, completely or not, does not put an overfilled buffer right. */
  lemma {:induction false} OverflowStays(cfg: Setup, s: Store, d: Delivery, e: Delivery)
    requires Valid(s.graph) && Arrived(s) && Bounded(cfg, s) && Overfills(cfg, s, d)
    requires EpisodeKey(cfg, e.turn) == EpisodeKey(cfg, d.turn)
    ensures Deliver(cfg, Deliver(cfg, s, d), e) == Deliver(cfg, s, d)
    ensures !Bounded(cfg, Deliver(cfg, Deliver(cfg, s, d), e))
  {
    StagesKeep(cfg, s, d.turn, d.now, First(cfg, s, d.turn), d.stages);
    StagesIdle(cfg, Deliver(cfg, s, d), e.turn, e.now, e.stages);
    DeliverBoundedIff(cfg, s, d);
  }

  // ---- runs ----

  ghost predicate BoundedThrough(cfg: Setup, s: Store, ds: seq<Delivery>)
    requires Valid(s.graph)
  {
    Bounded(cfg, DeliverAll(cfg, s, ds)) && (ds == [] || BoundedThrough(cfg, s, ds[..|ds| - 1]))
  }

  predicate NoneOverfills(cfg: Setup, s: Store, ds: seq<Delivery>)
    requires Valid(s.graph)
  {
    ds == [] || (NoneOverfills(cfg, s, ds[..|ds| - 1]) && !Overfills(cfg, DeliverAll(cfg, s, ds[..|ds| - 1]), ds[|ds| - 1]))
  }

  lemma {:induction false} AllArrived(cfg: Setup, s: Store, ds: seq<Delivery>)
    requires Valid(s.graph) && Arrived(s)
    ensures Arrived(DeliverAll(cfg, s, ds))
  {
    if ds != [] {
      AllArrived(cfg, s, ds[..|ds| - 1]);
      DeliverArrives(cfg, DeliverAll(cfg, s, ds[..|ds| - 1]), ds[|ds| - 1]);
    }
  }

  /** Through any deliveries, repeated and cut short in any way: no working buffer ever exceeds the capacity
      exactly when no delivery overfills one in the state it meets. */
  lemma {:induction false} BoundedIff(cfg: Setup, s: Store, ds: seq<Delivery>)
    requires Valid(s.graph) && Arrived(s) && Bounded(cfg, s)
    ensures BoundedThrough(cfg, s, ds) <==> NoneOverfills(cfg, s, ds)
    ensures BoundedThrough(cfg, s, ds) ==> Bounded(cfg, DeliverAll(cfg, s, ds))
  {
    if ds != [] {
      var p, d := ds[..|ds| - 1], ds[|ds| - 1];
      BoundedIff(cfg, s, p);
      AllArrived(cfg, s, p);
      if NoneOverfills(cfg, s, p) {
        DeliverBoundedIff(cfg, DeliverAll(cfg, s, p), d);
      }
    }
  }

  lemma {:induction false} CompleteFits(cfg: Setup, s: Store, ds: seq<Delivery>)
    requires Valid(s.graph) && Recorded(cfg, s) && Complete(ds)
    ensures NoneOverfills(cfg, s, ds)
  {
    if ds != [] {
      CompleteFits(cfg, s, ds[..|ds| - 1]);
      AllRecorded(cfg, s, ds[..|ds| - 1]);
    }
  }

  /** So after any complete deliveries no session's working buffer exceeds the capacity. */
  lemma BufferBounded(cfg: Setup, s: Store, ds: seq<Delivery>)
    requires Valid(s.graph) && Recorded(cfg, s) && Arrived(s) && Bounded(cfg, s) && Complete(ds)
    ensures Arrived(DeliverAll(cfg, s, ds)) && Bounded(cfg, DeliverAll(cfg, s, ds))
  {
    CompleteFits(cfg, s, ds);
    BoundedIff(cfg, s, ds);
    AllArrived(cfg, s, ds);
  }

  // ---- a run that overfills a buffer ----

  // Working turns of one agent outside any session, numbered.
  function Scratch(i: nat): Turn {
    Turn("agent", None, "note", i, 1.0, true, None)
  }

  // The first `n` of them, stored one after the other.
  function Fill(n: nat): seq<Delivery> {
    if n == 0 then [] else Fill(n - 1) + [Delivery(Scratch(n - 1), n - 1, STAGES)]
  }

  const EMPTY: Store := Store(map[], map[], [], map[], Graph(map[], [], {}, {}, map[]))

  predicate Apart(cfg: Setup, i: nat, j: nat) {
    EpisodeKey(cfg, Scratch(i)) != EpisodeKey(cfg, Scratch(j))
  }

  // Turns that differ in their number have different keys.
  ghost predicate NumbersCount(cfg: Setup) {
    forall i: nat, j: nat | i < j :: Apart(cfg, i, j)
  }

  predicate Unmet(cfg: Setup, s: Store, j: nat) {
    First(cfg, s, Scratch(j)) && MemoryKey(cfg, Scratch(j)) !in s.memories
  }

  lemma SuffixApart(a: string, b: string, suffix: string)
    requires a + suffix == b + suffix
    ensures a == b
  {
    assert |a| == |b|;
    assert (a + suffix)[..|a|] == a && (b + suffix)[..|b|] == b;
  }

  lemma StillUnmet(cfg: Setup, s: Store, i: nat, j: nat, n: nat)
    requires Valid(s.graph) && NumbersCount(cfg) && i < j && Unmet(cfg, s, j)
    ensures Unmet(cfg, Deliver(cfg, s, Delivery(Scratch(i), i, n)), j)
  {
    assert Apart(cfg, i, j);
    StagesKeep(cfg, s, Scratch(i), i, First(cfg, s, Scratch(i)), n);
    if MemoryKey(cfg, Scratch(i)) == MemoryKey(cfg, Scratch(j)) {
      SuffixApart(EpisodeKey(cfg, Scratch(i)), EpisodeKey(cfg, Scratch(j)), "-mem");
    }
  }

  // While there is room, a whole delivery of a new working turn lengthens the buffer by one.
  lemma {:induction false} FillsOne(cfg: Setup, s: Store, i: nat)
    requires Valid(s.graph) && Arrived(s) && Unmet(cfg, s, i) && |BufferOf(s, "agent", None)| < cfg.capacity
    ensures |BufferOf(Deliver(cfg, s, Delivery(Scratch(i), i, STAGES)), "agent", None)| == |BufferOf(s, "agent", None)| + 1
  {
    var d := Delivery(Scratch(i), i, STAGES);
    var p := Prepared(cfg, s, d.turn, d.now, true);
    DeliverLeaves(cfg, s, d);
    PreparedBuffer(cfg, s, d, "agent", None);
    PreparedArrives(cfg, s, d.turn, d.now, true);
    EnforceKeepsNewest(cfg, p, "agent", None);
    assert BufferOf(Tracked(cfg, s, d.turn, d.now, true), "agent", None) == BufferOf(s, "agent", None);
  }

  // The buffer holds `n`, and no turn from the `n`-th on was met.
  ghost predicate FilledTo(cfg: Setup, s: Store, n: nat) {
    Arrived(s) && |BufferOf(s, "agent", None)| == n && forall j: nat | n <= j :: Unmet(cfg, s, j)
  }

  lemma {:induction false} FilledNext(cfg: Setup, s: Store, i: nat)
    requires Valid(s.graph) && NumbersCount(cfg) && FilledTo(cfg, s, i) && i < cfg.capacity
    ensures FilledTo(cfg, Deliver(cfg, s, Delivery(Scratch(i), i, STAGES)), i + 1)
  {
    FillsOne(cfg, s, i);
    DeliverArrives(cfg, s, Delivery(Scratch(i), i, STAGES));
    forall j: nat | i + 1 <= j ensures Unmet(cfg, Deliver(cfg, s, Delivery(Scratch(i), i, STAGES)), j) {
      assert Unmet(cfg, s, j);
      StillUnmet(cfg, s, i, j, STAGES);
    }
  }

  lemma {:induction false} Filled(cfg: Setup, n: nat)
    requires NumbersCount(cfg) && n <= cfg.capacity
    ensures Valid(EMPTY.graph) && FilledTo(cfg, DeliverAll(cfg, EMPTY, Fill(n)), n)
  {
    if n > 0 {
      Filled(cfg, n - 1);
      FilledNext(cfg, DeliverAll(cfg, EMPTY, Fill(n - 1)), n - 1);
      assert Fill(n)[..|Fill(n)| - 1] == Fill(n - 1);
    }
  }

  /** For any capacity: after as many working turns as the buffer holds, one more that is cut short once its
      memory is in leaves it one too long. */
  lemma FullThenCutShort(cfg: Setup)
    requires NumbersCount(cfg)
    ensures Valid(EMPTY.graph)
    ensures var n := cfg.capacity;
      var ds := Fill(n) + [Delivery(Scratch(n), n, 3)];
      |BufferOf(DeliverAll(cfg, EMPTY, ds), "agent", None)| == n + 1 && !Bounded(cfg, DeliverAll(cfg, EMPTY, ds))
  {
    var n := cfg.capacity;
    var ds, s, d := Fill(n) + [Delivery(Scratch(n), n, 3)], DeliverAll(cfg, EMPTY, Fill(n)), Delivery(Scratch(n), n, 3);
    Filled(cfg, n);
    assert Unmet(cfg, s, n);
    assert ds[..|ds| - 1] == Fill(n);
    assert BufferOf(Tracked(cfg, s, d.turn, d.now, true), "agent", None) == BufferOf(s, "agent", None);
    BufferAfter(cfg, s, d, "agent", None);
  }
}
