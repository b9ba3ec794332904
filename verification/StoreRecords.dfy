/** What the store keeps of a turn: its redacted text and what follows from it, and never the text itself. */
module StoreRecords {
  import opened Common
  import opened GraphModel
  import opened StoreModel

  // ---- every document comes from a delivery ----

  // A memory of the delivered turn: its redacted text and the embedding of that; working until it expires, if the
  // turn was, or kept for good.
  predicate KeptOf(cfg: Setup, k: string, r: Record, d: Delivery) {
    var t := d.turn;
    && k == cfg.hash(t.(content := cfg.redact(t.content))) + "-mem"
    && r.agent == t.agent && r.session == t.session && r.text == cfg.redact(t.content)
    && r.embedding == cfg.graph.embed(cfg.redact(t.content)) && r.eventTime == t.eventTime && r.at == d.now
    && (if r.working then t.working && r.expires == Some(d.now + cfg.ttl) else r.expires.None?)
  }

  predicate ToldBy(cfg: Setup, k: string, e: Episode, d: Delivery) {
    var t := d.turn;
    && k == cfg.hash(t.(content := cfg.redact(t.content)))
    && e == Episode(t.agent, t.session, cfg.redact(t.content), t.reliability, d.now)
  }

  ghost predicate FromOne(cfg: Setup, k: string, r: Record, ds: seq<Delivery>) {
    exists d | d in ds :: KeptOf(cfg, k, r, d)
  }

  ghost predicate Sourced(cfg: Setup, s: Store, ds: seq<Delivery>) {
    && (forall k | k in s.memories :: FromOne(cfg, k, s.memories[k], ds))
    && (forall k | k in s.episodes :: exists d | d in ds :: ToldBy(cfg, k, s.episodes[k], d))
  }

  lemma PromotedFrom(cfg: Setup, k: string, r: Record, ds: seq<Delivery>)
    requires FromOne(cfg, k, r, ds)
    ensures FromOne(cfg, k, Promoted(r), ds)
  {
    var d :| d in ds && KeptOf(cfg, k, r, d);
    assert KeptOf(cfg, k, Promoted(r), d);
  }

  // Some memories promoted, nothing else about documents changed.
  ghost predicate PromotedAtMost(a: Store, b: Store) {
    && b.episodes == a.episodes && b.memories.Keys == a.memories.Keys
    && forall k | k in a.memories :: b.memories[k] == a.memories[k] || b.memories[k] == Promoted(a.memories[k])
  }

  lemma PromotionSourced(cfg: Setup, a: Store, b: Store, ds: seq<Delivery>)
    requires Sourced(cfg, a, ds) && PromotedAtMost(a, b)
    ensures Sourced(cfg, b, ds)
  {
    forall k | k in b.memories ensures FromOne(cfg, k, b.memories[k], ds) {
      PromotedFrom(cfg, k, a.memories[k], ds);
    }
  }

  lemma {:induction false} MemorySourced(cfg: Setup, s: Store, ds: seq<Delivery>, d: Delivery)
    requires Sourced(cfg, s, ds) && d in ds
    ensures Sourced(cfg, InsertMemory(cfg, s, d.turn, d.now), ds)
  {
    var r, key := InsertMemory(cfg, s, d.turn, d.now), MemoryKey(cfg, d.turn);
    assert key !in s.memories ==> KeptOf(cfg, key, r.memories[key], d);
    forall k | k in r.memories ensures FromOne(cfg, k, r.memories[k], ds) {
      assert k in s.memories ==> FromOne(cfg, k, s.memories[k], ds);
    }
  }

  lemma {:induction false} EpisodeSourced(cfg: Setup, s: Store, ds: seq<Delivery>, d: Delivery)
    requires Sourced(cfg, s, ds) && d in ds
    ensures Sourced(cfg, InsertEpisode(cfg, s, d.turn, d.now), ds)
  {
    var r, key := InsertEpisode(cfg, s, d.turn, d.now), EpisodeKey(cfg, d.turn);
    assert key !in s.episodes ==> ToldBy(cfg, key, r.episodes[key], d);
  }

  lemma TrackPromotes(cfg: Setup, s: Store, agent: string, session: string, vec: Vec)
    ensures PromotedAtMost(s, TrackTopic(cfg, s, agent, session, vec))
  {
  }

  lemma EnforcePromotes(cfg: Setup, s: Store, agent: string, session: Option<string>)
    ensures PromotedAtMost(s, EnforceCapacity(cfg, s, agent, session))
  {
  }

  // The other stages only promote.
  lemma {:induction false} StagePromotes(cfg: Setup, p: Store, t: Turn, now: int, first: bool, n: nat)
    requires Valid(p.graph) && n != 1 && n != 3
    ensures PromotedAtMost(p, Stage(cfg, p, t, now, first, n))
  {
    if n == 2 && t.session.Some? {
      TrackPromotes(cfg, p, t.agent, t.session.value, cfg.graph.embed(cfg.redact(t.content)));
    } else if n == 4 {
      EnforcePromotes(cfg, p, t.agent, t.session);
    }
  }

  lemma {:induction false} StageSourced(cfg: Setup, p: Store, ds: seq<Delivery>, d: Delivery, first: bool, n: nat)
    requires Valid(p.graph) && Sourced(cfg, p, ds) && d in ds
    ensures Sourced(cfg, Stage(cfg, p, d.turn, d.now, first, n), ds)
  {
    if n == 1 {
      EpisodeSourced(cfg, p, ds, d);
    } else if n == 3 {
      MemorySourced(cfg, p, ds, d);
    } else {
      StagePromotes(cfg, p, d.turn, d.now, first, n);
      PromotionSourced(cfg, p, Stage(cfg, p, d.turn, d.now, first, n), ds);
    }
  }

  lemma {:induction false} StagesSourced(cfg: Setup, s: Store, ds: seq<Delivery>, d: Delivery, first: bool, n: nat)
    requires Valid(s.graph) && Sourced(cfg, s, ds) && d in ds
    ensures Sourced(cfg, Stages(cfg, s, d.turn, d.now, first, n), ds)
  {
    if n > 0 {
      StagesSourced(cfg, s, ds, d, first, n - 1);
      StageSourced(cfg, Stages(cfg, s, d.turn, d.now, first, n - 1), ds, d, first, n);
    }
  }

  lemma LongerSourced(cfg: Setup, s: Store, p: seq<Delivery>, d: Delivery)
    requires Sourced(cfg, s, p)
    ensures Sourced(cfg, s, p + [d])
  {
    forall k | k in s.memories ensures FromOne(cfg, k, s.memories[k], p + [d]) {
      var d' :| d' in p && KeptOf(cfg, k, s.memories[k], d');
      assert d' in p + [d];
    }
    forall k | k in s.episodes ensures exists d' | d' in p + [d] :: ToldBy(cfg, k, s.episodes[k], d') {
      var d' :| d' in p && ToldBy(cfg, k, s.episodes[k], d');
      assert d' in p + [d];
    }
  }

  predicate Empty(s: Store) {
    s.episodes == map[] && s.memories == map[]
  }

  /** After any deliveries, cut short or not, each stored memory and episode is that of a delivered turn, with the
      redacted text and nothing of the text before. */
  lemma {:induction false} AllSourced(cfg: Setup, s: Store, ds: seq<Delivery>)
    requires Valid(s.graph) && Empty(s)
    ensures Sourced(cfg, DeliverAll(cfg, s, ds), ds)
  {
    if ds != [] {
      var p, d := ds[..|ds| - 1], ds[|ds| - 1];
      AllSourced(cfg, s, p);
      var before := DeliverAll(cfg, s, p);
      assert ds == p + [d];
      LongerSourced(cfg, before, p, d);
      StagesSourced(cfg, before, ds, d, First(cfg, before, d.turn), d.stages);
    }
  }

  // ---- the text itself does not matter ----

  predicate SameButText(cfg: Setup, t: Turn, t': Turn) {
    t' == t.(content := t'.content) && cfg.redact(t'.content) == cfg.redact(t.content)
  }

  lemma StageHides(cfg: Setup, s: Store, t: Turn, t': Turn, now: int, first: bool, n: nat)
    requires Valid(s.graph) && SameButText(cfg, t, t')
    ensures Stage(cfg, s, t', now, first, n) == Stage(cfg, s, t, now, first, n)
  {
    assert Redacted(cfg, t') == Redacted(cfg, t);
  }

  lemma {:induction false} StagesHide(cfg: Setup, s: Store, t: Turn, t': Turn, now: int, first: bool, n: nat)
    requires Valid(s.graph) && SameButText(cfg, t, t')
    ensures Stages(cfg, s, t', now, first, n) == Stages(cfg, s, t, now, first, n)
  {
    if n > 0 {
      StagesHide(cfg, s, t, t', now, first, n - 1);
      StageHides(cfg, Stages(cfg, s, t, now, first, n - 1), t, t', now, first, n);
    }
  }

  /** Two turns that read the same after redaction leave the very same store, entity graph and session topics
      included: what is redacted reaches nothing. */
  lemma RedactionHides(cfg: Setup, s: Store, t: Turn, t': Turn, now: int, stages: nat)
    requires Valid(s.graph) && SameButText(cfg, t, t')
    ensures Deliver(cfg, s, Delivery(t', now, stages)) == Deliver(cfg, s, Delivery(t, now, stages))
  {
    assert Redacted(cfg, t') == Redacted(cfg, t);
    StagesHide(cfg, s, t, t', now, First(cfg, s, t), stages);
  }

  // ---- topics ----

  // A session that is seeded, shifted, or blended into, and no other touched.
  predicate TopicMoved(cfg: Setup, before: map<(string, string), Session>, after: map<(string, string), Session>,
                       key: (string, string), v: Vec) {
    && after.Keys == before.Keys + {key}
    && (forall k | k in before && k != key :: after[k] == before[k])
    && if key !in before then after[key].topic == v && !after[key].consolidationDue
       else if cfg.graph.sim(v, before[key].topic) < cfg.shift then after[key].topic == v && after[key].consolidationDue
       else after[key].topic == cfg.blend(v, before[key].topic) && after[key].consolidationDue == before[key].consolidationDue
  }

  lemma TrackMoves(cfg: Setup, s: Store, agent: string, session: string, v: Vec)
    ensures TopicMoved(cfg, s.sessions, TrackTopic(cfg, s, agent, session, v).sessions, (agent, session), v)
  {
  }

  lemma {:induction false} CommitSessions(cfg: Setup, s: Store, t: Turn, now: int)
    requires Valid(s.graph)
    ensures Commit(cfg, s, t, now).sessions
      == if First(cfg, s, t) && t.session.Some?
         then TrackTopic(cfg, InsertEpisode(cfg, s, t, now), t.agent, t.session.value, cfg.graph.embed(cfg.redact(t.content))).sessions
         else s.sessions
  {
    var first := First(cfg, s, t);
    assert Stages(cfg, s, t, now, first, 0) == s;
    assert Stages(cfg, s, t, now, first, 1) == InsertEpisode(cfg, s, t, now);
    assert Stages(cfg, s, t, now, first, 3).sessions == Stages(cfg, s, t, now, first, 2).sessions;
    assert Stages(cfg, s, t, now, first, 4).sessions == Stages(cfg, s, t, now, first, 3).sessions;
  }

  /** A first turn of a session seeds its topic; a later new one blends into it, or, when it is too far from it,
      takes its place and marks the session for consolidation. Replays and turns outside sessions touch no
      topic, and no turn touches another session's. */
  lemma {:induction false} TopicExactly(cfg: Setup, s: Store, t: Turn, now: int)
    requires Valid(s.graph)
    ensures if EpisodeKey(cfg, t) in s.episodes || t.session.None? then Commit(cfg, s, t, now).sessions == s.sessions
      else TopicMoved(cfg, s.sessions, Commit(cfg, s, t, now).sessions, (t.agent, t.session.value), cfg.graph.embed(cfg.redact(t.content)))
  {
    CommitSessions(cfg, s, t, now);
    if t.session.Some? {
      TrackMoves(cfg, InsertEpisode(cfg, s, t, now), t.agent, t.session.value, cfg.graph.embed(cfg.redact(t.content)));
    }
  }

  // A new turn of a known session that is too far from its topic.
  predicate Shifts(cfg: Setup, s: Store, t: Turn) {
    && First(cfg, s, t) && t.session.Some? && (t.agent, t.session.value) in s.sessions
    && cfg.graph.sim(cfg.graph.embed(cfg.redact(t.content)), s.sessions[(t.agent, t.session.value)].topic) < cfg.shift
  }

  lemma {:induction false} TrackFields(cfg: Setup, s: Store, agent: string, session: string, vec: Vec, k: string)
    requires k in s.memories
    ensures var r := TrackTopic(cfg, s, agent, session, vec);
      var shift := (agent, session) in s.sessions && cfg.graph.sim(vec, s.sessions[(agent, session)].topic) < cfg.shift;
      && k in r.memories
      && r.memories[k].working == (s.memories[k].working
                                   && !(shift && s.memories[k].agent == agent && s.memories[k].session == Some(session)))
      && (r.memories[k].working == s.memories[k].working ==> r.memories[k] == s.memories[k])
  {
  }

  /** What a commit takes out of the working memories that are there: those of the session on a shift, and for a
      new working turn what exceeds the capacity; the rest it leaves as they are. */
  lemma {:induction false} WorkingAfter(cfg: Setup, s: Store, t: Turn, now: int, k: string)
    requires Valid(s.graph) && k in s.memories && !(First(cfg, s, t) && t.working)
    ensures k in Commit(cfg, s, t, now).memories
    ensures var m, m' := s.memories[k], Commit(cfg, s, t, now).memories[k];
      && (m'.working <==> m.working && !(Shifts(cfg, s, t) && m.agent == t.agent && m.session == t.session))
      && (m'.working == m.working ==> m' == m)
  {
    var first := First(cfg, s, t);
    assert Stages(cfg, s, t, now, first, 0) == s;
    assert Stages(cfg, s, t, now, first, 1) == InsertEpisode(cfg, s, t, now);
    if first && t.session.Some? {
      TrackFields(cfg, InsertEpisode(cfg, s, t, now), t.agent, t.session.value, cfg.graph.embed(cfg.redact(t.content)), k);
    }
    assert Stages(cfg, s, t, now, first, 3) == InsertMemory(cfg, Stages(cfg, s, t, now, first, 2), t, now);
    assert Stages(cfg, s, t, now, first, 4) == Stages(cfg, s, t, now, first, 3);
  }
}
