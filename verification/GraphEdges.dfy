/** What graph writes leave on a `relates_to` edge, field by field, and the meaning of its belief. */
module GraphEdges {
  import opened Common
  import opened GraphModel
  import opened GraphBatch
  import opened GraphRefinement
  import opened GraphTotals
  import opened GraphNames

  // ---- the votes on a pair ----

  function Number(votes: seq<Vote>, p: set<Key>): nat {
    if votes == [] then 0 else Number(votes[..|votes| - 1], p) + if p in votes[|votes| - 1].pairs then 1 else 0
  }

  function Weight(votes: seq<Vote>, p: set<Key>): real {
    if votes == [] then 0.0
    else Weight(votes[..|votes| - 1], p) + if p in votes[|votes| - 1].pairs then votes[|votes| - 1].reliability else 0.0
  }

  function FirstVoteTime(votes: seq<Vote>, p: set<Key>): Option<int> {
    if votes == [] then None
    else if Number(votes[..|votes| - 1], p) > 0 then FirstVoteTime(votes[..|votes| - 1], p)
    else if p in votes[|votes| - 1].pairs then votes[|votes| - 1].validTime
    else None
  }

  lemma {:induction false} TallyFields(votes: seq<Vote>, p: set<Key>)
    ensures match VoteTally(votes, p)
            case None => Number(votes, p) == 0
            case Some(t) =>
              && Number(votes, p) == t.count > 0 && Weight(votes, p) == t.rel
              && LastKind(votes, p) == Some(t.kind) && FirstVoteTime(votes, p) == t.validTime
    ensures Number(votes, p) == 0 ==> Weight(votes, p) == 0.0
  {
    if votes != [] {
      TallyFields(votes[..|votes| - 1], p);
    }
  }

  // ---- an edge after the votes ----

  // An edge that memories asserted: one more corroboration and its reliability from each, the belief of the
  // sum, the last kind, and the time it had or else the first one's.
  predicate EdgeAfter(cfg: Config, stored: Option<Edge>, votes: seq<Vote>, p: set<Key>, e: Edge) {
    var count := match stored case None => 0 case Some(was) => was.corroboration.GetOr(1);
    var weight := match stored case None => 0.0 case Some(was) => was.reliabilitySum.GetOr(0.0);
    && e.corroboration == Some(count + Number(votes, p))
    && e.reliabilitySum == Some(weight + Weight(votes, p))
    && e.belief == 1.0 - cfg.pow(1.0 - cfg.base, weight + Weight(votes, p))
    && Some(e.relationship) == LastKind(votes, p)
    && e.validTime == match stored case None => FirstVoteTime(votes, p) case Some(was) => was.validTime
  }

  // What is stored of a pair before and after.
  predicate PairAfter(cfg: Config, before: Option<Edge>, votes: seq<Vote>, p: set<Key>, after: Option<Edge>) {
    if Number(votes, p) == 0 then after == before else after.Some? && EdgeAfter(cfg, before, votes, p, after.value)
  }

  lemma EdgeFields(cfg: Config, edges: map<set<Key>, Edge>, votes: seq<Vote>, p: set<Key>)
    ensures PairAfter(cfg, Lookup(edges, p), votes, p, Lookup(BatchEdges(cfg, edges, votes), p))
  {
    TallyFields(votes, p);
    EdgeOf(cfg, edges, votes, p);
  }

  // The vote of each memory in the graph it finds.
  function VotesAlong(cfg: Config, g: Graph, ms: seq<Memory>): seq<Vote>
    requires Valid(g)
  {
    if ms == [] then []
    else VotesAlong(cfg, g, ms[..|ms| - 1]) + [VoteOf(cfg, WriteAll(cfg, g, ms[..|ms| - 1]), ms[|ms| - 1])]
  }

  lemma WriteOneRelates(cfg: Config, g: Graph, m: Memory)
    requires Stored(g.order, g.entities)
    ensures WriteOne(cfg, g, m).relatesTo == RelateAll(cfg, g.relatesTo, VoteOf(cfg, g, m))
  {
    if m.entities == [] {
      NoEntitiesNoPairs(cfg, g, m);
      EmptyVote(cfg, g.relatesTo, VoteOf(cfg, g, m));
    } else {
      MentionsIgnoreEdges(cfg, g, g, g.relatesTo, MentionsOf(m, m.entities));
    }
  }

  lemma {:induction false} WriteAllRelates(cfg: Config, g: Graph, ms: seq<Memory>)
    requires Valid(g)
    ensures WriteAll(cfg, g, ms).relatesTo == RelateFold(cfg, g.relatesTo, VotesAlong(cfg, g, ms))
  {
    if ms != [] {
      var p := ms[..|ms| - 1];
      WriteAllRelates(cfg, g, p);
      WriteOneRelates(cfg, WriteAll(cfg, g, p), ms[|ms| - 1]);
      assert VotesAlong(cfg, g, ms)[..|VotesAlong(cfg, g, p)|] == VotesAlong(cfg, g, p);
    }
  }

  /** After any sequence of writes each pair stands at what was stored plus one corroboration, and the
      reliability, of every memory that asserted it. */
  lemma WriteAllEdges(cfg: Config, g: Graph, ms: seq<Memory>, p: set<Key>)
    requires Valid(g)
    ensures PairAfter(cfg, Lookup(g.relatesTo, p), VotesAlong(cfg, g, ms), p, Lookup(WriteAll(cfg, g, ms).relatesTo, p))
  {
    WriteAllRelates(cfg, g, ms);
    RelateFoldIsBatch(cfg, g.relatesTo, VotesAlong(cfg, g, ms));
    EdgeFields(cfg, g.relatesTo, VotesAlong(cfg, g, ms), p);
  }

  /** So it does after a batch. */
  lemma WriteBatchEdges(cfg: Config, g: Graph, ms: seq<Memory>, p: set<Key>)
    requires Valid(g)
    ensures Stored(g.order, g.entities)
    ensures PairAfter(cfg, Lookup(g.relatesTo, p), Asserted(cfg, g, ms), p, Lookup(WriteBatch(cfg, g, ms).relatesTo, p))
  {
    EdgeFields(cfg, g.relatesTo, Asserted(cfg, g, ms), p);
  }

  // ---- belief ----

  // An edge with a reliability sum believes what the sum gives.
  ghost predicate EdgeCalibrated(cfg: Config, e: Edge) {
    e.reliabilitySum.Some? ==> e.reliabilitySum.value >= 0.0 && e.belief == 1.0 - cfg.pow(1.0 - cfg.base, e.reliabilitySum.value)
  }

  ghost predicate EdgesCalibrated(cfg: Config, edges: map<set<Key>, Edge>) {
    forall p | p in edges :: EdgeCalibrated(cfg, edges[p])
  }

  // Its belief is a probability, and no lower than it was.
  predicate Firmer(before: Option<Edge>, e: Edge) {
    && (e.reliabilitySum.Some? ==> 0.0 <= e.belief <= 1.0)
    && (before.Some? && before.value.reliabilitySum.Some? ==> e.reliabilitySum.Some? && before.value.belief <= e.belief)
  }

  ghost predicate AllFirmer(before: map<set<Key>, Edge>, after: map<set<Key>, Edge>) {
    before.Keys <= after.Keys && forall p | p in after :: Firmer(Lookup(before, p), after[p])
  }

  ghost predicate Reliable(votes: seq<Vote>) {
    forall i | 0 <= i < |votes| :: votes[i].reliability >= 0.0
  }

  lemma {:induction false} WeightPositive(votes: seq<Vote>, p: set<Key>)
    requires Reliable(votes)
    ensures Weight(votes, p) >= 0.0
  {
    if votes != [] {
      assert Reliable(votes[..|votes| - 1]);
      WeightPositive(votes[..|votes| - 1], p);
    }
  }

  lemma PairBelief(cfg: Config, before: Option<Edge>, votes: seq<Vote>, p: set<Key>, after: Option<Edge>)
    requires PowLaws(cfg) && Reliable(votes) && PairAfter(cfg, before, votes, p, after)
    requires before.Some? ==> EdgeCalibrated(cfg, before.value)
    ensures before.Some? ==> after.Some?
    ensures after.Some? ==> EdgeCalibrated(cfg, after.value) && Firmer(before, after.value)
  {
    WeightPositive(votes, p);
    var x := 1.0 - cfg.base;
    if before.Some? && before.value.reliabilitySum.Some? {
      var s := before.value.reliabilitySum.value;
      assert cfg.pow(x, s + Weight(votes, p)) <= cfg.pow(x, s);
    }
    if after.Some? && after.value.reliabilitySum.Some? {
      assert 0.0 <= cfg.pow(x, after.value.reliabilitySum.value) <= 1.0;
    }
  }

  lemma EdgesBelief(cfg: Config, before: map<set<Key>, Edge>, votes: seq<Vote>, after: map<set<Key>, Edge>)
    requires PowLaws(cfg) && Reliable(votes) && EdgesCalibrated(cfg, before)
    requires forall p :: PairAfter(cfg, Lookup(before, p), votes, p, Lookup(after, p))
    ensures EdgesCalibrated(cfg, after) && AllFirmer(before, after)
  {
    forall p | p in before ensures p in after {
      assert PairAfter(cfg, Lookup(before, p), votes, p, Lookup(after, p));
    }
    forall p | p in after ensures EdgeCalibrated(cfg, after[p]) && Firmer(Lookup(before, p), after[p]) {
      PairBelief(cfg, Lookup(before, p), votes, p, Lookup(after, p));
    }
  }

  lemma {:induction false} AlongReliable(cfg: Config, g: Graph, ms: seq<Memory>)
    requires Valid(g) && forall i | 0 <= i < |ms| :: ms[i].reliability >= 0.0
    ensures Reliable(VotesAlong(cfg, g, ms))
  {
    if ms != [] {
      AlongReliable(cfg, g, ms[..|ms| - 1]);
    }
  }

  /** Writes keep the belief of every edge with a reliability sum at 1 - (1 - base)^sum, between 0 and 1, and
      lower none. */
  lemma WriteAllEdgeBelief(cfg: Config, g: Graph, ms: seq<Memory>)
    requires PowLaws(cfg) && Valid(g) && EdgesCalibrated(cfg, g.relatesTo)
    requires forall i | 0 <= i < |ms| :: ms[i].reliability >= 0.0
    ensures EdgesCalibrated(cfg, WriteAll(cfg, g, ms).relatesTo) && AllFirmer(g.relatesTo, WriteAll(cfg, g, ms).relatesTo)
  {
    AlongReliable(cfg, g, ms);
    forall p
      ensures PairAfter(cfg, Lookup(g.relatesTo, p), VotesAlong(cfg, g, ms), p, Lookup(WriteAll(cfg, g, ms).relatesTo, p))
    {
      WriteAllEdges(cfg, g, ms, p);
    }
    EdgesBelief(cfg, g.relatesTo, VotesAlong(cfg, g, ms), WriteAll(cfg, g, ms).relatesTo);
  }

  /** So does a batch. */
  lemma WriteBatchEdgeBelief(cfg: Config, g: Graph, ms: seq<Memory>)
    requires PowLaws(cfg) && Valid(g) && EdgesCalibrated(cfg, g.relatesTo)
    requires forall i | 0 <= i < |ms| :: ms[i].reliability >= 0.0
    ensures Stored(g.order, g.entities)
    ensures EdgesCalibrated(cfg, WriteBatch(cfg, g, ms).relatesTo) && AllFirmer(g.relatesTo, WriteBatch(cfg, g, ms).relatesTo)
  {
    assert Reliable(Asserted(cfg, g, ms));
    forall p
      ensures PairAfter(cfg, Lookup(g.relatesTo, p), Asserted(cfg, g, ms), p, Lookup(WriteBatch(cfg, g, ms).relatesTo, p))
    {
      WriteBatchEdges(cfg, g, ms, p);
    }
    EdgesBelief(cfg, g.relatesTo, Asserted(cfg, g, ms), WriteBatch(cfg, g, ms).relatesTo);
  }

  /** One write in particular. */
  lemma WriteOneEdgeBelief(cfg: Config, g: Graph, m: Memory)
    requires PowLaws(cfg) && Valid(g) && EdgesCalibrated(cfg, g.relatesTo) && m.reliability >= 0.0
    ensures Stored(g.order, g.entities)
    ensures EdgesCalibrated(cfg, WriteOne(cfg, g, m).relatesTo) && AllFirmer(g.relatesTo, WriteOne(cfg, g, m).relatesTo)
  {
    assert [m][..0] == [] && WriteAll(cfg, g, []) == g;
    assert WriteAll(cfg, g, [m]) == WriteOne(cfg, g, m);
    WriteAllEdgeBelief(cfg, g, [m]);
  }
}
