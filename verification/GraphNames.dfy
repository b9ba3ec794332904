/** Exactly when the batched graph pass equals the memory-by-memory one, whatever names its relations use. */
module GraphNames {
  import opened Common
  import opened GraphModel
  import opened GraphBatch
  import opened GraphRefinement
  import opened GraphEquality

  // What the memories of a batch assert by the name table of the whole batch.
  function Asserted(cfg: Config, g: Graph, ms: seq<Memory>): seq<Vote>
    requires Stored(g.order, g.entities)
  {
    BatchVotes(cfg, g, BatchNames(cfg, g, BatchMentionList(ms)), ms)
  }

  // ---- edges, pair by pair ----

  // Two tallies do the same to what is stored of a pair: the first time only matters at creation.
  predicate SameTally(stored: Option<Edge>, a: Option<PairTally>, b: Option<PairTally>) {
    match a
    case None => b.None?
    case Some(t) =>
      && b.Some? && b.value.count == t.count && b.value.rel == t.rel && b.value.kind == t.kind
      && (stored.None? ==> b.value.validTime == t.validTime)
  }

  predicate Counts(t: Option<PairTally>) {
    t.Some? ==> t.value.count > 0
  }

  lemma SameEdge(cfg: Config, stored: Option<Edge>, a: Option<PairTally>, b: Option<PairTally>)
    requires Counts(a) && Counts(b)
    ensures BatchEdge(cfg, stored, a) == BatchEdge(cfg, stored, b) <==> SameTally(stored, a, b)
  {
  }

  lemma {:induction false} TallyCounts(votes: seq<Vote>, p: set<Key>)
    ensures Counts(VoteTally(votes, p))
  {
    if votes != [] {
      TallyCounts(votes[..|votes| - 1], p);
    }
  }

  lemma EdgeOf(cfg: Config, edges: map<set<Key>, Edge>, votes: seq<Vote>, p: set<Key>)
    ensures Lookup(BatchEdges(cfg, edges, votes), p) == BatchEdge(cfg, Lookup(edges, p), VoteTally(votes, p))
  {
    TalliedIffVoted(votes, p);
  }

  ghost predicate TalliesAgree(edges: map<set<Key>, Edge>, a: seq<Vote>, b: seq<Vote>) {
    forall p :: SameTally(Lookup(edges, p), VoteTally(a, p), VoteTally(b, p))
  }

  lemma SameMap<K(!new), V(!new)>(a: map<K, V>, b: map<K, V>)
    ensures a == b <==> forall k :: Lookup(a, k) == Lookup(b, k)
  {
    if forall k :: Lookup(a, k) == Lookup(b, k) {
      forall k ensures k in a <==> k in b {
        assert Lookup(a, k) == Lookup(b, k);
      }
      forall k | k in a ensures a[k] == b[k] {
        assert Lookup(a, k) == Lookup(b, k);
      }
    }
  }

  lemma SameEdgesIff(cfg: Config, edges: map<set<Key>, Edge>, a: seq<Vote>, b: seq<Vote>)
    ensures BatchEdges(cfg, edges, a) == BatchEdges(cfg, edges, b) <==> TalliesAgree(edges, a, b)
  {
    SameMap(BatchEdges(cfg, edges, a), BatchEdges(cfg, edges, b));
    forall p
      ensures Lookup(BatchEdges(cfg, edges, a), p) == Lookup(BatchEdges(cfg, edges, b), p)
        <==> SameTally(Lookup(edges, p), VoteTally(a, p), VoteTally(b, p))
    {
      EdgeOf(cfg, edges, a, p);
      EdgeOf(cfg, edges, b, p);
      TallyCounts(a, p);
      TallyCounts(b, p);
      SameEdge(cfg, Lookup(edges, p), VoteTally(a, p), VoteTally(b, p));
    }
  }

  // ---- the claim ----

  lemma EdgesDecide(cfg: Config, g: Graph, ms: seq<Memory>)
    requires Valid(g) && DistinctPerMemory(ms) && Separated(cfg, g, ms)
    ensures WriteBatch(cfg, g, ms) == WriteAll(cfg, g, ms)
      <==> BatchEdges(cfg, g.relatesTo, Asserted(cfg, g, ms)) == BatchEdges(cfg, g.relatesTo, Votes(cfg, g, ms))
  {
    SequentialIsFixed(cfg, g, ms);
    FixedIsBatch(cfg, g, ms);
    DistinctMentions(ms);
    RelateFoldIsBatch(cfg, g.relatesTo, Votes(cfg, g, ms));
  }

  // Enough without any condition on what the memories are.
  lemma BatchAgrees(cfg: Config, g: Graph, ms: seq<Memory>)
    requires Valid(g) && DistinctPerMemory(ms) && Separated(cfg, g, ms)
    requires TalliesAgree(g.relatesTo, Asserted(cfg, g, ms), Votes(cfg, g, ms))
    ensures WriteBatch(cfg, g, ms) == WriteAll(cfg, g, ms)
  {
    EdgesDecide(cfg, g, ms);
    SameEdgesIff(cfg, g.relatesTo, Asserted(cfg, g, ms), Votes(cfg, g, ms));
  }

  /** Exactly when, for fresh memories that name no entity beside one that would absorb it: the two passes agree
      if and only if no memory repeats an entity, no later memory's entity is drawn to one an earlier memory
      of the batch creates, and each pair gets the same tally under the name table of the batch as under
      those of the memories. */
  lemma BatchEqualsSequentialIff(cfg: Config, g: Graph, ms: seq<Memory>)
    requires Valid(g)
    requires FreshMemories(g, ms) && NoMergeInside(cfg, g, ms)
    ensures WriteBatch(cfg, g, ms) == WriteAll(cfg, g, ms)
      <==> DistinctPerMemory(ms) && Separated(cfg, g, ms) && TalliesAgree(g.relatesTo, Asserted(cfg, g, ms), Votes(cfg, g, ms))
  {
    if WriteBatch(cfg, g, ms) == WriteAll(cfg, g, ms) {
      EqualMeansDistinct(cfg, g, ms);
      if !Separated(cfg, g, ms) {
        NotSeparatedShows(cfg, g, ms);
        BatchLeavesNoTrace(cfg, g, ms);
      }
    }
    if DistinctPerMemory(ms) && Separated(cfg, g, ms) {
      EdgesDecide(cfg, g, ms);
      SameEdgesIff(cfg, g.relatesTo, Asserted(cfg, g, ms), Votes(cfg, g, ms));
    }
  }

  // ---- names with one label ----

  // Entities of the batch with one name are one entity.
  ghost predicate OneLabel(ms: seq<Memory>) {
    forall m1, m2, k1, k2 | m1 in ms && m2 in ms && k1 in m1.entities && k2 in m2.entities :: k1.name == k2.name ==> k1 == k2
  }

  predicate Nested(a: map<string, Key>, b: map<string, Key>) {
    forall n | n in a :: n in b && b[n] == a[n]
  }

  lemma {:induction false} NameNests(cfg: Config, g: Graph, ms: seq<Memory>, m: Memory, n: string)
    requires Stored(g.order, g.entities) && OneLabel(ms) && m in ms && n in NamesOf(k => Home(cfg, g, k), m.entities)
    ensures var all := BatchNames(cfg, g, BatchMentionList(ms)); n in all && all[n] == NamesOf(k => Home(cfg, g, k), m.entities)[n]
  {
    var own, all := NamesOf(k => Home(cfg, g, k), m.entities), BatchNames(cfg, g, BatchMentionList(ms));
    NameTable(k => Home(cfg, g, k), m.entities, n);
    var k :| k in m.entities && k.name == n && own[n] == Home(cfg, g, k);
    BatchNameTable(cfg, g, ms, n);
    var m', k' :| m' in ms && k' in m'.entities && k'.name == n && all[n] == Home(cfg, g, k');
  }

  lemma TablesNest(cfg: Config, g: Graph, ms: seq<Memory>, m: Memory)
    requires Stored(g.order, g.entities) && OneLabel(ms) && m in ms
    ensures Nested(NamesOf(k => Home(cfg, g, k), m.entities), BatchNames(cfg, g, BatchMentionList(ms)))
  {
    var own, all := NamesOf(k => Home(cfg, g, k), m.entities), BatchNames(cfg, g, BatchMentionList(ms));
    forall n | n in own ensures n in all && all[n] == own[n] {
      NameNests(cfg, g, ms, m, n);
    }
  }

  lemma {:induction false} TypedNest(a: map<string, Key>, b: map<string, Key>, rels: seq<Relation>)
    requires Nested(a, b)
    ensures TypedPairs(a, rels).Keys <= TypedPairs(b, rels).Keys
  {
    if rels != [] {
      TypedNest(a, b, rels[..|rels| - 1]);
    }
  }

  lemma {:induction false} BackfillNest(home: Key -> Key, a: map<set<Key>, string>, b: map<set<Key>, string>, co: seq<(Key, Key)>)
    requires a.Keys <= b.Keys
    ensures BackfillPairs(home, a, co).Keys <= BackfillPairs(home, b, co).Keys
  {
    if co != [] {
      BackfillNest(home, a, b, co[..|co| - 1]);
    }
  }

  // Vote by vote, what `a` asserts and possibly more.
  predicate Within(a: seq<Vote>, b: seq<Vote>) {
    |a| == |b| && forall i | 0 <= i < |a| ::
      a[i].pairs.Keys <= b[i].pairs.Keys && a[i].reliability == b[i].reliability && a[i].validTime == b[i].validTime
  }

  lemma OwnWithinAll(cfg: Config, g: Graph, ms: seq<Memory>)
    requires Stored(g.order, g.entities) && OneLabel(ms)
    ensures Within(Votes(cfg, g, ms), Asserted(cfg, g, ms))
  {
    var home := k => Home(cfg, g, k);
    forall i | 0 <= i < |ms|
      ensures Votes(cfg, g, ms)[i].pairs.Keys <= Asserted(cfg, g, ms)[i].pairs.Keys
    {
      var own, all := NamesOf(home, ms[i].entities), BatchNames(cfg, g, BatchMentionList(ms));
      TablesNest(cfg, g, ms, ms[i]);
      TypedNest(own, all, ms[i].relations);
      BackfillNest(home, TypedPairs(own, ms[i].relations), TypedPairs(all, ms[i].relations), CoPairs(ms[i].entities, cfg.maxPairs));
    }
  }

  // The kind the last memory that asserts a pair gives it.
  function LastKind(votes: seq<Vote>, p: set<Key>): Option<string> {
    if votes == [] then None
    else
      var v := votes[|votes| - 1];
      if p in v.pairs then Some(v.pairs[p]) else LastKind(votes[..|votes| - 1], p)
  }

  predicate SamePairSets(a: seq<Vote>, b: seq<Vote>) {
    |a| == |b| && forall i | 0 <= i < |a| :: a[i].pairs.Keys == b[i].pairs.Keys
  }

  function CountOf(t: Option<PairTally>): nat {
    match t case None => 0 case Some(x) => x.count
  }

  lemma {:induction false} KindIsLast(votes: seq<Vote>, p: set<Key>)
    ensures LastKind(votes, p) == match VoteTally(votes, p) case None => None case Some(t) => Some(t.kind)
  {
    if votes != [] {
      KindIsLast(votes[..|votes| - 1], p);
    }
  }

  predicate Asserts(v: Vote, p: set<Key>) {
    p in v.pairs
  }

  predicate SameVotersOf(a: seq<Vote>, b: seq<Vote>, p: set<Key>) {
    |a| == |b| && forall i | 0 <= i < |a| :: Asserts(a[i], p) == Asserts(b[i], p)
  }

  // A larger tally that counts no more has the same voters.
  lemma {:induction false} SameVoters(a: seq<Vote>, b: seq<Vote>, p: set<Key>)
    requires Within(a, b)
    ensures CountOf(VoteTally(a, p)) <= CountOf(VoteTally(b, p))
    ensures CountOf(VoteTally(a, p)) == CountOf(VoteTally(b, p))
      <==> SameVotersOf(a, b, p)
  {
    if a != [] {
      var n := |a| - 1;
      SameVoters(a[..n], b[..n], p);
      assert forall i | 0 <= i < n :: a[..n][i] == a[i] && b[..n][i] == b[i];
      assert Asserts(a[n], p) ==> Asserts(b[n], p);
    }
  }

  lemma {:induction false} VotersTally(a: seq<Vote>, b: seq<Vote>, p: set<Key>)
    requires Within(a, b) && SameVotersOf(a, b, p)
    ensures match VoteTally(a, p)
            case None => VoteTally(b, p).None?
            case Some(t) => VoteTally(b, p).Some? && VoteTally(b, p).value.(kind := t.kind) == t
  {
    if a != [] {
      var n := |a| - 1;
      assert forall i | 0 <= i < n :: a[..n][i] == a[i] && b[..n][i] == b[i];
      VotersTally(a[..n], b[..n], p);
      assert Asserts(a[n], p) == Asserts(b[n], p);
    }
  }

  lemma TallyIff(stored: Option<Edge>, a: seq<Vote>, b: seq<Vote>, p: set<Key>)
    requires Within(a, b)
    ensures SameTally(stored, VoteTally(b, p), VoteTally(a, p))
      <==> SameVotersOf(a, b, p) && LastKind(a, p) == LastKind(b, p)
  {
    SameVoters(a, b, p);
    KindIsLast(a, p);
    KindIsLast(b, p);
    if SameVotersOf(a, b, p) {
      VotersTally(a, b, p);
    }
  }

  lemma SetsByPair(a: seq<Vote>, b: seq<Vote>)
    requires |a| == |b|
    ensures SamePairSets(a, b) <==> forall p :: SameVotersOf(a, b, p)
  {
    if SamePairSets(a, b) {
      forall p, i | 0 <= i < |a| ensures Asserts(a[i], p) == Asserts(b[i], p) {
        assert a[i].pairs.Keys == b[i].pairs.Keys;
      }
    }
    if forall p :: SameVotersOf(a, b, p) {
      forall i | 0 <= i < |a| ensures a[i].pairs.Keys == b[i].pairs.Keys {
        forall p ensures p in a[i].pairs.Keys <==> p in b[i].pairs.Keys {
          assert SameVotersOf(a, b, p) && Asserts(a[i], p) == Asserts(b[i], p);
        }
      }
    }
  }

  ghost predicate SameKinds(a: seq<Vote>, b: seq<Vote>) {
    forall p :: LastKind(a, p) == LastKind(b, p)
  }

  lemma AgreeBySets(edges: map<set<Key>, Edge>, a: seq<Vote>, b: seq<Vote>)
    requires Within(a, b)
    ensures TalliesAgree(edges, b, a) <==> SamePairSets(a, b) && SameKinds(a, b)
  {
    SetsByPair(a, b);
    forall p
      ensures SameTally(Lookup(edges, p), VoteTally(b, p), VoteTally(a, p))
        <==> SameVotersOf(a, b, p) && LastKind(a, p) == LastKind(b, p)
    {
      TallyIff(Lookup(edges, p), a, b, p);
    }
  }

  /** With one label per name the last condition is: each memory's pair set is the same under both name tables,
      and the last memory asserting a pair gives it the same kind. */
  lemma PairSetsDecide(cfg: Config, g: Graph, ms: seq<Memory>)
    requires Stored(g.order, g.entities) && OneLabel(ms)
    ensures TalliesAgree(g.relatesTo, Asserted(cfg, g, ms), Votes(cfg, g, ms))
      <==> SamePairSets(Votes(cfg, g, ms), Asserted(cfg, g, ms)) && SameKinds(Votes(cfg, g, ms), Asserted(cfg, g, ms))
  {
    OwnWithinAll(cfg, g, ms);
    AgreeBySets(g.relatesTo, Votes(cfg, g, ms), Asserted(cfg, g, ms));
  }

  /** Local names are enough for it. */
  lemma LocalNamesAgree(cfg: Config, g: Graph, ms: seq<Memory>)
    requires Stored(g.order, g.entities) && LocalNames(ms)
    ensures TalliesAgree(g.relatesTo, Asserted(cfg, g, ms), Votes(cfg, g, ms))
  {
    LocalVotes(cfg, g, ms);
  }

  // ---- where the passes part on entities ----

  const TWICE := Memory("m1", "e1", [ACME, ACME], [], 1.0, None)

  /** A memory that repeats an entity: under any settings the passes leave different graphs. */
  lemma RepeatParts(cfg: Config)
    ensures Valid(EMPTY) && WriteBatch(cfg, EMPTY, [TWICE]) != WriteAll(cfg, EMPTY, [TWICE])
  {
    if WriteBatch(cfg, EMPTY, [TWICE]) == WriteAll(cfg, EMPTY, [TWICE]) {
      EqualMeansDistinct(cfg, EMPTY, [TWICE]);
      assert TWICE in [TWICE];
      NoDupAt(TWICE.entities, 0, 1);
    }
  }

  // Names alike by their lengths: a stored one, one that would merge into it, and a new one, too far from
  // the stored one to merge but closer to the second than that is.
  const STORED := Key("X", "T")
  const NAMED := Key("Xyzw", "T")
  const BORN := Key("Xyzwv", "T")

  function ByLength(pow: (real, real) -> real, base: real): Config {
    Config(base, 0.83, 0.83, 1, name => [|name| as real],
           (a, b) => if a == [] || b == [] then 0.0 else 1.0 - (if a[0] > b[0] then a[0] - b[0] else b[0] - a[0]) / 20.0, pow)
  }

  function WithStored(cfg: Config): Graph {
    Graph(map[STORED := NewEntity(cfg, STORED, None, None, 1, 1.0)], [STORED], {}, {}, map[])
  }

  const BEARER := Memory("m1", "e1", [BORN], [], 1.0, None)
  const NAMER := Memory("m2", "e2", [NAMED], [], 1.0, None)

  lemma StoredDecides(cfg: Config, k: Key)
    requires k != STORED
    ensures var g := WithStored(cfg);
      var s := cfg.sim(cfg.embed(k.name), cfg.embed(STORED.name));
      && Valid(g) && Stored(g.order, g.entities)
      && BestMatch(cfg, g.order, g.entities, k) == if s > -1.0 then Match(Some(STORED), s) else Match(None, -1.0)
  {
    var g := WithStored(cfg);
    assert g.order[..0] == [] && [] + [STORED] == g.order;
    SnocElems([], STORED);
    assert BestMatch(cfg, [], g.entities, k) == Match(None, -1.0);
  }

  lemma Lengths(pow: (real, real) -> real, base: real)
    ensures var cfg := ByLength(pow, base);
      && cfg.sim(cfg.embed(NAMED.name), cfg.embed(STORED.name)) == 0.85
      && cfg.sim(cfg.embed(BORN.name), cfg.embed(STORED.name)) == 0.8
      && cfg.sim(cfg.embed(NAMED.name), cfg.embed(BORN.name)) == 0.95
    ensures STORED != NAMED && STORED != BORN && NAMED != BORN
  {
    assert |STORED.name| == 1 && |NAMED.name| == 4 && |BORN.name| == 5;
  }

  lemma DrawnDecides(pow: (real, real) -> real, base: real, known: bool)
    ensures var cfg := ByLength(pow, base);
      var g := WithStored(cfg);
      && Valid(g) && Stored(g.order, g.entities)
      && Decide(cfg, g, NAMED) == Merge(STORED) && Created(cfg, g, BORN) && !Harmless(cfg, g, known, NAMED, BORN)
  {
    Lengths(pow, base);
    StoredDecides(ByLength(pow, base), NAMED);
    StoredDecides(ByLength(pow, base), BORN);
  }

  lemma NotApart(cfg: Config, g: Graph, r: Key, q: Key, m: Memory, n: Memory)
    requires Valid(g) && Stored(g.order, g.entities) && m.entities == [r] && n.entities == [q]
    requires Created(cfg, g, r) && !Harmless(cfg, g, true, q, r) && !Harmless(cfg, g, false, q, r)
    ensures !Separated(cfg, g, [m, n]) && NoMergeInside(cfg, g, [m, n])
  {
    var ms := [m, n];
    assert r in ms[0].entities && q in ms[1].entities;
    assert !Harmless(cfg, g, Known(g, ms, 1, q), q, r);
  }

  /** A name that would merge into a stored entity, but is closer to one the batch creates: one by one it goes
      to the new one, in bulk to the stored one. */
  lemma DrawnAwayParts(pow: (real, real) -> real, base: real)
    ensures var cfg := ByLength(pow, base);
      var g := WithStored(cfg);
      && Valid(g) && Stored(g.order, g.entities)
      && Decide(cfg, g, NAMED) == Merge(STORED) && Created(cfg, g, BORN)
      && WriteBatch(cfg, g, [BEARER, NAMER]) != WriteAll(cfg, g, [BEARER, NAMER])
  {
    var cfg := ByLength(pow, base);
    DrawnDecides(pow, base, true);
    DrawnDecides(pow, base, false);
    NotApart(cfg, WithStored(cfg), BORN, NAMED, BEARER, NAMER);
    assert [BEARER, NAMER][0].memoryKey != [BEARER, NAMER][1].memoryKey;
    BatchEqualsSequentialIff(cfg, WithStored(cfg), [BEARER, NAMER]);
  }
}
