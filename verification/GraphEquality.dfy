/** When the batched graph pass equals the memory-by-memory one. */
module GraphEquality {
  import opened Common
  import opened GraphModel
  import opened GraphBatch
  import opened GraphRefinement
  import opened GraphTotals

  // ---- the conditions on the batch, each a check on the batch and the graph before it ----

  ghost predicate DistinctPerMemory(ms: seq<Memory>) {
    forall m | m in ms :: NoDup(m.entities)
  }

  // `r` gets a document of its own when a memory of the batch names it.
  predicate Created(cfg: Config, g: Graph, r: Key)
    requires Stored(g.order, g.entities)
  {
    r !in g.entities && Decide(cfg, g, r).Own?
  }

  // `k` has a document before memory `j` of the batch is written.
  ghost predicate Known(g: Graph, ms: seq<Memory>, j: nat, k: Key)
    requires j <= |ms|
  {
    k in g.entities || exists i | 0 <= i < j :: k in ms[i].entities
  }

  // No entity of a later memory is drawn to an entity an earlier memory creates.
  ghost predicate Separated(cfg: Config, g: Graph, ms: seq<Memory>)
    requires Stored(g.order, g.entities)
  {
    forall i, j, r, q | 0 <= i < j < |ms| && r in ms[i].entities && q in ms[j].entities ::
      Created(cfg, g, r) ==> Harmless(cfg, g, Known(g, ms, j, q), q, r)
  }

  // The batch entities a relation endpoint can mean are one entity, extracted from its own memory.
  ghost predicate LocalName(ms: seq<Memory>, m: Memory, n: string) {
    forall m1, m2, k1, k2 | m1 in ms && m2 in ms && k1 in m1.entities && k2 in m2.entities ::
      k1.name == n && k2.name == n ==> k1 == k2 && k1 in m.entities
  }

  ghost predicate LocalNames(ms: seq<Memory>) {
    forall m, r | m in ms && r in m.relations :: LocalName(ms, m, r.source) && LocalName(ms, m, r.target)
  }

  // ---- decisions ----

  lemma {:induction false} CreatedInMentions(cfg: Config, g: Graph, ms: seq<Memory>, k: Key)
    requires Stored(g.order, g.entities)
    requires k in NewKeys(cfg, g, MentionList(ms))
    ensures exists i :: 0 <= i < |ms| && k in ms[i].entities
    ensures Created(cfg, g, k)
  {
    NewKeysFacts(cfg, g, MentionList(ms));
    NewKeyMentioned(cfg, g, MentionList(ms), k);
    MentionListKeys(ms, k);
  }

  lemma {:induction false} NewKeyMentioned(cfg: Config, g: Graph, os: seq<Mention>, k: Key)
    requires Stored(g.order, g.entities)
    requires k in NewKeys(cfg, g, os)
    ensures exists o | o in os :: o.key == k
  {
    var before := NewKeys(cfg, g, os[..|os| - 1]);
    if k in before {
      NewKeyMentioned(cfg, g, os[..|os| - 1], k);
      var o :| o in os[..|os| - 1] && o.key == k;
      assert o in os;
    } else {
      assert os[|os| - 1].key == k;
      assert os[|os| - 1] in os;
    }
  }

  lemma {:induction false} MentionListKeys(ms: seq<Memory>, k: Key)
    ensures (exists o | o in MentionList(ms) :: o.key == k) ==> exists i :: 0 <= i < |ms| && k in ms[i].entities
  {
    if ms != [] {
      var p, m := ms[..|ms| - 1], ms[|ms| - 1];
      MentionListKeys(p, k);
      if o :| o in MentionList(ms) && o.key == k {
        if o in MentionList(p) {
          var i :| 0 <= i < |p| && k in p[i].entities;
          assert ms[i] == p[i];
        } else {
          assert o in MentionsOf(m, m.entities);
          assert k in ms[|ms| - 1].entities;
        }
      }
    }
  }

  lemma PrefixExtends(cfg: Config, g: Graph, ms: seq<Memory>)
    requires Valid(g)
    ensures Stored(WriteAllFixed(cfg, g, ms).order, WriteAllFixed(cfg, g, ms).entities)
    ensures Extends(cfg, g, WriteAllFixed(cfg, g, ms), NewKeys(cfg, g, MentionList(ms)))
  {
    var h, extra := WriteAllFixed(cfg, g, ms), NewKeys(cfg, g, MentionList(ms));
    FixedIsBatch(cfg, g, ms);
    NewKeysFacts(cfg, g, MentionList(ms));
    BatchValid(cfg, g, MentionList(ms));
    assert forall k | k in h.order :: k in Elems(h.order);
    forall k | k in extra ensures k !in g.order && k in h.entities && h.entities[k].embedding == cfg.embed(k.name) {
      assert k in h.order;
    }
    forall k | k in g.order ensures h.entities[k].embedding == g.entities[k].embedding {
      assert k in h.order;
      assert h.entities[k] == BatchRow(cfg, g, MentionList(ms), k);
    }
  }

  lemma {:induction false} SameMentions(cfg: Config, b: Graph, b': Graph, h: Graph, os: seq<Mention>)
    requires Stored(b.order, b.entities) && Stored(b'.order, b'.entities)
    requires b.entities.Keys <= h.entities.Keys && b'.entities.Keys <= h.entities.Keys
    requires forall o | o in os :: SameEffect(o.key in h.entities, Decide(cfg, b', o.key), Decide(cfg, b, o.key))
    ensures WriteMentions(cfg, b, h, os) == WriteMentions(cfg, b', h, os)
  {
    if os != [] {
      SameMentions(cfg, b, b', h, os[..|os| - 1]);
      assert os[|os| - 1] in os;
    }
  }

  lemma {:induction false} SameNames(home: Key -> Key, home': Key -> Key, keys: seq<Key>)
    requires forall k | k in keys :: home(k) == home'(k)
    ensures NamesOf(home, keys) == NamesOf(home', keys)
  {
    if keys != [] {
      SameNames(home, home', keys[..|keys| - 1]);
    }
  }

  lemma {:induction false} CoPairsInside(keys: seq<Key>, i: nat, j: nat, max: nat)
    requires i < j
    ensures forall p | p in CoPairsFrom(keys, i, j, max) :: p.0 in keys && p.1 in keys
    decreases |keys| - i, |keys| - j
  {
    if i >= |keys| {
    } else if j >= |keys| {
      CoPairsInside(keys, i + 1, i + 2, max);
    } else if max > 1 {
      CoPairsInside(keys, i, j + 1, max - 1);
    }
  }

  lemma {:induction false} SameBackfill(home: Key -> Key, home': Key -> Key, pairs: map<set<Key>, string>, co: seq<(Key, Key)>)
    requires forall p | p in co :: home(p.0) == home'(p.0) && home(p.1) == home'(p.1)
    ensures BackfillPairs(home, pairs, co) == BackfillPairs(home', pairs, co)
  {
    if co != [] {
      SameBackfill(home, home', pairs, co[..|co| - 1]);
      assert co[|co| - 1] in co;
    }
  }

  lemma {:induction false} SameTyped(byName: map<string, Key>, byName': map<string, Key>, rels: seq<Relation>)
    requires forall r | r in rels ::
               Lookup(byName, r.source) == Lookup(byName', r.source) && Lookup(byName, r.target) == Lookup(byName', r.target)
    ensures TypedPairs(byName, rels) == TypedPairs(byName', rels)
  {
    if rels != [] {
      SameTyped(byName, byName', rels[..|rels| - 1]);
      assert rels[|rels| - 1] in rels;
    }
  }

  lemma SamePairs(cfg: Config, byName: map<string, Key>, byName': map<string, Key>, home: Key -> Key, home': Key -> Key, m: Memory)
    requires forall k | k in m.entities :: home(k) == home'(k)
    requires forall r | r in m.relations ::
               Lookup(byName, r.source) == Lookup(byName', r.source) && Lookup(byName, r.target) == Lookup(byName', r.target)
    ensures PairsOf(cfg, byName, home, m) == PairsOf(cfg, byName', home', m)
  {
    SameTyped(byName, byName', m.relations);
    CoPairsInside(m.entities, 0, 1, cfg.maxPairs);
    SameBackfill(home, home', TypedPairs(byName, m.relations), CoPairs(m.entities, cfg.maxPairs));
  }

  lemma SameMemory(cfg: Config, b: Graph, h: Graph, m: Memory)
    requires Stored(b.order, b.entities) && Stored(h.order, h.entities)
    requires b.entities.Keys <= h.entities.Keys
    requires forall k | k in m.entities :: SameEffect(k in h.entities, Decide(cfg, h, k), Decide(cfg, b, k))
    ensures WriteMemory(cfg, b, h, m) == WriteOne(cfg, h, m)
  {
    var os := MentionsOf(m, m.entities);
    forall o | o in os ensures SameEffect(o.key in h.entities, Decide(cfg, h, o.key), Decide(cfg, b, o.key)) {
      assert o.key in m.entities;
    }
    SameMentions(cfg, b, h, h, os);
    var home, home' := k => Home(cfg, b, k), k => Home(cfg, h, k);
    SameNames(home, home', m.entities);
    SamePairs(cfg, NamesOf(home, m.entities), NamesOf(home', m.entities), home, home', m);
  }

  // A key the batch creates has its document once a memory naming it is written.
  lemma {:induction false} CreatedWhenNamed(cfg: Config, g: Graph, ms: seq<Memory>, i: nat, k: Key)
    requires Stored(g.order, g.entities)
    requires i < |ms| && k in ms[i].entities && Created(cfg, g, k)
    ensures k in NewKeys(cfg, g, MentionList(ms))
  {
    var p, m := ms[..|ms| - 1], ms[|ms| - 1];
    var os := MentionsOf(m, m.entities);
    if i < |p| {
      CreatedWhenNamed(cfg, g, p, i, k);
      NewKeysGrow(cfg, g, MentionList(p), os, k);
    } else {
      var x :| 0 <= x < |m.entities| && m.entities[x] == k;
      assert os[x].key == k;
      NewKeysGrow(cfg, g, MentionList(p), os, k);
    }
  }

  lemma {:induction false} NewKeysGrow(cfg: Config, g: Graph, a: seq<Mention>, b: seq<Mention>, k: Key)
    requires Stored(g.order, g.entities)
    ensures k in NewKeys(cfg, g, a) ==> k in NewKeys(cfg, g, a + b)
    ensures Created(cfg, g, k) && (exists o | o in b :: o.key == k) ==> k in NewKeys(cfg, g, a + b)
  {
    if b == [] {
      assert a + b == a;
    } else {
      assert (a + b)[..|a + b| - 1] == a + b[..|b| - 1];
      assert b == b[..|b| - 1] + [b[|b| - 1]];
      NewKeysGrow(cfg, g, a, b[..|b| - 1], k);
    }
  }

  lemma KnownIsStored(cfg: Config, g: Graph, ms: seq<Memory>, j: nat, k: Key)
    requires Valid(g)
    requires j <= |ms|
    ensures Known(g, ms, j, k) && Decide(cfg, g, k).Own? ==> k in WriteAllFixed(cfg, g, ms[..j]).entities
    ensures k in WriteAllFixed(cfg, g, ms[..j]).entities ==> Known(g, ms, j, k)
  {
    var p := ms[..j];
    FixedIsBatch(cfg, g, p);
    if k !in g.entities {
      if Known(g, ms, j, k) && Decide(cfg, g, k).Own? {
        var i :| 0 <= i < j && k in ms[i].entities;
        assert p[i] == ms[i];
        CreatedWhenNamed(cfg, g, p, i, k);
      }
      if k in WriteAllFixed(cfg, g, p).entities {
        CreatedInMentions(cfg, g, p, k);
        var i :| 0 <= i < |p| && k in p[i].entities;
        assert ms[i] == p[i];
      }
    }
  }

  // Whether memory `j` of the batch decides as the graph before the batch does.
  lemma MemoryStable(cfg: Config, g: Graph, ms: seq<Memory>, j: nat, q: Key)
    requires Valid(g)
    requires j < |ms|
    requires forall i, r | 0 <= i < j && r in ms[i].entities && Created(cfg, g, r) :: Harmless(cfg, g, Known(g, ms, j, q), q, r)
    ensures
      var h := WriteAllFixed(cfg, g, ms[..j]);
      Stored(h.order, h.entities) && SameEffect(q in h.entities, Decide(cfg, h, q), Decide(cfg, g, q))
  {
    var p := ms[..j];
    var h, extra := WriteAllFixed(cfg, g, p), NewKeys(cfg, g, MentionList(p));
    PrefixExtends(cfg, g, p);
    KnownIsStored(cfg, g, ms, j, q);
    forall r | r in extra ensures Harmless(cfg, g, Known(g, ms, j, q), q, r) {
      CreatedInMentions(cfg, g, p, r);
      var i :| 0 <= i < |p| && r in p[i].entities;
      assert r in ms[i].entities;
    }
    DecisionStable(cfg, g, h, extra, Known(g, ms, j, q), q);
  }

  lemma {:induction false} SequentialIsFixed(cfg: Config, g: Graph, ms: seq<Memory>)
    requires Valid(g)
    requires Separated(cfg, g, ms)
    ensures WriteAll(cfg, g, ms) == WriteAllFixed(cfg, g, ms)
  {
    if ms != [] {
      var j := |ms| - 1;
      SeparatedPrefix(cfg, g, ms, j);
      SequentialIsFixed(cfg, g, ms[..j]);
      forall q | q in ms[j].entities
        ensures
          var h := WriteAllFixed(cfg, g, ms[..j]);
          Stored(h.order, h.entities) && SameEffect(q in h.entities, Decide(cfg, h, q), Decide(cfg, g, q))
      {
        MemoryStable(cfg, g, ms, j, q);
      }
      SameMemory(cfg, g, WriteAllFixed(cfg, g, ms[..j]), ms[j]);
    }
  }

  lemma SeparatedPrefix(cfg: Config, g: Graph, ms: seq<Memory>, n: nat)
    requires Stored(g.order, g.entities)
    requires n <= |ms|
    requires Separated(cfg, g, ms)
    ensures Separated(cfg, g, ms[..n])
  {
    var p := ms[..n];
    forall i, j, r, q | 0 <= i < j < n && r in p[i].entities && q in p[j].entities && Created(cfg, g, r)
      ensures Harmless(cfg, g, Known(g, p, j, q), q, r)
    {
      assert p[i] == ms[i] && p[j] == ms[j];
      assert Known(g, p, j, q) <==> Known(g, ms, j, q) by {
        assert forall x | 0 <= x < j :: p[x] == ms[x];
      }
    }
  }

  // ---- names ----

  lemma {:induction false} NameTable(home: Key -> Key, keys: seq<Key>, n: string)
    ensures n in NamesOf(home, keys) <==> exists k | k in keys :: k.name == n
    ensures n in NamesOf(home, keys) ==> exists k | k in keys :: k.name == n && NamesOf(home, keys)[n] == home(k)
  {
    if keys != [] {
      var before, last := keys[..|keys| - 1], keys[|keys| - 1];
      assert keys == before + [last];
      NameTable(home, before, n);
      assert forall k :: k in keys <==> k in before || k == last;
    }
  }

  lemma {:induction false} DistinctMentions(ms: seq<Memory>)
    requires DistinctPerMemory(ms)
    ensures BatchMentionList(ms) == MentionList(ms)
  {
    if ms != [] {
      assert ms[|ms| - 1] in ms;
      assert forall m | m in ms[..|ms| - 1] :: m in ms;
      DistinctMentions(ms[..|ms| - 1]);
      DistinctSame(ms[|ms| - 1].entities);
    }
  }

  lemma {:induction false} DistinctSame(keys: seq<Key>)
    requires NoDup(keys)
    ensures Distinct(keys) == keys
  {
    if keys != [] {
      DistinctSame(keys[..|keys| - 1]);
      assert keys == keys[..|keys| - 1] + [keys[|keys| - 1]];
    }
  }

  lemma {:induction false} ChosenBoth(cfg: Config, g: Graph, keys: seq<Key>)
    requires Stored(g.order, g.entities)
    ensures forall k :: k in Chosen(cfg, g, keys, true) + Chosen(cfg, g, keys, false) <==> k in keys
  {
    if keys != [] {
      assert keys == keys[..|keys| - 1] + [keys[|keys| - 1]];
      ChosenBoth(cfg, g, keys[..|keys| - 1]);
    }
  }

  lemma {:induction false} SeenIffMentioned(os: seq<Mention>, k: Key)
    ensures k in FirstSeen(os) <==> exists o | o in os :: o.key == k
  {
    if os != [] {
      var p, o := os[..|os| - 1], os[|os| - 1];
      assert os == p + [o];
      SeenIffMentioned(p, k);
      assert forall x :: x in os <==> x in p || x == o;
    }
  }

  lemma {:induction false} BatchKeys(ms: seq<Memory>, k: Key)
    ensures (exists o | o in BatchMentionList(ms) :: o.key == k) <==> exists m | m in ms :: k in m.entities
  {
    if o :| o in BatchMentionList(ms) && o.key == k {
      BatchListOrigin(ms, o);
    }
    if m :| m in ms && k in m.entities {
      BatchMentions'(ms, m, k);
    }
  }

  lemma {:induction false} BatchMentions'(ms: seq<Memory>, m: Memory, k: Key)
    requires m in ms && k in m.entities
    ensures exists o | o in BatchMentionList(ms) :: o.key == k
  {
    var p, last := ms[..|ms| - 1], ms[|ms| - 1];
    assert ms == p + [last];
    if m == last {
      assert k in Elems(Distinct(m.entities));
      var i :| 0 <= i < |Distinct(m.entities)| && Distinct(m.entities)[i] == k;
      assert MentionsOf(m, Distinct(m.entities))[i].key == k;
      assert MentionsOf(m, Distinct(m.entities))[i] in BatchMentionList(ms);
    } else {
      BatchMentions'(p, m, k);
    }
  }

  lemma BatchNameTable(cfg: Config, g: Graph, ms: seq<Memory>, n: string)
    requires Stored(g.order, g.entities)
    ensures
      var t := BatchNames(cfg, g, BatchMentionList(ms));
      && (n in t <==> exists m, k | m in ms && k in m.entities :: k.name == n)
      && (n in t ==> exists m, k | m in ms && k in m.entities :: k.name == n && t[n] == Home(cfg, g, k))
  {
    var keys := FirstSeen(BatchMentionList(ms));
    var chosen := Chosen(cfg, g, keys, true) + Chosen(cfg, g, keys, false);
    NameTable(k => Home(cfg, g, k), chosen, n);
    ChosenBoth(cfg, g, keys);
    forall k ensures k in chosen <==> exists m | m in ms :: k in m.entities {
      BatchKeys(ms, k);
      SeenIffMentioned(BatchMentionList(ms), k);
    }
  }

  lemma LocalLookup(cfg: Config, g: Graph, ms: seq<Memory>, m: Memory, n: string)
    requires Stored(g.order, g.entities)
    requires m in ms && LocalName(ms, m, n)
    ensures Lookup(BatchNames(cfg, g, BatchMentionList(ms)), n)
         == Lookup(NamesOf(k => Home(cfg, g, k), m.entities), n)
  {
    BatchNameTable(cfg, g, ms, n);
    NameTable(k => Home(cfg, g, k), m.entities, n);
  }

  lemma LocalVotes(cfg: Config, g: Graph, ms: seq<Memory>)
    requires Stored(g.order, g.entities)
    requires LocalNames(ms)
    ensures BatchVotes(cfg, g, BatchNames(cfg, g, BatchMentionList(ms)), ms) == Votes(cfg, g, ms)
  {
    var table := BatchNames(cfg, g, BatchMentionList(ms));
    var home := k => Home(cfg, g, k);
    forall i | 0 <= i < |ms|
      ensures BatchVotes(cfg, g, table, ms)[i] == VoteOf(cfg, g, ms[i])
    {
      forall r | r in ms[i].relations
        ensures Lookup(table, r.source) == Lookup(NamesOf(home, ms[i].entities), r.source)
        ensures Lookup(table, r.target) == Lookup(NamesOf(home, ms[i].entities), r.target)
      {
        LocalLookup(cfg, g, ms, ms[i], r.source);
        LocalLookup(cfg, g, ms, ms[i], r.target);
      }
      SamePairs(cfg, table, NamesOf(home, ms[i].entities), home, home, ms[i]);
    }
  }

  // ---- the claim ----

  /** The batched pass leaves the graph the memory-by-memory pass leaves: every counter, belief,
      review flag, conflict pointer and edge, and the order of creation. */
  lemma BatchEqualsSequential(cfg: Config, g: Graph, ms: seq<Memory>)
    requires Valid(g)
    requires DistinctPerMemory(ms)
    requires Separated(cfg, g, ms)
    requires LocalNames(ms)
    ensures WriteBatch(cfg, g, ms) == WriteAll(cfg, g, ms)
  {
    SequentialIsFixed(cfg, g, ms);
    FixedIsBatch(cfg, g, ms);
    DistinctMentions(ms);
    LocalVotes(cfg, g, ms);
    RelateFoldIsBatch(cfg, g.relatesTo, Votes(cfg, g, ms));
  }

  // ---- the claim is false without separation ----

  // The memories of the batch are new and differ.
  ghost predicate FreshMemories(g: Graph, ms: seq<Memory>) {
    && (forall i, j :: 0 <= i < j < |ms| ==> ms[i].memoryKey != ms[j].memoryKey)
    && (forall e | e in g.mentions :: forall m | m in ms :: e.0 != m.memoryKey)
  }

  // No memory names both an entity and a new one that would absorb it.
  ghost predicate NoMergeInside(cfg: Config, g: Graph, ms: seq<Memory>)
    requires Stored(g.order, g.entities)
  {
    forall m, q, r | m in ms && q in m.entities && r in m.entities ::
      Created(cfg, g, r) && Draws(cfg, g, q, r) ==> cfg.sim(cfg.embed(q.name), cfg.embed(r.name)) < cfg.mergeThreshold
  }

  // A trace, in the graph `s`, of a decision taken against a document the batch created.
  ghost predicate TracedMention(g: Graph, ms: seq<Memory>, s: Graph) {
    exists j, x | 0 <= j < |ms| :: (ms[j].memoryKey, x) in s.mentions && x !in g.entities && x !in ms[j].entities
  }

  ghost predicate TracedConflict(g: Graph, s: Graph) {
    exists q | q in s.entities && q !in g.entities ::
      s.entities[q].conflictWith.Some? && s.entities[q].conflictWith.value !in g.entities
  }

  lemma {:induction false} BatchListOrigin(ms: seq<Memory>, o: Mention)
    requires o in BatchMentionList(ms)
    ensures exists j :: 0 <= j < |ms| && o.memoryKey == ms[j].memoryKey && o.key in ms[j].entities
  {
    var p, m := ms[..|ms| - 1], ms[|ms| - 1];
    if o in BatchMentionList(p) {
      BatchListOrigin(p, o);
      var j :| 0 <= j < |p| && o.memoryKey == p[j].memoryKey && o.key in p[j].entities;
      assert ms[j] == p[j];
    } else {
      assert o.key in Elems(Distinct(m.entities));
      assert o.key in ms[|ms| - 1].entities;
    }
  }

  lemma BatchMentionIsOwn(cfg: Config, g: Graph, ms: seq<Memory>, j: nat, x: Key)
    requires Stored(g.order, g.entities)
    requires FreshMemories(g, ms)
    requires j < |ms|
    requires (ms[j].memoryKey, x) in WriteBatch(cfg, g, ms).mentions && x !in g.entities
    ensures x in ms[j].entities
  {
    var os := BatchMentionList(ms);
    assert ms[j] in ms;
    assert (ms[j].memoryKey, x) !in g.mentions;
    assert (ms[j].memoryKey, x) in MentionEdges(cfg, g, os);
    var o :| o in os && (o.memoryKey, Home(cfg, g, o.key)) == (ms[j].memoryKey, x);
    assert o.key == x;
    BatchListOrigin(ms, o);
    var i :| 0 <= i < |ms| && o.memoryKey == ms[i].memoryKey && o.key in ms[i].entities;
    SameMemoryKey(g, ms, i, j);
  }

  lemma SameMemoryKey(g: Graph, ms: seq<Memory>, i: nat, j: nat)
    requires FreshMemories(g, ms)
    requires i < |ms| && j < |ms| && ms[i].memoryKey == ms[j].memoryKey
    ensures i == j
  {
  }

  lemma BatchConflictIsStored(cfg: Config, g: Graph, ms: seq<Memory>, q: Key)
    requires Valid(g)
    requires q in WriteBatch(cfg, g, ms).entities && q !in g.entities
    ensures
      var c := WriteBatch(cfg, g, ms).entities[q].conflictWith;
      c.Some? ==> c.value in g.entities
  {
    assert WriteBatch(cfg, g, ms).entities[q] == BatchRow(cfg, g, BatchMentionList(ms), q);
    var c := ConflictOf(Decide(cfg, g, q));
    if c.Some? {
      assert c.value in Elems(g.order);
    }
  }

  lemma BatchLeavesNoTrace(cfg: Config, g: Graph, ms: seq<Memory>)
    requires Valid(g)
    requires FreshMemories(g, ms)
    ensures !TracedMention(g, ms, WriteBatch(cfg, g, ms))
    ensures !TracedConflict(g, WriteBatch(cfg, g, ms))
  {
    var s := WriteBatch(cfg, g, ms);
    if TracedMention(g, ms, s) {
      var j, x :| 0 <= j < |ms| && (ms[j].memoryKey, x) in s.mentions && x !in g.entities && x !in ms[j].entities;
      BatchMentionIsOwn(cfg, g, ms, j, x);
    }
    if TracedConflict(g, s) {
      var q :| q in s.entities && q !in g.entities && s.entities[q].conflictWith.Some? && s.entities[q].conflictWith.value !in g.entities;
      BatchConflictIsStored(cfg, g, ms, q);
    }
  }

  lemma WriteOneKeeps(cfg: Config, g: Graph, h: Graph, p: seq<Memory>, m: Memory)
    requires Valid(h)
    ensures TracedMention(g, p, h) ==> TracedMention(g, p + [m], WriteOne(cfg, h, m))
    ensures TracedConflict(g, h) ==> TracedConflict(g, WriteOne(cfg, h, m))
  {
    var s, os := WriteOne(cfg, h, m), MentionsOf(m, m.entities);
    FoldIsBatch(cfg, h, os);
    if j, x :| 0 <= j < |p| && (p[j].memoryKey, x) in h.mentions && x !in g.entities && x !in p[j].entities {
      assert (p + [m])[j] == p[j] && (p[j].memoryKey, x) in s.mentions;
    }
    if q :| q in h.entities && q !in g.entities && h.entities[q].conflictWith.Some? && h.entities[q].conflictWith.value !in g.entities {
      assert m.entities != [] ==> s.entities[q] == BatchRow(cfg, h, os, q);
      assert q in s.entities && s.entities[q].conflictWith == h.entities[q].conflictWith;
    }
  }

  ghost predicate Traced(cfg: Config, g: Graph, ms: seq<Memory>)
    requires Valid(g)
  {
    var s := WriteAll(cfg, g, ms);
    TracedMention(g, ms, s) || TracedConflict(g, s)
  }

  // What memory `m`, written to `h`, leaves of a decision taken for its entity `q`.
  lemma DecisionShows(cfg: Config, h: Graph, m: Memory, q: Key)
    requires Valid(h)
    requires q in m.entities
    ensures (m.memoryKey, Home(cfg, h, q)) in WriteOne(cfg, h, m).mentions
    ensures q !in h.entities && Decide(cfg, h, q).Own? ==>
              q in WriteOne(cfg, h, m).entities
              && WriteOne(cfg, h, m).entities[q].conflictWith == Decide(cfg, h, q).conflict
  {
    var os := MentionsOf(m, m.entities);
    FoldIsBatch(cfg, h, os);
    var a :| 0 <= a < |m.entities| && m.entities[a] == q;
    assert os[a] in os && os[a].key == q && os[a].memoryKey == m.memoryKey;
    assert (m.memoryKey, Home(cfg, h, q)) in MentionEdges(cfg, h, os);
    NewKeysGrow(cfg, h, [], os, q);
    assert [] + os == os;
    if q !in h.entities && Decide(cfg, h, q).Own? {
      assert WriteOne(cfg, h, m).entities[q] == BatchRow(cfg, h, os, q);
    }
  }

  // Memory `j` takes a decision that an earlier memory of the batch changed.
  lemma DrawnAway(cfg: Config, g: Graph, ms: seq<Memory>, j: nat, i: nat, r: Key, q: Key) returns (x: Key)
    requires Valid(g)
    requires i < j < |ms|
    requires r in ms[i].entities && q in ms[j].entities
    requires Created(cfg, g, r) && !Harmless(cfg, g, Known(g, ms, j, q), q, r)
    ensures Created(cfg, g, x) && Draws(cfg, g, q, x)
    ensures
      var h := WriteAllFixed(cfg, g, ms[..j]);
      && Stored(h.order, h.entities)
      && (|| (Decide(cfg, h, q) == Merge(x) && cfg.sim(cfg.embed(q.name), cfg.embed(x.name)) >= cfg.mergeThreshold)
          || (q !in h.entities && Decide(cfg, h, q) == Own(Some(x))))
  {
    var p := ms[..j];
    var h, extra := WriteAllFixed(cfg, g, p), NewKeys(cfg, g, MentionList(p));
    PrefixExtends(cfg, g, p);
    KnownIsStored(cfg, g, ms, j, q);
    assert p[i] == ms[i];
    CreatedWhenNamed(cfg, g, p, i, r);
    DecisionStable(cfg, g, h, extra, q in h.entities, q);
    x :| x in extra && Draws(cfg, g, q, x) &&
      ((Decide(cfg, h, q) == Merge(x) && cfg.sim(cfg.embed(q.name), cfg.embed(x.name)) >= cfg.mergeThreshold)
       || (q !in h.entities && Decide(cfg, h, q) == Own(Some(x)) && Decide(cfg, g, q).Own?));
    CreatedInMentions(cfg, g, p, x);
  }

  // ... and if `j` is the last, the graph shows it.
  lemma DrawnAwayShows(cfg: Config, g: Graph, ms: seq<Memory>, i: nat, r: Key, q: Key)
    requires Valid(g)
    requires i < |ms| - 1
    requires r in ms[i].entities && q in ms[|ms| - 1].entities
    requires Created(cfg, g, r) && !Harmless(cfg, g, Known(g, ms, |ms| - 1, q), q, r)
    requires WriteAll(cfg, g, ms[..|ms| - 1]) == WriteAllFixed(cfg, g, ms[..|ms| - 1])
    requires NoMergeInside(cfg, g, ms)
    ensures Traced(cfg, g, ms)
  {
    var j := |ms| - 1;
    var h, m := WriteAllFixed(cfg, g, ms[..j]), ms[j];
    var x := DrawnAway(cfg, g, ms, j, i, r, q);
    DecisionShows(cfg, h, m, q);
    var s := WriteAll(cfg, g, ms);
    assert s == WriteOne(cfg, h, m);
    if Decide(cfg, h, q).Merge? {
      assert m in ms;
      assert (ms[j].memoryKey, x) in s.mentions && x !in g.entities && x !in ms[j].entities;
    } else {
      assert g.entities.Keys <= h.entities.Keys;
      assert q in s.entities && q !in g.entities;
    }
  }

  lemma LastHarm(cfg: Config, g: Graph, ms: seq<Memory>) returns (i: nat, r: Key, q: Key)
    requires Valid(g)
    requires ms != []
    requires !Separated(cfg, g, ms) && Separated(cfg, g, ms[..|ms| - 1])
    ensures i < |ms| - 1 && r in ms[i].entities && q in ms[|ms| - 1].entities
    ensures Created(cfg, g, r) && !Harmless(cfg, g, Known(g, ms, |ms| - 1, q), q, r)
  {
    var j: nat;
    i, j, r, q :| 0 <= i < j < |ms| && r in ms[i].entities && q in ms[j].entities
      && Created(cfg, g, r) && !Harmless(cfg, g, Known(g, ms, j, q), q, r);
    var n := |ms| - 1;
    KnownPrefix(g, ms, n, j, q);
    assert forall x | 0 <= x < n :: ms[..n][x] == ms[x];
    if j < n {
      assert false;
    }
  }

  lemma KnownPrefix(g: Graph, ms: seq<Memory>, n: nat, j: nat, q: Key)
    requires j <= n <= |ms|
    ensures Known(g, ms[..n], j, q) <==> Known(g, ms, j, q)
  {
    assert forall x | 0 <= x < n :: ms[..n][x] == ms[x];
  }

  lemma TracedStays(cfg: Config, g: Graph, ms: seq<Memory>)
    requires Valid(g)
    requires ms != [] && Traced(cfg, g, ms[..|ms| - 1])
    ensures Traced(cfg, g, ms)
  {
    var n := |ms| - 1;
    assert ms == ms[..n] + [ms[n]];
    WriteOneKeeps(cfg, g, WriteAll(cfg, g, ms[..n]), ms[..n], ms[n]);
  }

  lemma {:induction false} NotSeparatedShows(cfg: Config, g: Graph, ms: seq<Memory>)
    requires Valid(g)
    requires !Separated(cfg, g, ms)
    requires NoMergeInside(cfg, g, ms)
    ensures Traced(cfg, g, ms)
  {
    if ms != [] {
      var p := ms[..|ms| - 1];
      if Separated(cfg, g, p) {
        SequentialIsFixed(cfg, g, p);
        var i, r, q := LastHarm(cfg, g, ms);
        DrawnAwayShows(cfg, g, ms, i, r, q);
      } else {
        NoMergePrefix(cfg, g, ms, |ms| - 1);
        NotSeparatedShows(cfg, g, p);
        TracedStays(cfg, g, ms);
      }
    }
  }

  lemma NoMergePrefix(cfg: Config, g: Graph, ms: seq<Memory>, n: nat)
    requires Stored(g.order, g.entities)
    requires n <= |ms| && NoMergeInside(cfg, g, ms)
    ensures NoMergeInside(cfg, g, ms[..n])
  {
    assert forall m | m in ms[..n] :: m in ms;
  }

  lemma EqualMeansDistinct(cfg: Config, g: Graph, ms: seq<Memory>)
    requires Valid(g)
    requires WriteBatch(cfg, g, ms) == WriteAll(cfg, g, ms)
    ensures DistinctPerMemory(ms)
  {
    WriteAllCount(cfg, g, ms);
    WriteBatchCount(cfg, g, ms);
    BatchListShorter(ms);
  }

  // ---- the documented hypothesis: no two new names alike ----

  ghost predicate Symmetric(cfg: Config) {
    forall a, b :: cfg.sim(a, b) == cfg.sim(b, a)
  }

  // Every stored embedding is the current embedder's.
  ghost predicate CurrentEmbeddings(cfg: Config, g: Graph) {
    forall k | k in g.entities :: g.entities[k].embedding == cfg.embed(k.name)
  }

  ghost predicate NewNamesUnlike(cfg: Config, g: Graph, ms: seq<Memory>) {
    forall i, j, r, q | 0 <= i < j < |ms| && r in ms[i].entities && q in ms[j].entities ::
      r != q && r !in g.entities && q !in g.entities ==>
        cfg.sim(cfg.embed(q.name), cfg.embed(r.name)) < cfg.mergeThreshold
        && cfg.sim(cfg.embed(q.name), cfg.embed(r.name)) < cfg.flagThreshold
  }

  /** With a symmetric similarity and one embedder, two unlike new names are enough: a stored
      entity is never drawn to a new one, which would have merged into it first. */
  lemma UnlikeNamesSeparate(cfg: Config, g: Graph, ms: seq<Memory>)
    requires Valid(g)
    requires Symmetric(cfg) && CurrentEmbeddings(cfg, g)
    requires cfg.mergeThreshold >= -1.0
    requires NewNamesUnlike(cfg, g, ms)
    ensures Separated(cfg, g, ms)
  {
    forall i, j, r, q | 0 <= i < j < |ms| && r in ms[i].entities && q in ms[j].entities && Created(cfg, g, r)
      ensures Harmless(cfg, g, Known(g, ms, j, q), q, r)
    {
      if q != r {
        if q in g.entities {
          StoredIsNotDrawn(cfg, g, q, r);
        } else {
          assert !Draws(cfg, g, q, r) || cfg.sim(cfg.embed(q.name), cfg.embed(r.name)) < cfg.mergeThreshold;
        }
      }
    }
  }

  lemma StoredIsNotDrawn(cfg: Config, g: Graph, q: Key, r: Key)
    requires Valid(g) && Stored(g.order, g.entities)
    requires Symmetric(cfg) && CurrentEmbeddings(cfg, g)
    requires cfg.mergeThreshold >= -1.0
    requires q in g.entities && q != r && Created(cfg, g, r)
    ensures Draws(cfg, g, q, r) ==> cfg.sim(cfg.embed(q.name), cfg.embed(r.name)) < cfg.mergeThreshold
  {
    assert q in Elems(g.order);
    assert Similarity(cfg, g.entities, r, q) == cfg.sim(cfg.embed(q.name), cfg.embed(r.name));
  }

  // ---- a relation on which the passes part ----

  const ACME := Key("Acme", "Organization")
  const ZENITH := Key("Zenith", "Organization")
  const EMPTY := Graph(map[], [], {}, {}, map[])

  const FIRST := Memory("m1", "e1", [ACME], [], 1.0, None)
  const SECOND := Memory("m2", "e2", [ZENITH], [Relation("Acme", "Zenith", "caused_by")], 1.0, None)

  lemma NoVote(cfg: Config, g: Graph, m: Memory)
    requires Stored(g.order, g.entities)
    requires m == FIRST || m == SECOND
    ensures VoteOf(cfg, g, m).pairs == map[]
  {
    var home := k => Home(cfg, g, k);
    assert m.entities[..0] == [] && (m.relations != [] ==> m.relations[..0] == []);
    assert CoPairsFrom(m.entities, 0, 1, cfg.maxPairs) == CoPairsFrom(m.entities, 1, 2, cfg.maxPairs) == [];
    assert TypedPairs(NamesOf(home, m.entities), m.relations) == map[];
  }

  lemma ForeignNameSequential(cfg: Config)
    ensures Valid(EMPTY)
    ensures WriteAll(cfg, EMPTY, [FIRST, SECOND]).relatesTo == map[]
  {
    assert [FIRST, SECOND][..1] == [FIRST] && [FIRST][..0] == [];
    var h := WriteOne(cfg, EMPTY, FIRST);
    assert WriteAll(cfg, EMPTY, [FIRST]) == h;
    NoVote(cfg, EMPTY, FIRST);
    NoEdgesFrom(cfg, EMPTY, FIRST);
    NoVote(cfg, h, SECOND);
    NoEdgesFrom(cfg, h, SECOND);
  }

  lemma NoEdgesFrom(cfg: Config, g: Graph, m: Memory)
    requires Valid(g)
    requires VoteOf(cfg, g, m).pairs == map[]
    ensures Valid(WriteOne(cfg, g, m))
    ensures WriteOne(cfg, g, m).relatesTo == g.relatesTo
  {
    WriteOneValid(cfg, g, m);
    MentionsIgnoreEdges(cfg, g, g, map[], MentionsOf(m, m.entities));
    EmptyVote(cfg, g.relatesTo, VoteOf(cfg, g, m));
  }

  lemma ForeignNameTable(cfg: Config, k: Key)
    requires k == ACME || k == ZENITH
    ensures Lookup(BatchNames(cfg, EMPTY, BatchMentionList([FIRST, SECOND])), k.name) == Some(k)
  {
    var ms := [FIRST, SECOND];
    BatchNameTable(cfg, EMPTY, ms, k.name);
    assert FIRST in ms && SECOND in ms && ACME in FIRST.entities && ZENITH in SECOND.entities;
    var t := BatchNames(cfg, EMPTY, BatchMentionList(ms));
    assert k.name in t;
    var m, x :| m in ms && x in m.entities && x.name == k.name && t[k.name] == Home(cfg, EMPTY, x);
    assert m == FIRST || m == SECOND;
    assert x == ACME || x == ZENITH;
    assert |ACME.name| != |ZENITH.name|;
  }

  lemma ForeignNameBatch(cfg: Config)
    ensures {ACME, ZENITH} in WriteBatch(cfg, EMPTY, [FIRST, SECOND]).relatesTo
  {
    var ms := [FIRST, SECOND];
    var t := BatchNames(cfg, EMPTY, BatchMentionList(ms));
    ForeignNameTable(cfg, ACME);
    ForeignNameTable(cfg, ZENITH);
    assert SECOND.relations[..0] == [];
    assert {ACME, ZENITH} in TypedPairs(t, SECOND.relations);
    assert CoPairsFrom(SECOND.entities, 0, 1, cfg.maxPairs) == CoPairsFrom(SECOND.entities, 1, 2, cfg.maxPairs) == [];
    var votes := BatchVotes(cfg, EMPTY, t, ms);
    assert {ACME, ZENITH} in votes[1].pairs;
    TalliedIffVoted(votes, {ACME, ZENITH});
  }

  /** A relation to an entity that only another memory of the batch names makes an edge in the
      batched pass and none in the sequential one. */
  lemma ForeignNameParts(cfg: Config)
    ensures Valid(EMPTY)
    ensures WriteBatch(cfg, EMPTY, [FIRST, SECOND]) != WriteAll(cfg, EMPTY, [FIRST, SECOND])
  {
    ForeignNameSequential(cfg);
    ForeignNameBatch(cfg);
  }
}
