/** The entity keys the batched graph pass returns for each memory. */
module GraphResults {
  import opened Common
  import opened GraphModel
  import opened GraphBatch
  import opened GraphEquality

  // The memories that mention `k`.
  function Mentioning(os: seq<Mention>, k: Key): set<string> {
    set o | o in os && o.key == k :: o.memoryKey
  }

  // The homes of those among `keys` that memory `mk` mentions, in their order.
  function HomesFor(cfg: Config, g: Graph, os: seq<Mention>, keys: seq<Key>, mk: string): seq<Key>
    requires Stored(g.order, g.entities)
  {
    if keys == [] then []
    else
      var before, k := HomesFor(cfg, g, os, keys[..|keys| - 1], mk), keys[|keys| - 1];
      if mk in Mentioning(os, k) then before + [Home(cfg, g, k)] else before
  }

  function MemoryKeys(ms: seq<Memory>): set<string> {
    set m | m in ms :: m.memoryKey
  }

  // Per memory key: in the order in which the batch first saw the entities, each key once.
  function ReturnedKeys(cfg: Config, g: Graph, ms: seq<Memory>): map<string, seq<Key>>
    requires Stored(g.order, g.entities)
  {
    var os := BatchMentionList(ms);
    map mk | mk in MemoryKeys(ms) :: Distinct(HomesFor(cfg, g, os, FirstSeen(os), mk))
  }

  lemma {:induction false} HomeListed(cfg: Config, g: Graph, os: seq<Mention>, keys: seq<Key>, mk: string, t: Key)
    requires Stored(g.order, g.entities)
    ensures t in HomesFor(cfg, g, os, keys, mk) <==> exists k | k in keys :: mk in Mentioning(os, k) && Home(cfg, g, k) == t
  {
    if keys != [] {
      var p, last := keys[..|keys| - 1], keys[|keys| - 1];
      HomeListed(cfg, g, os, p, mk, t);
      assert keys == p + [last];
    }
  }

  // Some memory under this key names `k`.
  predicate Names(ms: seq<Memory>, mk: string, k: Key) {
    ms != [] && ((ms[|ms| - 1].memoryKey == mk && k in ms[|ms| - 1].entities) || Names(ms[..|ms| - 1], mk, k))
  }

  lemma {:induction false} NamesIff(ms: seq<Memory>, mk: string, k: Key)
    ensures Names(ms, mk, k) <==> exists m | m in ms :: m.memoryKey == mk && k in m.entities
  {
    if ms != [] {
      var p, m := ms[..|ms| - 1], ms[|ms| - 1];
      assert ms == p + [m];
      NamesIff(p, mk, k);
    }
  }

  lemma MentioningBoth(a: seq<Mention>, b: seq<Mention>, k: Key)
    ensures Mentioning(a + b, k) == Mentioning(a, k) + Mentioning(b, k)
  {
    assert forall o :: o in a + b <==> o in a || o in b;
  }

  lemma {:induction false} MentioningMemories(ms: seq<Memory>, mk: string, k: Key)
    ensures mk in Mentioning(BatchMentionList(ms), k) <==> Names(ms, mk, k)
  {
    if ms != [] {
      var p, m := ms[..|ms| - 1], ms[|ms| - 1];
      MentioningMemories(p, mk, k);
      OwnMentioning(m, k);
      MentioningBoth(BatchMentionList(p), MentionsOf(m, Distinct(m.entities)), k);
    }
  }

  lemma OwnMentioning(m: Memory, k: Key)
    ensures Mentioning(MentionsOf(m, Distinct(m.entities)), k) == if k in m.entities then {m.memoryKey} else {}
  {
    var keys := Distinct(m.entities);
    var own := MentionsOf(m, keys);
    assert k in keys <==> k in m.entities by {
      assert Elems(keys) == Elems(m.entities);
      assert k in Elems(keys) <==> k in Elems(m.entities);
    }
    if k in keys {
      var i :| 0 <= i < |keys| && keys[i] == k;
      assert own[i] in own && own[i].key == k;
    }
    forall o | o in own ensures o.memoryKey == m.memoryKey && o.key in keys {
    }
  }

  /** What is returned for a memory is the set of entities its own were written to, each once. */
  lemma ReturnedExactly(cfg: Config, g: Graph, ms: seq<Memory>, mk: string, t: Key)
    requires Stored(g.order, g.entities)
    ensures mk in ReturnedKeys(cfg, g, ms) <==> exists m | m in ms :: m.memoryKey == mk
    ensures mk in ReturnedKeys(cfg, g, ms) ==>
      NoDup(ReturnedKeys(cfg, g, ms)[mk])
      && (t in ReturnedKeys(cfg, g, ms)[mk] <==> exists m, k | m in ms && k in m.entities :: m.memoryKey == mk && Home(cfg, g, k) == t)
  {
    if mk in ReturnedKeys(cfg, g, ms) {
      var os := BatchMentionList(ms);
      var homes := HomesFor(cfg, g, os, FirstSeen(os), mk);
      assert t in Elems(Distinct(homes)) <==> t in Elems(homes);
      HomeListed(cfg, g, os, FirstSeen(os), mk, t);
      if k :| k in FirstSeen(os) && mk in Mentioning(os, k) && Home(cfg, g, k) == t {
        MentioningMemories(ms, mk, k);
        NamesIff(ms, mk, k);
      }
      if m, k :| m in ms && k in m.entities && m.memoryKey == mk && Home(cfg, g, k) == t {
        NamesIff(ms, mk, k);
        MentioningMemories(ms, mk, k);
        SeenIffMentioned(os, k);
        BatchKeys(ms, k);
      }
    }
  }
}
