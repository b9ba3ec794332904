/** What graph writes conserve: totals of mentions and reliability, and the meaning of belief. */
module GraphTotals {
  import opened Common
  import opened GraphModel
  import opened GraphBatch
  import opened GraphRefinement

  function TotalOver(order: seq<Key>, rows: map<Key, Entity>): Sum
    requires Stored(order, rows)
  {
    if order == [] then ZERO
    else
      var e := rows[order[|order| - 1]];
      TotalOver(order[..|order| - 1], rows).Add(e.mentionCount, e.reliabilitySum.GetOr(0.0))
  }

  // Mentions and reliability over all stored entities.
  function Total(g: Graph): Sum
    requires Stored(g.order, g.entities)
  {
    TotalOver(g.order, g.entities)
  }

  function Carried(os: seq<Mention>): Sum {
    if os == [] then ZERO else Carried(os[..|os| - 1]).Add(1, os[|os| - 1].reliability)
  }

  lemma {:induction false} TotalUpdate(order: seq<Key>, rows: map<Key, Entity>, k: Key, e: Entity)
    requires Stored(order, rows) && NoDup(order)
    requires k in rows
    ensures Stored(order, rows[k := e])
    ensures k !in order ==> TotalOver(order, rows[k := e]) == TotalOver(order, rows)
    ensures k in order ==>
              TotalOver(order, rows[k := e]).count == TotalOver(order, rows).count - rows[k].mentionCount + e.mentionCount
    ensures k in order ==>
              TotalOver(order, rows[k := e]).rel
              == TotalOver(order, rows).rel - rows[k].reliabilitySum.GetOr(0.0) + e.reliabilitySum.GetOr(0.0)
  {
    if order != [] {
      var p, last := order[..|order| - 1], order[|order| - 1];
      TotalUpdate(p, rows, k, e);
      assert k in order <==> k in p || k == last;
      assert last !in p;
    }
  }

  lemma {:induction false} TotalIgnores(order: seq<Key>, rows: map<Key, Entity>, k: Key, e: Entity)
    requires Stored(order, rows) && k !in order
    ensures Stored(order, rows[k := e])
    ensures TotalOver(order, rows[k := e]) == TotalOver(order, rows)
  {
    if order != [] {
      TotalIgnores(order[..|order| - 1], rows, k, e);
    }
  }

  // A stored row bumped, or a new one appended.
  lemma BumpTotal(g: Graph, t: Key, e: Entity, rel: real)
    requires Valid(g) && t in g.entities
    requires e.mentionCount == g.entities[t].mentionCount + 1
    requires e.reliabilitySum.GetOr(0.0) == g.entities[t].reliabilitySum.GetOr(0.0) + rel
    ensures Stored(g.order, g.entities[t := e])
    ensures TotalOver(g.order, g.entities[t := e]) == TotalOver(g.order, g.entities).Add(1, rel)
  {
    assert t in Elems(g.order);
    TotalUpdate(g.order, g.entities, t, e);
  }

  lemma BirthTotal(g: Graph, t: Key, e: Entity, rel: real)
    requires Valid(g) && t !in g.entities && e.mentionCount == 1 && e.reliabilitySum.GetOr(0.0) == rel
    ensures NoDup(g.order + [t]) && Elems(g.order + [t]) == g.entities[t := e].Keys
    ensures Stored(g.order + [t], g.entities[t := e])
    ensures TotalOver(g.order + [t], g.entities[t := e]) == TotalOver(g.order, g.entities).Add(1, rel)
  {
    assert t !in Elems(g.order);
    SnocElems(g.order, t);
    TotalIgnores(g.order, g.entities, t, e);
    assert (g.order + [t])[..|g.order|] == g.order;
  }

  lemma {:induction false} MentionTotal(cfg: Config, g: Graph, o: Mention, d: Decision)
    requires Valid(g)
    requires d.Merge? ==> d.into in g.entities
    ensures Valid(WriteMention(cfg, g, o, d))
    ensures Total(WriteMention(cfg, g, o, d)) == Total(g).Add(1, o.reliability)
  {
    var t := Target(o.key, d);
    var e := WriteMention(cfg, g, o, d).entities[t];
    if t in g.entities {
      BumpTotal(g, t, e, o.reliability);
    } else {
      BirthTotal(g, t, e, o.reliability);
    }
  }

  lemma {:induction false} MentionsTotal(cfg: Config, base: Graph, g: Graph, os: seq<Mention>)
    requires Valid(base) && Valid(g)
    requires base.entities.Keys <= g.entities.Keys
    ensures Valid(WriteMentions(cfg, base, g, os))
    ensures IsSum(Total(WriteMentions(cfg, base, g, os)), Total(g), Carried(os))
  {
    if os != [] {
      var p, o := os[..|os| - 1], os[|os| - 1];
      MentionsTotal(cfg, base, g, p);
      MentionTotal(cfg, WriteMentions(cfg, base, g, p), o, Decide(cfg, base, o.key));
    }
  }

  /** One memory: one mention per extracted entity, each with the memory's reliability, however
      the merges fall. */
  lemma WriteOneTotal(cfg: Config, g: Graph, m: Memory)
    requires Valid(g)
    ensures Valid(WriteOne(cfg, g, m))
    ensures IsSum(Total(WriteOne(cfg, g, m)), Total(g), Carried(MentionsOf(m, m.entities)))
  {
    WriteOneValid(cfg, g, m);
    MentionsTotal(cfg, g, g, MentionsOf(m, m.entities));
  }

  /** ... that is, the number of its entities, and that many times its reliability. */
  lemma {:induction false} CarriedByMemory(m: Memory, keys: seq<Key>)
    ensures Carried(MentionsOf(m, keys)) == Sum(|keys|, |keys| as real * m.reliability)
  {
    if keys != [] {
      CarriedByMemory(m, keys[..|keys| - 1]);
      assert MentionsOf(m, keys)[..|keys| - 1] == MentionsOf(m, keys[..|keys| - 1]);
      var n := |keys| - 1;
      assert (n + 1) as real * m.reliability == n as real * m.reliability + m.reliability;
    }
  }

  /** A batch: one mention per memory and distinct entity of it. */
  lemma WriteBatchTotal(cfg: Config, g: Graph, ms: seq<Memory>)
    requires Valid(g)
    ensures Valid(WriteBatch(cfg, g, ms))
    ensures IsSum(Total(WriteBatch(cfg, g, ms)), Total(g), Carried(BatchMentionList(ms)))
  {
    var os := BatchMentionList(ms);
    FoldIsBatch(cfg, g, os);
    BatchValid(cfg, g, os);
    MentionsTotal(cfg, g, g, os);
  }

  lemma {:induction false} CarriedCount(os: seq<Mention>)
    ensures Carried(os).count == |os|
  {
    if os != [] {
      CarriedCount(os[..|os| - 1]);
    }
  }

  lemma {:induction false} WriteAllCount(cfg: Config, g: Graph, ms: seq<Memory>)
    requires Valid(g)
    ensures Total(WriteAll(cfg, g, ms)).count == Total(g).count + |MentionList(ms)|
  {
    if ms != [] {
      WriteAllCount(cfg, g, ms[..|ms| - 1]);
      WriteOneTotal(cfg, WriteAll(cfg, g, ms[..|ms| - 1]), ms[|ms| - 1]);
      CarriedCount(MentionsOf(ms[|ms| - 1], ms[|ms| - 1].entities));
    }
  }

  // The reliability a memory carries: its own, once per entity extracted.
  function Borne(m: Memory): real {
    |m.entities| as real * m.reliability
  }

  function ReliabilityOf(ms: seq<Memory>): real {
    if ms == [] then 0.0 else ReliabilityOf(ms[..|ms| - 1]) + Borne(ms[|ms| - 1])
  }

  lemma {:induction false} BorneCarried(m: Memory, carried: Sum)
    requires carried == Carried(MentionsOf(m, m.entities))
    ensures carried.rel == Borne(m)
  {
    CarriedByMemory(m, m.entities);
  }

  lemma {:induction false} WriteOneReliability(cfg: Config, g: Graph, m: Memory, borne: real)
    requires Valid(g) && borne == Carried(MentionsOf(m, m.entities)).rel
    ensures Valid(WriteOne(cfg, g, m)) && Total(WriteOne(cfg, g, m)).rel == Total(g).rel + borne
  {
    WriteOneTotal(cfg, g, m);
  }

  lemma {:induction false} WriteAllReliability(cfg: Config, g: Graph, ms: seq<Memory>)
    requires Valid(g)
    ensures Total(WriteAll(cfg, g, ms)).rel == Total(g).rel + ReliabilityOf(ms)
  {
    if ms != [] {
      var h := WriteAll(cfg, g, ms[..|ms| - 1]);
      WriteAllReliability(cfg, g, ms[..|ms| - 1]);
      BorneCarried(ms[|ms| - 1], Carried(MentionsOf(ms[|ms| - 1], ms[|ms| - 1].entities)));
      WriteOneReliability(cfg, h, ms[|ms| - 1], Carried(MentionsOf(ms[|ms| - 1], ms[|ms| - 1].entities)).rel);
    }
  }

  lemma WriteBatchCount(cfg: Config, g: Graph, ms: seq<Memory>)
    requires Valid(g)
    ensures Total(WriteBatch(cfg, g, ms)).count == Total(g).count + |BatchMentionList(ms)|
  {
    WriteBatchTotal(cfg, g, ms);
    CarriedCount(BatchMentionList(ms));
  }

  lemma {:induction false} DistinctShorter(keys: seq<Key>)
    ensures |Distinct(keys)| <= |keys|
    ensures |Distinct(keys)| == |keys| <==> NoDup(keys)
  {
    if keys != [] {
      var p, k := keys[..|keys| - 1], keys[|keys| - 1];
      DistinctShorter(p);
      assert k in Distinct(p) <==> k in Elems(p) by {
        assert Elems(Distinct(p)) == Elems(p);
      }
    }
  }

  lemma {:induction false} BatchListShort(ms: seq<Memory>)
    ensures |BatchMentionList(ms)| <= |MentionList(ms)|
    ensures |BatchMentionList(ms)| == |MentionList(ms)| ==> forall m | m in ms :: NoDup(m.entities)
  {
    if ms != [] {
      var p, m := ms[..|ms| - 1], ms[|ms| - 1];
      assert ms == p + [m];
      BatchListShort(p);
      DistinctShorter(m.entities);
    }
  }

  lemma {:induction false} BatchListSame(ms: seq<Memory>)
    requires forall i | 0 <= i < |ms| :: NoDup(ms[i].entities)
    ensures |BatchMentionList(ms)| == |MentionList(ms)|
  {
    if ms != [] {
      BatchListSame(ms[..|ms| - 1]);
      DistinctShorter(ms[|ms| - 1].entities);
    }
  }

  /** The bulk pass counts as many mentions as the sequential one exactly when no memory repeats an entity,
      and fewer otherwise. */
  lemma {:induction false} BatchListShorter(ms: seq<Memory>)
    ensures |BatchMentionList(ms)| <= |MentionList(ms)|
    ensures |BatchMentionList(ms)| == |MentionList(ms)| <==> forall m | m in ms :: NoDup(m.entities)
  {
    BatchListShort(ms);
    if forall m | m in ms :: NoDup(m.entities) {
      BatchListSame(ms);
    }
  }

  // ---- belief ----

  // What exponentiation of a number of [0, 1] is known to do.
  ghost predicate PowLaws(cfg: Config) {
    && 0.0 < cfg.base < 1.0
    && (forall x, s {:trigger cfg.pow(x, s)} | 0.0 <= x <= 1.0 && s >= 0.0 :: 0.0 <= cfg.pow(x, s) <= 1.0)
    && (forall x, s, s' {:trigger cfg.pow(x, s), cfg.pow(x, s')} |
          0.0 <= x <= 1.0 && 0.0 <= s <= s' :: cfg.pow(x, s') <= cfg.pow(x, s))
  }

  // A belief that is set is the one its reliability sum gives; seeds have neither.
  ghost predicate Calibrated(cfg: Config, e: Entity) {
    && e.confidence >= 0.0
    && e.reliabilitySum.GetOr(0.0) >= 0.0
    && (e.belief.Some? ==> e.reliabilitySum.Some? && e.belief.value == Belief(cfg, e.confidence, e.reliabilitySum.value))
  }

  ghost predicate AllCalibrated(cfg: Config, g: Graph) {
    forall k | k in g.entities :: Calibrated(cfg, g.entities[k])
  }

  lemma BeliefMonotone(cfg: Config, c: real, s: real, s': real)
    requires PowLaws(cfg)
    requires c >= 0.0 && 0.0 <= s <= s'
    ensures Belief(cfg, c, s) <= Belief(cfg, c, s') <= c
  {
    var x := 1.0 - cfg.base;
    assert cfg.pow(x, s') <= cfg.pow(x, s);
    Scale(c, 1.0 - cfg.pow(x, s), 1.0 - cfg.pow(x, s'));
    Scale(c, 1.0 - cfg.pow(x, s'), 1.0);
  }

  lemma Scale(c: real, a: real, b: real)
    requires c >= 0.0 && a <= b
    ensures c * a <= c * b
  {
    assert c * (b - a) >= 0.0;
  }

  // A belief never falls and stays within the confidence prior.
  ghost predicate Strengthened(e: Entity, e': Entity) {
    && e'.confidence == e.confidence
    && e'.mentionCount >= e.mentionCount
    && (e.belief.Some? ==> e'.belief.Some? && e.belief.value <= e'.belief.value)
  }

  lemma MentionBelief(cfg: Config, g: Graph, o: Mention, d: Decision)
    requires PowLaws(cfg) && AllCalibrated(cfg, g)
    requires d.Merge? ==> d.into in g.entities
    requires o.reliability >= 0.0
    ensures AllCalibrated(cfg, WriteMention(cfg, g, o, d))
    ensures forall k | k in g.entities :: Strengthened(g.entities[k], WriteMention(cfg, g, o, d).entities[k])
    ensures WriteMention(cfg, g, o, d).entities[Target(o.key, d)].belief.Some?
  {
    var t := Target(o.key, d);
    if t in g.entities {
      var e := g.entities[t];
      var s := e.reliabilitySum.GetOr(0.0);
      BeliefMonotone(cfg, e.confidence, s, s + o.reliability);
    }
  }

  /** Writing any mentions keeps every belief what its reliability sum gives, and lowers none. */
  lemma {:induction false} MentionsBelief(cfg: Config, base: Graph, g: Graph, os: seq<Mention>)
    requires PowLaws(cfg) && AllCalibrated(cfg, g)
    requires Stored(base.order, base.entities)
    requires base.entities.Keys <= g.entities.Keys
    requires forall o | o in os :: o.reliability >= 0.0
    ensures AllCalibrated(cfg, WriteMentions(cfg, base, g, os))
    ensures forall k | k in g.entities :: Strengthened(g.entities[k], WriteMentions(cfg, base, g, os).entities[k])
  {
    if os != [] {
      var p, o := os[..|os| - 1], os[|os| - 1];
      assert o in os;
      MentionsBelief(cfg, base, g, p);
      MentionBelief(cfg, WriteMentions(cfg, base, g, p), o, Decide(cfg, base, o.key));
    }
  }

  lemma {:induction false} BatchListReliable(ms: seq<Memory>)
    requires forall m | m in ms :: m.reliability >= 0.0
    ensures forall o | o in BatchMentionList(ms) :: o.reliability >= 0.0
  {
    if ms != [] {
      assert ms[|ms| - 1] in ms;
      BatchListReliable(ms[..|ms| - 1]);
    }
  }

  lemma BatchBelief(cfg: Config, g: Graph, ms: seq<Memory>)
    requires PowLaws(cfg) && Valid(g) && AllCalibrated(cfg, g)
    requires forall m | m in ms :: m.reliability >= 0.0
    ensures AllCalibrated(cfg, WriteBatch(cfg, g, ms))
    ensures forall k | k in g.entities :: Strengthened(g.entities[k], WriteBatch(cfg, g, ms).entities[k])
  {
    var os := BatchMentionList(ms);
    BatchListReliable(ms);
    FoldIsBatch(cfg, g, os);
    MentionsBelief(cfg, g, g, os);
  }

  lemma WriteOneBelief(cfg: Config, g: Graph, m: Memory)
    requires PowLaws(cfg) && Valid(g) && AllCalibrated(cfg, g)
    requires m.reliability >= 0.0
    ensures AllCalibrated(cfg, WriteOne(cfg, g, m))
    ensures forall k | k in g.entities :: Strengthened(g.entities[k], WriteOne(cfg, g, m).entities[k])
  {
    MentionsBelief(cfg, g, g, MentionsOf(m, m.entities));
  }

  /** A calibrated belief lies between 0 and the confidence prior. */
  lemma BeliefInRange(cfg: Config, e: Entity)
    requires PowLaws(cfg) && Calibrated(cfg, e) && e.belief.Some?
    ensures 0.0 <= e.belief.value <= e.confidence
  {
    var x, s := 1.0 - cfg.base, e.reliabilitySum.value;
    assert 0.0 <= cfg.pow(x, s) <= 1.0;
    Scale(e.confidence, 0.0, 1.0 - cfg.pow(x, s));
    Scale(e.confidence, 1.0 - cfg.pow(x, s), 1.0);
  }
}
