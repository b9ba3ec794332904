/** Why the exact condition asks that no memory names an entity beside a new one that would absorb it: without
    that the passes can agree although entities are drawn to new ones, because the merges cancel out. */
module GraphSwap {
  import opened Common
  import opened GraphModel
  import opened GraphBatch
  import opened GraphRefinement
  import opened GraphEquality
  import opened GraphNames

  // Any two entities are alike enough to merge.
  function Twins(pow: (real, real) -> real, base: real): Config {
    Config(base, 0.9, 0.9, 1, name => [], (a, b) => 1.0, pow)
  }

  const X := Key("X", "T")
  const Y := Key("Y", "T")

  // Two memories that name both.
  const FIRST := Memory("m1", "e1", [X, Y], [], 1.0, None)
  const AGAIN := Memory("m2", "e2", [X, Y], [], 1.0, None)

  predicate HoldsBoth(g: Graph) {
    g.order == [X, Y] && g.entities.Keys == {X, Y}
  }

  lemma EachToTheOther(cfg: Config, g: Graph)
    requires HoldsBoth(g) && cfg.mergeThreshold == 0.9 && forall a, b :: cfg.sim(a, b) == 1.0
    ensures Stored(g.order, g.entities)
    ensures Decide(cfg, g, X) == Merge(Y) && Decide(cfg, g, Y) == Merge(X)
  {
    assert g.order[..1] == [X] && [X][..0] == [];
    assert BestMatch(cfg, [], g.entities, X) == BestMatch(cfg, [], g.entities, Y) == Match(None, -1.0);
    assert BestMatch(cfg, [X], g.entities, Y) == Match(Some(X), 1.0);
    assert BestMatch(cfg, [X], g.entities, X) == Match(None, -1.0);
  }

  lemma EmptyDecides(cfg: Config, k: Key)
    ensures Decide(cfg, EMPTY, k) == Own(None)
  {
  }

  // Two mentions of equal weight may swap their targets.
  lemma SwapMentions(cfg: Config, g: Graph, o: Mention, p: Mention)
    requires o == Mention(X, p.reliability, p.validTime, p.memoryKey, p.episodeKey) && p.key == Y
    requires X in g.entities && Y in g.entities
    ensures Y in WriteMention(cfg, g, o, Own(None)).entities && X in WriteMention(cfg, g, o, Merge(Y)).entities
    ensures WriteMention(cfg, WriteMention(cfg, g, o, Merge(Y)), p, Merge(X))
      == WriteMention(cfg, WriteMention(cfg, g, o, Own(None)), p, Own(None))
  {
    var a := WriteMention(cfg, WriteMention(cfg, g, o, Merge(Y)), p, Merge(X));
    var b := WriteMention(cfg, WriteMention(cfg, g, o, Own(None)), p, Own(None));
    assert a.entities == b.entities;
    assert a.mentions == b.mentions && a.producedBy == b.producedBy;
  }

  lemma TwoMentions(cfg: Config, base: Graph, g: Graph, m: Memory)
    requires Stored(base.order, base.entities) && base.entities.Keys <= g.entities.Keys && m.entities == [X, Y]
    ensures var os := MentionsOf(m, m.entities);
      && (Decide(cfg, base, X).Merge? ==> Decide(cfg, base, X).into in g.entities)
      && (Decide(cfg, base, Y).Merge? ==> Decide(cfg, base, Y).into in g.entities)
      && WriteMentions(cfg, base, g, os)
         == WriteMention(cfg, WriteMention(cfg, g, os[0], Decide(cfg, base, X)), os[1], Decide(cfg, base, Y))
  {
    var os := MentionsOf(m, m.entities);
    assert os[..1][..0] == [] && os[..1] == [os[0]];
    assert WriteMentions(cfg, base, g, []) == g;
    assert WriteMentions(cfg, base, g, os[..1]) == WriteMention(cfg, g, os[0], Decide(cfg, base, X));
  }

  lemma OnePair(home: Key -> Key, cfg: Config, byName: map<string, Key>, m: Memory)
    requires m.entities == [X, Y] && m.relations == [] && cfg.maxPairs == 1 && home(X) != home(Y)
    ensures PairsOf(cfg, byName, home, m) == map[{home(X), home(Y)} := CO_OCCURRENCE]
  {
    assert CoPairs(m.entities, 1) == [(X, Y)];
    assert [(X, Y)][..0] == [];
    assert BackfillPairs(home, map[], []) == map[];
  }

  // The second memory leaves what it would have left with the decisions of the empty graph.
  lemma SwapMemory(cfg: Config, h: Graph)
    requires HoldsBoth(h) && cfg.mergeThreshold == 0.9 && cfg.maxPairs == 1 && forall a, b :: cfg.sim(a, b) == 1.0
    ensures Stored(h.order, h.entities) && WriteOne(cfg, h, AGAIN) == WriteMemory(cfg, EMPTY, h, AGAIN)
  {
    var os := MentionsOf(AGAIN, AGAIN.entities);
    EachToTheOther(cfg, h);
    EmptyDecides(cfg, X);
    EmptyDecides(cfg, Y);
    TwoMentions(cfg, h, h, AGAIN);
    TwoMentions(cfg, EMPTY, h, AGAIN);
    SwapMentions(cfg, h, os[0], os[1]);
    SwapVote(cfg, h);
  }

  lemma SwapVote(cfg: Config, h: Graph)
    requires HoldsBoth(h) && cfg.mergeThreshold == 0.9 && cfg.maxPairs == 1 && forall a, b :: cfg.sim(a, b) == 1.0
    ensures Stored(h.order, h.entities) && VoteOf(cfg, h, AGAIN) == VoteOf(cfg, EMPTY, AGAIN)
  {
    var home, own := k => Home(cfg, h, k), k => Home(cfg, EMPTY, k);
    EachToTheOther(cfg, h);
    EmptyDecides(cfg, X);
    EmptyDecides(cfg, Y);
    OnePair(k => Home(cfg, h, k), cfg, NamesOf(k => Home(cfg, h, k), AGAIN.entities), AGAIN);
    OnePair(k => Home(cfg, EMPTY, k), cfg, NamesOf(k => Home(cfg, EMPTY, k), AGAIN.entities), AGAIN);
    assert {X, Y} == {Y, X};
  }

  lemma FirstHoldsBoth(cfg: Config)
    ensures HoldsBoth(WriteOne(cfg, EMPTY, FIRST))
  {
    EmptyDecides(cfg, X);
    EmptyDecides(cfg, Y);
    TwoMentions(cfg, EMPTY, EMPTY, FIRST);
  }

  lemma TwoWrites(cfg: Config, g: Graph, m: Memory, n: Memory)
    requires Valid(g)
    ensures Stored(g.order, g.entities) && Stored(WriteOne(cfg, g, m).order, WriteOne(cfg, g, m).entities)
    ensures WriteAll(cfg, g, [m, n]) == WriteOne(cfg, WriteOne(cfg, g, m), n)
    ensures WriteAllFixed(cfg, g, [m, n]) == WriteMemory(cfg, g, WriteOne(cfg, g, m), n)
  {
    assert [m, n][..1] == [m] && [m][..0] == [];
    assert WriteAll(cfg, g, []) == g && WriteAllFixed(cfg, g, []) == g;
    assert WriteAll(cfg, g, [m]) == WriteOne(cfg, g, m) == WriteAllFixed(cfg, g, [m]);
  }

  lemma SequentialSwaps(cfg: Config)
    requires cfg.mergeThreshold == 0.9 && cfg.maxPairs == 1 && forall a, b :: cfg.sim(a, b) == 1.0
    ensures Valid(EMPTY) && WriteAll(cfg, EMPTY, [FIRST, AGAIN]) == WriteAllFixed(cfg, EMPTY, [FIRST, AGAIN])
  {
    TwoWrites(cfg, EMPTY, FIRST, AGAIN);
    FirstHoldsBoth(cfg);
    SwapMemory(cfg, WriteOne(cfg, EMPTY, FIRST));
  }

  /** Both memories name both entities; the second one's mentions are drawn to each other's document, and the
      passes agree although the batch is not separated. */
  lemma SwapAgrees(pow: (real, real) -> real, base: real)
    ensures var cfg := Twins(pow, base);
      && Valid(EMPTY) && DistinctPerMemory([FIRST, AGAIN]) && !Separated(cfg, EMPTY, [FIRST, AGAIN])
      && !NoMergeInside(cfg, EMPTY, [FIRST, AGAIN])
      && WriteBatch(cfg, EMPTY, [FIRST, AGAIN]) == WriteAll(cfg, EMPTY, [FIRST, AGAIN])
  {
    var cfg, ms := Twins(pow, base), [FIRST, AGAIN];
    SequentialSwaps(cfg);
    FixedIsBatch(cfg, EMPTY, ms);
    BothDistinct();
    DistinctMentions(ms);
    LocalNamesAgree(cfg, EMPTY, ms);
    SameEdgesIff(cfg, EMPTY.relatesTo, Asserted(cfg, EMPTY, ms), Votes(cfg, EMPTY, ms));
    RelateFoldIsBatch(cfg, EMPTY.relatesTo, Votes(cfg, EMPTY, ms));
    NotSeparated(cfg);
  }

  lemma BothDistinct()
    ensures DistinctPerMemory([FIRST, AGAIN]) && LocalNames([FIRST, AGAIN])
  {
    assert [X, Y][..1] == [X] && [X][..0] == [];
    assert NoDup([X]) && Y !in [X];
    assert NoDup([X, Y]);
  }

  lemma NotSeparated(cfg: Config)
    requires cfg.mergeThreshold == 0.9 && forall a, b :: cfg.sim(a, b) == 1.0
    ensures !Separated(cfg, EMPTY, [FIRST, AGAIN]) && !NoMergeInside(cfg, EMPTY, [FIRST, AGAIN])
  {
    var ms := [FIRST, AGAIN];
    EmptyDecides(cfg, X);
    assert Created(cfg, EMPTY, X) && Draws(cfg, EMPTY, Y, X);
    assert X in ms[0].entities && Y in ms[1].entities && X in ms[1].entities;
    assert !Harmless(cfg, EMPTY, Known(EMPTY, ms, 1, Y), Y, X);
  }
}
