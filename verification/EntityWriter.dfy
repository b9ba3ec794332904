/** The graph writer as it runs: two methods that update one tenant's collections in place, proved
    against the totals of GraphBatch and the step functions of GraphModel. */
module EntityWriter {
  import opened Common
  import opened GraphModel
  import opened GraphBatch
  import opened GraphResults
  import opened GraphRefinement
  import GraphEquality

  // ---- resolution ----

  method FindBest(cfg: Config, pool: seq<Key>, rows: map<Key, Entity>, k: Key) returns (m: Match)
    requires Stored(pool, rows)
    ensures m == BestMatch(cfg, pool, rows, k)
  {
    m := Match(None, -1.0);
    for i := 0 to |pool|
      invariant Stored(pool[..i], rows) && m == BestMatch(cfg, pool[..i], rows, k)
    {
      assert pool[..i + 1][..i] == pool[..i];
      var row := pool[i];
      if row != k {
        var s := Similarity(cfg, rows, k, row);
        if s > m.sim {
          m := Match(Some(row), s);
        }
      }
    }
    assert pool[..|pool|] == pool;
  }

  // What the vectorised search returns for one query: the first row of greatest similarity among
  // the rows that are not its own, whatever that similarity is.
  ghost predicate FirstArgmax(cfg: Config, pool: seq<Key>, rows: map<Key, Entity>, k: Key, m: Match)
    requires Stored(pool, rows)
  {
    if m.key.None? then m.sim == -1.0 && forall r | r in pool :: r == k
    else
      && exists j | 0 <= j < |pool| ::
        && pool[j] == m.key.value != k
        && m.sim == Similarity(cfg, rows, k, pool[j])
        && (forall i | 0 <= i < j && pool[i] != k :: Similarity(cfg, rows, k, pool[i]) < m.sim)
        && (forall i | 0 <= i < |pool| && pool[i] != k :: Similarity(cfg, rows, k, pool[i]) <= m.sim)
  }

  method FindBestMany(cfg: Config, pool: seq<Key>, rows: map<Key, Entity>, ks: seq<Key>) returns (ms: seq<Match>)
    requires Stored(pool, rows)
    ensures |ms| == |ks|
    ensures forall q | 0 <= q < |ks| :: FirstArgmax(cfg, pool, rows, ks[q], ms[q])
  {
    ms := [];
    for q := 0 to |ks|
      invariant |ms| == q
      invariant forall x | 0 <= x < q :: FirstArgmax(cfg, pool, rows, ks[x], ms[x])
    {
      var best: Option<nat> := None;
      for i := 0 to |pool|
        invariant best.None? ==> forall x | 0 <= x < i :: pool[x] == ks[q]
        invariant best.Some? ==>
          && best.value < i && pool[best.value] != ks[q]
          && (forall x | 0 <= x < best.value && pool[x] != ks[q] ::
                Similarity(cfg, rows, ks[q], pool[x]) < Similarity(cfg, rows, ks[q], pool[best.value]))
          && (forall x | 0 <= x < i && pool[x] != ks[q] ::
                Similarity(cfg, rows, ks[q], pool[x]) <= Similarity(cfg, rows, ks[q], pool[best.value]))
      {
        if pool[i] != ks[q] &&
           (best.None? || Similarity(cfg, rows, ks[q], pool[i]) > Similarity(cfg, rows, ks[q], pool[best.value])) {
          best := Some(i);
        }
      }
      ms := ms + [if best.None? then Match(None, -1.0)
                  else Match(Some(pool[best.value]), Similarity(cfg, rows, ks[q], pool[best.value]))];
    }
  }

  /** The row-by-row search skips ties the same way, so it finds the first greatest row too, unless
      nothing is above -1. */
  lemma {:induction false} BestIsFirst(cfg: Config, pool: seq<Key>, rows: map<Key, Entity>, k: Key)
    requires Stored(pool, rows)
    ensures
      var b := BestMatch(cfg, pool, rows, k);
      b.key.Some? ==> exists j | 0 <= j < |pool| ::
        && pool[j] == b.key.value
        && (forall i | 0 <= i < j && pool[i] != k :: Similarity(cfg, rows, k, pool[i]) < b.sim)
  {
    if pool != [] {
      var p := pool[..|pool| - 1];
      BestIsFirst(cfg, p, rows, k);
      var b := BestMatch(cfg, pool, rows, k);
      if b.key.Some? {
        if b == BestMatch(cfg, p, rows, k) {
          var j :| 0 <= j < |p| && p[j] == b.key.value
            && (forall i | 0 <= i < j && p[i] != k :: Similarity(cfg, rows, k, p[i]) < b.sim);
          assert pool[j] == b.key.value;
          assert forall i | 0 <= i < j :: pool[i] == p[i];
        } else {
          forall i | 0 <= i < |pool| - 1 && pool[i] != k ensures Similarity(cfg, rows, k, pool[i]) < b.sim {
            assert p[i] == pool[i] && p[i] in p;
          }
        }
      }
    }
  }

  /** Both searches lead to the same decision whenever the thresholds are above -1. */
  lemma SearchesAgree(cfg: Config, pool: seq<Key>, rows: map<Key, Entity>, k: Key, m: Match)
    requires Stored(pool, rows)
    requires FirstArgmax(cfg, pool, rows, k, m)
    requires cfg.mergeThreshold > -1.0 && cfg.flagThreshold > -1.0
    ensures DecisionOf(cfg, m) == DecisionOf(cfg, BestMatch(cfg, pool, rows, k))
  {
    var b := BestMatch(cfg, pool, rows, k);
    BestIsFirst(cfg, pool, rows, k);
    if m.key.Some? {
      var j :| 0 <= j < |pool| && pool[j] == m.key.value != k && m.sim == Similarity(cfg, rows, k, pool[j])
        && (forall i | 0 <= i < j && pool[i] != k :: Similarity(cfg, rows, k, pool[i]) < m.sim)
        && (forall i | 0 <= i < |pool| && pool[i] != k :: Similarity(cfg, rows, k, pool[i]) <= m.sim);
      assert pool[j] in pool && m.sim <= b.sim;
      if b.key.Some? {
        var x :| 0 <= x < |pool| && pool[x] == b.key.value
          && (forall i | 0 <= i < x && pool[i] != k :: Similarity(cfg, rows, k, pool[i]) < b.sim);
        assert b.sim == m.sim;
        assert x == j;
      }
    }
  }

  // ---- relations ----

  // How many pairs may still follow the ones found.
  function Left(found: nat, max: nat): nat {
    if found == 0 || max < found then max else max - found
  }

  lemma CoPairsNext(pairs: seq<(Key, Key)>, keys: seq<Key>, i: nat, j: nat, max: nat)
    requires i < j < |keys|
    requires |pairs| == 0 || |pairs| < max
    ensures
      var more := pairs + [(keys[i], keys[j])];
      pairs + CoPairsFrom(keys, i, j, Left(|pairs|, max))
      == if |more| >= max then more else more + CoPairsFrom(keys, i, j + 1, Left(|more|, max))
  {
    AppendAssoc(pairs, [(keys[i], keys[j])], CoPairsFrom(keys, i, j + 1, Left(|pairs| + 1, max)));
  }

  method CooccurringPairs(keys: seq<Key>, max: nat) returns (pairs: seq<(Key, Key)>)
    ensures pairs == CoPairs(keys, max)
  {
    pairs := [];
    var i := 0;
    while i < |keys|
      invariant 0 <= i <= |keys|
      invariant |pairs| == 0 || |pairs| < max
      invariant CoPairs(keys, max) == pairs + CoPairsFrom(keys, i, i + 1, Left(|pairs|, max))
    {
      var j := i + 1;
      while j < |keys|
        invariant i < j
        invariant |pairs| == 0 || |pairs| < max
        invariant CoPairs(keys, max) == pairs + CoPairsFrom(keys, i, j, Left(|pairs|, max))
      {
        CoPairsNext(pairs, keys, i, j, max);
        pairs := pairs + [(keys[i], keys[j])];
        if |pairs| >= max {
          return;
        }
        j := j + 1;
      }
      i := i + 1;
    }
  }

  method CollectPairs(cfg: Config, byName: map<string, Key>, byKey: map<Key, Key>, m: Memory, ghost home: Key -> Key)
    returns (pairs: map<set<Key>, string>)
    requires forall k | k in m.entities :: k in byKey && byKey[k] == home(k)
    ensures pairs == PairsOf(cfg, byName, home, m)
  {
    pairs := CollectTyped(byName, m.relations);
    var co := CooccurringPairs(m.entities, cfg.maxPairs);
    GraphEquality.CoPairsInside(m.entities, 0, 1, cfg.maxPairs);
    pairs := Backfill(byKey, pairs, co, home);
  }

  method CollectTyped(byName: map<string, Key>, rels: seq<Relation>) returns (pairs: map<set<Key>, string>)
    ensures pairs == TypedPairs(byName, rels)
  {
    pairs := map[];
    for i := 0 to |rels|
      invariant pairs == TypedPairs(byName, rels[..i])
    {
      assert rels[..i + 1][..i] == rels[..i];
      var r := rels[i];
      if r.source in byName && r.target in byName && byName[r.source] != byName[r.target] {
        pairs := pairs[{byName[r.source], byName[r.target]} := r.kind];
      }
    }
    assert rels[..|rels|] == rels;
  }

  method Backfill(byKey: map<Key, Key>, typed: map<set<Key>, string>, co: seq<(Key, Key)>, ghost home: Key -> Key)
    returns (pairs: map<set<Key>, string>)
    requires forall i | 0 <= i < |co| ::
      && co[i].0 in byKey && byKey[co[i].0] == home(co[i].0)
      && co[i].1 in byKey && byKey[co[i].1] == home(co[i].1)
    ensures pairs == BackfillPairs(home, typed, co)
  {
    pairs := typed;
    for i := 0 to |co|
      invariant pairs == BackfillPairs(home, typed, co[..i])
    {
      assert co[..i + 1][..i] == co[..i];
      var (l, r) := co[i];
      if byKey[l] != byKey[r] && {byKey[l], byKey[r]} !in pairs {
        pairs := pairs[{byKey[l], byKey[r]} := CO_OCCURRENCE];
      }
    }
    assert co[..|co|] == co;
  }

  // ---- accumulation over a batch ----

  // Totals of one key, and the (memory, episode) pairs that mention it; edge inserts ignore
  // repeats, so the list of pairs is kept as a set.
  datatype Accum = Accum(sum: Sum, validTime: Option<int>, refs: set<(string, string)>)

  function RefsOf(os: seq<Mention>, k: Key): set<(string, string)> {
    set o | o in os && o.key == k :: (o.memoryKey, o.episodeKey)
  }

  ghost predicate Accumulated(os: seq<Mention>, names: seq<Key>, acc: map<Key, Accum>) {
    && names == FirstSeen(os)
    && acc.Keys == Elems(names)
    && forall k | k in acc :: RowIs(os, k, acc[k])
  }

  lemma {:induction false} UnseenSum(os: seq<Mention>, k: Key)
    requires forall o | o in os :: o.key != k
    ensures KeySum(os, k) == ZERO
  {
    if os != [] {
      assert os[|os| - 1] in os;
      UnseenSum(os[..|os| - 1], k);
    }
  }

  lemma SeenSnoc(os: seq<Mention>, o: Mention)
    ensures FirstSeen(os + [o]) == if o.key in FirstSeen(os) then FirstSeen(os) else FirstSeen(os) + [o.key]
  {
    assert (os + [o])[..|os|] == os;
  }

  lemma {:induction false} SeenFacts(os: seq<Mention>)
    ensures NoDup(FirstSeen(os))
    ensures forall o | o in os :: o.key in FirstSeen(os)
  {
    if os != [] {
      var p, o := os[..|os| - 1], os[|os| - 1];
      assert os == p + [o];
      SeenFacts(p);
      SnocElems(FirstSeen(p), o.key);
    }
  }

  lemma SumsSnoc(os: seq<Mention>, o: Mention, u: Key)
    ensures o.key == u ==> KeySum(os + [o], u) == KeySum(os, u).Add(1, o.reliability)
    ensures o.key != u ==> KeySum(os + [o], u) == KeySum(os, u)
    ensures FirstTime(os + [o], u)
         == if KeySum(os, u).count > 0 then FirstTime(os, u) else if o.key == u then o.validTime else None
  {
    assert (os + [o])[..|os|] == os;
  }

  lemma RefsSnoc(os: seq<Mention>, o: Mention, u: Key)
    ensures RefsOf(os + [o], u) == RefsOf(os, u) + if o.key == u then {(o.memoryKey, o.episodeKey)} else {}
  {
    assert forall x :: x in os + [o] <==> x in os || x == o;
  }

  function AccumWith(acc: map<Key, Accum>, o: Mention): map<Key, Accum> {
    var k, ref := o.key, (o.memoryKey, o.episodeKey);
    if k in acc then
      acc[k := Accum(acc[k].sum.Add(1, o.reliability), acc[k].validTime, acc[k].refs + {ref})]
    else acc[k := Accum(Sum(1, o.reliability), o.validTime, {ref})]
  }

  ghost predicate RowIs(os: seq<Mention>, k: Key, a: Accum) {
    a == Accum(KeySum(os, k), FirstTime(os, k), RefsOf(os, k)) && a.sum.count > 0
  }

  lemma OtherRow(os: seq<Mention>, o: Mention, u: Key, a: Accum)
    requires RowIs(os, u, a) && u != o.key
    ensures RowIs(os + [o], u, a)
  {
    SumsSnoc(os, o, u);
    RefsSnoc(os, o, u);
  }

  lemma SameRow(os: seq<Mention>, o: Mention, a: Accum)
    requires RowIs(os, o.key, a)
    ensures RowIs(os + [o], o.key,
                  Accum(a.sum.Add(1, o.reliability), a.validTime, a.refs + {(o.memoryKey, o.episodeKey)}))
  {
    SumsSnoc(os, o, o.key);
    RefsSnoc(os, o, o.key);
  }

  lemma FirstRow(os: seq<Mention>, o: Mention)
    requires forall x | x in os :: x.key != o.key
    ensures RowIs(os + [o], o.key, Accum(Sum(1, o.reliability), o.validTime, {(o.memoryKey, o.episodeKey)}))
  {
    UnseenSum(os, o.key);
    SumsSnoc(os, o, o.key);
    RefsSnoc(os, o, o.key);
    assert RefsOf(os, o.key) == {};
  }

  // One more mention, as the accumulator takes it.
  lemma AccumStep(os: seq<Mention>, names: seq<Key>, acc: map<Key, Accum>, o: Mention)
    requires Accumulated(os, names, acc)
    ensures Accumulated(os + [o], if o.key in acc then names else names + [o.key], AccumWith(acc, o))
  {
    SeenSnoc(os, o);
    SnocElems(names, o.key);
    assert o.key in acc <==> o.key in Elems(names);
    forall u | u in AccumWith(acc, o) ensures RowIs(os + [o], u, AccumWith(acc, o)[u]) {
      AccumRow(os, names, acc, o, u);
    }
  }

  lemma AccumRow(os: seq<Mention>, names: seq<Key>, acc: map<Key, Accum>, o: Mention, u: Key)
    requires Accumulated(os, names, acc)
    requires u in AccumWith(acc, o)
    ensures RowIs(os + [o], u, AccumWith(acc, o)[u])
  {
    if u != o.key {
      OtherRow(os, o, u, acc[u]);
    } else if u in acc {
      SameRow(os, o, acc[u]);
    } else {
      SeenFacts(os);
      assert u !in Elems(names);
      FirstRow(os, o);
    }
  }

  method AccumulateMemory(m: Memory, names0: seq<Key>, acc0: map<Key, Accum>, ghost os: seq<Mention>)
    returns (names: seq<Key>, acc: map<Key, Accum>)
    requires Accumulated(os, names0, acc0)
    ensures Accumulated(os + MentionsOf(m, Distinct(m.entities)), names, acc)
  {
    names, acc := names0, acc0;
    var keys := Distinct(m.entities);
    ghost var here := MentionsOf(m, keys);
    assert os + here[..0] == os;
    for j := 0 to |keys|
      invariant Accumulated(os + here[..j], names, acc)
    {
      var o := Mention(keys[j], m.reliability, m.validTime, m.memoryKey, m.episodeKey);
      names, acc := AccumulateOne(o, names, acc, os + here[..j]);
      assert os + here[..j] + [o] == os + here[..j + 1];
    }
    assert here[..|keys|] == here;
  }

  method AccumulateOne(o: Mention, names0: seq<Key>, acc0: map<Key, Accum>, ghost os: seq<Mention>)
    returns (names: seq<Key>, acc: map<Key, Accum>)
    requires Accumulated(os, names0, acc0)
    ensures Accumulated(os + [o], names, acc)
  {
    AccumStep(os, names0, acc0, o);
    names := if o.key in acc0 then names0 else names0 + [o.key];
    acc := AccumWith(acc0, o);
  }

  method Accumulate(ms: seq<Memory>) returns (names: seq<Key>, acc: map<Key, Accum>)
    ensures Accumulated(BatchMentionList(ms), names, acc)
  {
    names, acc := [], map[];
    for i := 0 to |ms|
      invariant Accumulated(BatchMentionList(ms[..i]), names, acc)
    {
      assert ms[..i + 1][..i] == ms[..i];
      names, acc := AccumulateMemory(ms[i], names, acc, BatchMentionList(ms[..i]));
    }
    assert ms[..|ms|] == ms;
  }

  // ---- resolution over a batch: what merges into each stored entity ----

  function MergedSum(cfg: Config, g: Graph, os: seq<Mention>, names: seq<Key>, t: Key): Sum
    requires Stored(g.order, g.entities)
  {
    if names == [] then ZERO
    else
      var before, k := MergedSum(cfg, g, os, names[..|names| - 1], t), names[|names| - 1];
      if Decide(cfg, g, k) == Merge(t) then before.Add(KeySum(os, k).count, KeySum(os, k).rel) else before
  }

  lemma {:induction false} MergedOther(cfg: Config, g: Graph, os: seq<Mention>, names: seq<Key>, t: Key)
    requires Stored(g.order, g.entities)
    requires os != []
    requires os[|os| - 1].key !in names || Decide(cfg, g, os[|os| - 1].key) != Merge(t)
    ensures MergedSum(cfg, g, os, names, t) == MergedSum(cfg, g, os[..|os| - 1], names, t)
  {
    if names != [] {
      MergedOther(cfg, g, os, names[..|names| - 1], t);
    }
  }

  lemma {:induction false} MergedSame(cfg: Config, g: Graph, os: seq<Mention>, names: seq<Key>, t: Key)
    requires Stored(g.order, g.entities)
    requires NoDup(names)
    requires os != []
    requires os[|os| - 1].key in names && Decide(cfg, g, os[|os| - 1].key) == Merge(t)
    ensures IsSum(MergedSum(cfg, g, os, names, t), MergedSum(cfg, g, os[..|os| - 1], names, t), Sum(1, os[|os| - 1].reliability))
  {
    var p, k := names[..|names| - 1], names[|names| - 1];
    if k == os[|os| - 1].key {
      MergedOther(cfg, g, os, p, t);
    } else {
      MergedSame(cfg, g, os, p, t);
    }
  }

  lemma {:induction false} MergedNone(cfg: Config, g: Graph, names: seq<Key>, t: Key)
    requires Stored(g.order, g.entities)
    ensures MergedSum(cfg, g, [], names, t) == ZERO
  {
    if names != [] {
      MergedNone(cfg, g, names[..|names| - 1], t);
    }
  }

  function OwnSum(cfg: Config, g: Graph, os: seq<Mention>, t: Key): Sum
    requires Stored(g.order, g.entities)
  {
    if Decide(cfg, g, t).Own? then KeySum(os, t) else ZERO
  }

  /** Counting by name and then by target is counting by target. */
  lemma {:induction false} MergedPlusOwn(cfg: Config, g: Graph, os: seq<Mention>, names: seq<Key>, t: Key)
    requires Stored(g.order, g.entities)
    requires NoDup(names)
    requires forall o | o in os :: o.key in names
    ensures IsSum(HomeSum(cfg, g, os, t), MergedSum(cfg, g, os, names, t), OwnSum(cfg, g, os, t))
  {
    if os == [] {
      MergedNone(cfg, g, names, t);
    } else {
      assert os[|os| - 1] in os;
      MergedPlusOwn(cfg, g, os[..|os| - 1], names, t);
      MergedPlusOwnStep(cfg, g, os, names, t);
    }
  }

  lemma MergedPlusOwnStep(cfg: Config, g: Graph, os: seq<Mention>, names: seq<Key>, t: Key)
    requires Stored(g.order, g.entities)
    requires os != []
    requires NoDup(names) && os[|os| - 1].key in names
    requires
      var p := os[..|os| - 1];
      IsSum(HomeSum(cfg, g, p, t), MergedSum(cfg, g, p, names, t), OwnSum(cfg, g, p, t))
    ensures IsSum(HomeSum(cfg, g, os, t), MergedSum(cfg, g, os, names, t), OwnSum(cfg, g, os, t))
  {
    var k := os[|os| - 1].key;
    if Decide(cfg, g, k) == Merge(t) {
      assert k != t;
      MergedSame(cfg, g, os, names, t);
    } else {
      MergedOther(cfg, g, os, names, t);
      assert Home(cfg, g, k) == t <==> k == t && Decide(cfg, g, t).Own?;
    }
  }

  // ---- the rows after each phase ----

  function Raised(cfg: Config, e: Entity, s: Sum): Entity {
    if s.count == 0 then e else Bump(cfg, e, s.count, s.rel)
  }

  lemma RaisedTwice(cfg: Config, e: Entity, a: Sum, b: Sum, c: Sum)
    requires a.count == 0 ==> a == ZERO
    requires b.count == 0 ==> b == ZERO
    requires IsSum(c, a, b)
    ensures Raised(cfg, Raised(cfg, e, a), b) == Raised(cfg, e, c)
  {
  }

  lemma {:induction false} MergedZero(cfg: Config, g: Graph, os: seq<Mention>, names: seq<Key>, t: Key)
    requires Stored(g.order, g.entities)
    ensures MergedSum(cfg, g, os, names, t).count == 0 ==> MergedSum(cfg, g, os, names, t) == ZERO
  {
    if names != [] {
      MergedZero(cfg, g, os, names[..|names| - 1], t);
      KeyZero(os, names[|names| - 1]);
    }
  }

  lemma {:induction false} KeyZero(os: seq<Mention>, k: Key)
    ensures KeySum(os, k).count == 0 ==> KeySum(os, k) == ZERO
  {
    if os != [] {
      KeyZero(os[..|os| - 1], k);
    }
  }

  // Row `u` once its merges are added and, when `done`, its own mentions too.
  function RowAfter(cfg: Config, g: Graph, os: seq<Mention>, names: seq<Key>, u: Key, done: bool): Entity
    requires Stored(g.order, g.entities)
  {
    if u in g.entities then
      var r := Raised(cfg, g.entities[u], MergedSum(cfg, g, os, names, u));
      if done then Raised(cfg, r, KeySum(os, u)) else r
    else NewEntity(cfg, u, ConflictOf(Decide(cfg, g, u)), FirstTime(os, u), KeySum(os, u).count, KeySum(os, u).rel)
  }

  lemma OwnIsUnseen(cfg: Config, g: Graph, os: seq<Mention>, names: seq<Key>, u: Key)
    requires Stored(g.order, g.entities)
    requires forall o | o in os :: o.key in names
    ensures !(u in names && Decide(cfg, g, u).Own?) ==> OwnSum(cfg, g, os, u) == ZERO
    ensures u in names && Decide(cfg, g, u).Own? ==> OwnSum(cfg, g, os, u) == KeySum(os, u)
  {
    if u !in names {
      UnseenSum(os, u);
    }
  }

  lemma StoredRowAfterAll(cfg: Config, g: Graph, os: seq<Mention>, names: seq<Key>, u: Key)
    requires Stored(g.order, g.entities)
    requires NoDup(names) && forall o | o in os :: o.key in names
    requires u in g.entities
    ensures RowAfter(cfg, g, os, names, u, u in names && Decide(cfg, g, u).Own?) == BatchRow(cfg, g, os, u)
  {
    var a, b, c := MergedSum(cfg, g, os, names, u), OwnSum(cfg, g, os, u), HomeSum(cfg, g, os, u);
    calc {
      BatchRow(cfg, g, os, u);
    ==
      Raised(cfg, g.entities[u], c);
    == { SumsForRow(cfg, g, os, names, u); RaisedTwice(cfg, g.entities[u], a, b, c); }
      Raised(cfg, Raised(cfg, g.entities[u], a), b);
    == { OwnIsUnseen(cfg, g, os, names, u); }
      RowAfter(cfg, g, os, names, u, u in names && Decide(cfg, g, u).Own?);
    }
  }

  lemma SumsForRow(cfg: Config, g: Graph, os: seq<Mention>, names: seq<Key>, u: Key)
    requires Stored(g.order, g.entities)
    requires NoDup(names) && forall o | o in os :: o.key in names
    ensures
      var a, b := MergedSum(cfg, g, os, names, u), OwnSum(cfg, g, os, u);
      && IsSum(HomeSum(cfg, g, os, u), a, b)
      && (a.count == 0 ==> a == ZERO)
      && (b.count == 0 ==> b == ZERO)
  {
    MergedPlusOwn(cfg, g, os, names, u);
    MergedZero(cfg, g, os, names, u);
    KeyZero(os, u);
  }

  lemma NewRowAfterAll(cfg: Config, g: Graph, os: seq<Mention>, names: seq<Key>, u: Key)
    requires Stored(g.order, g.entities)
    requires NoDup(names) && forall o | o in os :: o.key in names
    requires u !in g.entities && Decide(cfg, g, u).Own?
    ensures RowAfter(cfg, g, os, names, u, true) == BatchRow(cfg, g, os, u)
  {
    MergedPlusOwn(cfg, g, os, names, u);
    NeverMerged(cfg, g, os, names, u);
  }

  // Nothing merges into an entity that is not stored.
  lemma {:induction false} NeverMerged(cfg: Config, g: Graph, os: seq<Mention>, names: seq<Key>, u: Key)
    requires Stored(g.order, g.entities)
    requires u !in g.entities
    ensures MergedSum(cfg, g, os, names, u) == ZERO
  {
    if names != [] {
      NeverMerged(cfg, g, os, names[..|names| - 1], u);
    }
  }

  // The keys of a list that have no document yet.
  function Unstored(g: Graph, keys: seq<Key>): seq<Key> {
    if keys == [] then []
    else
      var before, k := Unstored(g, keys[..|keys| - 1]), keys[|keys| - 1];
      if k in g.entities then before else before + [k]
  }

  lemma {:induction false} UnstoredElems(g: Graph, keys: seq<Key>)
    ensures forall k :: k in Unstored(g, keys) <==> k in keys && k !in g.entities
  {
    if keys != [] {
      UnstoredElems(g, keys[..|keys| - 1]);
      assert keys == keys[..|keys| - 1] + [keys[|keys| - 1]];
    }
  }

  lemma {:induction false} ChosenElems(cfg: Config, g: Graph, keys: seq<Key>, merged: bool)
    requires Stored(g.order, g.entities)
    ensures forall k :: k in Chosen(cfg, g, keys, merged) <==> k in keys && Decide(cfg, g, k).Merge? == merged
    ensures NoDup(keys) ==> NoDup(Chosen(cfg, g, keys, merged))
  {
    if keys != [] {
      var p, k := keys[..|keys| - 1], keys[|keys| - 1];
      ChosenElems(cfg, g, p, merged);
      assert keys == p + [k];
      SnocElems(Chosen(cfg, g, p, merged), k);
    }
  }

  /** The documents created are the batch's own keys without one, in order of appearance. */
  lemma {:induction false} CreatedInOrder(cfg: Config, g: Graph, os: seq<Mention>)
    requires Stored(g.order, g.entities)
    ensures Unstored(g, Chosen(cfg, g, FirstSeen(os), false)) == NewKeys(cfg, g, os)
  {
    if os != [] {
      var p, k := os[..|os| - 1], os[|os| - 1].key;
      CreatedInOrder(cfg, g, p);
      var seen := FirstSeen(p);
      ChosenElems(cfg, g, seen, false);
      UnstoredElems(g, Chosen(cfg, g, seen, false));
      assert (seen + [k])[..|seen|] == seen;
      var own := Chosen(cfg, g, seen, false);
      assert (own + [k])[..|own|] == own;
    }
  }

  function AddSum(m: map<Key, Sum>, t: Key, s: Sum): map<Key, Sum> {
    m[t := if t in m then m[t].Add(s.count, s.rel) else s]
  }

  function SumAt(m: map<Key, Sum>, t: Key): Sum {
    if t in m then m[t] else ZERO
  }

  lemma AddSumAt(m: map<Key, Sum>, t: Key, s: Sum, u: Key)
    ensures SumAt(AddSum(m, t, s), u) == if u == t then SumAt(m, t).Add(s.count, s.rel) else SumAt(m, u)
  {
  }

  ghost predicate Increments(cfg: Config, g: Graph, os: seq<Mention>, names: seq<Key>, incs: map<Key, Sum>)
    requires Stored(g.order, g.entities)
  {
    forall t :: SumAt(incs, t) == MergedSum(cfg, g, os, names, t)
  }

  lemma MergedNext(cfg: Config, g: Graph, os: seq<Mention>, names: seq<Key>, k: Key, t: Key)
    requires Stored(g.order, g.entities)
    ensures Decide(cfg, g, k) == Merge(t) ==>
              MergedSum(cfg, g, os, names + [k], t) == MergedSum(cfg, g, os, names, t).Add(KeySum(os, k).count, KeySum(os, k).rel)
    ensures Decide(cfg, g, k) != Merge(t) ==>
              MergedSum(cfg, g, os, names + [k], t) == MergedSum(cfg, g, os, names, t)
  {
    assert (names + [k])[..|names|] == names;
  }

  function WithIncrement(incs: map<Key, Sum>, d: Decision, s: Sum): map<Key, Sum> {
    if d.Merge? then AddSum(incs, d.into, s) else incs
  }

  lemma IncrementAt(cfg: Config, g: Graph, os: seq<Mention>, names: seq<Key>, k: Key, incs: map<Key, Sum>, t: Key)
    requires Stored(g.order, g.entities)
    requires SumAt(incs, t) == MergedSum(cfg, g, os, names, t)
    ensures SumAt(WithIncrement(incs, Decide(cfg, g, k), KeySum(os, k)), t) == MergedSum(cfg, g, os, names + [k], t)
  {
    MergedNext(cfg, g, os, names, k, t);
    var d := Decide(cfg, g, k);
    if d.Merge? {
      AddSumAt(incs, d.into, KeySum(os, k), t);
    }
  }

  lemma IncrementsStep(cfg: Config, g: Graph, os: seq<Mention>, names: seq<Key>, k: Key, incs: map<Key, Sum>)
    requires Stored(g.order, g.entities)
    requires Increments(cfg, g, os, names, incs)
    ensures Increments(cfg, g, os, names + [k], WithIncrement(incs, Decide(cfg, g, k), KeySum(os, k)))
  {
    forall t {
      IncrementAt(cfg, g, os, names, k, incs, t);
    }
  }

  datatype Resolution = Resolution(homes: map<Key, Key>, increments: map<Key, Sum>, merged: seq<Key>,
                                   own: seq<Key>, conflicts: map<Key, Option<Key>>)

  function HomesOf(cfg: Config, g: Graph, names: seq<Key>): map<Key, Key>
    requires Stored(g.order, g.entities)
  {
    map k | k in names :: Home(cfg, g, k)
  }

  function ConflictsOf(cfg: Config, g: Graph, names: seq<Key>): map<Key, Option<Key>>
    requires Stored(g.order, g.entities)
  {
    map k | k in names :: ConflictOf(Decide(cfg, g, k))
  }

  lemma HomesTable(cfg: Config, g: Graph, names: seq<Key>, k: Key)
    requires Stored(g.order, g.entities)
    ensures HomesOf(cfg, g, names + [k]) == HomesOf(cfg, g, names)[k := Home(cfg, g, k)]
  {
    var a, b := HomesOf(cfg, g, names + [k]), HomesOf(cfg, g, names)[k := Home(cfg, g, k)];
    assert forall x :: x in names + [k] <==> x in names || x == k;
    assert a.Keys == b.Keys;
  }

  lemma ConflictsTable(cfg: Config, g: Graph, names: seq<Key>, k: Key)
    requires Stored(g.order, g.entities)
    ensures ConflictsOf(cfg, g, names + [k]) == ConflictsOf(cfg, g, names)[k := ConflictOf(Decide(cfg, g, k))]
  {
    var a, b := ConflictsOf(cfg, g, names + [k]), ConflictsOf(cfg, g, names)[k := ConflictOf(Decide(cfg, g, k))];
    assert forall x :: x in names + [k] <==> x in names || x == k;
    assert a.Keys == b.Keys;
  }

  lemma ChosenSnoc(cfg: Config, g: Graph, names: seq<Key>, k: Key, merged: bool)
    requires Stored(g.order, g.entities)
    ensures Chosen(cfg, g, names + [k], merged)
         == if Decide(cfg, g, k).Merge? == merged then Chosen(cfg, g, names, merged) + [k] else Chosen(cfg, g, names, merged)
  {
    assert (names + [k])[..|names|] == names;
  }

  ghost predicate Resolved(cfg: Config, g: Graph, os: seq<Mention>, names: seq<Key>, r: Resolution)
    requires Stored(g.order, g.entities)
  {
    && r.homes == HomesOf(cfg, g, names)
    && r.conflicts == ConflictsOf(cfg, g, names)
    && r.merged == Chosen(cfg, g, names, true)
    && r.own == Chosen(cfg, g, names, false)
    && Increments(cfg, g, os, names, r.increments)
  }

  function WithDecision(r: Resolution, k: Key, d: Decision, sum: Sum): Resolution {
    Resolution(r.homes[k := Target(k, d)], WithIncrement(r.increments, d, sum),
               if d.Merge? then r.merged + [k] else r.merged,
               if d.Merge? then r.own else r.own + [k],
               r.conflicts[k := ConflictOf(d)])
  }

  lemma ResolvedStep(cfg: Config, g: Graph, os: seq<Mention>, names: seq<Key>, k: Key, r: Resolution)
    requires Stored(g.order, g.entities)
    requires Resolved(cfg, g, os, names, r)
    ensures Resolved(cfg, g, os, names + [k], WithDecision(r, k, Decide(cfg, g, k), KeySum(os, k)))
  {
    HomesTable(cfg, g, names, k);
    ConflictsTable(cfg, g, names, k);
    ChosenSnoc(cfg, g, names, k, true);
    ChosenSnoc(cfg, g, names, k, false);
    IncrementsStep(cfg, g, os, names, k, r.increments);
  }

  // The distinct entities of the batch against the stored ones.
  method Resolve(cfg: Config, pool: seq<Key>, rows: map<Key, Entity>, names: seq<Key>, acc: map<Key, Accum>,
                 ghost g: Graph, ghost os: seq<Mention>) returns (r: Resolution)
    requires Stored(g.order, g.entities) && g.order == pool && g.entities == rows
    requires Accumulated(os, names, acc)
    requires cfg.mergeThreshold > -1.0 && cfg.flagThreshold > -1.0
    ensures Resolved(cfg, g, os, names, r)
  {
    var matches := FindBestMany(cfg, pool, rows, names);
    r := Resolution(map[], map[], [], [], map[]);
    for i := 0 to |names|
      invariant Resolved(cfg, g, os, names[..i], r)
    {
      assert names[..i + 1] == names[..i] + [names[i]];
      AccumulatedAt(os, names, acc, i);
      r := ResolveAt(cfg, pool, rows, names[i], matches[i], acc[names[i]].sum, r, g, os, names[..i]);
    }
    assert names[..|names|] == names;
  }

  lemma AccumulatedAt(os: seq<Mention>, names: seq<Key>, acc: map<Key, Accum>, i: nat)
    requires Accumulated(os, names, acc) && i < |names|
    ensures names[i] in acc && acc[names[i]].sum == KeySum(os, names[i])
  {
    assert names[i] in Elems(names);
    assert RowIs(os, names[i], acc[names[i]]);
  }

  // One name's decision from its best match.
  method ResolveAt(cfg: Config, pool: seq<Key>, rows: map<Key, Entity>, k: Key, m: Match, sum: Sum, r0: Resolution,
                   ghost g: Graph, ghost os: seq<Mention>, ghost done: seq<Key>) returns (r: Resolution)
    requires Stored(g.order, g.entities) && g.order == pool && g.entities == rows
    requires cfg.mergeThreshold > -1.0 && cfg.flagThreshold > -1.0
    requires FirstArgmax(cfg, pool, rows, k, m) && sum == KeySum(os, k)
    requires Resolved(cfg, g, os, done, r0)
    ensures Resolved(cfg, g, os, done + [k], r)
  {
    SearchesAgree(cfg, pool, rows, k, m);
    ResolvedStep(cfg, g, os, done, k, r0);
    r := WithDecision(r0, k, DecisionOf(cfg, m), sum);
  }

  lemma StoredWhenValid(g: Graph)
    requires Valid(g)
    ensures Stored(g.order, g.entities)
  {
    forall k | k in g.order ensures k in g.entities {
      assert k in Elems(g.order);
    }
  }

  function Homes(cfg: Config, g: Graph, keys: seq<Key>): seq<Key>
    requires Stored(g.order, g.entities)
  {
    if keys == [] then []
    else Homes(cfg, g, keys[..|keys| - 1]) + [Home(cfg, g, keys[|keys| - 1])]
  }

  // The creation order once the keys `done` are upserted.
  function OrderAfter(g: Graph, done: seq<Key>): seq<Key> {
    if done == [] then g.order
    else
      var before, k := OrderAfter(g, done[..|done| - 1]), done[|done| - 1];
      if k in g.entities then before else before + [k]
  }

  lemma {:induction false} OrderAppends(g: Graph, done: seq<Key>)
    ensures OrderAfter(g, done) == g.order + Unstored(g, done)
  {
    if done != [] {
      OrderAppends(g, done[..|done| - 1]);
    }
  }

  ghost predicate RowsUpserted(cfg: Config, g: Graph, os: seq<Mention>, names: seq<Key>, done: seq<Key>, entities: map<Key, Entity>)
    requires Stored(g.order, g.entities)
  {
    forall u | u in entities :: entities[u] == RowAfter(cfg, g, os, names, u, u in done)
  }

  // What the upserts have reached once the keys `done` of `own` are written.
  ghost predicate Upserted(cfg: Config, g: Graph, os: seq<Mention>, names: seq<Key>, done: seq<Key>,
                           entities: map<Key, Entity>, order: seq<Key>)
    requires Stored(g.order, g.entities)
  {
    && entities.Keys == g.entities.Keys + Elems(done)
    && RowsUpserted(cfg, g, os, names, done, entities)
    && order == OrderAfter(g, done)
  }

  lemma UpsertedRow(cfg: Config, g: Graph, os: seq<Mention>, own: seq<Key>, u: Key)
    requires Stored(g.order, g.entities)
    requires own == Chosen(cfg, g, FirstSeen(os), false)
    requires u in g.entities || u in own
    ensures RowAfter(cfg, g, os, FirstSeen(os), u, u in own) == BatchRow(cfg, g, os, u)
  {
    var names := FirstSeen(os);
    SeenFacts(os);
    ChosenElems(cfg, g, names, false);
    if u in g.entities {
      StoredRowAfterAll(cfg, g, os, names, u);
    } else {
      NewRowAfterAll(cfg, g, os, names, u);
    }
  }

  lemma UpsertedOrder(cfg: Config, g: Graph, os: seq<Mention>, own: seq<Key>)
    requires Stored(g.order, g.entities)
    requires own == Chosen(cfg, g, FirstSeen(os), false)
    ensures OrderAfter(g, own) == g.order + NewKeys(cfg, g, os)
  {
    CreatedInOrder(cfg, g, os);
    OrderAppends(g, own);
  }

  lemma UpsertedAll(cfg: Config, g: Graph, os: seq<Mention>, own: seq<Key>, entities: map<Key, Entity>, order: seq<Key>)
    requires Stored(g.order, g.entities)
    requires own == Chosen(cfg, g, FirstSeen(os), false)
    requires Upserted(cfg, g, os, FirstSeen(os), own, entities, order)
    ensures entities == BatchEntities(cfg, g, os)
    ensures order == g.order + NewKeys(cfg, g, os)
  {
    UpsertedOrder(cfg, g, os, own);
    UpsertedKeys(cfg, g, os, own);
    var rows := BatchEntities(cfg, g, os);
    forall u | u in entities ensures entities[u] == rows[u] {
      UpsertedRow(cfg, g, os, own, u);
    }
  }

  lemma UpsertedKeys(cfg: Config, g: Graph, os: seq<Mention>, own: seq<Key>)
    requires Stored(g.order, g.entities)
    requires own == Chosen(cfg, g, FirstSeen(os), false)
    ensures g.entities.Keys + Elems(own) == BatchEntities(cfg, g, os).Keys
    ensures forall u | u in g.entities.Keys + Elems(own) :: u in g.entities || u in own
  {
    CreatedInOrder(cfg, g, os);
    UnstoredElems(g, own);
  }

  // What the upsert needs to know of each of the batch's own keys.
  ghost predicate OwnReady(cfg: Config, g: Graph, os: seq<Mention>, acc: map<Key, Accum>, own: seq<Key>, conflicts: map<Key, Option<Key>>)
    requires Stored(g.order, g.entities)
  {
    && NoDup(own)
    && forall k | k in own ::
         k in acc && RowIs(os, k, acc[k]) && k in conflicts && conflicts[k] == ConflictOf(Decide(cfg, g, k))
  }

  lemma OwnReadyAt(cfg: Config, g: Graph, os: seq<Mention>, acc: map<Key, Accum>, own: seq<Key>, conflicts: map<Key, Option<Key>>, i: nat)
    requires Stored(g.order, g.entities)
    requires OwnReady(cfg, g, os, acc, own, conflicts) && i < |own|
    ensures own[i] !in own[..i]
    ensures own[i] in acc && RowIs(os, own[i], acc[own[i]])
    ensures own[i] in conflicts && conflicts[own[i]] == ConflictOf(Decide(cfg, g, own[i]))
  {
    PrefixNoDup(own, i);
  }

  lemma OwnRows(cfg: Config, g: Graph, os: seq<Mention>, names: seq<Key>, acc: map<Key, Accum>, r: Resolution)
    requires Stored(g.order, g.entities)
    requires Accumulated(os, names, acc) && Resolved(cfg, g, os, names, r)
    ensures OwnReady(cfg, g, os, acc, r.own, r.conflicts)
  {
    SeenFacts(os);
    ChosenElems(cfg, g, names, false);
    assert forall k | k in names :: k in Elems(names);
  }

  // The upsert of one row of the batch.
  function UpsertRow(cfg: Config, entities: map<Key, Entity>, k: Key, conflict: Option<Key>, a: Accum): map<Key, Entity> {
    entities[k := if k in entities then Bump(cfg, entities[k], a.sum.count, a.sum.rel)
                  else NewEntity(cfg, k, conflict, a.validTime, a.sum.count, a.sum.rel)]
  }

  lemma UpsertStep(cfg: Config, g: Graph, os: seq<Mention>, names: seq<Key>, done: seq<Key>, k: Key,
                   entities: map<Key, Entity>, order: seq<Key>, a: Accum)
    requires Stored(g.order, g.entities)
    requires Upserted(cfg, g, os, names, done, entities, order)
    requires k !in done && RowIs(os, k, a)
    ensures Upserted(cfg, g, os, names, done + [k],
                     UpsertRow(cfg, entities, k, ConflictOf(Decide(cfg, g, k)), a),
                     if k in entities then order else order + [k])
  {
    UpsertRows(cfg, g, os, names, done, k, entities, a);
    UpsertKeys(g, done, k, entities.Keys, order);
  }

  lemma UpsertKeys(g: Graph, done: seq<Key>, k: Key, keys: set<Key>, order: seq<Key>)
    requires keys == g.entities.Keys + Elems(done) && order == OrderAfter(g, done) && k !in done
    ensures keys + {k} == g.entities.Keys + Elems(done + [k])
    ensures (if k in keys then order else order + [k]) == OrderAfter(g, done + [k])
  {
    assert k in keys <==> k in g.entities by {
      assert k !in Elems(done);
    }
    SnocElems(done, k);
    assert (done + [k])[..|done|] == done;
  }

  lemma UpsertRows(cfg: Config, g: Graph, os: seq<Mention>, names: seq<Key>, done: seq<Key>, k: Key,
                   entities: map<Key, Entity>, a: Accum)
    requires Stored(g.order, g.entities)
    requires entities.Keys == g.entities.Keys + Elems(done)
    requires RowsUpserted(cfg, g, os, names, done, entities)
    requires k !in done && RowIs(os, k, a)
    ensures RowsUpserted(cfg, g, os, names, done + [k], UpsertRow(cfg, entities, k, ConflictOf(Decide(cfg, g, k)), a))
  {
    var entities' := UpsertRow(cfg, entities, k, ConflictOf(Decide(cfg, g, k)), a);
    forall u | u in entities' ensures entities'[u] == RowAfter(cfg, g, os, names, u, u in done + [k]) {
      if u == k {
        assert k !in Elems(done);
        RowDone(cfg, g, os, names, k, a);
        assert (u in done + [k]) == true && (u in done) == false;
      } else {
        assert (u in done + [k]) == (u in done);
        assert entities'[u] == entities[u];
      }
    }
  }

  lemma RowDone(cfg: Config, g: Graph, os: seq<Mention>, names: seq<Key>, k: Key, a: Accum)
    requires Stored(g.order, g.entities)
    requires RowIs(os, k, a)
    ensures k in g.entities ==>
              RowAfter(cfg, g, os, names, k, true) == Bump(cfg, RowAfter(cfg, g, os, names, k, false), a.sum.count, a.sum.rel)
    ensures k !in g.entities ==>
              RowAfter(cfg, g, os, names, k, true)
              == NewEntity(cfg, k, ConflictOf(Decide(cfg, g, k)), a.validTime, a.sum.count, a.sum.rel)
  {
  }

  lemma NothingUpserted(cfg: Config, g: Graph, os: seq<Mention>, names: seq<Key>, incs: map<Key, Sum>)
    requires Stored(g.order, g.entities)
    requires Increments(cfg, g, os, names, incs)
    ensures Upserted(cfg, g, os, names, [], map k | k in g.entities :: Raised(cfg, g.entities[k], SumAt(incs, k)), g.order)
  {
  }

  lemma HomesMatch(cfg: Config, g: Graph, os: seq<Mention>, names: seq<Key>, acc: map<Key, Accum>, r: Resolution)
    requires Stored(g.order, g.entities)
    requires Accumulated(os, names, acc) && Resolved(cfg, g, os, names, r)
    ensures r.homes.Keys == acc.Keys && forall k | k in acc :: r.homes[k] == Home(cfg, g, k)
  {
    assert r.homes.Keys == Elems(names);
  }

  lemma RefOfMention(os: seq<Mention>, names: seq<Key>, acc: map<Key, Accum>, o: Mention)
    requires Accumulated(os, names, acc) && o in os
    ensures o.key in acc && (o.memoryKey, o.episodeKey) in acc[o.key].refs
  {
    SeenFacts(os);
    assert o.key in Elems(names);
    assert RowIs(os, o.key, acc[o.key]);
  }

  lemma MentionOfRef(os: seq<Mention>, names: seq<Key>, acc: map<Key, Accum>, k: Key, r: (string, string)) returns (o: Mention)
    requires Accumulated(os, names, acc) && k in acc && r in acc[k].refs
    ensures o in os && o.key == k && (o.memoryKey, o.episodeKey) == r
  {
    assert RowIs(os, k, acc[k]);
    o :| o in os && o.key == k && (o.memoryKey, o.episodeKey) == r;
  }

  function MentionRefs(acc: map<Key, Accum>, home: map<Key, Key>): set<(string, Key)>
    requires acc.Keys <= home.Keys
  {
    set k, r | k in acc && r in acc[k].refs :: (r.0, home[k])
  }

  function ProducedRefs(acc: map<Key, Accum>, home: map<Key, Key>): set<(Key, string)>
    requires acc.Keys <= home.Keys
  {
    set k, r | k in acc && r in acc[k].refs :: (home[k], r.1)
  }

  lemma RefsGiveMentions(cfg: Config, g: Graph, os: seq<Mention>, names: seq<Key>, acc: map<Key, Accum>, home: map<Key, Key>)
    requires Stored(g.order, g.entities)
    requires Accumulated(os, names, acc)
    requires home.Keys == acc.Keys && forall k | k in acc :: home[k] == Home(cfg, g, k)
    ensures MentionRefs(acc, home) == MentionEdges(cfg, g, os)
  {
    forall e | e in MentionEdges(cfg, g, os) ensures e in MentionRefs(acc, home) {
      var o :| o in os && e == (o.memoryKey, Home(cfg, g, o.key));
      RefOfMention(os, names, acc, o);
    }
    forall e | e in MentionRefs(acc, home) ensures e in MentionEdges(cfg, g, os) {
      var k, r :| k in acc && r in acc[k].refs && e == (r.0, home[k]);
      var o := MentionOfRef(os, names, acc, k, r);
    }
  }

  lemma RefsGiveProduced(cfg: Config, g: Graph, os: seq<Mention>, names: seq<Key>, acc: map<Key, Accum>, home: map<Key, Key>)
    requires Stored(g.order, g.entities)
    requires Accumulated(os, names, acc)
    requires home.Keys == acc.Keys && forall k | k in acc :: home[k] == Home(cfg, g, k)
    ensures ProducedRefs(acc, home) == ProducedEdges(cfg, g, os)
  {
    forall e | e in ProducedEdges(cfg, g, os) ensures e in ProducedRefs(acc, home) {
      var o :| o in os && e == (Home(cfg, g, o.key), o.episodeKey);
      RefOfMention(os, names, acc, o);
    }
    forall e | e in ProducedRefs(acc, home) ensures e in ProducedEdges(cfg, g, os) {
      var k, r :| k in acc && r in acc[k].refs && e == (home[k], r.1);
      var o := MentionOfRef(os, names, acc, k, r);
    }
  }

  lemma SameLookup<K, V>(a: map<K, V>, b: map<K, V>)
    requires forall k :: Lookup(a, k) == Lookup(b, k)
    ensures a == b
  {
    forall k ensures k in a <==> k in b {
      assert Lookup(a, k) == Lookup(b, k);
    }
    forall k | k in a ensures a[k] == b[k] {
      assert Lookup(a, k) == Lookup(b, k);
    }
  }

  lemma {:induction false} HomesLength(cfg: Config, g: Graph, keys: seq<Key>)
    requires Stored(g.order, g.entities)
    ensures |Homes(cfg, g, keys)| == |keys|
  {
    if keys != [] {
      HomesLength(cfg, g, keys[..|keys| - 1]);
    }
  }

  // The batch's name table, filled from the merged keys first.
  method NameTableOf(cfg: Config, homes: map<Key, Key>, keys: seq<Key>, ghost g: Graph) returns (byName: map<string, Key>)
    requires Stored(g.order, g.entities)
    requires forall k | k in keys :: k in homes && homes[k] == Home(cfg, g, k)
    ensures byName == NamesOf(k => Home(cfg, g, k), keys)
  {
    byName := map[];
    for i := 0 to |keys|
      invariant byName == NamesOf(k => Home(cfg, g, k), keys[..i])
    {
      assert keys[..i + 1][..i] == keys[..i];
      if keys[i].name !in byName {
        byName := byName[keys[i].name := homes[keys[i]]];
      }
    }
    assert keys[..|keys|] == keys;
  }

  method BulkNames(cfg: Config, names: seq<Key>, r: Resolution, ghost g: Graph, ghost os: seq<Mention>) returns (byName: map<string, Key>)
    requires Stored(g.order, g.entities)
    requires names == FirstSeen(os) && Resolved(cfg, g, os, names, r)
    ensures byName == BatchNames(cfg, g, os)
  {
    ChosenElems(cfg, g, names, true);
    ChosenElems(cfg, g, names, false);
    byName := NameTableOf(cfg, r.homes, r.merged + r.own, g);
  }

  function WithTallies(cfg: Config, edges: map<set<Key>, Edge>, tallies: map<set<Key>, PairTally>): map<set<Key>, Edge> {
    map p | p in edges.Keys + tallies.Keys ::
      if p in tallies then Corroborate(cfg, Lookup(edges, p), tallies[p]) else edges[p]
  }

  lemma ApplyTallies(cfg: Config, edges: map<set<Key>, Edge>, tallies: map<set<Key>, PairTally>, votes: seq<Vote>)
    requires forall p :: Lookup(tallies, p) == VoteTally(votes, p)
    ensures WithTallies(cfg, edges, tallies) == BatchEdges(cfg, edges, votes)
  {
    forall p ensures Lookup(WithTallies(cfg, edges, tallies), p) == Lookup(BatchEdges(cfg, edges, votes), p) {
      TalliedIffVoted(votes, p);
      assert Lookup(tallies, p) == VoteTally(votes, p);
    }
    SameLookup(WithTallies(cfg, edges, tallies), BatchEdges(cfg, edges, votes));
  }

  // One more extracted entity, in each of the tables a memory's write fills.
  lemma WrittenSnoc(cfg: Config, g: Graph, m: Memory, keys: seq<Key>, k: Key)
    requires Stored(g.order, g.entities)
    ensures WriteMentions(cfg, g, g, MentionsOf(m, keys + [k]))
         == WriteMention(cfg, WriteMentions(cfg, g, g, MentionsOf(m, keys)),
                         Mention(k, m.reliability, m.validTime, m.memoryKey, m.episodeKey), Decide(cfg, g, k))
  {
    var os := MentionsOf(m, keys + [k]);
    assert os[..|keys|] == MentionsOf(m, keys);
  }

  lemma NamesSnoc(home: Key -> Key, keys: seq<Key>, k: Key)
    ensures
      var names := NamesOf(home, keys);
      NamesOf(home, keys + [k]) == if k.name in names then names else names[k.name := home(k)]
  {
    assert (keys + [k])[..|keys|] == keys;
  }

  lemma HomesSnoc(cfg: Config, g: Graph, keys: seq<Key>, k: Key)
    requires Stored(g.order, g.entities)
    ensures
      var homes, h := Distinct(Homes(cfg, g, keys)), Home(cfg, g, k);
      Distinct(Homes(cfg, g, keys + [k])) == if h in homes then homes else homes + [h]
  {
    assert (keys + [k])[..|keys|] == keys;
    HomesLength(cfg, g, keys);
    assert Homes(cfg, g, keys + [k])[..|keys|] == Homes(cfg, g, keys);
  }

  ghost predicate Filled(cfg: Config, g: Graph, done: seq<Key>, byName: map<string, Key>, byKey: map<Key, Key>, keys: seq<Key>)
    requires Stored(g.order, g.entities)
  {
    && byName == NamesOf(k => Home(cfg, g, k), done)
    && byKey == HomesOf(cfg, g, done)
    && keys == Distinct(Homes(cfg, g, done))
  }

  lemma FilledStep(cfg: Config, g: Graph, done: seq<Key>, k: Key, byName: map<string, Key>, byKey: map<Key, Key>, keys: seq<Key>)
    requires Stored(g.order, g.entities)
    requires Filled(cfg, g, done, byName, byKey, keys)
    ensures
      var h := Home(cfg, g, k);
      Filled(cfg, g, done + [k], if k.name in byName then byName else byName[k.name := h], byKey[k := h],
             if h in keys then keys else keys + [h])
  {
    NamesSnoc(k => Home(cfg, g, k), done, k);
    HomesTable(cfg, g, done, k);
    HomesSnoc(cfg, g, done, k);
  }

  method FillTables(cfg: Config, k: Key, key: Key, byName0: map<string, Key>, byKey0: map<Key, Key>, keys0: seq<Key>,
                    ghost g: Graph, ghost done: seq<Key>)
    returns (byName: map<string, Key>, byKey: map<Key, Key>, keys: seq<Key>)
    requires Stored(g.order, g.entities) && key == Home(cfg, g, k)
    requires Filled(cfg, g, done, byName0, byKey0, keys0)
    ensures Filled(cfg, g, done + [k], byName, byKey, keys)
  {
    FilledStep(cfg, g, done, k, byName0, byKey0, keys0);
    byKey := byKey0[k := key];
    byName := if k.name in byName0 then byName0 else byName0[k.name := key];
    keys := if key in keys0 then keys0 else keys0 + [key];
  }

  function Mentioners(refs: set<(string, string)>): set<string> {
    set r | r in refs :: r.0
  }

  lemma RefsMention(os: seq<Mention>, names: seq<Key>, acc: map<Key, Accum>, k: Key)
    requires Accumulated(os, names, acc) && k in acc
    ensures Mentioners(acc[k].refs) == Mentioning(os, k)
  {
    assert RowIs(os, k, acc[k]);
    forall o | o in os && o.key == k ensures o.memoryKey in Mentioners(acc[k].refs) {
      assert (o.memoryKey, o.episodeKey) in acc[k].refs;
    }
    forall r | r in acc[k].refs ensures r.0 in Mentioning(os, k) {
      var o := MentionOfRef(os, names, acc, k, r);
    }
  }

  ghost predicate ListsSoFar(cfg: Config, g: Graph, os: seq<Mention>, done: seq<Key>, result: map<string, seq<Key>>)
    requires Stored(g.order, g.entities)
  {
    forall mk | mk in result :: result[mk] == HomesFor(cfg, g, os, done, mk)
  }

  lemma ListsNext(cfg: Config, g: Graph, os: seq<Mention>, names: seq<Key>, i: nat, a: map<string, seq<Key>>, b: map<string, seq<Key>>)
    requires Stored(g.order, g.entities) && i < |names| && ListsSoFar(cfg, g, os, names[..i], a)
    requires b.Keys == a.Keys
    requires forall mk | mk in a :: b[mk] == if mk in Mentioning(os, names[i]) then a[mk] + [Home(cfg, g, names[i])] else a[mk]
    ensures ListsSoFar(cfg, g, os, names[..i + 1], b)
  {
    assert names[..i + 1][..i] == names[..i];
  }

  // The keys to return, entity by entity; a key merged into twice is listed once.
  method CollectResults(cfg: Config, ms: seq<Memory>, names: seq<Key>, acc: map<Key, Accum>, homes: map<Key, Key>,
                        ghost g: Graph, ghost os: seq<Mention>) returns (result: map<string, seq<Key>>)
    requires Stored(g.order, g.entities) && os == BatchMentionList(ms) && Accumulated(os, names, acc)
    requires homes.Keys == acc.Keys && forall k | k in acc :: homes[k] == Home(cfg, g, k)
    ensures result == ReturnedKeys(cfg, g, ms)
  {
    var lists: map<string, seq<Key>> := map mk | mk in MemoryKeys(ms) :: [];
    var i := 0;
    while i < |names|
      invariant 0 <= i <= |names|
      invariant lists.Keys == MemoryKeys(ms)
      invariant ListsSoFar(cfg, g, os, names[..i], lists)
    {
      lists := CollectNext(cfg, names, i, acc, homes, lists, g, os);
      i := i + 1;
    }
    assert names[..i] == names;
    result := map mk | mk in lists :: Distinct(lists[mk]);
  }

  method CollectNext(cfg: Config, names: seq<Key>, i: nat, acc: map<Key, Accum>, homes: map<Key, Key>, lists: map<string, seq<Key>>,
                     ghost g: Graph, ghost os: seq<Mention>) returns (more: map<string, seq<Key>>)
    requires Stored(g.order, g.entities) && Accumulated(os, names, acc) && i < |names|
    requires homes.Keys == acc.Keys && forall k | k in acc :: homes[k] == Home(cfg, g, k)
    requires ListsSoFar(cfg, g, os, names[..i], lists)
    ensures more.Keys == lists.Keys && ListsSoFar(cfg, g, os, names[..i + 1], more)
  {
    var k := names[i];
    assert k in Elems(names);
    RefsMention(os, names, acc, k);
    var mentioners, home := Mentioners(acc[k].refs), homes[k];
    more := map mk | mk in lists :: if mk in mentioners then lists[mk] + [home] else lists[mk];
    ListsNext(cfg, g, os, names, i, lists, more);
  }

  lemma BatchKeysSeen(ms: seq<Memory>)
    ensures forall m, k | m in ms && k in m.entities :: k in FirstSeen(BatchMentionList(ms))
  {
    forall m, k | m in ms && k in m.entities ensures k in FirstSeen(BatchMentionList(ms)) {
      GraphEquality.BatchKeys(ms, k);
      SeenFacts(BatchMentionList(ms));
    }
  }

  // One memory's pairs, added to the totals of the batch so far.
  method CountVote(tallies0: map<set<Key>, PairTally>, v: Vote, ghost before: seq<Vote>) returns (tallies: map<set<Key>, PairTally>)
    requires forall p :: Lookup(tallies0, p) == VoteTally(before, p)
    ensures forall p :: Lookup(tallies, p) == VoteTally(before + [v], p)
  {
    assert (before + [v])[..|before|] == before;
    tallies := tallies0;
    var todo := v.pairs.Keys;
    while todo != {}
      invariant todo <= v.pairs.Keys
      invariant forall p :: Lookup(tallies, p) == if p in todo then VoteTally(before, p) else VoteTally(before + [v], p)
      decreases todo
    {
      var p :| p in todo;
      var t := Lookup(tallies, p);
      var t' := match t
        case None => PairTally(1, v.reliability, v.pairs[p], v.validTime)
        case Some(x) => PairTally(x.count + 1, x.rel + v.reliability, v.pairs[p], x.validTime);
      assert VoteTally(before + [v], p) == Some(t');
      tallies := tallies[p := t'];
      todo := todo - {p};
    }
  }

  class EntityGraph {
    var entities: map<Key, Entity>
    var order: seq<Key>
    var mentions: set<(string, Key)>
    var producedBy: set<(Key, string)>
    var relatesTo: map<set<Key>, Edge>

    ghost function State(): Graph
      reads this
    {
      Graph(entities, order, mentions, producedBy, relatesTo)
    }

    // The increment of a merge target, or the upsert by natural key, with its two edges.
    method WriteResolved(cfg: Config, o: Mention, d: Decision) returns (key: Key)
      requires d.Merge? ==> d.into in entities
      modifies this
      ensures State() == WriteMention(cfg, old(State()), o, d)
      ensures key == Target(o.key, d)
    {
      key := Target(o.key, d);
      if key in entities {
        entities := entities[key := Bump(cfg, entities[key], 1, o.reliability)];
      } else {
        entities := entities[key := NewEntity(cfg, key, d.conflict, o.validTime, 1, o.reliability)];
        order := order + [key];
      }
      mentions := mentions + {(o.memoryKey, key)};
      producedBy := producedBy + {(key, o.episodeKey)};
    }

    // One upsert per pair the memory asserts.
    method RelatePairs(cfg: Config, v: Vote)
      modifies this`relatesTo
      ensures relatesTo == RelateAll(cfg, old(relatesTo), v)
    {
      var todo := v.pairs.Keys;
      while todo != {}
        invariant todo <= v.pairs.Keys
        invariant relatesTo.Keys == old(relatesTo).Keys + (v.pairs.Keys - todo)
        invariant forall p | p in relatesTo ::
                    relatesTo[p] == (if p in v.pairs && p !in todo then RelateAll(cfg, old(relatesTo), v)[p] else old(relatesTo)[p])
        decreases todo
      {
        var p :| p in todo;
        var stored := Lookup(relatesTo, p);
        relatesTo := relatesTo[p := Corroborate(cfg, stored, PairTally(1, v.reliability, v.pairs[p], v.validTime))];
        todo := todo - {p};
      }
    }

    /** `write_entities`. */
    method WriteEntities(cfg: Config, m: Memory) returns (keys: seq<Key>)
      requires Valid(State())
      modifies this
      ensures State() == WriteOne(cfg, old(State()), m) && Valid(State())
      ensures Stored(old(order), old(entities)) && keys == Distinct(Homes(cfg, old(State()), m.entities))
    {
      ghost var g := State();
      StoredWhenValid(g);
      WriteOneValid(cfg, g, m);
      keys := [];
      if m.entities == [] {
        return;
      }
      var byName, byKey;
      byName, byKey, keys := WriteExtracted(cfg, m);
      MentionsIgnoreEdges(cfg, g, g, map[], MentionsOf(m, m.entities));
      var pairs := CollectPairs(cfg, byName, byKey, m, k => Home(cfg, g, k));
      RelatePairs(cfg, Vote(pairs, m.reliability, m.validTime));
    }

    // Every extracted entity of a memory, against the rows stored before it.
    method WriteExtracted(cfg: Config, m: Memory) returns (byName: map<string, Key>, byKey: map<Key, Key>, keys: seq<Key>)
      requires Stored(order, entities)
      modifies this
      ensures
        var g := old(State());
        && Stored(g.order, g.entities)
        && State() == WriteMentions(cfg, g, g, MentionsOf(m, m.entities))
        && byName == NamesOf(k => Home(cfg, g, k), m.entities)
        && byKey == HomesOf(cfg, g, m.entities)
        && keys == Distinct(Homes(cfg, g, m.entities))
    {
      ghost var g := State();
      var pool, rows := order, entities;
      byName, byKey, keys := map[], map[], [];
      for i := 0 to |m.entities|
        invariant State() == WriteMentions(cfg, g, g, MentionsOf(m, m.entities[..i]))
        invariant Filled(cfg, g, m.entities[..i], byName, byKey, keys)
      {
        byName, byKey, keys := WriteAt(cfg, m, i, pool, rows, byName, byKey, keys, g);
      }
      assert m.entities[..|m.entities|] == m.entities;
    }

    method WriteAt(cfg: Config, m: Memory, i: nat, pool: seq<Key>, rows: map<Key, Entity>,
                   byName0: map<string, Key>, byKey0: map<Key, Key>, keys0: seq<Key>, ghost g: Graph)
      returns (byName: map<string, Key>, byKey: map<Key, Key>, keys: seq<Key>)
      requires Stored(g.order, g.entities) && g.order == pool && g.entities == rows && i < |m.entities|
      requires State() == WriteMentions(cfg, g, g, MentionsOf(m, m.entities[..i]))
      requires Filled(cfg, g, m.entities[..i], byName0, byKey0, keys0)
      modifies this
      ensures State() == WriteMentions(cfg, g, g, MentionsOf(m, m.entities[..i + 1]))
      ensures Filled(cfg, g, m.entities[..i + 1], byName, byKey, keys)
    {
      assert m.entities[..i + 1] == m.entities[..i] + [m.entities[i]];
      var key := WriteNext(cfg, m, m.entities[i], pool, rows, g, m.entities[..i]);
      byName, byKey, keys := FillTables(cfg, m.entities[i], key, byName0, byKey0, keys0, g, m.entities[..i]);
    }

    method WriteNext(cfg: Config, m: Memory, k: Key, pool: seq<Key>, rows: map<Key, Entity>, ghost g: Graph, ghost done: seq<Key>)
      returns (key: Key)
      requires Stored(g.order, g.entities) && g.order == pool && g.entities == rows
      requires State() == WriteMentions(cfg, g, g, MentionsOf(m, done))
      modifies this
      ensures State() == WriteMentions(cfg, g, g, MentionsOf(m, done + [k]))
      ensures key == Home(cfg, g, k)
    {
      WrittenSnoc(cfg, g, m, done, k);
      var best := FindBest(cfg, pool, rows, k);
      key := WriteResolved(cfg, Mention(k, m.reliability, m.validTime, m.memoryKey, m.episodeKey), DecisionOf(cfg, best));
    }

    /** `write_entities_many`. */
    method WriteEntitiesMany(cfg: Config, ms: seq<Memory>) returns (result: map<string, seq<Key>>)
      requires Valid(State())
      requires cfg.mergeThreshold > -1.0 && cfg.flagThreshold > -1.0
      modifies this
      ensures Stored(old(order), old(entities)) && State() == WriteBatch(cfg, old(State()), ms)
      ensures result == ReturnedKeys(cfg, old(State()), ms)
    {
      ghost var g, os := State(), BatchMentionList(ms);
      StoredWhenValid(g);
      var names, acc := Accumulate(ms);
      var r := Resolve(cfg, order, entities, names, acc, g, os);
      BulkEntities(cfg, names, acc, r, g, os);
      HomesMatch(cfg, g, os, names, acc, r);
      BulkEdges(cfg, names, acc, r.homes, g, os);
      var byName := BulkNames(cfg, names, r, g, os);
      BatchKeysSeen(ms);
      BulkRelations(cfg, ms, byName, r.homes, g);
      result := CollectResults(cfg, ms, names, acc, r.homes, g, os);
    }

    // Phase 6: the mention and provenance edges.
    method BulkEdges(cfg: Config, names: seq<Key>, acc: map<Key, Accum>, homes: map<Key, Key>, ghost g: Graph, ghost os: seq<Mention>)
      requires Stored(g.order, g.entities)
      requires Accumulated(os, names, acc)
      requires homes.Keys == acc.Keys && forall k | k in acc :: homes[k] == Home(cfg, g, k)
      modifies this`mentions, this`producedBy
      ensures mentions == old(mentions) + MentionEdges(cfg, g, os)
      ensures producedBy == old(producedBy) + ProducedEdges(cfg, g, os)
    {
      RefsGiveMentions(cfg, g, os, names, acc, homes);
      RefsGiveProduced(cfg, g, os, names, acc, homes);
      mentions := mentions + MentionRefs(acc, homes);
      producedBy := producedBy + ProducedRefs(acc, homes);
    }

    // Phase 4: the bulk increment of merge targets.
    method BulkIncrement(cfg: Config, increments: map<Key, Sum>)
      modifies this`entities
      ensures entities == map k | k in old(entities) :: Raised(cfg, old(entities)[k], SumAt(increments, k))
    {
      entities := map k | k in entities :: Raised(cfg, entities[k], SumAt(increments, k));
    }

    // Phase 5: the bulk upsert of the batch's own entities, one row at a time.
    method BulkUpsert(cfg: Config, acc: map<Key, Accum>, own: seq<Key>, conflicts: map<Key, Option<Key>>,
                      ghost g: Graph, ghost os: seq<Mention>, ghost names: seq<Key>)
      requires Stored(g.order, g.entities)
      requires OwnReady(cfg, g, os, acc, own, conflicts)
      requires Upserted(cfg, g, os, names, [], entities, order)
      modifies this`entities, this`order
      ensures Upserted(cfg, g, os, names, own, entities, order)
    {
      for i := 0 to |own|
        invariant Upserted(cfg, g, os, names, own[..i], entities, order)
      {
        UpsertAt(cfg, acc, own, conflicts, i, g, os, names);
      }
      assert own[..|own|] == own;
    }

    method UpsertAt(cfg: Config, acc: map<Key, Accum>, own: seq<Key>, conflicts: map<Key, Option<Key>>, i: nat,
                    ghost g: Graph, ghost os: seq<Mention>, ghost names: seq<Key>)
      requires Stored(g.order, g.entities) && i < |own|
      requires OwnReady(cfg, g, os, acc, own, conflicts)
      requires Upserted(cfg, g, os, names, own[..i], entities, order)
      modifies this`entities, this`order
      ensures Upserted(cfg, g, os, names, own[..i + 1], entities, order)
    {
      var k := own[i];
      OwnReadyAt(cfg, g, os, acc, own, conflicts, i);
      assert own[..i + 1] == own[..i] + [k];
      UpsertOwn(cfg, k, acc[k], conflicts[k], g, os, names, own[..i], own[..i + 1]);
    }

    method UpsertOwn(cfg: Config, k: Key, a: Accum, conflict: Option<Key>,
                     ghost g: Graph, ghost os: seq<Mention>, ghost names: seq<Key>, ghost done: seq<Key>, ghost upTo: seq<Key>)
      requires Stored(g.order, g.entities)
      requires upTo == done + [k]
      requires k !in done && RowIs(os, k, a) && conflict == ConflictOf(Decide(cfg, g, k))
      requires Upserted(cfg, g, os, names, done, entities, order)
      modifies this`entities, this`order
      ensures Upserted(cfg, g, os, names, upTo, entities, order)
    {
      UpsertStep(cfg, g, os, names, done, k, entities, order, a);
      if k !in entities {
        order := order + [k];
      }
      entities := UpsertRow(cfg, entities, k, conflict, a);
    }

    method BulkEntities(cfg: Config, names: seq<Key>, acc: map<Key, Accum>, r: Resolution, ghost g: Graph, ghost os: seq<Mention>)
      requires Stored(g.order, g.entities)
      requires State() == g
      requires Accumulated(os, names, acc) && Resolved(cfg, g, os, names, r)
      modifies this`entities, this`order
      ensures entities == BatchEntities(cfg, g, os)
      ensures order == g.order + NewKeys(cfg, g, os)
    {
      BulkIncrement(cfg, r.increments);
      NothingUpserted(cfg, g, os, names, r.increments);
      OwnRows(cfg, g, os, names, acc, r);
      BulkUpsert(cfg, acc, r.own, r.conflicts, g, os, names);
      UpsertedAll(cfg, g, os, r.own, entities, order);
    }

    method BulkRelations(cfg: Config, ms: seq<Memory>, byName: map<string, Key>, homes: map<Key, Key>, ghost g: Graph)
      requires Stored(g.order, g.entities)
      requires forall m, k | m in ms && k in m.entities :: k in homes && homes[k] == Home(cfg, g, k)
      modifies this`relatesTo
      ensures relatesTo == BatchEdges(cfg, old(relatesTo), BatchVotes(cfg, g, byName, ms))
    {
      ghost var votes := BatchVotes(cfg, g, byName, ms);
      var tallies: map<set<Key>, PairTally> := map[];
      for i := 0 to |ms|
        invariant relatesTo == old(relatesTo)
        invariant forall p :: Lookup(tallies, p) == VoteTally(votes[..i], p)
      {
        assert ms[i] in ms;
        var pairs := CollectPairs(cfg, byName, homes, ms[i], k => Home(cfg, g, k));
        tallies := CountVote(tallies, Vote(pairs, ms[i].reliability, ms[i].validTime), votes[..i]);
        assert votes[..i + 1] == votes[..i] + [votes[i]];
      }
      assert votes[..|ms|] == votes;
      ApplyTallies(cfg, relatesTo, tallies, votes);
      relatesTo := WithTallies(cfg, relatesTo, tallies);
    }
  }
}
